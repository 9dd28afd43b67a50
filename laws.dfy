/** What the CRUD operations promise when combined, stated over the
    outcome functions the service methods are proved against. */
module StoreLaws {

  import opened Wrappers
  import opened Ascii
  import opened ObjectIds
  import opened Values
  import opened Validation
  import opened Schemas
  import opened Registry
  import opened Serialization
  import opened RecordService

  /** Every record of `before` other than (`t`, `id`) is in `after`,
      unchanged, and `after` holds no other records besides that one. */
  ghost predicate OthersKept(before: Store, after: Store, t: Tag, id: ObjectId)
    requires Complete(before) && Complete(after)
  {
    && (forall u: Tag, k: ObjectId :: (u != t || k != id) ==>
          (k in before[u] <==> k in after[u]) &&
          (k in before[u] ==> after[u][k] == before[u][k]))
  }

  /** Setting one record keeps every other record. */
  lemma PutEffect(store: Store, t: Tag, id: ObjectId, d: Doc)
    requires Complete(store)
    ensures var after := Put(store, t, id, d);
      && Complete(after) && id in after[t] && after[t][id] == d
      && |after[t]| == (if id in store[t] then |store[t]| else |store[t]| + 1)
      && OthersKept(store, after, t, id)
  {
  }

  /** Removing one record keeps every other record. */
  lemma RemoveEffect(store: Store, t: Tag, id: ObjectId)
    requires Complete(store)
    ensures var after := Remove(store, t, id);
      Complete(after) && id !in after[t] && OthersKept(store, after, t, id)
  {
  }

  /** A failed create leaves the store as it was. */
  lemma FailedCreateChangesNothing(store: Store, collection: string, payload: Doc, now: string, freshId: ObjectId)
    requires Complete(store)
    ensures CreateOutcome(store, collection, payload, now, freshId).result.Err? ==>
      CreateOutcome(store, collection, payload, now, freshId).store == store
  {
  }

  /** A failed update leaves the store as it was. */
  lemma FailedUpdateChangesNothing(store: Store, collection: string, docId: string, payload: Doc, now: string)
    requires Complete(store)
    ensures UpdateOutcome(store, collection, docId, payload, now).result.Err? ==>
      UpdateOutcome(store, collection, docId, payload, now).store == store
  {
  }

  /** A failed delete leaves the store as it was. */
  lemma FailedDeleteChangesNothing(store: Store, collection: string, docId: string)
    requires Complete(store)
    ensures DeleteOutcome(store, collection, docId).result.Err? ==>
      DeleteOutcome(store, collection, docId).store == store
  {
  }

  /** A create is refused as unprocessable exactly when the collection
      exists and the payload does not satisfy its model; it succeeds for
      every known collection and conforming payload. */
  lemma CreateValidates(store: Store, collection: string, payload: Doc, now: string, freshId: ObjectId)
    requires Complete(store)
    ensures var r := CreateOutcome(store, collection, payload, now, freshId).result;
      && (r == Err(CollectionNotFound) <==> Lookup(collection).None?)
      && (r.Err? && r.error.Unprocessable? <==>
            Lookup(collection).Some? && !FieldsConform(Fields(Lookup(collection).value), payload))
      && (r.Ok? <==> Lookup(collection).Some? && FieldsConform(Fields(Lookup(collection).value), payload))
  {
  }

  /** A successful create adds one record under the fresh identifier and
      keeps every other record; the response is that record serialized. */
  lemma CreateAddsOne(store: Store, collection: string, payload: Doc, now: string, freshId: ObjectId)
    requires Complete(store) && Unused(store, freshId)
    ensures var o := CreateOutcome(store, collection, payload, now, freshId);
      o.result.Ok? ==>
        var t := Lookup(collection).value;
        && Complete(o.store)
        && freshId !in store[t] && freshId in o.store[t]
        && |o.store[t]| == |store[t]| + 1
        && OthersKept(store, o.store, t, freshId)
        && o.result.value == Serialized(o.store[t][freshId])
  {
    var o := CreateOutcome(store, collection, payload, now, freshId);
    if o.result.Ok? {
      var t := Lookup(collection).value;
      var stored := Validate(t, payload, now).value[IdKey := Oid(freshId)];
      assert o.store == Put(store, t, freshId, stored);
      PutEffect(store, t, freshId, stored);
    }
  }

  /** The record a create stores is in schema, carries the fresh
      identifier, and holds exactly the model's fields and `_id`. */
  lemma CreateStoresRecord(store: Store, collection: string, payload: Doc, now: string, freshId: ObjectId)
    requires Complete(store)
    ensures var o := CreateOutcome(store, collection, payload, now, freshId);
      o.result.Ok? ==>
        var t := Lookup(collection).value;
        && Complete(o.store) && freshId in o.store[t]
        && StoredRecord(t, freshId, o.store[t][freshId])
        && o.store[t][freshId].Keys == FieldNames(Fields(t), 0) + {IdKey}
  {
    var o := CreateOutcome(store, collection, payload, now, freshId);
    if o.result.Ok? {
      var t := Lookup(collection).value;
      ValidateDetails(t, payload, now);
      var validated := Validate(t, payload, now).value;
      var stored := validated[IdKey := Oid(freshId)];
      assert o.store == Put(store, t, freshId, stored);
      PutEffect(store, t, freshId, stored);
      StampStored(t, freshId, validated);
    }
  }

  /** A record just created reads back exactly as the create returned it,
      under the string form of its identifier. */
  lemma CreateThenGet(store: Store, collection: string, payload: Doc, now: string, freshId: ObjectId)
    requires Complete(store)
    ensures var o := CreateOutcome(store, collection, payload, now, freshId);
      o.result.Ok? ==> GetResult(o.store, collection, IdString(freshId)) == o.result
  {
    IdRoundTrip(freshId);
  }

  /** A record read back carries its identifier as the lowercase of the
      string it was asked for by. */
  lemma GetReturnsId(store: Store, collection: string, docId: string)
    requires ValidStore(store)
    ensures var r := GetResult(store, collection, docId);
      r.Ok? ==> IdKey in r.value && r.value[IdKey] == Str(Lower(docId))
  {
    var r := GetResult(store, collection, docId);
    if r.Ok? {
      ParsedIdString(docId);
    }
  }

  /** A malformed identifier is refused before the store is consulted:
      400 on read and delete, 422 on update. */
  lemma MalformedId(store: Store, collection: string, docId: string, payload: Doc, now: string)
    requires Complete(store) && Lookup(collection).Some? && !IsIdString(docId)
    ensures GetResult(store, collection, docId) == Err(InvalidId)
    ensures DeleteOutcome(store, collection, docId).result == Err(InvalidId)
    ensures UpdateOutcome(store, collection, docId, payload, now).result == Err(Unprocessable(BadIdString))
    ensures Status(InvalidId) == 400 && Status(Unprocessable(BadIdString)) == 422
  {
  }

  /** An unknown collection is answered 404 by every endpoint before the
      identifier or the payload is looked at, and nothing is written. */
  lemma UnknownCollection(store: Store, collection: string, docId: string, payload: Doc, now: string, freshId: ObjectId)
    requires Complete(store) && Lookup(collection).None?
    ensures GetResult(store, collection, docId) == Err(CollectionNotFound)
    ensures CreateOutcome(store, collection, payload, now, freshId) == Outcome(Err(CollectionNotFound), store)
    ensures UpdateOutcome(store, collection, docId, payload, now) == Outcome(Err(CollectionNotFound), store)
    ensures DeleteOutcome(store, collection, docId) == Outcome(Err(CollectionNotFound), store)
    ensures Status(CollectionNotFound) == 404
  {
  }

  /** A well-formed identifier that names no record of a known collection
      is answered 404 by read, update and delete, whatever the payload, and
      nothing is written. */
  lemma MissingRecord(store: Store, collection: string, docId: string, payload: Doc, now: string)
    requires Complete(store) && Lookup(collection).Some? && ParseId(docId).Some?
    requires ParseId(docId).value !in store[Lookup(collection).value]
    ensures GetResult(store, collection, docId) == Err(NotFound)
    ensures UpdateOutcome(store, collection, docId, payload, now) == Outcome(Err(NotFound), store)
    ensures DeleteOutcome(store, collection, docId) == Outcome(Err(NotFound), store)
    ensures Status(NotFound) == 404
  {
  }

  /** An update is refused as unprocessable exactly when the existing
      record, with the payload laid over it, does not satisfy the model. */
  lemma UpdateValidatesMerge(store: Store, collection: string, docId: string, payload: Doc, now: string)
    requires Complete(store) && Lookup(collection).Some? && IsIdString(docId)
    requires ParseId(docId).value in store[Lookup(collection).value]
    ensures var t := Lookup(collection).value;
      var r := UpdateOutcome(store, collection, docId, payload, now).result;
      r.Err? && r.error.Unprocessable? <==>
        !FieldsConform(Fields(t), Merged(store[t][ParseId(docId).value], payload))
  {
  }

  /** A successful update writes exactly the payload's fields into the one
      record, keeps its other fields and every other record, and the
      response is the record serialized. */
  lemma UpdateWritesPayload(store: Store, collection: string, docId: string, payload: Doc, now: string)
    requires Complete(store)
    ensures var o := UpdateOutcome(store, collection, docId, payload, now);
      o.result.Ok? ==>
        var t := Lookup(collection).value;
        var id := ParseId(docId).value;
        && Complete(o.store)
        && id in store[t] && id in o.store[t]
        && o.store[t][id].Keys == store[t][id].Keys + payload.Keys
        && (forall k :: k in payload ==> o.store[t][id][k] == payload[k])
        && (forall k :: k in store[t][id] && k !in payload ==> o.store[t][id][k] == store[t][id][k])
        && OthersKept(store, o.store, t, id)
        && o.result.value == Serialized(o.store[t][id])
  {
    var o := UpdateOutcome(store, collection, docId, payload, now);
    if o.result.Ok? {
      var t := Lookup(collection).value;
      var id := ParseId(docId).value;
      var updated := Patched(store[t][id], payload);
      assert o.store == Put(store, t, id, updated);
      PutEffect(store, t, id, updated);
    }
  }

  /** The record an update leaves is in schema and keeps its identifier. */
  lemma UpdateStoresRecord(store: Store, collection: string, docId: string, payload: Doc, now: string)
    requires ValidStore(store)
    ensures var o := UpdateOutcome(store, collection, docId, payload, now);
      o.result.Ok? ==>
        var t := Lookup(collection).value;
        var id := ParseId(docId).value;
        Complete(o.store) && id in o.store[t] && StoredRecord(t, id, o.store[t][id])
  {
    UpdateKeepsValid(store, collection, docId, payload, now);
  }

  /** Repeating a successful update returns the same record and leaves the
      store as the first one left it. */
  lemma UpdateIdempotent(store: Store, collection: string, docId: string, payload: Doc, now: string)
    requires Complete(store)
    ensures var o := UpdateOutcome(store, collection, docId, payload, now);
      o.result.Ok? ==> Complete(o.store) && UpdateOutcome(o.store, collection, docId, payload, now) == o
  {
    var o := UpdateOutcome(store, collection, docId, payload, now);
    if o.result.Ok? {
      var t := Lookup(collection).value;
      var id := ParseId(docId).value;
      var existing := store[t][id];
      var patched := Patched(existing, payload);
      assert o == Outcome(Ok(Serialized(patched)), Put(store, t, id, patched));
      PutEffect(store, t, id, patched);
      PatchIdempotent(existing, payload);
      SecondUpdate(o.store, t, id, patched, payload);
      assert Validate(t, Merged(o.store[t][id], payload), now) == Validate(t, Merged(existing, payload), now);
    }
  }

  /** Writing a record's own value again leaves the store as it is. */
  lemma SecondUpdate(store: Store, t: Tag, id: ObjectId, patched: Doc, payload: Doc)
    requires Complete(store) && id in store[t] && store[t][id] == patched
    requires Patched(patched, payload) == patched
    ensures IdKey in payload ==> IdKey in patched && payload[IdKey] == patched[IdKey]
    ensures Put(store, t, id, Patched(patched, payload)) == store
  {
    assert store[t][id := patched] == store[t];
  }

  /** A successful delete removes exactly that record; a second delete
      then finds nothing and changes nothing, and a read finds nothing. */
  lemma DeleteTwice(store: Store, collection: string, docId: string)
    requires Complete(store)
    ensures var o := DeleteOutcome(store, collection, docId);
      o.result.Ok? ==>
        var t := Lookup(collection).value;
        var id := ParseId(docId).value;
        && Complete(o.store)
        && id in store[t] && id !in o.store[t]
        && OthersKept(store, o.store, t, id)
        && DeleteOutcome(o.store, collection, docId) == Outcome(Err(NotFound), o.store)
        && GetResult(o.store, collection, docId) == Err(NotFound)
  {
  }

  /** A patient's balance can not be updated to a negative amount, whole
      or fractional: the update is refused naming `balance`, and the
      record is left as it was. */
  lemma NegativeBalanceRefused(store: Store, collection: string, docId: string, v: Value, now: string)
    requires Complete(store) && NumberBelow(v, 0)
    requires Lookup(collection) == Some(Patient) && IsIdString(docId)
    requires ParseId(docId).value in store[Patient]
    ensures var o := UpdateOutcome(store, collection, docId, map["balance" := v], now);
      && o.result.Err? && o.result.error.Unprocessable? && o.result.error.cause.Violations?
      && Violation([Key("balance")], TooSmall) in o.result.error.cause.vs
      && o.store == store
  {
    var payload := map["balance" := v];
    PatientBalance(Merged(store[Patient][ParseId(docId).value], payload), now);
  }
}
