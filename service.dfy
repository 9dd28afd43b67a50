/** The generic CRUD endpoints: one set of operations for every collection
    of the registry, over an in-memory store of documents keyed by native
    identifier. */
module RecordService {

  import opened Wrappers
  import opened Ascii
  import opened ObjectIds
  import opened Values
  import opened Validation
  import opened Schemas
  import opened Registry
  import opened Serialization

  /** Why a payload was refused with status 422. */
  datatype Cause =
    | Violations(vs: seq<Violation>)
      /** `ObjectId(doc_id)` raised inside the update's generic handler. */
    | BadIdString

  datatype Failure =
    | CollectionNotFound
    | InvalidId
    | NotFound
    | Unprocessable(cause: Cause)
      /** Raised by the store and passed on unclassified. */
    | ServerError

  /** The HTTP status each failure is answered with. */
  function Status(f: Failure): int {
    match f
    case CollectionNotFound => 404
    case InvalidId => 400
    case NotFound => 404
    case Unprocessable(_) => 422
    case ServerError => 500
  }

  const DefaultLimit: int := 100
  const MaxLimit: int := 500

  /** The most records a listing returns; `None` means no bound. The
      requested limit (100 when absent) is capped at 500 and handed to the
      store's cursor, where 0 means "no limit" and a negative `n` means
      `|n|`: only a positive request is bounded by 500. */
  function ListBound(limit: Option<int>): (r: Option<nat>)
    ensures limit.None? ==> r == Some(DefaultLimit)
    ensures limit.Some? && 0 < limit.value ==>
      r == Some(if limit.value < MaxLimit then limit.value else MaxLimit)
    ensures limit.Some? && limit.value == 0 ==> r == None
    ensures limit.Some? && limit.value < 0 ==> r == Some(-limit.value)
  {
    var requested := match limit case Some(n) => n case None => DefaultLimit;
    var cap := if requested < MaxLimit then requested else MaxLimit;
    if cap == 0 then None else if cap < 0 then Some(-cap) else Some(cap)
  }

  /** The bound `min(limit, 500)` is evidently meant to be: the requested
      limit, 100 when absent, kept between 0 and 500. */
  function IntendedBound(limit: Option<int>): (r: nat)
    ensures r <= MaxLimit
    ensures limit.None? ==> r == DefaultLimit
    ensures limit.Some? && 0 <= limit.value ==> r <= limit.value
    ensures limit.Some? && limit.value <= 0 ==> r == 0
  {
    var requested := match limit case Some(n) => n case None => DefaultLimit;
    if requested < 0 then 0 else if requested < MaxLimit then requested else MaxLimit
  }

  /** For a missing or positive limit, the bound the cursor applies is the
      intended one. */
  lemma ListBoundAsIntended(limit: Option<int>)
    requires limit.None? || 0 < limit.value
    ensures ListBound(limit) == Some(IntendedBound(limit))
  {
  }

  /** For a limit of 0 or below, the cursor's bound is not the intended
      one: 0 lists without bound, and -1000 lists up to 1000 records, over
      the cap of 500. */
  lemma NonPositiveLimitEscapesCap(n: int)
    requires n <= 0
    ensures ListBound(Some(n)) != Some(IntendedBound(Some(n)))
    ensures n == 0 ==> ListBound(Some(n)) == None
    ensures n < -MaxLimit ==> ListBound(Some(n)).value > MaxLimit >= IntendedBound(Some(n))
    ensures ListBound(Some(-1000)) == Some(1000)
  {
  }

  /** `{k: v for k, v in existing.items() if k != "_id"}` then
      `merged.update(payload)`: what an update validates. */
  function Merged(existing: Doc, payload: Doc): (r: Doc)
    ensures r.Keys == (existing.Keys - {IdKey}) + payload.Keys
    ensures forall k :: k in payload ==> r[k] == payload[k]
    ensures forall k :: k in existing && k != IdKey && k !in payload ==> r[k] == existing[k]
  {
    (existing - {IdKey}) + payload
  }

  /** `{"$set": payload}`: what an update writes. */
  function Patched(existing: Doc, payload: Doc): (r: Doc)
    ensures r.Keys == existing.Keys + payload.Keys
    ensures forall k :: k in payload ==> r[k] == payload[k]
    ensures forall k :: k in existing && k !in payload ==> r[k] == existing[k]
  {
    existing + payload
  }

  /** Writing the same payload twice leaves the record as writing it once,
      and the record then validates as it did the first time. */
  lemma PatchIdempotent(existing: Doc, payload: Doc)
    ensures Patched(Patched(existing, payload), payload) == Patched(existing, payload)
    ensures Merged(Patched(existing, payload), payload) == Merged(existing, payload)
  {
  }

  /** No model declares an `_id` field: dropping `_id` from a record
      before an update is validated removes nothing the model checks. */
  lemma NoIdField(t: Tag)
    ensures forall j :: 0 <= j < |Fields(t)| ==> Fields(t)[j].name != IdKey
  {
  }

  /** Whether a document satisfies a model depends only on the model's
      declared fields. */
  lemma ConformsOnFields(fs: seq<Field>, a: Doc, b: Doc)
    requires forall j :: 0 <= j < |fs| ==>
      (fs[j].name in a <==> fs[j].name in b) &&
      (fs[j].name in a ==> a[fs[j].name] == b[fs[j].name])
    ensures FieldsConform(fs, a) <==> FieldsConform(fs, b)
  {
    assert forall j :: 0 <= j < |fs| ==> (FieldConforms(fs[j], a) <==> FieldConforms(fs[j], b));
  }

  /** A stored record carries its own identifier under `_id` and satisfies
      its collection's model. */
  predicate StoredRecord(t: Tag, id: ObjectId, d: Doc) {
    IdKey in d && d[IdKey] == Oid(id) && FieldsConform(Fields(t), d)
  }

  /** The database: each collection maps identifiers to documents. */
  type Store = map<Tag, map<ObjectId, Doc>>

  /** Every collection of the registry exists in the store. */
  predicate Complete(store: Store) {
    forall t: Tag :: t in store
  }

  /** A collection holds only its own stored records. */
  predicate TableValid(t: Tag, table: map<ObjectId, Doc>) {
    forall id :: id in table ==> StoredRecord(t, id, table[id])
  }

  /** Every collection exists and holds only stored records. */
  predicate ValidStore(store: Store) {
    Complete(store) && forall t :: t in store ==> TableValid(t, store[t])
  }

  /** No collection uses the identifier yet. */
  predicate Unused(store: Store, id: ObjectId) {
    forall t :: t in store ==> id !in store[t]
  }

  /** The empty store. */
  function EmptyStore(): Store {
    map[Receptionist := map[], Doctor := map[], Patient := map[], Procedure := map[],
        Appointment := map[], Payment := map[], Report := map[], Consumable := map[]]
  }

  /** Every collection starts out empty. */
  lemma EmptyStoreValid()
    ensures ValidStore(EmptyStore())
    ensures forall t: Tag :: t in EmptyStore() && EmptyStore()[t] == map[]
  {
    forall t: Tag
      ensures t in EmptyStore()
    {
      match t
      case Receptionist =>
      case Doctor =>
      case Patient =>
      case Procedure =>
      case Appointment =>
      case Payment =>
      case Report =>
      case Consumable =>
    }
  }

  /** The store with record `id` of collection `t` set to `d`. */
  function Put(store: Store, t: Tag, id: ObjectId, d: Doc): Store
    requires t in store
  {
    var table: map<ObjectId, Doc> := store[t][id := d];
    store[t := table]
  }

  /** The store without record `id` of collection `t`. */
  function Remove(store: Store, t: Tag, id: ObjectId): Store
    requires t in store
  {
    store[t := store[t] - {id}]
  }

  lemma PutKeepsValid(store: Store, t: Tag, id: ObjectId, d: Doc)
    requires ValidStore(store) && StoredRecord(t, id, d)
    ensures ValidStore(Put(store, t, id, d))
  {
    var table: map<ObjectId, Doc> := store[t][id := d];
    PutKeepsTable(t, store[t], id, d);
    assert Put(store, t, id, d) == store[t := table];
  }

  lemma PutKeepsTable(t: Tag, table: map<ObjectId, Doc>, id: ObjectId, d: Doc)
    requires TableValid(t, table) && StoredRecord(t, id, d)
    ensures TableValid(t, table[id := d])
  {
    var after := table[id := d];
    forall k | k in after
      ensures StoredRecord(t, k, after[k])
    {
      if k != id {
        assert after[k] == table[k];
      }
    }
  }

  lemma RemoveKeepsValid(store: Store, t: Tag, id: ObjectId)
    requires ValidStore(store)
    ensures ValidStore(Remove(store, t, id))
  {
    assert TableValid(t, store[t]);
    assert TableValid(t, store[t] - {id});
  }

  /** What a write returns, and the store it leaves. */
  datatype Outcome = Outcome(result: Result<Doc, Failure>, store: Store)

  /** The read of one record, as the store answers it. */
  function GetResult(store: Store, collection: string, docId: string): Result<Doc, Failure>
    requires Complete(store)
  {
    match Lookup(collection)
    case None => Err(CollectionNotFound)
    case Some(t) =>
      match ParseId(docId)
      case None => Err(InvalidId)
      case Some(id) => if id in store[t] then Ok(Serialized(store[t][id])) else Err(NotFound)
  }

  /** Validate the whole payload; only a valid one is stored, with its
      defaults, under the identifier the persistence layer assigns. */
  function CreateOutcome(store: Store, collection: string, payload: Doc, now: string, freshId: ObjectId): Outcome
    requires Complete(store)
  {
    match Lookup(collection)
    case None => Outcome(Err(CollectionNotFound), store)
    case Some(t) =>
      var validated := Validate(t, payload, now);
      if validated.Err? then Outcome(Err(Unprocessable(Violations(validated.error))), store)
      else
        var stored := validated.value[IdKey := Oid(freshId)];
        Outcome(Ok(Serialized(stored)), Put(store, t, freshId, stored))
  }

  /** The existing record minus `_id`, overlaid with the payload, must
      validate; then the payload's fields are written. The store refuses to
      change a record's `_id`. */
  function UpdateOutcome(store: Store, collection: string, docId: string, payload: Doc, now: string): Outcome
    requires Complete(store)
  {
    match Lookup(collection)
    case None => Outcome(Err(CollectionNotFound), store)
    case Some(t) =>
      match ParseId(docId)
      case None => Outcome(Err(Unprocessable(BadIdString)), store)
      case Some(id) =>
        if id !in store[t] then Outcome(Err(NotFound), store)
        else
          var existing := store[t][id];
          var outcome := Validate(t, Merged(existing, payload), now);
          if outcome.Err? then Outcome(Err(Unprocessable(Violations(outcome.error))), store)
          else if IdKey in payload && (IdKey !in existing || payload[IdKey] != existing[IdKey]) then
            Outcome(Err(ServerError), store)
          else
            var updated := Patched(existing, payload);
            Outcome(Ok(Serialized(updated)), Put(store, t, id, updated))
  }

  /** Remove exactly the named record and confirm with the identifier as
      it was given. */
  function DeleteOutcome(store: Store, collection: string, docId: string): Outcome
    requires Complete(store)
  {
    match Lookup(collection)
    case None => Outcome(Err(CollectionNotFound), store)
    case Some(t) =>
      match ParseId(docId)
      case None => Outcome(Err(InvalidId), store)
      case Some(id) =>
        if id !in store[t] then Outcome(Err(NotFound), store)
        else Outcome(Ok(map["deleted" := Bool(true), "id" := Str(docId)]), Remove(store, t, id))
  }

  /** A validated record stamped with an identifier is stored under it. */
  lemma StampStored(t: Tag, id: ObjectId, validated: Doc)
    requires FieldsConform(Fields(t), validated)
    ensures StoredRecord(t, id, validated[IdKey := Oid(id)])
  {
    NoIdField(t);
    ConformsOnFields(Fields(t), validated, validated[IdKey := Oid(id)]);
  }

  /** A create keeps every stored record in schema. */
  lemma CreateKeepsValid(store: Store, collection: string, payload: Doc, now: string, freshId: ObjectId)
    requires ValidStore(store)
    ensures ValidStore(CreateOutcome(store, collection, payload, now, freshId).store)
  {
    var tag := Lookup(collection);
    if tag.Some? && Validate(tag.value, payload, now).Ok? {
      var t := tag.value;
      var validated := Validate(t, payload, now).value;
      ValidateDetails(t, payload, now);
      StampStored(t, freshId, validated);
      PutKeepsValid(store, t, freshId, validated[IdKey := Oid(freshId)]);
    }
  }

  /** A write of a payload whose merge validates, and which does not
      change `_id`, keeps a stored record stored. */
  lemma PatchStored(t: Tag, id: ObjectId, existing: Doc, payload: Doc)
    requires StoredRecord(t, id, existing)
    requires FieldsConform(Fields(t), Merged(existing, payload))
    requires IdKey in payload ==> payload[IdKey] == existing[IdKey]
    ensures StoredRecord(t, id, Patched(existing, payload))
  {
    NoIdField(t);
    ConformsOnFields(Fields(t), Merged(existing, payload), Patched(existing, payload));
  }

  /** An update either leaves the store as it is, or writes the payload
      into an existing record whose merge with the payload validates and
      whose `_id` the payload does not change. */
  lemma UpdateShape(store: Store, collection: string, docId: string, payload: Doc, now: string)
    requires Complete(store)
    ensures var o := UpdateOutcome(store, collection, docId, payload, now);
      o.store == store ||
      (&& Lookup(collection).Some? && ParseId(docId).Some?
       && var t := Lookup(collection).value;
          var id := ParseId(docId).value;
          && id in store[t]
          && FieldsConform(Fields(t), Merged(store[t][id], payload))
          && (IdKey in payload ==> IdKey in store[t][id] && payload[IdKey] == store[t][id][IdKey])
          && o == Outcome(Ok(Serialized(Patched(store[t][id], payload))), Put(store, t, id, Patched(store[t][id], payload))))
  {
  }

  /** An update keeps every stored record in schema. */
  lemma UpdateKeepsValid(store: Store, collection: string, docId: string, payload: Doc, now: string)
    requires ValidStore(store)
    ensures ValidStore(UpdateOutcome(store, collection, docId, payload, now).store)
  {
    UpdateShape(store, collection, docId, payload, now);
    var o := UpdateOutcome(store, collection, docId, payload, now);
    if o.store != store {
      var t := Lookup(collection).value;
      var id := ParseId(docId).value;
      var existing := store[t][id];
      assert TableValid(t, store[t]);
      PatchStored(t, id, existing, payload);
      PutKeepsValid(store, t, id, Patched(existing, payload));
    }
  }

  /** A delete keeps every remaining record in schema. */
  lemma DeleteKeepsValid(store: Store, collection: string, docId: string)
    requires ValidStore(store)
    ensures ValidStore(DeleteOutcome(store, collection, docId).store)
  {
    var tag := Lookup(collection);
    if tag.Some? && ParseId(docId).Some? {
      RemoveKeepsValid(store, tag.value, ParseId(docId).value);
    }
  }

  /** `docs` serializes the records `ids` of `table`, each once, no more
      of them than the bound allows, and all of them when the table is
      within the bound. */
  ghost predicate Listing(table: map<ObjectId, Doc>, bound: Option<nat>, docs: seq<Doc>, ids: seq<ObjectId>) {
    && |docs| == |ids|
    && (bound.Some? ==> |ids| <= bound.value)
    && (forall i, j :: 0 <= i < j < |ids| ==> ids[i] != ids[j])
    && (forall i :: 0 <= i < |ids| ==> ids[i] in table && docs[i] == Serialized(table[ids[i]]))
    && ((bound.None? || |table| <= bound.value) ==> forall id :: id in table ==> id in ids)
  }

  /** The cursor: records of a table in the store's order, up to a bound. */
  method Collect(table: map<ObjectId, Doc>, bound: Option<nat>)
    returns (docs: seq<Doc>, ghost ids: seq<ObjectId>)
    ensures Listing(table, bound, docs, ids)
    ensures bound.Some? ==> |docs| <= bound.value
    ensures (bound.None? || |table| <= bound.value) ==> |docs| == |table|
    ensures forall i :: 0 <= i < |docs| ==> exists id :: id in table && docs[i] == Serialized(table[id])
  {
    docs, ids := [], [];
    var pending := table.Keys;
    while pending != {} && (bound.None? || |docs| < bound.value)
      invariant pending <= table.Keys && |docs| == |ids|
      invariant bound.Some? ==> |ids| <= bound.value
      invariant forall i :: 0 <= i < |ids| ==> ids[i] in table && ids[i] !in pending
      invariant forall i, j :: 0 <= i < j < |ids| ==> ids[i] != ids[j]
      invariant forall i :: 0 <= i < |ids| ==> docs[i] == Serialized(table[ids[i]])
      invariant forall id :: id in table ==> id in pending || id in ids
      invariant |ids| + |pending| == |table|
      decreases pending
    {
      var id :| id in pending;
      var doc := SerializeDoc(table[id]);
      docs := docs + [doc];
      ids := ids + [id];
      pending := pending - {id};
    }
  }

  class Service {
    var tables: Store

    /** No write ever leaves a record out of schema. */
    ghost predicate Valid()
      reads this
    {
      ValidStore(tables)
    }

    constructor ()
      ensures Valid()
      ensures tables == EmptyStore()
    {
      EmptyStoreValid();
      tables := EmptyStore();
    }

    /** `GET /api/{collection}`: at most the bound's number of records of
        the collection, each serialized, in no promised order; all of them
        when the collection holds no more than that. */
    method List(collection: string, limit: Option<int>)
      returns (r: Result<seq<Doc>, Failure>, ghost ids: seq<ObjectId>)
      requires Valid()
      ensures Lookup(collection).None? ==> r == Err(CollectionNotFound) && ids == []
      ensures Lookup(collection).Some? ==>
        r.Ok? && Listing(tables[Lookup(collection).value], ListBound(limit), r.value, ids)
      ensures Lookup(collection).Some? ==>
        var table := tables[Lookup(collection).value];
        var bound := ListBound(limit);
        && r.Ok?
        && (bound.Some? ==> |r.value| <= bound.value)
        && ((bound.None? || |table| <= bound.value) ==> |r.value| == |table|)
        && forall i :: 0 <= i < |r.value| ==> exists id :: id in table && r.value[i] == Serialized(table[id])
    {
      var tag := Lookup(collection);
      if tag.None? {
        return Err(CollectionNotFound), [];
      }
      var docs;
      docs, ids := Collect(tables[tag.value], ListBound(limit));
      r := Ok(docs);
    }

    /** `GET /api/{collection}/{doc_id}`. */
    method Get(collection: string, docId: string) returns (r: Result<Doc, Failure>)
      requires Valid()
      ensures r == GetResult(tables, collection, docId)
    {
      var tag := Lookup(collection);
      if tag.None? {
        return Err(CollectionNotFound);
      }
      var oid := ParseId(docId);
      if oid.None? {
        return Err(InvalidId);
      }
      var table := tables[tag.value];
      if oid.value !in table {
        return Err(NotFound);
      }
      var doc := SerializeDoc(table[oid.value]);
      r := Ok(doc);
    }

    /** `POST /api/{collection}`. */
    method Create(collection: string, payload: Doc, now: string, freshId: ObjectId)
      returns (r: Result<Doc, Failure>)
      requires Valid() && Unused(tables, freshId)
      modifies this
      ensures Valid()
      ensures Outcome(r, tables) == CreateOutcome(old(tables), collection, payload, now, freshId)
    {
      var tag := Lookup(collection);
      if tag.None? {
        return Err(CollectionNotFound);
      }
      var t := tag.value;
      var validated := Validate(t, payload, now);
      if validated.Err? {
        return Err(Unprocessable(Violations(validated.error)));
      }
      var stored := validated.value[IdKey := Oid(freshId)];
      CreateKeepsValid(tables, collection, payload, now, freshId);
      tables := Put(tables, t, freshId, stored);
      var doc := SerializeDoc(tables[t][freshId]);
      r := Ok(doc);
    }

    /** `PUT /api/{collection}/{doc_id}`. */
    method Update(collection: string, docId: string, payload: Doc, now: string)
      returns (r: Result<Doc, Failure>)
      requires Valid()
      modifies this
      ensures Valid()
      ensures Outcome(r, tables) == UpdateOutcome(old(tables), collection, docId, payload, now)
    {
      var tag := Lookup(collection);
      if tag.None? {
        return Err(CollectionNotFound);
      }
      var t := tag.value;
      var oid := ParseId(docId);
      if oid.None? {
        return Err(Unprocessable(BadIdString));
      }
      var id := oid.value;
      if id !in tables[t] {
        return Err(NotFound);
      }
      var existing := tables[t][id];
      var outcome := Validate(t, Merged(existing, payload), now);
      if outcome.Err? {
        return Err(Unprocessable(Violations(outcome.error)));
      }
      if IdKey in payload && (IdKey !in existing || payload[IdKey] != existing[IdKey]) {
        return Err(ServerError);
      }
      UpdateKeepsValid(tables, collection, docId, payload, now);
      tables := Put(tables, t, id, Patched(existing, payload));
      var doc := SerializeDoc(tables[t][id]);
      r := Ok(doc);
    }

    /** `DELETE /api/{collection}/{doc_id}`. */
    method Delete(collection: string, docId: string) returns (r: Result<Doc, Failure>)
      requires Valid()
      modifies this
      ensures Valid()
      ensures Outcome(r, tables) == DeleteOutcome(old(tables), collection, docId)
    {
      var tag := Lookup(collection);
      if tag.None? {
        return Err(CollectionNotFound);
      }
      var t := tag.value;
      var oid := ParseId(docId);
      if oid.None? {
        return Err(InvalidId);
      }
      var id := oid.value;
      if id !in tables[t] {
        return Err(NotFound);
      }
      DeleteKeepsValid(tables, collection, docId);
      tables := Remove(tables, t, id);
      r := Ok(map["deleted" := Bool(true), "id" := Str(docId)]);
    }
  }
}
