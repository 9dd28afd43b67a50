/** `serialize_doc`: a copy of a document in which every top-level native
    identifier is replaced by its string form. */
module Serialization {

  import opened Wrappers
  import opened ObjectIds
  import opened Values

  /** `str(v)` for a native identifier; any other value as it is. */
  function Rendered(v: Value): Value {
    if v.Oid? then Str(IdString(v.id)) else v
  }

  function Serialized(doc: Doc): Doc {
    map k | k in doc :: Rendered(doc[k])
  }

  predicate HasNativeIds(doc: Doc) {
    exists k :: k in doc && doc[k].Oid?
  }

  /** The serialized document has the same keys; native identifiers become
      strings that parse back to them, and nothing else changes. */
  lemma SerializedFields(doc: Doc)
    ensures Serialized(doc).Keys == doc.Keys
    ensures !HasNativeIds(Serialized(doc))
    ensures forall k :: k in doc && doc[k].Oid? ==>
      Serialized(doc)[k].Str? && ParseId(Serialized(doc)[k].s) == Some(doc[k].id)
    ensures forall k :: k in doc && !doc[k].Oid? ==> Serialized(doc)[k] == doc[k]
  {
    forall k | k in doc && doc[k].Oid?
      ensures ParseId(Serialized(doc)[k].s) == Some(doc[k].id)
    {
      IdRoundTrip(doc[k].id);
    }
  }

  /** Serializing twice is serializing once; a document without native
      identifiers (the empty one in particular) comes back unchanged. */
  lemma SerializedIdempotent(doc: Doc)
    ensures Serialized(Serialized(doc)) == Serialized(doc)
    ensures !HasNativeIds(doc) ==> Serialized(doc) == doc
  {
  }

  /** The source's loop: copy the document, convert `_id`, then convert
      every other top-level identifier. */
  method SerializeDoc(doc: Doc) returns (r: Doc)
    ensures r == Serialized(doc)
  {
    if doc == map[] {
      return doc;
    }
    r := doc;
    if IdKey in r && r[IdKey].Oid? {
      r := r[IdKey := Str(IdString(r[IdKey].id))];
    }
    var pending := r.Keys;
    while pending != {}
      invariant pending <= doc.Keys && r.Keys == doc.Keys
      invariant forall k :: k in doc && k !in pending ==> r[k] == Rendered(doc[k])
      invariant forall k :: k in pending ==> Rendered(r[k]) == Rendered(doc[k])
      decreases pending
    {
      var k :| k in pending;
      if r[k].Oid? {
        r := r[k := Str(IdString(r[k].id))];
      }
      pending := pending - {k};
    }
  }
}
