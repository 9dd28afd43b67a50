/** `MODEL_MAP`: the lowercase collection names the service answers to,
    each bound to the model that validates its records. */
module Registry {

  import opened Wrappers
  import opened Ascii
  import opened Schemas

  const ModelMap: map<string, Tag> := map[
    "receptionist" := Receptionist,
    "doctor" := Doctor,
    "patient" := Patient,
    "procedure" := Procedure,
    "appointment" := Appointment,
    "payment" := Payment,
    "report" := Report,
    "consumable" := Consumable
  ]

  /** The collection name of a tag. */
  function Name(t: Tag): (n: string)
    ensures n in ModelMap && ModelMap[n] == t
  {
    match t
    case Receptionist => "receptionist"
    case Doctor => "doctor"
    case Patient => "patient"
    case Procedure => "procedure"
    case Appointment => "appointment"
    case Payment => "payment"
    case Report => "report"
    case Consumable => "consumable"
  }

  /** `collection.lower()` followed by `in MODEL_MAP`. */
  function Lookup(collection: string): (r: Option<Tag>)
    ensures r.Some? <==> Lower(collection) in ModelMap
    ensures r.Some? ==> Name(r.value) == Lower(collection)
  {
    var key := Lower(collection);
    if key in ModelMap then Some(ModelMap[key]) else None
  }

  /** Eight collections, one per tag, with no two tags sharing a name. */
  lemma RegistryShape()
    ensures |ModelMap| == 8
    ensures forall n :: n in ModelMap ==> Name(ModelMap[n]) == n
    ensures forall t, u :: Name(t) == Name(u) ==> t == u
  {
  }

  /** Each collection is named by the lowercase of its model's class name. */
  lemma NamesAreLowerClassNames(t: Tag)
    ensures Name(t) == Lower(ClassName(t))
  {
    match t
    case Receptionist => CapitalizedLower("Receptionist", "receptionist");
    case Doctor => CapitalizedLower("Doctor", "doctor");
    case Patient => CapitalizedLower("Patient", "patient");
    case Procedure => CapitalizedLower("Procedure", "procedure");
    case Appointment => CapitalizedLower("Appointment", "appointment");
    case Payment => CapitalizedLower("Payment", "payment");
    case Report => CapitalizedLower("Report", "report");
    case Consumable => CapitalizedLower("Consumable", "consumable");
  }

  /** The class name, the collection name, and so any capitalisation of
      them, find the model. */
  lemma LookupByClassName(t: Tag)
    ensures Lookup(ClassName(t)) == Some(t) && Lookup(Name(t)) == Some(t)
  {
    NamesAreLowerClassNames(t);
    LowerIdempotent(ClassName(t));
  }

  /** A name whose first letter alone is capitalised lowers to the name
      with that letter in lowercase. */
  lemma CapitalizedLower(upper: string, lower: string)
    requires |upper| == |lower| > 0 && IsLower(lower)
    requires LowerChar(upper[0]) == lower[0] && upper[1..] == lower[1..]
    ensures Lower(upper) == lower
  {
    LowerIdempotent(lower);
    assert forall i :: 1 <= i < |upper| ==> upper[i] == lower[i];
  }

  /** A name finds a tag exactly when it lowercases to that tag's name. */
  lemma LookupExactly(collection: string, t: Tag)
    ensures Lookup(collection) == Some(t) <==> Lower(collection) == Name(t)
  {
  }

  /** `PaymentItem` is a model but not a collection, under any
      capitalisation. */
  lemma PaymentItemIsNoCollection()
    ensures Lookup("PaymentItem") == None && Lookup("paymentitem") == None
    ensures forall c :: Lower(c) == "paymentitem" ==> Lookup(c) == None
  {
    assert Lower("PaymentItem") == "paymentitem";
    LowerIdempotent("paymentitem");
  }
}
