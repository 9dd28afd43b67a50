/** The nine pydantic models of the clinic, as field tables for the
    validator, and what each of them demands of a payload. */
module Schemas {

  import opened Wrappers
  import opened Values
  import opened Validation

  /** A required field: `name: ty` or `name: ty = Field(...)`. */
  function Req(name: string, ty: Ty): Field { Field(name, ty, false, Required) }

  /** `name: Optional[ty] = None`. */
  function Opt(name: string, ty: Ty): Field { Field(name, ty, true, Given(Null)) }

  /** `name: ty = v`, a default that pydantic does not validate. */
  function Def(name: string, ty: Ty, v: Value): Field { Field(name, ty, false, Given(v)) }

  const NonNegative: Bound := AtLeast(0)

  /** `ge=5, le=480`: a duration in minutes. */
  const Minutes: Bound := Within(5, 480)

  const Shifts: seq<string> := ["morning", "evening", "night"]
  const Genders: seq<string> := ["male", "female", "other"]
  const AppointmentStatuses: seq<string> :=
    ["scheduled", "checked_in", "in_progress", "completed", "cancelled", "no_show"]
  const PaymentMethods: seq<string> := ["cash", "card", "transfer", "insurance"]
  const PaymentStatuses: seq<string> := ["pending", "paid", "refunded", "failed"]
  const ReportTypes: seq<string> := ["daily", "financial", "inventory", "custom"]
  const Units: seq<string> := ["pcs", "ml", "g", "box", "pack", "bottle", "tube"]

  const ReceptionistFields: seq<Field> := [
    Req("name", TStr),
    Req("email", TStr),
    Opt("phone", TStr),
    Def("shift", TLiteral(Shifts), Str("morning")),
    Def("is_active", TBool, Bool(true))
  ]

  const DoctorFields: seq<Field> := [
    Req("name", TStr),
    Req("email", TStr),
    Opt("phone", TStr),
    Opt("specialization", TStr),
    Opt("license_no", TStr),
    Def("is_active", TBool, Bool(true))
  ]

  const PatientFields: seq<Field> := [
    Req("first_name", TStr),
    Req("last_name", TStr),
    Opt("date_of_birth", TDate),
    Opt("gender", TLiteral(Genders)),
    Opt("email", TStr),
    Opt("phone", TStr),
    Opt("address", TStr),
    Def("allergies", TList(TStr), List([])),
    Opt("medical_history", TStr),
    Opt("insurance_provider", TStr),
    Opt("insurance_member_id", TStr),
    Def("balance", TFloat(NonNegative), Int(0)),
    Opt("notes", TStr)
  ]

  const ProcedureFields: seq<Field> := [
    Req("code", TStr),
    Req("name", TStr),
    Opt("description", TStr),
    Def("default_duration_min", TInt(Minutes), Int(30)),
    Req("base_fee", TFloat(NonNegative))
  ]

  const AppointmentFields: seq<Field> := [
    Req("patient_id", TStr),
    Req("doctor_id", TStr),
    Req("start_time", TDateTime),
    Def("duration_min", TInt(Minutes), Int(30)),
    Def("procedure_codes", TList(TStr), List([])),
    Def("status", TLiteral(AppointmentStatuses), Str("scheduled")),
    Opt("room", TStr),
    Opt("notes", TStr)
  ]

  /** `PaymentItem`: only ever validated as an element of `Payment.items`. */
  const PaymentItemFields: seq<Field> := [
    Req("description", TStr),
    Req("amount", TFloat(NonNegative)),
    Opt("procedure_code", TStr),
    Opt("appointment_id", TStr)
  ]

  const PaymentFields: seq<Field> := [
    Req("patient_id", TStr),
    Req("amount", TFloat(NonNegative)),
    Req("method", TLiteral(PaymentMethods)),
    Def("status", TLiteral(PaymentStatuses), Str("paid")),
    Opt("reference", TStr),
    Field("date_time", TDateTime, false, Now),
    Def("items", TList(TModel(PaymentItemFields)), List([])),
    Opt("notes", TStr)
  ]

  const ReportFields: seq<Field> := [
    Req("type", TLiteral(ReportTypes)),
    Opt("period_start", TDate),
    Opt("period_end", TDate),
    Opt("generated_by", TStr),
    Def("data", TAnyDict, Object(map[]))
  ]

  const ConsumableFields: seq<Field> := [
    Req("name", TStr),
    Def("unit", TLiteral(Units), Str("pcs")),
    Def("stock_qty", TFloat(NonNegative), Int(0)),
    Def("reorder_level", TFloat(NonNegative), Int(0)),
    Def("cost_per_unit", TFloat(NonNegative), Int(0)),
    Opt("vendor", TStr),
    Opt("sku", TStr)
  ]

  /** The record kinds that are collections of their own. */
  datatype Tag =
    | Receptionist | Doctor | Patient | Procedure | Appointment | Payment | Report | Consumable

  function Fields(t: Tag): seq<Field> {
    match t
    case Receptionist => ReceptionistFields
    case Doctor => DoctorFields
    case Patient => PatientFields
    case Procedure => ProcedureFields
    case Appointment => AppointmentFields
    case Payment => PaymentFields
    case Report => ReportFields
    case Consumable => ConsumableFields
  }

  /** The name of the pydantic class behind a tag. */
  function ClassName(t: Tag): string {
    match t
    case Receptionist => "Receptionist"
    case Doctor => "Doctor"
    case Patient => "Patient"
    case Procedure => "Procedure"
    case Appointment => "Appointment"
    case Payment => "Payment"
    case Report => "Report"
    case Consumable => "Consumable"
  }

  // Each table declares distinct names and defaults its fields accept.
  lemma ReceptionistWellFormed() ensures WellFormed(TModel(ReceptionistFields)) { }
  lemma DoctorWellFormed() ensures WellFormed(TModel(DoctorFields)) { }
  lemma PatientNamesDistinct() ensures DistinctNames(PatientFields) { }
  lemma PatientDefaultsFit()
    ensures forall i :: 0 <= i < |PatientFields| ==> DefaultFits(PatientFields[i]) && WellFormed(PatientFields[i].ty)
  { }
  lemma PatientWellFormed() ensures WellFormed(TModel(PatientFields)) { PatientNamesDistinct(); PatientDefaultsFit(); }
  lemma ProcedureWellFormed() ensures WellFormed(TModel(ProcedureFields)) { }
  lemma AppointmentNamesDistinct() ensures DistinctNames(AppointmentFields) { }
  lemma AppointmentDefaultsFit()
    ensures forall i :: 0 <= i < |AppointmentFields| ==> DefaultFits(AppointmentFields[i]) && WellFormed(AppointmentFields[i].ty)
  { }
  lemma AppointmentWellFormed() ensures WellFormed(TModel(AppointmentFields)) { AppointmentNamesDistinct(); AppointmentDefaultsFit(); }
  lemma PaymentItemWellFormed() ensures WellFormed(TModel(PaymentItemFields)) { }
  lemma PaymentNamesDistinct() ensures DistinctNames(PaymentFields) { }
  lemma PaymentDefaultsFit()
    ensures forall i :: 0 <= i < |PaymentFields| ==> DefaultFits(PaymentFields[i]) && WellFormed(PaymentFields[i].ty)
  { PaymentItemWellFormed(); }
  lemma PaymentWellFormed() ensures WellFormed(TModel(PaymentFields)) { PaymentNamesDistinct(); PaymentDefaultsFit(); }
  lemma ReportWellFormed() ensures WellFormed(TModel(ReportFields)) { }
  lemma ConsumableWellFormed() ensures WellFormed(TModel(ConsumableFields)) { }

  lemma StaffWellFormed(t: Tag)
    requires t == Receptionist || t == Doctor
    ensures WellFormed(TModel(Fields(t)))
  {
    if t == Receptionist { ReceptionistWellFormed(); } else { DoctorWellFormed(); }
  }

  lemma ClinicalWellFormed(t: Tag)
    requires t == Patient || t == Procedure
    ensures WellFormed(TModel(Fields(t)))
  {
    if t == Patient { PatientWellFormed(); } else { ProcedureWellFormed(); }
  }

  lemma BillingWellFormed(t: Tag)
    requires t == Appointment || t == Payment
    ensures WellFormed(TModel(Fields(t)))
  {
    if t == Appointment { AppointmentWellFormed(); } else { PaymentWellFormed(); }
  }

  lemma RecordsWellFormed(t: Tag)
    requires t == Report || t == Consumable
    ensures WellFormed(TModel(Fields(t)))
  {
    if t == Report { ReportWellFormed(); } else { ConsumableWellFormed(); }
  }

  /** Every model of the registry has distinct field names and defaults
      its fields accept. */
  lemma ModelsWellFormed(t: Tag)
    ensures WellFormed(TModel(Fields(t)))
  {
    if t == Receptionist || t == Doctor {
      StaffWellFormed(t);
    } else if t == Patient || t == Procedure {
      ClinicalWellFormed(t);
    } else if t == Appointment || t == Payment {
      BillingWellFormed(t);
    } else {
      RecordsWellFormed(t);
    }
  }

  /** `Model(**payload)` followed by the dump of the model: the record with
      every declared field (defaults filled in), or every violation. */
  function Validate(t: Tag, payload: Doc, now: string): (r: Result<Doc, seq<Violation>>)
    ensures r.Ok? <==> FieldsConform(Fields(t), payload)
  {
    CheckFieldsSound(TModel(Fields(t)), 0, payload, now);
    CheckFields(TModel(Fields(t)), 0, payload, now)
  }

  /** A refused payload is told every field it gets wrong, and no other;
      an accepted one becomes a record with exactly the model's fields,
      which satisfies the model. */
  lemma ValidateDetails(t: Tag, payload: Doc, now: string)
    ensures var r := Validate(t, payload, now);
      && (r.Err? ==> r.error != [] && ReportedNames(r.error) == FailingNames(Fields(t), payload, 0))
      && (r.Ok? ==> r.value.Keys == FieldNames(Fields(t), 0) && FieldsConform(Fields(t), r.value))
  {
    var model := TModel(Fields(t));
    CheckFieldsReportsAll(model, 0, payload, now);
    ModelsWellFormed(t);
    CheckValueOutput(model, Object(payload), now);
    CheckFieldsOutput(model, 0, payload, now);
  }

  // ---------------------------------------------------------------
  // What each model demands
  // ---------------------------------------------------------------

  /** A number (int or float) of at least `lo`. */
  predicate NumberAtLeast(v: Value, lo: int) {
    (v.Int? && v.i >= lo) || (v.Float? && v.r >= lo as real)
  }

  /** A number (int or float) below `lo`. */
  predicate NumberBelow(v: Value, lo: int) {
    (v.Int? && v.i < lo) || (v.Float? && v.r < lo as real)
  }

  /** A number (int or float) above `hi`. */
  predicate NumberAbove(v: Value, hi: int) {
    (v.Int? && v.i > hi) || (v.Float? && v.r > hi as real)
  }

  /** What validation says about the `j`-th declared field of a model: on
      success the record holds that field's own outcome; a violation of
      that field makes the whole validation fail and is reported. */
  lemma FieldOutcome(t: Tag, p: Doc, now: string, j: nat)
    requires j < |Fields(t)|
    ensures Validate(t, p, now).Ok? ==>
      Fields(t)[j].name in Validate(t, p, now).value &&
      CheckField(Fields(t)[j], p, now) == Ok(Validate(t, p, now).value[Fields(t)[j].name])
    ensures CheckField(Fields(t)[j], p, now).Err? ==>
      Validate(t, p, now).Err? &&
      forall v :: v in CheckField(Fields(t)[j], p, now).error ==> v in Validate(t, p, now).error
  {
    var model := TModel(Fields(t));
    ModelsWellFormed(t);
    CheckFieldsOutput(model, 0, p, now);
    if CheckField(Fields(t)[j], p, now).Err? {
      CheckFieldsKeeps(model, 0, p, now, j);
    }
  }

  /** A required field is present in every payload that validates, and
      its absence is reported. */
  lemma RequiredField(t: Tag, p: Doc, now: string, j: nat)
    requires j < |Fields(t)| && Fields(t)[j].default.Required?
    ensures Validate(t, p, now).Ok? ==> Fields(t)[j].name in p
    ensures Fields(t)[j].name !in p ==>
      Validate(t, p, now).Err? &&
      Violation([Key(Fields(t)[j].name)], Missing) in Validate(t, p, now).error
  {
    FieldOutcome(t, p, now, j);
  }

  /** An omitted optional field holds its default in the record. */
  lemma DefaultField(t: Tag, p: Doc, now: string, j: nat)
    requires j < |Fields(t)| && !Fields(t)[j].default.Required?
    ensures Validate(t, p, now).Ok? && Fields(t)[j].name !in p ==>
      var r := Validate(t, p, now).value;
      Fields(t)[j].name in r && r[Fields(t)[j].name] == DefaultValue(Fields(t)[j].default, now)
  {
    FieldOutcome(t, p, now, j);
  }

  /** Every field of a record satisfies its declaration. */
  lemma RecordField(t: Tag, p: Doc, now: string, j: nat)
    requires j < |Fields(t)|
    ensures Validate(t, p, now).Ok? ==>
      var r := Validate(t, p, now).value;
      var f := Fields(t)[j];
      f.name in r && ((f.nullable && r[f.name] == Null) || Conforms(f.ty, r[f.name]))
  {
    if Validate(t, p, now).Ok? {
      ValidateDetails(t, p, now);
      assert FieldConforms(Fields(t)[j], Validate(t, p, now).value);
      FieldOutcome(t, p, now, j);
    }
  }

  /** `Patient` requires both names. */
  lemma PatientRequired(p: Doc, now: string)
    ensures Validate(Patient, p, now).Ok? ==> "first_name" in p && "last_name" in p
  {
    RequiredField(Patient, p, now, 0);
    RequiredField(Patient, p, now, 1);
  }

  /** `Patient.balance` defaults to 0, is never negative in a record, and a
      negative balance is reported. */
  lemma PatientBalance(p: Doc, now: string)
    ensures Validate(Patient, p, now).Ok? ==>
      var r := Validate(Patient, p, now).value;
      && "balance" in r && NumberAtLeast(r["balance"], 0)
      && ("balance" !in p ==> r["balance"] == Int(0))
    ensures "balance" in p && NumberBelow(p["balance"], 0) ==>
      Validate(Patient, p, now).Err? &&
      Violation([Key("balance")], TooSmall) in Validate(Patient, p, now).error
  {
    RecordField(Patient, p, now, 11);
    DefaultField(Patient, p, now, 11);
    if "balance" in p && NumberBelow(p["balance"], 0) {
      FieldOutcome(Patient, p, now, 11);
      TooSmallReported(PatientFields[11], p, now);
    }
  }

  /** `Patient.allergies` defaults to an empty list. */
  lemma PatientAllergies(p: Doc, now: string)
    ensures Validate(Patient, p, now).Ok? && "allergies" !in p ==>
      var r := Validate(Patient, p, now).value;
      "allergies" in r && r["allergies"] == List([])
  {
    DefaultField(Patient, p, now, 7);
  }

  /** Receptionists and doctors both need a name and an email, and are
      active unless the payload says otherwise. */
  lemma StaffRules(t: Tag, p: Doc, now: string)
    requires t == Receptionist || t == Doctor
    ensures Validate(t, p, now).Ok? ==> "name" in p && "email" in p
    ensures Validate(t, p, now).Ok? && "is_active" !in p ==>
      var r := Validate(t, p, now).value;
      "is_active" in r && r["is_active"] == Bool(true)
  {
    RequiredField(t, p, now, 0);
    RequiredField(t, p, now, 1);
    DefaultField(t, p, now, if t == Receptionist then 4 else 5);
  }

  /** `Receptionist.shift` is one of three shifts, "morning" when omitted;
      any other value is reported. */
  lemma ReceptionistShift(p: Doc, now: string)
    ensures Validate(Receptionist, p, now).Ok? ==>
      var r := Validate(Receptionist, p, now).value;
      && "shift" in r && r["shift"] in {Str("morning"), Str("evening"), Str("night")}
      && ("shift" !in p ==> r["shift"] == Str("morning"))
    ensures "shift" in p && p["shift"] !in {Str("morning"), Str("evening"), Str("night")} ==>
      Validate(Receptionist, p, now).Err? &&
      Violation([Key("shift")], NotAllowed) in Validate(Receptionist, p, now).error
  {
    RecordField(Receptionist, p, now, 3);
    DefaultField(Receptionist, p, now, 3);
    if "shift" in p && p["shift"] !in {Str("morning"), Str("evening"), Str("night")} {
      FieldOutcome(Receptionist, p, now, 3);
      NotAllowedReported(ReceptionistFields[3], p, now);
    }
  }

  /** The duration field of a procedure or an appointment. */
  function DurationName(t: Tag): string
    requires t == Procedure || t == Appointment
  {
    if t == Procedure then "default_duration_min" else "duration_min"
  }

  /** A procedure's default duration and an appointment's duration are whole
      minutes in [5, 480], 30 when omitted; out-of-range values are reported
      as too small or too large. */
  lemma DurationRules(t: Tag, p: Doc, now: string)
    requires t == Procedure || t == Appointment
    ensures Validate(t, p, now).Ok? ==>
      var r := Validate(t, p, now).value;
      var n := DurationName(t);
      && n in r && r[n].Int? && 5 <= r[n].i <= 480
      && (n !in p ==> r[n] == Int(30))
    ensures DurationName(t) in p && p[DurationName(t)].Int? && p[DurationName(t)].i < 5 ==>
      Validate(t, p, now).Err? &&
      Violation([Key(DurationName(t))], TooSmall) in Validate(t, p, now).error
    ensures DurationName(t) in p && p[DurationName(t)].Int? && p[DurationName(t)].i > 480 ==>
      Validate(t, p, now).Err? &&
      Violation([Key(DurationName(t))], TooLarge) in Validate(t, p, now).error
  {
    var f := Fields(t)[3];
    RecordField(t, p, now, 3);
    DefaultField(t, p, now, 3);
    FieldOutcome(t, p, now, 3);
    var n := DurationName(t);
    if n in p && p[n].Int? && p[n].i < 5 {
      TooSmallReported(f, p, now);
    }
    if n in p && p[n].Int? && p[n].i > 480 {
      TooLargeReported(f, p, now);
    }
  }

  /** `Procedure.base_fee` is required and never negative. */
  lemma ProcedureFee(p: Doc, now: string)
    ensures Validate(Procedure, p, now).Ok? ==>
      var r := Validate(Procedure, p, now).value;
      "base_fee" in p && "base_fee" in r && NumberAtLeast(r["base_fee"], 0)
    ensures "base_fee" in p && NumberBelow(p["base_fee"], 0) ==>
      Validate(Procedure, p, now).Err? &&
      Violation([Key("base_fee")], TooSmall) in Validate(Procedure, p, now).error
  {
    RequiredField(Procedure, p, now, 4);
    RecordField(Procedure, p, now, 4);
    if "base_fee" in p && NumberBelow(p["base_fee"], 0) {
      FieldOutcome(Procedure, p, now, 4);
      TooSmallReported(ProcedureFields[4], p, now);
    }
  }

  /** An appointment names its patient, its doctor and its start. */
  lemma AppointmentRequired(p: Doc, now: string)
    ensures Validate(Appointment, p, now).Ok? ==>
      "patient_id" in p && "doctor_id" in p && "start_time" in p
  {
    RequiredField(Appointment, p, now, 0);
    RequiredField(Appointment, p, now, 1);
    RequiredField(Appointment, p, now, 2);
  }

  /** `Appointment.status` is one of six states, "scheduled" when omitted;
      any other value is reported. */
  lemma AppointmentStatus(p: Doc, now: string)
    ensures Validate(Appointment, p, now).Ok? ==>
      var r := Validate(Appointment, p, now).value;
      && "status" in r && r["status"].Str? && r["status"].s in AppointmentStatuses
      && ("status" !in p ==> r["status"] == Str("scheduled"))
    ensures "status" in p && !(p["status"].Str? && p["status"].s in AppointmentStatuses) ==>
      Validate(Appointment, p, now).Err? &&
      Violation([Key("status")], NotAllowed) in Validate(Appointment, p, now).error
  {
    RecordField(Appointment, p, now, 5);
    DefaultField(Appointment, p, now, 5);
    if "status" in p && !(p["status"].Str? && p["status"].s in AppointmentStatuses) {
      FieldOutcome(Appointment, p, now, 5);
      NotAllowedReported(AppointmentFields[5], p, now);
    }
  }

  /** `Payment.amount` is required and never negative. */
  lemma PaymentAmount(p: Doc, now: string)
    ensures Validate(Payment, p, now).Ok? ==>
      var r := Validate(Payment, p, now).value;
      "amount" in p && "amount" in r && NumberAtLeast(r["amount"], 0)
    ensures "amount" in p && NumberBelow(p["amount"], 0) ==>
      Validate(Payment, p, now).Err? &&
      Violation([Key("amount")], TooSmall) in Validate(Payment, p, now).error
  {
    RequiredField(Payment, p, now, 1);
    RecordField(Payment, p, now, 1);
    if "amount" in p && NumberBelow(p["amount"], 0) {
      FieldOutcome(Payment, p, now, 1);
      TooSmallReported(PaymentFields[1], p, now);
    }
  }

  /** `Payment.method` is required and one of four. */
  lemma PaymentMethod(p: Doc, now: string)
    ensures Validate(Payment, p, now).Ok? ==>
      var r := Validate(Payment, p, now).value;
      "method" in p && "method" in r && r["method"].Str? && r["method"].s in PaymentMethods
    ensures "method" in p && !(p["method"].Str? && p["method"].s in PaymentMethods) ==>
      Validate(Payment, p, now).Err? &&
      Violation([Key("method")], NotAllowed) in Validate(Payment, p, now).error
  {
    RequiredField(Payment, p, now, 2);
    RecordField(Payment, p, now, 2);
    if "method" in p && !(p["method"].Str? && p["method"].s in PaymentMethods) {
      FieldOutcome(Payment, p, now, 2);
      NotAllowedReported(PaymentFields[2], p, now);
    }
  }

  /** A payment is "paid", dated now and without line items unless the
      payload says otherwise. */
  lemma PaymentDefaults(p: Doc, now: string)
    ensures Validate(Payment, p, now).Ok? ==>
      var r := Validate(Payment, p, now).value;
      && "status" in r && ("status" !in p ==> r["status"] == Str("paid"))
      && "date_time" in r && ("date_time" !in p ==> r["date_time"] == DateTime(now))
      && "items" in r && ("items" !in p ==> r["items"] == List([]))
  {
    RecordField(Payment, p, now, 3);
    RecordField(Payment, p, now, 5);
    RecordField(Payment, p, now, 6);
    DefaultField(Payment, p, now, 3);
    DefaultField(Payment, p, now, 5);
    DefaultField(Payment, p, now, 6);
  }

  /** Every line item of a validated payment has a non-negative amount. */
  lemma PaymentItemAmounts(p: Doc, now: string)
    ensures Validate(Payment, p, now).Ok? ==>
      var r := Validate(Payment, p, now).value;
      && "items" in r && r["items"].List?
      && forall k :: 0 <= k < |r["items"].items| ==>
           var item := r["items"].items[k];
           item.Object? && "amount" in item.entries && NumberAtLeast(item.entries["amount"], 0)
  {
    RecordField(Payment, p, now, 6);
    if Validate(Payment, p, now).Ok? {
      var r := Validate(Payment, p, now).value;
      assert FieldConforms(PaymentFields[6], r);
      ConformingItems(r["items"]);
    }
  }

  /** A list of line items that conforms has a non-negative amount in
      every item. */
  lemma ConformingItems(v: Value)
    requires Conforms(TList(TModel(PaymentItemFields)), v)
    ensures v.List?
    ensures forall k :: 0 <= k < |v.items| ==>
      v.items[k].Object? && "amount" in v.items[k].entries && NumberAtLeast(v.items[k].entries["amount"], 0)
  {
    forall k | 0 <= k < |v.items|
      ensures v.items[k].Object? && "amount" in v.items[k].entries
           && NumberAtLeast(v.items[k].entries["amount"], 0)
    {
      assert Conforms(TModel(PaymentItemFields), v.items[k]);
      assert FieldConforms(PaymentItemFields[1], v.items[k].entries);
    }
  }

  /** The number of entries of a payload's `items` list. */
  function ItemCount(p: Doc): nat {
    if "items" in p && p["items"].List? then |p["items"].items| else 0
  }

  /** Item `k` of the payload is an object whose amount is a negative number. */
  predicate NegativeItemAmount(p: Doc, k: nat)
    requires k < ItemCount(p)
  {
    var item := p["items"].items[k];
    item.Object? && "amount" in item.entries && NumberBelow(item.entries["amount"], 0)
  }

  lemma NegativeItemReported(p: Doc, now: string, k: nat)
    requires k < ItemCount(p) && NegativeItemAmount(p, k)
    ensures Validate(Payment, p, now).Err?
    ensures Violation([Key("items"), Index(k), Key("amount")], TooSmall) in Validate(Payment, p, now).error
  {
    var listTy := TList(TModel(PaymentItemFields));
    var inList := Violation([Index(k), Key("amount")], TooSmall);
    NegativeItemInList(p["items"].items, now, k);
    var field := PaymentFields[6];
    assert CheckField(field, p, now) == Err(Prefixed(Key("items"), CheckValue(listTy, p["items"], now).error));
    PrefixedHas(Key("items"), CheckValue(listTy, p["items"], now).error, inList);
    assert [Key("items")] + inList.loc == [Key("items"), Index(k), Key("amount")];
    FieldOutcome(Payment, p, now, 6);
  }

  /** A line item with a negative amount fails the list of items, reported
      at its index. */
  lemma NegativeItemInList(items: seq<Value>, now: string, k: nat)
    requires k < |items| && items[k].Object?
    requires "amount" in items[k].entries && NumberBelow(items[k].entries["amount"], 0)
    ensures CheckValue(TList(TModel(PaymentItemFields)), List(items), now).Err?
    ensures Violation([Index(k), Key("amount")], TooSmall) in
      CheckValue(TList(TModel(PaymentItemFields)), List(items), now).error
  {
    var item := items[k].entries;
    var itemModel := TModel(PaymentItemFields);
    var listTy := TList(itemModel);
    TooSmallReported(PaymentItemFields[1], item, now);
    CheckFieldsKeeps(itemModel, 0, item, now, 1);
    var inItem := Violation([Key("amount")], TooSmall);
    assert inItem in CheckValue(itemModel, items[k], now).error;
    CheckItemsKeeps(listTy, items, 0, now, k);
    assert [Index(k)] + inItem.loc == [Index(k), Key("amount")];
  }

  /** `Report.type` is required and one of four kinds. */
  lemma ReportType(p: Doc, now: string)
    ensures Validate(Report, p, now).Ok? ==>
      var r := Validate(Report, p, now).value;
      "type" in p && "type" in r && r["type"].Str? && r["type"].s in ReportTypes
    ensures "type" in p && !(p["type"].Str? && p["type"].s in ReportTypes) ==>
      Validate(Report, p, now).Err? &&
      Violation([Key("type")], NotAllowed) in Validate(Report, p, now).error
  {
    RequiredField(Report, p, now, 0);
    RecordField(Report, p, now, 0);
    if "type" in p && !(p["type"].Str? && p["type"].s in ReportTypes) {
      FieldOutcome(Report, p, now, 0);
      NotAllowedReported(ReportFields[0], p, now);
    }
  }

  /** `Consumable.unit` is one of seven units, "pcs" when omitted. */
  lemma ConsumableUnit(p: Doc, now: string)
    ensures Validate(Consumable, p, now).Ok? ==>
      var r := Validate(Consumable, p, now).value;
      && "unit" in r && r["unit"].Str? && r["unit"].s in Units
      && ("unit" !in p ==> r["unit"] == Str("pcs"))
    ensures "unit" in p && !(p["unit"].Str? && p["unit"].s in Units) ==>
      Validate(Consumable, p, now).Err? &&
      Violation([Key("unit")], NotAllowed) in Validate(Consumable, p, now).error
  {
    RecordField(Consumable, p, now, 1);
    DefaultField(Consumable, p, now, 1);
    if "unit" in p && !(p["unit"].Str? && p["unit"].s in Units) {
      FieldOutcome(Consumable, p, now, 1);
      NotAllowedReported(ConsumableFields[1], p, now);
    }
  }

  /** The stock quantity, reorder level and unit cost of a consumable
      (fields 2, 3 and 4) are never negative and are 0 when omitted. */
  lemma ConsumableQuantities(p: Doc, now: string, j: nat)
    requires 2 <= j <= 4
    ensures ConsumableFields[j].name in {"stock_qty", "reorder_level", "cost_per_unit"}
    ensures Validate(Consumable, p, now).Ok? ==>
      var r := Validate(Consumable, p, now).value;
      var n := ConsumableFields[j].name;
      && n in r && NumberAtLeast(r[n], 0)
      && (n !in p ==> r[n] == Int(0))
    ensures ConsumableFields[j].name in p && NumberBelow(p[ConsumableFields[j].name], 0) ==>
      Validate(Consumable, p, now).Err? &&
      Violation([Key(ConsumableFields[j].name)], TooSmall) in Validate(Consumable, p, now).error
  {
    var n := ConsumableFields[j].name;
    RecordField(Consumable, p, now, j);
    DefaultField(Consumable, p, now, j);
    if n in p && NumberBelow(p[n], 0) {
      FieldOutcome(Consumable, p, now, j);
      TooSmallReported(ConsumableFields[j], p, now);
    }
  }
}
