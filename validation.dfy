/** A generic pydantic-style validator: a schema is a sequence of field
    declarations, and validating a payload either builds the record (given
    values, coerced, plus defaults for omitted fields) or lists every
    violated constraint. */
module Validation {

  import opened Wrappers
  import opened Values

  /** A numeric constraint: `Field(ge=lo)` or `Field(ge=lo, le=hi)`. */
  datatype Bound = Unbounded | AtLeast(lo: int) | Within(lo: int, hi: int)

  /** The declared type of a field. */
  datatype Ty =
    | TStr
    | TBool
    | TInt(bound: Bound)
    | TFloat(bound: Bound)
    | TDate
    | TDateTime
    | TLiteral(choices: seq<string>)
    | TList(elem: Ty)
    | TModel(fields: seq<Field>)
    | TAnyDict

  /** What happens when a field is omitted. */
  datatype Default =
    | Required
    | Given(v: Value)
      /** `default_factory=datetime.utcnow`: the caller's current time. */
    | Now

  /** One declaration `name: [Optional[]ty] = default`. */
  datatype Field = Field(name: string, ty: Ty, nullable: bool, default: Default)

  /** One step of the location of a violation: a field name or a list index. */
  datatype Loc = Key(name: string) | Index(i: nat)

  datatype Problem = Missing | WrongType | NotAllowed | TooSmall | TooLarge

  datatype Violation = Violation(loc: seq<Loc>, problem: Problem)

  // ---------------------------------------------------------------
  // The reference: what it means for a value to satisfy a schema
  // ---------------------------------------------------------------

  predicate InBound(b: Bound, x: real) {
    match b
    case Unbounded => true
    case AtLeast(lo) => lo as real <= x
    case Within(lo, hi) => lo as real <= x <= hi as real
  }

  predicate Conforms(ty: Ty, v: Value)
    decreases ty, 0
  {
    match ty
    case TStr => v.Str?
    case TBool => v.Bool?
    case TInt(b) => v.Int? && InBound(b, v.i as real)
    case TFloat(b) =>
      (v.Int? && InBound(b, v.i as real)) || (v.Float? && InBound(b, v.r))
    case TDate => v.Date?
    case TDateTime => v.DateTime?
    case TLiteral(cs) => v.Str? && v.s in cs
    case TList(e) => v.List? && forall i :: 0 <= i < |v.items| ==> Conforms(e, v.items[i])
    case TModel(fs) => v.Object? && forall i :: 0 <= i < |fs| ==> FieldConforms(fs[i], v.entries)
    case TAnyDict => v.Object?
  }

  /** A field is satisfied by a document when it is present with an
      acceptable value (`None` for an `Optional` field), or absent and not
      required. Keys the schema does not declare are ignored. */
  predicate FieldConforms(f: Field, m: Doc)
    decreases f.ty, 1
  {
    if f.name in m then (f.nullable && m[f.name] == Null) || Conforms(f.ty, m[f.name])
    else !f.default.Required?
  }

  predicate FieldsConform(fs: seq<Field>, m: Doc) {
    forall i :: 0 <= i < |fs| ==> FieldConforms(fs[i], m)
  }

  // ---------------------------------------------------------------
  // The validator
  // ---------------------------------------------------------------

  function Prefixed(l: Loc, vs: seq<Violation>): (r: seq<Violation>)
    ensures |r| == |vs|
    ensures forall i :: 0 <= i < |vs| ==> r[i] == Violation([l] + vs[i].loc, vs[i].problem)
  {
    seq(|vs|, i requires 0 <= i < |vs| => Violation([l] + vs[i].loc, vs[i].problem))
  }

  function Fail(p: Problem): Result<Value, seq<Violation>> {
    Err([Violation([], p)])
  }

  function CheckBound(b: Bound, x: real, v: Value): Result<Value, seq<Violation>> {
    match b
    case Unbounded => Ok(v)
    case AtLeast(lo) => if x < lo as real then Fail(TooSmall) else Ok(v)
    case Within(lo, hi) =>
      if x < lo as real then Fail(TooSmall)
      else if x > hi as real then Fail(TooLarge)
      else Ok(v)
  }

  /** Validate one value against a type: the coerced value, or every
      violation found inside it, located relative to the value. */
  function CheckValue(ty: Ty, v: Value, now: string): Result<Value, seq<Violation>>
    decreases ty, 2
  {
    match ty
    case TStr => if v.Str? then Ok(v) else Fail(WrongType)
    case TBool => if v.Bool? then Ok(v) else Fail(WrongType)
    case TInt(b) => if v.Int? then CheckBound(b, v.i as real, v) else Fail(WrongType)
    case TFloat(b) =>
      if v.Int? then CheckBound(b, v.i as real, Float(v.i as real))
      else if v.Float? then CheckBound(b, v.r, v)
      else Fail(WrongType)
    case TDate => if v.Date? then Ok(v) else Fail(WrongType)
    case TDateTime => if v.DateTime? then Ok(v) else Fail(WrongType)
    case TLiteral(cs) => if v.Str? && v.s in cs then Ok(v) else Fail(NotAllowed)
    case TList(e) =>
      if v.List? then
        match CheckItems(ty, v.items, 0, now)
        case Ok(xs) => Ok(List(xs))
        case Err(vs) => Err(vs)
      else Fail(WrongType)
    case TModel(fs) =>
      if v.Object? then
        match CheckFields(ty, 0, v.entries, now)
        case Ok(m) => Ok(Object(m))
        case Err(vs) => Err(vs)
      else Fail(WrongType)
    case TAnyDict => if v.Object? then Ok(v) else Fail(WrongType)
  }

  /** The items `xs[i..]` of a list of type `listTy`. */
  function CheckItems(listTy: Ty, xs: seq<Value>, i: nat, now: string): Result<seq<Value>, seq<Violation>>
    requires listTy.TList? && i <= |xs|
    decreases listTy, 1, |xs| - i
  {
    if i == |xs| then Ok([])
    else
      var head := CheckValue(listTy.elem, xs[i], now);
      var rest := CheckItems(listTy, xs, i + 1, now);
      match (head, rest)
      case (Ok(x), Ok(ys)) => Ok([x] + ys)
      case (Ok(_), Err(vs)) => Err(vs)
      case (Err(hs), Ok(_)) => Err(Prefixed(Index(i), hs))
      case (Err(hs), Err(vs)) => Err(Prefixed(Index(i), hs) + vs)
  }

  function DefaultValue(d: Default, now: string): Value
    requires !d.Required?
  {
    match d
    case Given(v) => v
    case Now => DateTime(now)
  }

  /** One field of a payload: its value in the record, or its violations,
      located from the field's name. */
  function CheckField(f: Field, m: Doc, now: string): Result<Value, seq<Violation>>
    decreases f.ty, 3
  {
    if f.name in m then
      if f.nullable && m[f.name] == Null then Ok(Null)
      else
        match CheckValue(f.ty, m[f.name], now)
        case Ok(x) => Ok(x)
        case Err(vs) => Err(Prefixed(Key(f.name), vs))
    else if f.default.Required? then Err([Violation([Key(f.name)], Missing)])
    else Ok(DefaultValue(f.default, now))
  }

  /** The fields `model.fields[i..]`: all of them checked, all their
      violations collected in declaration order. */
  function CheckFields(model: Ty, i: nat, m: Doc, now: string): Result<Doc, seq<Violation>>
    requires model.TModel? && i <= |model.fields|
    decreases model, 1, |model.fields| - i
  {
    if i == |model.fields| then Ok(map[])
    else
      var f := model.fields[i];
      var head := CheckField(f, m, now);
      var rest := CheckFields(model, i + 1, m, now);
      match (head, rest)
      case (Ok(x), Ok(r)) => Ok(r[f.name := x])
      case (Ok(_), Err(vs)) => Err(vs)
      case (Err(hs), Ok(_)) => Err(hs)
      case (Err(hs), Err(vs)) => Err(hs + vs)
  }

  // ---------------------------------------------------------------
  // Well-formed schemas
  // ---------------------------------------------------------------

  predicate DistinctNames(fs: seq<Field>) {
    forall i, j :: 0 <= i < j < |fs| ==> fs[i].name != fs[j].name
  }

  /** A declared default satisfies its own field's declaration. */
  predicate DefaultFits(f: Field) {
    match f.default
    case Required => true
    case Given(v) => (f.nullable && v == Null) || Conforms(f.ty, v)
    case Now => f.ty.TDateTime?
  }

  predicate WellFormed(ty: Ty)
    decreases ty
  {
    match ty
    case TList(e) => WellFormed(e)
    case TModel(fs) =>
      DistinctNames(fs) && forall i :: 0 <= i < |fs| ==> DefaultFits(fs[i]) && WellFormed(fs[i].ty)
    case _ => true
  }

  /** Types whose accepted values pass through validation unchanged. */
  predicate Plain(ty: Ty)
    decreases ty
  {
    match ty
    case TFloat(_) => false
    case TModel(_) => false
    case TList(e) => Plain(e)
    case _ => true
  }

  function FieldNames(fs: seq<Field>, i: nat): set<string>
    requires i <= |fs|
  {
    set j | i <= j < |fs| :: fs[j].name
  }

  /** The names of the fields (from index `i` on) that a document violates. */
  function FailingNames(fs: seq<Field>, m: Doc, i: nat): set<string>
    requires i <= |fs|
  {
    set j | i <= j < |fs| && !FieldConforms(fs[j], m) :: fs[j].name
  }

  /** The field names at the head of the locations of some violations. */
  function ReportedNames(vs: seq<Violation>): set<string> {
    set k | 0 <= k < |vs| && vs[k].loc != [] && vs[k].loc[0].Key? :: vs[k].loc[0].name
  }

  // ---------------------------------------------------------------
  // Validation succeeds exactly on conforming values
  // ---------------------------------------------------------------

  lemma {:induction false} CheckValueSound(ty: Ty, v: Value, now: string)
    ensures CheckValue(ty, v, now).Ok? <==> Conforms(ty, v)
    decreases ty, 2
  {
    match ty
    case TList(e) =>
      if v.List? {
        CheckItemsSound(ty, v.items, 0, now);
      }
    case TModel(fs) =>
      if v.Object? {
        CheckFieldsSound(ty, 0, v.entries, now);
      }
    case _ =>
  }

  lemma {:induction false} CheckItemsSound(listTy: Ty, xs: seq<Value>, i: nat, now: string)
    requires listTy.TList? && i <= |xs|
    ensures CheckItems(listTy, xs, i, now).Ok?
        <==> forall j :: i <= j < |xs| ==> Conforms(listTy.elem, xs[j])
    decreases listTy, 1, |xs| - i
  {
    if i < |xs| {
      CheckValueSound(listTy.elem, xs[i], now);
      CheckItemsSound(listTy, xs, i + 1, now);
    }
  }

  lemma {:induction false} CheckFieldSound(f: Field, m: Doc, now: string)
    ensures CheckField(f, m, now).Ok? <==> FieldConforms(f, m)
    decreases f.ty, 3
  {
    if f.name in m {
      CheckValueSound(f.ty, m[f.name], now);
    }
  }

  lemma {:induction false} CheckFieldsSound(model: Ty, i: nat, m: Doc, now: string)
    requires model.TModel? && i <= |model.fields|
    ensures CheckFields(model, i, m, now).Ok?
        <==> forall j :: i <= j < |model.fields| ==> FieldConforms(model.fields[j], m)
    decreases model, 1, |model.fields| - i
  {
    if i < |model.fields| {
      CheckFieldSound(model.fields[i], m, now);
      CheckFieldsSound(model, i + 1, m, now);
    }
  }

  // ---------------------------------------------------------------
  // Every violated field is reported, and only those
  // ---------------------------------------------------------------

  /** Every violation sits under the field that produced it. */
  predicate AllUnder(vs: seq<Violation>, name: string) {
    forall k :: 0 <= k < |vs| ==> vs[k].loc != [] && vs[k].loc[0] == Key(name)
  }

  lemma ReportedConcat(a: seq<Violation>, b: seq<Violation>)
    ensures ReportedNames(a + b) == ReportedNames(a) + ReportedNames(b)
  {
    var ab := a + b;
    forall n | n in ReportedNames(ab) ensures n in ReportedNames(a) + ReportedNames(b) {
      var k :| 0 <= k < |ab| && ab[k].loc != [] && ab[k].loc[0].Key? && ab[k].loc[0].name == n;
      if k < |a| {
        assert ab[k] == a[k];
      } else {
        assert ab[k] == b[k - |a|];
      }
    }
    forall n | n in ReportedNames(a) + ReportedNames(b) ensures n in ReportedNames(ab) {
      if n in ReportedNames(a) {
        var k :| 0 <= k < |a| && a[k].loc != [] && a[k].loc[0].Key? && a[k].loc[0].name == n;
        assert ab[k] == a[k];
      } else {
        var k :| 0 <= k < |b| && b[k].loc != [] && b[k].loc[0].Key? && b[k].loc[0].name == n;
        assert ab[|a| + k] == b[k];
      }
    }
  }

  lemma ReportedUnder(vs: seq<Violation>, name: string)
    requires vs != [] && AllUnder(vs, name)
    ensures ReportedNames(vs) == {name}
  {
    assert vs[0].loc[0].name == name;
  }

  /** A failing field yields at least one violation, each located under it. */
  lemma CheckFieldErrors(f: Field, m: Doc, now: string)
    ensures CheckField(f, m, now).Err? ==>
      CheckField(f, m, now).error != [] && AllUnder(CheckField(f, m, now).error, f.name)
  {
    if f.name in m && !(f.nullable && m[f.name] == Null) {
      var c := CheckValue(f.ty, m[f.name], now);
      if c.Err? {
        CheckValueErrorsNonEmpty(f.ty, m[f.name], now);
      }
    }
  }

  lemma {:induction false} CheckValueErrorsNonEmpty(ty: Ty, v: Value, now: string)
    ensures CheckValue(ty, v, now).Err? ==> CheckValue(ty, v, now).error != []
    decreases ty, 2
  {
    match ty
    case TList(e) =>
      if v.List? {
        CheckItemsErrorsNonEmpty(ty, v.items, 0, now);
      }
    case TModel(fs) =>
      if v.Object? {
        CheckFieldsErrorsNonEmpty(ty, 0, v.entries, now);
      }
    case _ =>
  }

  lemma {:induction false} CheckItemsErrorsNonEmpty(listTy: Ty, xs: seq<Value>, i: nat, now: string)
    requires listTy.TList? && i <= |xs|
    ensures CheckItems(listTy, xs, i, now).Err? ==> CheckItems(listTy, xs, i, now).error != []
    decreases listTy, 1, |xs| - i
  {
    if i < |xs| {
      CheckValueErrorsNonEmpty(listTy.elem, xs[i], now);
      CheckItemsErrorsNonEmpty(listTy, xs, i + 1, now);
    }
  }

  lemma {:induction false} CheckFieldsErrorsNonEmpty(model: Ty, i: nat, m: Doc, now: string)
    requires model.TModel? && i <= |model.fields|
    ensures CheckFields(model, i, m, now).Err? ==> CheckFields(model, i, m, now).error != []
    decreases model, 1, |model.fields| - i
  {
    if i < |model.fields| {
      CheckFieldErrors(model.fields[i], m, now);
      CheckFieldsErrorsNonEmpty(model, i + 1, m, now);
    }
  }

  /** Validation does not stop at the first problem: the fields named by
      the violations are exactly the fields the document violates. */
  lemma {:induction false} CheckFieldsReportsAll(model: Ty, i: nat, m: Doc, now: string)
    requires model.TModel? && i <= |model.fields|
    ensures CheckFields(model, i, m, now).Err? ==>
      CheckFields(model, i, m, now).error != [] &&
      ReportedNames(CheckFields(model, i, m, now).error) == FailingNames(model.fields, m, i)
    decreases |model.fields| - i
  {
    var fs := model.fields;
    if i < |fs| {
      var f := fs[i];
      CheckFieldSound(f, m, now);
      CheckFieldErrors(f, m, now);
      CheckFieldsSound(model, i + 1, m, now);
      CheckFieldsReportsAll(model, i + 1, m, now);
      CheckFieldsErrorsNonEmpty(model, i + 1, m, now);
      var head := CheckField(f, m, now);
      var rest := CheckFields(model, i + 1, m, now);
      FailingNamesStep(fs, m, i);
      if rest.Ok? {
        assert FailingNames(fs, m, i + 1) == {};
      }
      if head.Err? {
        ReportedUnder(head.error, f.name);
        if rest.Err? {
          ReportedConcat(head.error, rest.error);
        }
      }
    }
  }

  lemma FailingNamesStep(fs: seq<Field>, m: Doc, i: nat)
    requires i < |fs|
    ensures FailingNames(fs, m, i)
      == (if FieldConforms(fs[i], m) then {} else {fs[i].name}) + FailingNames(fs, m, i + 1)
  {
    forall n | n in FailingNames(fs, m, i)
      ensures n in (if FieldConforms(fs[i], m) then {} else {fs[i].name}) + FailingNames(fs, m, i + 1)
    {
      var j :| i <= j < |fs| && !FieldConforms(fs[j], m) && fs[j].name == n;
      if j > i { assert n in FailingNames(fs, m, i + 1); }
    }
  }

  // ---------------------------------------------------------------
  // The record that validation builds
  // ---------------------------------------------------------------

  /** What a field holds in the record once validation succeeded: a value
      the field accepts, transformed as the declared type says. */
  lemma {:induction false} CheckValueOutput(ty: Ty, v: Value, now: string)
    requires WellFormed(ty)
    ensures CheckValue(ty, v, now).Ok? ==> Conforms(ty, CheckValue(ty, v, now).value)
    ensures CheckValue(ty, v, now).Ok? && Plain(ty) ==> CheckValue(ty, v, now).value == v
    decreases ty, 2
  {
    match ty
    case TList(e) =>
      if v.List? {
        CheckItemsOutput(ty, v.items, 0, now);
        if CheckItems(ty, v.items, 0, now).Ok? && Plain(ty) {
          assert v.items[0..] == v.items;
        }
      }
    case TModel(fs) =>
      if v.Object? {
        CheckFieldsOutput(ty, 0, v.entries, now);
        var c := CheckFields(ty, 0, v.entries, now);
        if c.Ok? {
          forall j | 0 <= j < |fs| ensures FieldConforms(fs[j], c.value) {
            CheckFieldOutput(fs[j], v.entries, now);
          }
        }
      }
    case _ =>
  }

  lemma {:induction false} CheckItemsOutput(listTy: Ty, xs: seq<Value>, i: nat, now: string)
    requires listTy.TList? && i <= |xs| && WellFormed(listTy)
    ensures CheckItems(listTy, xs, i, now).Ok? ==>
      var ys := CheckItems(listTy, xs, i, now).value;
      && |ys| == |xs| - i
      && (forall k :: 0 <= k < |ys| ==> Conforms(listTy.elem, ys[k]))
      && (Plain(listTy.elem) ==> ys == xs[i..])
    decreases listTy, 1, |xs| - i
  {
    if i < |xs| {
      CheckValueOutput(listTy.elem, xs[i], now);
      CheckItemsOutput(listTy, xs, i + 1, now);
      if CheckItems(listTy, xs, i, now).Ok? && Plain(listTy.elem) {
        assert xs[i..] == [xs[i]] + xs[i + 1..];
      }
    }
  }

  /** A field's value in the record: its default when omitted, `None` when
      an `Optional` field is given `None`, otherwise the validated value. */
  lemma {:induction false} CheckFieldOutput(f: Field, m: Doc, now: string)
    requires WellFormed(f.ty) && DefaultFits(f)
    ensures CheckField(f, m, now).Ok? ==>
      var x := CheckField(f, m, now).value;
      && ((f.nullable && x == Null) || Conforms(f.ty, x))
      && (f.name !in m ==> !f.default.Required? && x == DefaultValue(f.default, now))
      && (f.name in m && Plain(f.ty) ==> x == m[f.name])
      && (f.name in m && f.nullable && m[f.name] == Null ==> x == Null)
    decreases f.ty, 3
  {
    if f.name in m {
      CheckValueOutput(f.ty, m[f.name], now);
    }
  }

  lemma {:induction false} CheckFieldsOutput(model: Ty, i: nat, m: Doc, now: string)
    requires model.TModel? && i <= |model.fields| && WellFormed(model)
    ensures CheckFields(model, i, m, now).Ok? ==>
      var r := CheckFields(model, i, m, now).value;
      && r.Keys == FieldNames(model.fields, i)
      && forall j :: i <= j < |model.fields| ==>
           CheckField(model.fields[j], m, now).Ok? &&
           r[model.fields[j].name] == CheckField(model.fields[j], m, now).value
    decreases model, 1, |model.fields| - i
  {
    var fs := model.fields;
    if i < |fs| && CheckFields(model, i, m, now).Ok? {
      var head := CheckField(fs[i], m, now);
      var rest := CheckFields(model, i + 1, m, now);
      assert head.Ok? && rest.Ok?;
      CheckFieldsOutput(model, i + 1, m, now);
      var r := rest.value[fs[i].name := head.value];
      assert CheckFields(model, i, m, now).value == r;
      FieldNamesStep(fs, i);
      forall j | i < j < |fs|
        ensures CheckField(fs[j], m, now).Ok? && r[fs[j].name] == CheckField(fs[j], m, now).value
      {
        assert fs[i].name != fs[j].name;
      }
    }
  }

  lemma FieldNamesStep(fs: seq<Field>, i: nat)
    requires i < |fs|
    ensures FieldNames(fs, i) == {fs[i].name} + FieldNames(fs, i + 1)
  {
    forall n | n in FieldNames(fs, i) ensures n in {fs[i].name} + FieldNames(fs, i + 1) {
      var j :| i <= j < |fs| && fs[j].name == n;
      if j > i { assert n in FieldNames(fs, i + 1); }
    }
  }

  /** A violation of one field reaches the result of checking all fields. */
  lemma {:induction false} CheckFieldsKeeps(model: Ty, i: nat, m: Doc, now: string, j: nat)
    requires model.TModel? && i <= j < |model.fields|
    requires CheckField(model.fields[j], m, now).Err?
    ensures CheckFields(model, i, m, now).Err?
    ensures forall v :: v in CheckField(model.fields[j], m, now).error ==> v in CheckFields(model, i, m, now).error
    decreases |model.fields| - i
  {
    if i < j {
      CheckFieldsKeeps(model, i + 1, m, now, j);
    }
  }

  // ---------------------------------------------------------------
  // The single violation of a field that breaks one rule
  // ---------------------------------------------------------------

  function LowerBound(b: Bound): int
    requires !b.Unbounded?
  {
    match b
    case AtLeast(lo) => lo
    case Within(lo, _) => lo
  }

  predicate Numeric(ty: Ty) { ty.TInt? || ty.TFloat? }

  /** A number the numeric type accepts the kind of (ints only for `int`). */
  predicate NumberFor(ty: Ty, v: Value)
    requires Numeric(ty)
  {
    v.Int? || (ty.TFloat? && v.Float?)
  }

  function Magnitude(v: Value): real
    requires v.Int? || v.Float?
  {
    if v.Int? then v.i as real else v.r
  }

  lemma PrefixedOne(l: Loc, p: Problem)
    ensures Prefixed(l, [Violation([], p)]) == [Violation([l], p)]
  {
    assert [l] + [] == [l];
  }

  /** A number under a field's lower bound is reported once, as too small. */
  lemma TooSmallReported(f: Field, m: Doc, now: string)
    requires Numeric(f.ty) && !f.ty.bound.Unbounded?
    requires f.name in m && NumberFor(f.ty, m[f.name])
    requires Magnitude(m[f.name]) < LowerBound(f.ty.bound) as real
    ensures CheckField(f, m, now) == Err([Violation([Key(f.name)], TooSmall)])
  {
    PrefixedOne(Key(f.name), TooSmall);
  }

  /** A number over a field's upper bound is reported once, as too large. */
  lemma TooLargeReported(f: Field, m: Doc, now: string)
    requires Numeric(f.ty) && f.ty.bound.Within?
    requires f.name in m && NumberFor(f.ty, m[f.name])
    requires Magnitude(m[f.name]) > f.ty.bound.hi as real
    requires f.ty.bound.lo <= f.ty.bound.hi
    ensures CheckField(f, m, now) == Err([Violation([Key(f.name)], TooLarge)])
  {
    PrefixedOne(Key(f.name), TooLarge);
  }

  /** A value outside a literal field's choices is reported once. */
  lemma NotAllowedReported(f: Field, m: Doc, now: string)
    requires f.ty.TLiteral? && f.name in m && !(f.nullable && m[f.name] == Null)
    requires !(m[f.name].Str? && m[f.name].s in f.ty.choices)
    ensures CheckField(f, m, now) == Err([Violation([Key(f.name)], NotAllowed)])
  {
    PrefixedOne(Key(f.name), NotAllowed);
  }

  lemma PrefixedHas(l: Loc, vs: seq<Violation>, v: Violation)
    requires v in vs
    ensures Violation([l] + v.loc, v.problem) in Prefixed(l, vs)
  {
    var k :| 0 <= k < |vs| && vs[k] == v;
    assert Prefixed(l, vs)[k] == Violation([l] + v.loc, v.problem);
  }

  /** A violation inside one list item reaches the result of checking the
      list, located under the item's index. */
  lemma {:induction false} CheckItemsKeeps(listTy: Ty, xs: seq<Value>, i: nat, now: string, k: nat)
    requires listTy.TList? && i <= k < |xs|
    requires CheckValue(listTy.elem, xs[k], now).Err?
    ensures CheckItems(listTy, xs, i, now).Err?
    ensures forall v :: v in CheckValue(listTy.elem, xs[k], now).error ==>
      Violation([Index(k)] + v.loc, v.problem) in CheckItems(listTy, xs, i, now).error
    decreases |xs| - i
  {
    var vs := CheckValue(listTy.elem, xs[k], now).error;
    if i < k {
      CheckItemsKeeps(listTy, xs, i + 1, now, k);
    } else {
      forall v | v in vs
        ensures Violation([Index(k)] + v.loc, v.problem) in CheckItems(listTy, xs, i, now).error
      {
        PrefixedHas(Index(k), vs, v);
      }
    }
  }
}
