/** The payload schema of utils.py `WidgetSchemaValidator`: a declarative
    validity predicate built from one rule per field, and, as its partner,
    the error report that `validate()` returns, which holds one violation
    per field that fails. An empty report means the payload is valid. */
module Validation {
  import opened Text

  /** A decoded JSON value, as far as the schema tells values apart. */
  datatype Value = Null | Int(i: int) | Str(s: string) | Other

  /** A decoded request body: an object whose four schema keys are each
      absent or present, or some JSON value that is not an object. */
  datatype Payload =
    | Object(name: Option<Value>, numberOfParts: Option<Value>,
             dateCreated: Option<Value>, dateUpdated: Option<Value>)
    | NonObject

  /** The keys of an error report; `Schema` is marshmallow's `_schema`. */
  datatype Field = Schema | Name | NumberOfParts | DateCreated | DateUpdated

  datatype Violation =
    | InvalidInputType   // the body is not an object
    | MissingRequired    // a required key is absent
    | MayNotBeNull       // the key holds null
    | NotAString
    | LengthOutOfRange
    | NotAnInteger
    | NotADateTime

  type Errors = map<Field, seq<Violation>>

  const MIN_NAME_LENGTH: nat := 1
  const MAX_NAME_LENGTH: nat := 64

  // ---- The declared constraints ----

  /** `name`: required string of length 1 to 64. */
  predicate NameRule(v: Option<Value>) {
    v.Some? && v.value.Str? && MIN_NAME_LENGTH <= |v.value.s| <= MAX_NAME_LENGTH
  }

  /** `number_of_parts`: required integer. */
  predicate PartsRule(v: Option<Value>) {
    v.Some? && v.value.Int?
  }

  /** `date_created`, `date_updated`: optional; when present, a non-empty
      string that the datetime reader accepts. */
  predicate DateRule(v: Option<Value>, isoDateTime: string -> bool) {
    v.None? || (v.value.Str? && v.value.s != "" && isoDateTime(v.value.s))
  }

  /** The declared schema: the body is an object and every field meets its
      rule. Its partner is the report below, which is empty exactly when the
      payload is valid; the handlers decide between 400 and the store on
      that emptiness. */
  predicate Valid(p: Payload, isoDateTime: string -> bool)
    ensures Valid(p, isoDateTime) <==> ErrorsOf(p, isoDateTime) == map[]
  {
    var r := p.Object?
      && NameRule(p.name)
      && PartsRule(p.numberOfParts)
      && DateRule(p.dateCreated, isoDateTime)
      && DateRule(p.dateUpdated, isoDateTime);
    var e := ErrorsOf(p, isoDateTime);
    assert r <==> e == map[] by {
      if p.Object? {
        ReportedFields(p, isoDateTime);
        if r {
          assert e.Keys == {};
        } else {
          assert e.Keys != {};
        }
      } else {
        assert Schema in e;
      }
    }
    r
  }

  function NameOf(p: Payload): string
    requires p.Object? && NameRule(p.name)
  {
    p.name.value.s
  }

  function PartsOf(p: Payload): int
    requires p.Object? && PartsRule(p.numberOfParts)
  {
    p.numberOfParts.value.i
  }

  // ---- The report `validate()` returns ----

  /** What one field's deserialisation reports: missing and null first,
      then the type, then the length validator. */
  function CheckName(v: Option<Value>): Option<Violation> {
    match v
    case None => Some(MissingRequired)
    case Some(Null) => Some(MayNotBeNull)
    case Some(Str(s)) =>
      if |s| < MIN_NAME_LENGTH || |s| > MAX_NAME_LENGTH then Some(LengthOutOfRange) else None
    case Some(_) => Some(NotAString)
  }

  function CheckParts(v: Option<Value>): Option<Violation> {
    match v
    case None => Some(MissingRequired)
    case Some(Null) => Some(MayNotBeNull)
    case Some(Int(_)) => None
    case Some(_) => Some(NotAnInteger)
  }

  function CheckDate(v: Option<Value>, isoDateTime: string -> bool): Option<Violation> {
    match v
    case None => None
    case Some(Null) => Some(MayNotBeNull)
    case Some(Str(s)) => if s == "" || !isoDateTime(s) then Some(NotADateTime) else None
    case Some(_) => Some(NotADateTime)
  }

  function Report(f: Field, v: Option<Violation>): Errors {
    if v.None? then map[] else map[f := [v.value]]
  }

  /** `WidgetSchemaValidator().validate(payload)`. */
  function ErrorsOf(p: Payload, isoDateTime: string -> bool): (e: Errors)
    ensures forall f :: f in e ==> |e[f]| == 1
    ensures p.NonObject? ==> e == map[Schema := [InvalidInputType]]
  {
    match p
    case NonObject => map[Schema := [InvalidInputType]]
    case Object(name, parts, created, updated) =>
      Report(Name, CheckName(name)) + Report(NumberOfParts, CheckParts(parts))
        + Report(DateCreated, CheckDate(created, isoDateTime))
        + Report(DateUpdated, CheckDate(updated, isoDateTime))
  }

  // ---- The report and the rules agree ----

  /** A field is reported exactly when its rule fails, and no other key
      appears. */
  lemma ReportedFields(p: Payload, isoDateTime: string -> bool)
    requires p.Object?
    ensures var e := ErrorsOf(p, isoDateTime);
      && Schema !in e
      && (Name in e <==> !NameRule(p.name))
      && (NumberOfParts in e <==> !PartsRule(p.numberOfParts))
      && (DateCreated in e <==> !DateRule(p.dateCreated, isoDateTime))
      && (DateUpdated in e <==> !DateRule(p.dateUpdated, isoDateTime))
  {
  }

  /** A payload without `name` is rejected with a report on `name`. */
  lemma MissingNameRejected(p: Payload, isoDateTime: string -> bool)
    requires p.Object? && p.name.None?
    ensures !Valid(p, isoDateTime)
    ensures ErrorsOf(p, isoDateTime)[Name] == [MissingRequired]
  {
  }

  /** A string `name` passes its rule exactly when its length is 1 to 64;
      a name of length 0 or above 64 is reported as out of range. */
  lemma NameLengthRule(p: Payload, isoDateTime: string -> bool, s: string)
    requires p.Object? && p.name == Some(Str(s))
    ensures Name !in ErrorsOf(p, isoDateTime) <==> 1 <= |s| <= 64
    ensures (|s| == 0 || |s| > 64) ==> ErrorsOf(p, isoDateTime)[Name] == [LengthOutOfRange]
  {
  }

  /** A payload whose `number_of_parts` is absent or not an integer is rejected. */
  lemma PartsRequired(p: Payload, isoDateTime: string -> bool)
    requires p.Object? && (p.numberOfParts.None? || !p.numberOfParts.value.Int?)
    ensures !Valid(p, isoDateTime)
    ensures NumberOfParts in ErrorsOf(p, isoDateTime)
  {
  }

  /** Leaving out the optional timestamps never makes a payload invalid. */
  lemma DatesOptional(p: Payload, isoDateTime: string -> bool)
    requires p.Object?
    ensures Valid(p.(dateCreated := None, dateUpdated := None), isoDateTime)
        <==> NameRule(p.name) && PartsRule(p.numberOfParts)
    ensures Valid(p, isoDateTime) ==> Valid(p.(dateCreated := None), isoDateTime)
    ensures Valid(p, isoDateTime) ==> Valid(p.(dateUpdated := None), isoDateTime)
    ensures ErrorsOf(p.(dateCreated := None, dateUpdated := None), isoDateTime)
         == ErrorsOf(p, isoDateTime) - {DateCreated, DateUpdated}
  {
    var q := p.(dateCreated := None, dateUpdated := None);
    ReportedFields(p, isoDateTime);
    ReportedFields(q, isoDateTime);
  }
}
