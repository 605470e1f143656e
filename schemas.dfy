/** The hand-written parts of the marshmallow schemas: the status name
    codec of LeaseEsignatureSchema, SmartNested's foreign-key fallback and
    the field rules of ExecuteSchema. */
module Schemas {
  import opened Runtime
  import opened Json
  import Strings
  import opened Models

  // ---------------------------------------------------------------------------
  // Status names

  /** The member names of StatusEnum. */
  const MemberNames: set<string> := {"pending", "processing", "signed", "executed"}

  /** `status.name` */
  function StatusName(s: StatusEnum): (name: string)
    ensures name in MemberNames
  {
    match s
    case Pending => "pending"
    case Processing => "processing"
    case Signed => "signed"
    case Executed => "executed"
  }

  /** LeaseEsignatureSchema.get_status: the member name of the record's status. */
  function GetStatus(e: LeaseEsignature): (name: string)
    reads e
    ensures name in MemberNames
  {
    StatusName(e.status)
  }

  /** LeaseEsignatureSchema.load_status, as evidently intended: a member
      name gives that member; any other text gives None. */
  function LoadStatus(value: string): (r: Option<StatusEnum>)
    ensures r.Some? <==> value in MemberNames
    ensures r.Some? ==> StatusName(r.value) == value
  {
    if value == "pending" then Some(Pending)
    else if value == "processing" then Some(Processing)
    else if value == "signed" then Some(Signed)
    else if value == "executed" then Some(Executed)
    else None
  }

  /** Loading a dumped status gives the status back, and names are unique. */
  lemma StatusNameRoundTrip(s: StatusEnum, t: StatusEnum)
    ensures LoadStatus(StatusName(s)) == Some(s)
    ensures StatusName(s) == StatusName(t) ==> s == t
  {
  }

  /** What `getattr(StatusEnum, value)` yields: a member, another attribute
      of the enum class, or AttributeError (which load_status turns into None). */
  datatype EnumAttribute = Member(status: StatusEnum) | ClassAttribute(name: string) | NoAttribute

  /** Some of the attributes every Python enum class has besides its members. */
  const EnumClassAttributes: set<string> :=
    {"__name__", "__qualname__", "__module__", "__doc__", "__members__", "__class__", "mro"}

  /** load_status as written, on the JSON value the Method field passes it:
      `getattr` on the enum class, so any class attribute passes, not only
      member names; a non-null value that is not a str raises TypeError,
      which the `except AttributeError` does not catch. (A null never
      reaches load_status: the field refuses it first.) */
  function LoadStatusAsWritten(value: Json): (r: Result<EnumAttribute>)
    ensures r.Raise? <==> !value.Str?
    ensures r.Raise? ==> r.error == TypeError
    ensures r.Ok? ==> (r.value.Member? <==> value.s in MemberNames)
    ensures r.Ok? && r.value.Member? ==> LoadStatus(value.s) == Some(r.value.status)
  {
    match value
    case Str(name) =>
      (match LoadStatus(name)
       case Some(s) => Ok(Member(s))
       case None => Ok(if name in EnumClassAttributes then ClassAttribute(name) else NoAttribute))
    case _ => Raise(TypeError)
  }

  /** `load_status("__name__")` hands back the class's name instead of None:
      a client-supplied status that is not a member name gets through. */
  lemma LoadStatusAcceptsClassAttributes()
    ensures "__name__" !in MemberNames
    ensures LoadStatusAsWritten(Str("__name__")) == Ok(ClassAttribute("__name__"))
    ensures LoadStatus("__name__") == None
  {
  }

  // ---------------------------------------------------------------------------
  // SmartNested

  /** The attribute SmartNested reads when relation `attr` is not loaded:
      `attr.rstrip("s") + "_id"`. */
  function ForeignKeyName(attr: string): (key: string)
    ensures |key| >= 3 && key[|key| - 3..] == "_id"
  {
    Strings.RStrip(attr, 's') + "_id"
  }

  /** The key is `attr` with all of its trailing `s` removed, then `_id`. */
  lemma ForeignKeyNameShape(attr: string)
    ensures exists n ::
      && 0 <= n <= |attr| && ForeignKeyName(attr) == attr[..n] + "_id"
      && (n == 0 || attr[n - 1] != 's') && (forall k :: n <= k < |attr| ==> attr[k] == 's')
  {
    Strings.RStripShape(attr, 's');
    var n := |Strings.RStrip(attr, 's')|;
    assert ForeignKeyName(attr) == attr[..n] + "_id";
  }

  /** Every trailing `s` goes, not only a plural one: `leases` reads
      `lease_id`, `status` reads `statu_id`. */
  lemma ForeignKeyNameExamples()
    ensures ForeignKeyName("leases") == "lease_id"
    ensures ForeignKeyName("status") == "statu_id"
  {
    assert "leases"[..5] == "lease";
    assert "status"[..5] == "statu";
  }

  /** `int(v)` of an attribute value. */
  function ToInt(v: Json): (r: Result<int>)
    ensures r.Ok? <==> v.Num? || v.Bool? || (v.Str? && Strings.ParseInt(v.s).Some?)
    ensures v.Num? ==> r == Ok(v.n)
    ensures r.Raise? ==> (if v.Str? then r.error == ValueError else r.error == TypeError)
  {
    match v
    case Num(n) => Ok(n)
    case Bool(b) => Ok(if b then 1 else 0)
    case Str(s) => (match Strings.ParseInt(s) case Some(n) => Ok(n) case None => Raise(ValueError))
    case _ => Raise(TypeError)
  }

  /** SmartNested.serialize: a relation that is not loaded on the object
      becomes `{"id": int(<foreign key>)}`; a loaded one is serialized as
      the plain nested field does (`nested`). `loaded` are the keys of the
      object's `__dict__`, `attributes` its readable attributes. */
  function SmartNestedSerialize(attr: string, loaded: set<string>, attributes: map<string, Json>, nested: Json)
    : (r: Result<Json>)
    ensures attr in loaded ==> r == Ok(nested)
    ensures attr !in loaded && r.Ok? ==>
      && ForeignKeyName(attr) in attributes && ToInt(attributes[ForeignKeyName(attr)]).Ok?
      && r.value == Obj(map["id" := Num(ToInt(attributes[ForeignKeyName(attr)]).value)])
    ensures attr !in loaded && ForeignKeyName(attr) !in attributes ==> r == Raise(AttributeError)
    ensures attr !in loaded && ForeignKeyName(attr) in attributes ==>
      && (r.Ok? <==> ToInt(attributes[ForeignKeyName(attr)]).Ok?)
      && (r.Raise? ==> r.error == ToInt(attributes[ForeignKeyName(attr)]).error)
  {
    if attr in loaded then Ok(nested)
    else
      var key := ForeignKeyName(attr);
      if key !in attributes then Raise(AttributeError)
      else match ToInt(attributes[key])
        case Ok(n) => Ok(Obj(map["id" := Num(n)]))
        case Raise(e) => Raise(e)
  }

  // ---------------------------------------------------------------------------
  // ExecuteSchema

  /** The data ExecuteSchema loads from the body of an execute request. */
  datatype ExecuteData = ExecuteData(name: string, initials: string, title: Option<string>)

  /** `Schema.load`: the loaded data, or the ValidationError's messages,
      one per offending field. */
  datatype Loaded<T> = Valid(data: T) | Invalid(errors: map<string, string>)

  /** The outcome of deserializing one `fields.Str()`. */
  datatype FieldCheck = Absent | Present(s: string) | Failed(message: string)

  const ExecuteFields: set<string> := {"name", "initials", "title"}
  const NameRequired := "Name is required."
  const InitialsRequired := "Initials are required."
  const NotNull := "Field may not be null."
  const NotAString := "Not a valid string."
  const TooLong := "Longer than maximum length 3."
  const UnknownField := "Unknown field."
  const InvalidInput := "Invalid input type."

  /** One str field: the `required` message when it is missing and required,
      then the null and type checks, then the length validator. */
  function CheckStr(fields: map<string, Json>, key: string, required: Option<string>, maxLength: Option<nat>)
    : FieldCheck
  {
    if key !in fields then (if required.Some? then Failed(required.value) else Absent)
    else match fields[key]
      case Null => Failed(NotNull)
      case Str(s) => if maxLength.Some? && |s| > maxLength.value then Failed(TooLong) else Present(s)
      case _ => Failed(NotAString)
  }

  function ErrorOf(key: string, c: FieldCheck): map<string, string> {
    if c.Failed? then map[key := c.message] else map[]
  }

  /** What each outcome of CheckStr means about the field. */
  lemma CheckStrMeaning(fields: map<string, Json>, key: string, required: Option<string>, maxLength: Option<nat>)
    ensures var c := CheckStr(fields, key, required, maxLength);
      && (c.Present? <==> key in fields && fields[key].Str? && (maxLength.Some? ==> |fields[key].s| <= maxLength.value))
      && (c.Present? ==> c.s == fields[key].s)
      && (c.Absent? <==> key !in fields && required.None?)
      && (key !in fields && required.Some? ==> c == Failed(required.value))
  {
  }

  /** The messages of a load: one per unknown key, then one per failed field. */
  lemma ErrorsMeaning(fields: map<string, Json>, name: FieldCheck, initials: FieldCheck, title: FieldCheck,
                      errors: map<string, string>)
    requires errors == (map k | k in fields.Keys - ExecuteFields :: UnknownField)
      + ErrorOf("name", name) + ErrorOf("initials", initials) + ErrorOf("title", title)
    ensures errors == map[] <==> !name.Failed? && !initials.Failed? && !title.Failed? && fields.Keys <= ExecuteFields
    ensures name.Failed? ==> "name" in errors && errors["name"] == name.message
    ensures initials.Failed? ==> "initials" in errors && errors["initials"] == initials.message
  {
    var unknown := map k | k in fields.Keys - ExecuteFields :: UnknownField;
    assert unknown.Keys == fields.Keys - ExecuteFields;
    assert unknown.Keys <= errors.Keys;
    assert name.Failed? ==> "name" in errors;
    assert initials.Failed? ==> "initials" in errors;
    assert title.Failed? ==> "title" in errors;
    if errors == map[] {
      forall k | k in fields.Keys ensures k in ExecuteFields {
        assert k !in unknown.Keys;
      }
    }
    assert initials.Failed? ==> "initials" in ErrorOf("initials", initials) && "initials" !in ErrorOf("title", title);
  }

  /** ExecuteSchema().load(body): `name` and `initials` are required strs,
      `initials` at most 3 characters long, `title` an optional str; any
      other key is an unknown field; a body that is not a dict is refused whole. */
  function LoadExecute(body: Json): (r: Loaded<ExecuteData>)
    ensures r.Valid? <==>
      && body.Obj? && body.fields.Keys <= ExecuteFields
      && "name" in body.fields && body.fields["name"].Str?
      && "initials" in body.fields && body.fields["initials"].Str? && |body.fields["initials"].s| <= 3
      && ("title" in body.fields ==> body.fields["title"].Str?)
    ensures r.Valid? ==>
      && r.data.name == body.fields["name"].s && r.data.initials == body.fields["initials"].s
      && r.data.title == (if "title" in body.fields then Some(body.fields["title"].s) else None)
    ensures body.Obj? && "name" !in body.fields ==> r.Invalid? && "name" in r.errors && r.errors["name"] == NameRequired
    ensures body.Obj? && "initials" !in body.fields ==> r.Invalid? && "initials" in r.errors && r.errors["initials"] == InitialsRequired
    ensures !body.Obj? ==> r == Invalid(map["_schema" := InvalidInput])
  {
    match body
    case Obj(fields) =>
      var name := CheckStr(fields, "name", Some(NameRequired), None);
      var initials := CheckStr(fields, "initials", Some(InitialsRequired), Some(3));
      var title := CheckStr(fields, "title", None, None);
      var errors := (map k | k in fields.Keys - ExecuteFields :: UnknownField)
        + ErrorOf("name", name) + ErrorOf("initials", initials) + ErrorOf("title", title);
      CheckStrMeaning(fields, "name", Some(NameRequired), None);
      CheckStrMeaning(fields, "initials", Some(InitialsRequired), Some(3));
      CheckStrMeaning(fields, "title", None, None);
      ErrorsMeaning(fields, name, initials, title, errors);
      if errors == map[] then
        Valid(ExecuteData(name.s, initials.s, if title.Present? then Some(title.s) else None))
      else
        Invalid(errors)
    case _ => Invalid(map["_schema" := InvalidInput])
  }
}
