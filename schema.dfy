/** Request schemas and `validationMiddleware`: each request part named by
    a schema (`params`, `body`, `query`, `file`, `files`) is validated with
    `abortEarly: false`, the failing parts are collected in schema order, and
    the request is refused with 400 when any part fails. */
module Schema {
  import opened Wrappers
  import opened Text
  import opened GeneralFields
  import opened Numerals

  /** A parsed request part, as the JSON parser, the router and multer leave it. */
  datatype Value =
    | Str(s: string)
    | Num(n: int)
    | Bool(b: bool)
    | Obj(fields: seq<(string, Value)>)
    | Arr(items: seq<Value>)

  /** The value stored under `key` (object keys are distinct). */
  function Get(fields: seq<(string, Value)>, key: string): (r: Option<Value>)
    ensures r.None? <==> forall i :: 0 <= i < |fields| ==> fields[i].0 != key
    ensures r.Some? ==> exists i :: 0 <= i < |fields| && fields[i] == (key, r.value)
  {
    if fields == [] then None
    else if fields[0].0 == key then Some(fields[0].1)
    else
      var r := Get(fields[1..], key);
      assert r.Some? ==> exists i :: 0 <= i < |fields[1..]| && fields[1..][i] == (key, r.value);
      assert forall i :: 0 < i < |fields| ==> fields[i] == fields[1..][i - 1];
      r
  }

  /** `joi.number().integer()` with conversion: a whole number in the safe
      range, or text that is a numeral with such a value (query strings
      arrive as text). */
  function AsInteger(v: Value): (r: Option<int>)
    ensures r.Some? ==> -MaxSafeInteger <= r.value <= MaxSafeInteger
    ensures v.Num? ==> (r.Some? <==> -MaxSafeInteger <= v.n <= MaxSafeInteger) && (r.Some? ==> r.value == v.n)
    ensures v.Str? ==> r == JoiInteger(v.s)
    ensures !v.Num? && !v.Str? ==> r.None?
  {
    match v
    case Num(n) => if -MaxSafeInteger <= n <= MaxSafeInteger then Some(n) else None
    case Str(s) => JoiInteger(s)
    case _ => None
  }

  /** `joi.number().positive()` with conversion: a number above zero in the
      safe range, or text that is a numeral with such a value. */
  predicate IsPositiveNumber(v: Value) {
    match v
    case Num(n) => 0 < n <= MaxSafeInteger
    case Str(s) => ParseNumeral(s).Some? && PositiveSafe(ParseNumeral(s).value)
    case _ => false
  }

  /** The rule attached to a key. */
  datatype Check =
    | UserNameRule                       // generalFields.userName
    | NameRule                           // generalFields.firstName / lastName
    | EmailRule                          // generalFields.email
    | PasswordRule                       // generalFields.password
    | PhoneRule                          // generalFields.phone
    | OtpRule                            // generalFields.OTP
    | IdRule                             // generalFields.id
    | AnyString                          // joi.string()
    | OneOf(allowed: seq<string>)        // joi.string().valid(...allowed)
    | SameAs(other: string)              // joi.string().valid(joi.ref(other))
    | PasswordOtherThan(other: string)   // generalFields.password.not(joi.ref(other))
    | SearchText                         // joi.string().trim().pattern(/^[\w\s@.]+$/).min(1).max(50)
    | IntegerAtLeast(min: int)           // joi.number().integer().min(min)
    | IntegerBetween(lo: int, hi: int)   // joi.number().integer().min(lo).max(hi)
    | PositiveNumber                     // joi.number().positive()
    | TextBetween(shortest: nat, longest: nat)  // joi.string().min(shortest).max(longest)

  /** A non-empty string that satisfies `p` (`joi.string()` refuses "" with `string.empty`). */
  predicate IsText(v: Value, p: string -> bool) {
    v.Str? && v.s != "" && p(v.s)
  }

  /** Whether the present value `v` of a key passes its rule; `siblings` are
      the other keys of the same object, which `joi.ref` reads. An allowed value
      (`valid`) is accepted before any type test. */
  predicate CheckOk(c: Check, v: Value, siblings: seq<(string, Value)>) {
    match c
    case UserNameRule => IsText(v, IsUserName)
    case NameRule => IsText(v, IsName)
    case EmailRule => IsText(v, IsEmail)
    case PasswordRule => IsText(v, IsPassword)
    case PhoneRule => IsText(v, IsPhone)
    case OtpRule => IsText(v, IsOtp)
    case IdRule => IsText(v, IsObjectId)
    case AnyString => IsText(v, s => true)
    case OneOf(allowed) => v.Str? && v.s in allowed
    case SameAs(other) => Get(siblings, other) == Some(v)
    case PasswordOtherThan(other) => Get(siblings, other) != Some(v) && IsText(v, IsPassword)
    case SearchText => v.Str? && IsSearchText(v.s)
    case IntegerAtLeast(min) => AsInteger(v).Some? && min <= AsInteger(v).value
    case IntegerBetween(lo, hi) => AsInteger(v).Some? && lo <= AsInteger(v).value <= hi
    case PositiveNumber => IsPositiveNumber(v)
    case TextBetween(shortest, longest) => IsText(v, s => shortest <= |s| <= longest)
  }

  /** One key of an object schema; `required` is `.required()`. */
  datatype Field = Field(name: string, check: Check, required: bool)

  /** One entry of the error details. */
  datatype Detail =
    | Required                            // the whole part is missing (`any.required`)
    | WrongType                           // not an object, not an array
    | Missing(key: string)                // a required key is absent
    | Invalid(key: string)                // a present key fails its rule
    | Unknown(key: string)                // a key the schema does not name
    | InItem(index: nat, inner: Detail)   // a problem inside one array item
    | TooFew                              // `array.min`
    | TooMany                             // `array.max`

  function Names(fields: seq<Field>): (r: seq<string>)
    ensures |r| == |fields|
    ensures forall i :: 0 <= i < |fields| ==> r[i] == fields[i].name
  {
    if fields == [] then [] else [fields[0].name] + Names(fields[1..])
  }

  /** The details for the schema's own keys, in schema order. */
  function KnownProblems(fields: seq<Field>, obj: seq<(string, Value)>): (r: seq<Detail>)
    ensures |r| <= |fields|
    ensures r == [] <==> forall i :: 0 <= i < |fields| ==> FieldOk(fields[i], obj)
  {
    if fields == [] then []
    else
      var f := fields[0];
      var here :=
        match Get(obj, f.name)
        case None => if f.required then [Missing(f.name)] else []
        case Some(v) => if CheckOk(f.check, v, obj) then [] else [Invalid(f.name)];
      var rest := KnownProblems(fields[1..], obj);
      assert forall i :: 1 <= i < |fields| ==> fields[i] == fields[1..][i - 1];
      here + rest
  }

  /** A key passes: present and valid, or absent and optional. */
  predicate FieldOk(f: Field, obj: seq<(string, Value)>) {
    match Get(obj, f.name)
    case None => !f.required
    case Some(v) => CheckOk(f.check, v, obj)
  }

  /** The checks of a four-key schema, one key at a time. */
  lemma FourFieldsOk(fields: seq<Field>, obj: seq<(string, Value)>)
    requires |fields| == 4
    ensures (forall i :: 0 <= i < |fields| ==> FieldOk(fields[i], obj)) <==>
      FieldOk(fields[0], obj) && FieldOk(fields[1], obj) && FieldOk(fields[2], obj) && FieldOk(fields[3], obj)
  {
    if FieldOk(fields[0], obj) && FieldOk(fields[1], obj) && FieldOk(fields[2], obj) && FieldOk(fields[3], obj) {
      forall i | 0 <= i < |fields| ensures FieldOk(fields[i], obj) {
        assert i == 0 || i == 1 || i == 2 || i == 3;
      }
    }
  }

  /** The checks of a six-key schema, one key at a time. */
  lemma SixFieldsOk(fields: seq<Field>, obj: seq<(string, Value)>)
    requires |fields| == 6
    ensures (forall i :: 0 <= i < |fields| ==> FieldOk(fields[i], obj)) <==>
      && FieldOk(fields[0], obj) && FieldOk(fields[1], obj) && FieldOk(fields[2], obj)
      && FieldOk(fields[3], obj) && FieldOk(fields[4], obj) && FieldOk(fields[5], obj)
  {
    if FieldOk(fields[0], obj) && FieldOk(fields[1], obj) && FieldOk(fields[2], obj)
      && FieldOk(fields[3], obj) && FieldOk(fields[4], obj) && FieldOk(fields[5], obj)
    {
      forall i | 0 <= i < |fields| ensures FieldOk(fields[i], obj) {
        assert i == 0 || i == 1 || i == 2 || i == 3 || i == 4 || i == 5;
      }
    }
  }

  /** One `object.unknown` detail per key the schema does not name, in the object's order. */
  function UnknownProblems(obj: seq<(string, Value)>, names: seq<string>): (r: seq<Detail>)
    ensures |r| <= |obj|
    ensures r == [] <==> forall i :: 0 <= i < |obj| ==> obj[i].0 in names
  {
    if obj == [] then []
    else
      var rest := UnknownProblems(obj[1..], names);
      assert forall i :: 1 <= i < |obj| ==> obj[i] == obj[1..][i - 1];
      (if obj[0].0 in names then [] else [Unknown(obj[0].0)]) + rest
  }

  /** `object.validate(value, { abortEarly: false })` on an object's keys. */
  function ObjectProblems(fields: seq<Field>, obj: seq<(string, Value)>): (r: seq<Detail>)
    ensures r == [] <==> Conforms(fields, obj)
  {
    KnownProblems(fields, obj) + UnknownProblems(obj, Names(fields))
  }

  /** What an object schema demands of an object: every key passes, and no
      key is outside the schema. */
  predicate Conforms(fields: seq<Field>, obj: seq<(string, Value)>) {
    && (forall i :: 0 <= i < |fields| ==> FieldOk(fields[i], obj))
    && (forall i :: 0 <= i < |obj| ==> obj[i].0 in Names(fields))
  }

  /** The schema of one request part. */
  datatype PartRule =
    | ObjectOf(fields: seq<Field>, required: bool)   // joi.object().keys(fields)
    | ArrayOf(item: seq<Field>, min: nat, max: nat)  // joi.array().items(joi.object().keys(item).required()).required().min(min).max(max)

  /** The details for the array items, each tagged with its index. */
  function ItemProblems(item: seq<Field>, items: seq<Value>, from: nat): (r: seq<Detail>)
    ensures r == [] <==> forall i :: 0 <= i < |items| ==> items[i].Obj? && Conforms(item, items[i].fields)
    decreases |items|
  {
    if items == [] then []
    else
      var here :=
        if !items[0].Obj? then [InItem(from, WrongType)]
        else
          Tag(from, ObjectProblems(item, items[0].fields));
      var rest := ItemProblems(item, items[1..], from + 1);
      assert forall i :: 1 <= i < |items| ==> items[i] == items[1..][i - 1];
      here + rest
  }

  function Tag(index: nat, ds: seq<Detail>): (r: seq<Detail>)
    ensures |r| == |ds|
    ensures forall i :: 0 <= i < |ds| ==> r[i] == InItem(index, ds[i])
  {
    if ds == [] then [] else [InItem(index, ds[0])] + Tag(index, ds[1..])
  }

  /** `schema.validate(req[key], { abortEarly: false }).error.details`, empty when valid. */
  function PartProblems(rule: PartRule, v: Option<Value>): (r: seq<Detail>)
  {
    match rule
    case ObjectOf(fields, required) =>
      (match v
       case None => if required then [Required] else []
       case Some(Obj(obj)) => ObjectProblems(fields, obj)
       case Some(_) => [WrongType])
    case ArrayOf(item, min, max) =>
      (match v
       case None => [Required]
       case Some(Arr(items)) =>
         ItemProblems(item, items, 0)
         + (if |items| < min then [TooFew] else [])
         + (if |items| > max then [TooMany] else [])
       case Some(_) => [WrongType])
  }

  /** What a part schema demands of the part. */
  predicate PartOk(rule: PartRule, v: Option<Value>) {
    match rule
    case ObjectOf(fields, required) =>
      (match v
       case None => !required
       case Some(x) => x.Obj? && Conforms(fields, x.fields))
    case ArrayOf(item, min, max) =>
      v.Some? && v.value.Arr? && min <= |v.value.items| <= max
      && forall i :: 0 <= i < |v.value.items| ==> v.value.items[i].Obj? && Conforms(item, v.value.items[i].fields)
  }

  /** A part has no error details exactly when it meets its schema. */
  lemma PartProblemsIff(rule: PartRule, v: Option<Value>)
    ensures PartProblems(rule, v) == [] <==> PartOk(rule, v)
  {
  }

  /** `req`: the request parts by name; a missing name is `undefined`. */
  type Request = map<string, Value>

  function Part(req: Request, key: string): Option<Value> {
    if key in req then Some(req[key]) else None
  }

  /** One key of a validation schema object, with the schema for that part. */
  datatype PartSchema = PartSchema(key: string, rule: PartRule)

  /** One entry of `validationError`. */
  datatype KeyError = KeyError(key: string, details: seq<Detail>)

  /** What the middleware does: call `next()`, or answer 400 with the collected errors. */
  datatype Verdict = Next | Rejected(status: int, errors: seq<KeyError>)

  /** The entries `validationError` holds after the loop has visited `schema`. */
  function Collected(schema: seq<PartSchema>, req: Request): (r: seq<KeyError>)
    ensures |r| <= |schema|
    ensures r == [] <==> forall k :: 0 <= k < |schema| ==> PartProblems(schema[k].rule, Part(req, schema[k].key)) == []
    ensures forall e :: e in r ==>
      && e.details != []
      && exists k :: 0 <= k < |schema| && e == KeyError(schema[k].key, PartProblems(schema[k].rule, Part(req, schema[k].key)))
  {
    if schema == [] then []
    else
      var front := schema[..|schema| - 1];
      var last := schema[|schema| - 1];
      var r := Collected(front, req);
      var added := Entry(last, req);
      assert forall k :: 0 <= k < |front| ==> front[k] == schema[k];
      assert forall e :: e in added ==> e.details != [] && e == KeyError(schema[|schema| - 1].key,
        PartProblems(schema[|schema| - 1].rule, Part(req, schema[|schema| - 1].key)));
      r + added
  }

  /** Every failing part yields its entry, in schema order: the entries are
      exactly the failing parts. */
  lemma {:induction false} CollectedLists(schema: seq<PartSchema>, req: Request, k: nat)
    requires k < |schema|
    requires PartProblems(schema[k].rule, Part(req, schema[k].key)) != []
    ensures KeyError(schema[k].key, PartProblems(schema[k].rule, Part(req, schema[k].key))) in Collected(schema, req)
    decreases |schema|
  {
    var front := schema[..|schema| - 1];
    if k < |schema| - 1 {
      assert front[k] == schema[k];
      CollectedLists(front, req, k);
    }
  }

  /** Visiting one more part adds its entry when it fails. */
  lemma CollectedStep(schema: seq<PartSchema>, req: Request, k: nat)
    requires k < |schema|
    ensures Collected(schema[..k + 1], req) == Collected(schema[..k], req) + Entry(schema[k], req)
  {
    assert schema[..k + 1][..k] == schema[..k];
  }

  /** The entry one part contributes: none when it passes. */
  function Entry(part: PartSchema, req: Request): seq<KeyError> {
    var problems := PartProblems(part.rule, Part(req, part.key));
    if problems == [] then [] else [KeyError(part.key, problems)]
  }

  /** `validationMiddleware(schema)` on a request: the loop over the schema's
      keys, validating every part without stopping early. The request itself
      is only read, so validated or defaulted values never reach the handler. */
  method ValidationMiddleware(schema: seq<PartSchema>, req: Request) returns (v: Verdict)
    ensures v.Next? <==> forall k :: 0 <= k < |schema| ==> PartOk(schema[k].rule, Part(req, schema[k].key))
    ensures v.Rejected? ==> v.status == 400 && v.errors == Collected(schema, req)
  {
    var errors: seq<KeyError> := [];
    var k := 0;
    while k < |schema|
      invariant 0 <= k <= |schema|
      invariant errors == Collected(schema[..k], req)
    {
      var problems := PartProblems(schema[k].rule, Part(req, schema[k].key));
      if problems != [] {
        errors := errors + [KeyError(schema[k].key, problems)];
      }
      CollectedStep(schema, req, k);
      k := k + 1;
    }
    assert schema[..k] == schema;
    AcceptsIff(schema, req);
    if errors != [] {
      return Rejected(400, errors);
    }
    return Next;
  }

  /** The verdict, as a function, for the schema lemmas. */
  predicate Accepts(schema: seq<PartSchema>, req: Request) {
    Collected(schema, req) == []
  }

  lemma AcceptsIff(schema: seq<PartSchema>, req: Request)
    ensures Accepts(schema, req) <==> forall k :: 0 <= k < |schema| ==> PartOk(schema[k].rule, Part(req, schema[k].key))
  {
    forall i | 0 <= i < |schema| {
      PartProblemsIff(schema[i].rule, Part(req, schema[i].key));
    }
  }

  /** `attachmentsTypes.images.types`: the image types an upload may have. */
  const ImageTypes: seq<string> := ["image/jpeg", "image/png", "image/tiff"]

  /** The keys of a file object from multer's disk storage, with the field
      name the upload must have used and an image type. */
  function FileFields(fieldname: string): seq<Field> {
    [ Field("fieldname", OneOf([fieldname]), true),
      Field("originalname", AnyString, true),
      Field("encoding", AnyString, true),
      Field("mimetype", OneOf(ImageTypes), true),
      Field("destination", AnyString, true),
      Field("filename", AnyString, true),
      Field("path", AnyString, true),
      Field("size", PositiveNumber, true) ]
  }

  lemma NamesAppend(base: seq<Field>, more: seq<Field>)
    ensures Names(base + more) == Names(base) + Names(more)
  {
    var all := base + more;
    assert forall i :: 0 <= i < |base| ==> all[i] == base[i];
    assert forall i :: 0 <= i < |more| ==> all[|base| + i] == more[i];
  }

  lemma FieldsOkAppend(base: seq<Field>, more: seq<Field>, obj: seq<(string, Value)>)
    ensures (forall i :: 0 <= i < |base + more| ==> FieldOk((base + more)[i], obj)) <==>
      && (forall i :: 0 <= i < |base| ==> FieldOk(base[i], obj))
      && (forall i :: 0 <= i < |more| ==> FieldOk(more[i], obj))
  {
    var all := base + more;
    assert forall i :: 0 <= i < |base| ==> all[i] == base[i];
    assert forall i :: 0 <= i < |more| ==> all[|base| + i] == more[i];
  }

  /** `object.append(more)`: the extended schema demands what both parts
      demand of their own keys, and admits the keys of both. */
  lemma AppendConforms(base: seq<Field>, more: seq<Field>, obj: seq<(string, Value)>)
    ensures Conforms(base + more, obj) <==>
      && (forall i :: 0 <= i < |base| ==> FieldOk(base[i], obj))
      && (forall i :: 0 <= i < |more| ==> FieldOk(more[i], obj))
      && OnlyKeys(obj, Names(base) + Names(more))
  {
    NamesAppend(base, more);
    FieldsOkAppend(base, more, obj);
  }

  /** A schema extended by one key, in terms of what the base demands and
      what the new key demands. */
  lemma AppendOneConforms(base: seq<Field>, f: Field, obj: seq<(string, Value)>,
                          baseOk: bool, fOk: bool, names: seq<string>)
    requires (forall i :: 0 <= i < |base| ==> FieldOk(base[i], obj)) <==> baseOk
    requires FieldOk(f, obj) <==> fOk
    requires Names(base) + [f.name] == names
    ensures (forall i :: 0 <= i < |base + [f]| ==> FieldOk((base + [f])[i], obj)) <==> baseOk && fOk
    ensures Conforms(base + [f], obj) <==> baseOk && fOk && OnlyKeys(obj, names)
  {
    AppendConforms(base, [f], obj);
    FieldsOkAppend(base, [f], obj);
    assert Names([f]) == [f.name];
  }

  /** The string under `key`, when there is one. */
  predicate HasText(obj: seq<(string, Value)>, key: string, p: string -> bool) {
    Get(obj, key).Some? && IsText(Get(obj, key).value, p)
  }

  /** Every key of `obj` is one of `names`. */
  predicate OnlyKeys(obj: seq<(string, Value)>, names: seq<string>) {
    forall i :: 0 <= i < |obj| ==> obj[i].0 in names
  }
}
