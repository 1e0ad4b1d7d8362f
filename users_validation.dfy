/** The request schemas of the user routes. */
module UsersValidation {
  import opened Wrappers
  import opened Text
  import opened Schema
  import opened GeneralFields
  import opened UsersService
  import opened Numerals

  const UserIdRequired: seq<Field> := [Field("userId", IdRule, true)]

  const ShareProfile: seq<PartSchema> := [PartSchema("params", ObjectOf(UserIdRequired, true))]

  const UpdateBasicInfoBody: seq<Field> := [
    Field("firstName", NameRule, false),
    Field("lastName", NameRule, false),
    Field("phone", PhoneRule, false),
    Field("gender", OneOf(GenderNames), false)]

  const UpdateBasicInfo: seq<PartSchema> := [PartSchema("body", ObjectOf(UpdateBasicInfoBody, true))]

  /** The `userId` of freezAccount is optional: without it the requester freezes itself. */
  const FreezAccount: seq<PartSchema> := [PartSchema("params", ObjectOf([Field("userId", IdRule, false)], true))]

  const RestoreAccount: seq<PartSchema> := [PartSchema("params", ObjectOf(UserIdRequired, true))]

  const UploadImage: seq<PartSchema> := [PartSchema("file", ObjectOf(FileFields("image"), true))]

  const UploadProfileCover: seq<PartSchema> := [PartSchema("files", ArrayOf(FileFields("images"), 1, 2))]

  const SearchQuery: seq<Field> := [
    Field("query", SearchText, true),
    Field("page", IntegerAtLeast(1), false),
    Field("limit", IntegerBetween(1, 50), false)]

  const SearchForUserSchema: seq<PartSchema> := [PartSchema("query", ObjectOf(SearchQuery, true))]

  /** A schema over the path parameters alone accepts exactly the requests
      whose parameters conform. */
  lemma ParamsAccepts(fields: seq<Field>, req: Request)
    ensures Accepts([PartSchema("params", ObjectOf(fields, true))], req) <==>
      "params" in req && req["params"].Obj? && Conforms(fields, req["params"].fields)
  {
    AcceptsIff([PartSchema("params", ObjectOf(fields, true))], req);
  }

  /** shareProfile and restoreAccount need a valid ObjectId `userId` and
      nothing else; for freezAccount the `userId` may be left out. */
  lemma UserIdParams(p: seq<(string, Value)>)
    ensures Conforms(UserIdRequired, p) <==> HasText(p, "userId", IsObjectId) && OnlyKeys(p, ["userId"])
    ensures Conforms([Field("userId", IdRule, false)], p) <==>
      (Get(p, "userId").None? || HasText(p, "userId", IsObjectId)) && OnlyKeys(p, ["userId"])
  {
    assert Names(UserIdRequired) == ["userId"];
    assert Names([Field("userId", IdRule, false)]) == ["userId"];
  }

  lemma UpdateBasicInfoFieldsOk(b: seq<(string, Value)>)
    ensures FieldOk(UpdateBasicInfoBody[0], b) <==> Get(b, "firstName").None? || HasText(b, "firstName", IsName)
    ensures FieldOk(UpdateBasicInfoBody[1], b) <==> Get(b, "lastName").None? || HasText(b, "lastName", IsName)
    ensures FieldOk(UpdateBasicInfoBody[2], b) <==> Get(b, "phone").None? || HasText(b, "phone", IsPhone)
    ensures FieldOk(UpdateBasicInfoBody[3], b) <==>
      Get(b, "gender").None? || Get(b, "gender").value in [Str("male"), Str("female")]
  {
  }

  /** updateBasicInfo: any of the four keys, each valid when present, and no other. */
  lemma UpdateBasicInfoConforms(b: seq<(string, Value)>)
    ensures Conforms(UpdateBasicInfoBody, b) <==>
      && (Get(b, "firstName").None? || HasText(b, "firstName", IsName))
      && (Get(b, "lastName").None? || HasText(b, "lastName", IsName))
      && (Get(b, "phone").None? || HasText(b, "phone", IsPhone))
      && (Get(b, "gender").None? || Get(b, "gender").value in [Str("male"), Str("female")])
      && OnlyKeys(b, ["firstName", "lastName", "phone", "gender"])
  {
    UpdateBasicInfoFieldsOk(b);
    assert Names(UpdateBasicInfoBody) == ["firstName", "lastName", "phone", "gender"];
  }

  /** The upload's field name must be the one the route expects. */
  lemma FileNameFieldOk(fieldname: string, f: seq<(string, Value)>)
    ensures FieldOk(FileFields(fieldname)[0], f) <==> Get(f, "fieldname") == Some(Str(fieldname))
  {
    assert FileFields(fieldname)[0] == Field("fieldname", OneOf([fieldname]), true);
  }

  /** The upload must be a JPEG, PNG or TIFF image. */
  lemma FileTypeFieldOk(fieldname: string, f: seq<(string, Value)>)
    ensures FieldOk(FileFields(fieldname)[3], f) <==>
      Get(f, "mimetype").Some? && Get(f, "mimetype").value.Str? && Get(f, "mimetype").value.s in ImageTypes
  {
    assert FileFields(fieldname)[3] == Field("mimetype", OneOf(ImageTypes), true);
  }

  /** The upload's size must be a positive number. */
  lemma FileSizeFieldOk(fieldname: string, f: seq<(string, Value)>)
    ensures FieldOk(FileFields(fieldname)[7], f) <==> Get(f, "size").Some? && IsPositiveNumber(Get(f, "size").value)
  {
    assert FileFields(fieldname)[7] == Field("size", PositiveNumber, true);
  }

  lemma FileFieldNames(fieldname: string)
    ensures Names(FileFields(fieldname)) == ["fieldname", "originalname", "encoding", "mimetype", "destination", "filename", "path", "size"]
  {
  }

  /** An accepted file object names the expected upload field, has an image
      type and a positive size, and has only multer's keys. */
  lemma FileConforms(fieldname: string, f: seq<(string, Value)>)
    requires Conforms(FileFields(fieldname), f)
    ensures Get(f, "fieldname") == Some(Str(fieldname))
    ensures Get(f, "mimetype").Some? && Get(f, "mimetype").value.Str? && Get(f, "mimetype").value.s in ImageTypes
    ensures Get(f, "size").Some? && IsPositiveNumber(Get(f, "size").value)
    ensures OnlyKeys(f, ["fieldname", "originalname", "encoding", "mimetype", "destination", "filename", "path", "size"])
  {
    assert FieldOk(FileFields(fieldname)[0], f) && FieldOk(FileFields(fieldname)[3], f) && FieldOk(FileFields(fieldname)[7], f);
    FileNameFieldOk(fieldname, f);
    FileTypeFieldOk(fieldname, f);
    FileSizeFieldOk(fieldname, f);
    FileFieldNames(fieldname);
  }

  /** uploadProfileCover: one or two files, each an `images` upload that conforms. */
  lemma ProfileCoverAccepts(req: Request)
    ensures Accepts(UploadProfileCover, req) <==>
      && "files" in req && req["files"].Arr?
      && 1 <= |req["files"].items| <= 2
      && forall i :: 0 <= i < |req["files"].items| ==>
           req["files"].items[i].Obj? && Conforms(FileFields("images"), req["files"].items[i].fields)
  {
    AcceptsIff(UploadProfileCover, req);
  }

  lemma SearchTextFieldOk(q: seq<(string, Value)>)
    ensures FieldOk(SearchQuery[0], q) <==> Get(q, "query").Some? && Get(q, "query").value.Str? && IsSearchText(Get(q, "query").value.s)
  {
    assert SearchQuery[0] == Field("query", SearchText, true);
  }

  /** `page`, when sent, is a numeral (signs, a fraction that vanishes and
      an exponent included) whose value is a whole number of at least 1. */
  lemma PageFieldOk(q: seq<(string, Value)>)
    ensures FieldOk(SearchQuery[1], q) <==>
      Get(q, "page").None? || (AsInteger(Get(q, "page").value).Some? && AsInteger(Get(q, "page").value).value >= 1)
    ensures Get(q, "page").Some? && Get(q, "page").value.Str? ==>
      (FieldOk(SearchQuery[1], q) <==> JoiInteger(Get(q, "page").value.s).Some? && JoiInteger(Get(q, "page").value.s).value >= 1)
  {
  }

  /** `limit`, when sent, is a numeral whose value is a whole number from 1 to 50. */
  lemma LimitFieldOk(q: seq<(string, Value)>)
    ensures FieldOk(SearchQuery[2], q) <==>
      Get(q, "limit").None? || (AsInteger(Get(q, "limit").value).Some? && 1 <= AsInteger(Get(q, "limit").value).value <= 50)
    ensures Get(q, "limit").Some? && Get(q, "limit").value.Str? ==>
      (FieldOk(SearchQuery[2], q) <==> JoiInteger(Get(q, "limit").value.s).Some? && 1 <= JoiInteger(Get(q, "limit").value.s).value <= 50)
  {
  }

  /** The text the handler reads under `key`; the middleware converts
      values only to check them, so the handler sees the query string as sent. */
  function QueryText(q: seq<(string, Value)>, key: string): (r: Option<string>)
    ensures r.Some? <==> Get(q, key).Some? && Get(q, key).value.Str?
    ensures r.Some? ==> Get(q, key) == Some(Str(r.value))
  {
    match Get(q, key)
    case Some(Str(s)) => Some(s)
    case _ => None
  }

  /** A query string holds only text. */
  predicate AllText(q: seq<(string, Value)>) {
    forall i :: 0 <= i < |q| ==> q[i].1.Str?
  }

  /** A search that passes validation reaches the handler with a non-empty
      query and with page and limit texts that joi read as a page of at
      least 1 and a limit from 1 to 50 (or left out), so the handler's own
      "query is required" answer cannot happen. */
  lemma ValidatedSearchMeetsHandler(q: seq<(string, Value)>)
    requires Conforms(SearchQuery, q) && AllText(q)
    ensures Get(q, "query").Some? && Get(q, "query").value.Str? && Get(q, "query").value.s != ""
    ensures QueryText(q, "page").Some? <==> Get(q, "page").Some?
    ensures QueryText(q, "limit").Some? <==> Get(q, "limit").Some?
    ensures PageTextOk(QueryText(q, "page")) && LimitTextOk(QueryText(q, "limit"))
    ensures OnlyKeys(q, ["query", "page", "limit"])
  {
    assert FieldOk(SearchQuery[0], q) && FieldOk(SearchQuery[1], q) && FieldOk(SearchQuery[2], q);
    SearchTextFieldOk(q);
    PageFieldOk(q);
    LimitFieldOk(q);
    var text := Get(q, "query").value.s;
    assert IsSearchText(text);
    assert |Trim(text)| <= |text|;
    assert Names(SearchQuery) == ["query", "page", "limit"];
    if Get(q, "page").Some? {
      var i :| 0 <= i < |q| && q[i] == ("page", Get(q, "page").value);
      assert q[i].1.Str?;
    }
    if Get(q, "limit").Some? {
      var i :| 0 <= i < |q| && q[i] == ("limit", Get(q, "limit").value);
      assert q[i].1.Str?;
    }
  }
}
