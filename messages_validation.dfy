/** The request schemas of the message routes; replyMessage reuses
    sendMessage's body and file schemas. */
module MessagesValidation {
  import opened Wrappers
  import opened Schema
  import opened GeneralFields
  import opened MessageModel

  /** The body is not `.required()`: a message may be a file alone. */
  const MessageBody: seq<Field> := [Field("content", TextBetween(5, 20000), false)]

  const SendMessage: seq<PartSchema> := [
    PartSchema("params", ObjectOf([Field("reciverId", IdRule, true)], true)),
    PartSchema("body", ObjectOf(MessageBody, false)),
    PartSchema("file", ObjectOf(FileFields("image"), false))]

  const ReplyMessage: seq<PartSchema> := [
    PartSchema("params", ObjectOf([Field("messageId", IdRule, true)], true)),
    SendMessage[1],
    SendMessage[2]]

  /** The path parameters: exactly one valid ObjectId under `key`. */
  predicate IdParam(req: Request, key: string) {
    "params" in req && req["params"].Obj?
    && HasText(req["params"].fields, key, IsObjectId) && OnlyKeys(req["params"].fields, [key])
  }

  /** The optional body: absent, or an object with at most a 5 to 20000 character `content`. */
  predicate ContentPart(req: Request) {
    "body" !in req
    || (&& req["body"].Obj?
        && (Get(req["body"].fields, "content").None? || HasText(req["body"].fields, "content", s => 5 <= |s| <= 20000))
        && OnlyKeys(req["body"].fields, ["content"]))
  }

  /** The optional file: absent, or a conforming `image` upload. */
  predicate FilePart(req: Request) {
    "file" !in req || (req["file"].Obj? && Conforms(FileFields("image"), req["file"].fields))
  }

  lemma IdParamConforms(req: Request, key: string)
    ensures PartOk(ObjectOf([Field(key, IdRule, true)], true), Part(req, "params")) <==> IdParam(req, key)
  {
    assert Names([Field(key, IdRule, true)]) == [key];
  }

  lemma ContentPartConforms(req: Request)
    ensures PartOk(SendMessage[1].rule, Part(req, "body")) <==> ContentPart(req)
  {
    assert Names(MessageBody) == ["content"];
  }

  /** sendMessage: a valid `reciverId` and nothing else in the path, an
      optional body with optional bounded content, an optional image file. */
  lemma SendMessageAccepts(req: Request)
    ensures Accepts(SendMessage, req) <==> IdParam(req, "reciverId") && ContentPart(req) && FilePart(req)
  {
    AcceptsIff(SendMessage, req);
    IdParamConforms(req, "reciverId");
    ContentPartConforms(req);
    assert PartOk(SendMessage[0].rule, Part(req, SendMessage[0].key)) <==> IdParam(req, "reciverId");
    assert PartOk(SendMessage[2].rule, Part(req, SendMessage[2].key)) <==> FilePart(req);
  }

  /** replyMessage checks the same body and file, and a valid `messageId` in the path. */
  lemma ReplyMessageAccepts(req: Request)
    ensures Accepts(ReplyMessage, req) <==> IdParam(req, "messageId") && ContentPart(req) && FilePart(req)
  {
    AcceptsIff(ReplyMessage, req);
    IdParamConforms(req, "messageId");
    ContentPartConforms(req);
    assert PartOk(ReplyMessage[0].rule, Part(req, ReplyMessage[0].key)) <==> IdParam(req, "messageId");
    assert ReplyMessage[1] == SendMessage[1];
    assert PartOk(ReplyMessage[2].rule, Part(req, ReplyMessage[2].key)) <==> FilePart(req);
  }

  /** Content that passes validation is non-empty and within the message
      model's bounds, so only a missing content and a missing file together
      leave nothing to send. */
  lemma ValidatedContentFitsModel(req: Request)
    requires ContentPart(req) && "body" in req && Get(req["body"].fields, "content").Some?
    ensures var v := Get(req["body"].fields, "content").value;
      v.Str? && v.s != "" && ContentLengthOk(Some(v.s))
  {
  }
}
