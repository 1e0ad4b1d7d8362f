/** The Message document (server/src/DB/models/Message.Model.js). */
module MessageModel {

  import opened Wrappers

  type MessageId = nat

  /** An uploaded image as stored on the message. */
  datatype Attachment = Attachment(secureUrl: string, publicId: string)

  /** A message to `reciverId`; `senderId` is absent for anonymous sends. */
  datatype Message = Message(
    id: MessageId,
    content: Option<string>,
    image: Option<Attachment>,
    reciverId: nat,
    senderId: Option<nat>)

  /** The schema's bounds on `content`: between 5 and 20000 characters when present. */
  predicate ContentLengthOk(content: Option<string>) {
    content.None? || 5 <= |content.value| <= 20000
  }

  /** The message of Mongoose's `ValidationError` when the one failing path
      is `path`: the model's name, then the path and its validator's message. */
  function ValidationFailed(model: string, path: string, message: string): string {
    model + " validation failed: " + path + ": " + message
  }

  /** The message of the first failing validator on `content` (`minlength`,
      then `maxlength`), with the value quoted; none when the content passes.
      `required` never fires: the handlers always pass an `image` object. */
  function ContentError(content: Option<string>): (r: Option<string>)
    ensures r.None? <==> ContentLengthOk(content)
    ensures r.Some? ==>
      && |r.value| > 17 + |content.value|
      && r.value[..17] == "Path `content` (`" && r.value[17..17 + |content.value|] == content.value
  {
    if content.None? then None
    else if |content.value| < 5 then
      Some("Path `content` (`" + content.value + "`) is shorter than the minimum allowed length (5).")
    else if |content.value| > 20000 then
      Some("Path `content` (`" + content.value + "`) is longer than the maximum allowed length (20000).")
    else None
  }
}
