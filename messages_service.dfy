/** The message rules of server/src/modules/messages/messages.service.js:
    who may send, reply to and delete a message, and the record each
    request creates. `sender` is the authenticated user's id, or nothing on
    the anonymous route. `file` is the uploaded image, when there is one. */
module MessagesService {

  import opened Wrappers
  import opened Query
  import opened MessageModel
  import opened UserModel
  import opened Store
  import opened Text
  import opened GeneralFields

  /** `!req.file && !req.body?.content`: neither an image nor a non-empty content. */
  predicate NothingToSend(content: Option<string>, file: Option<Attachment>) {
    file.None? && (content.None? || content.value == "")
  }

  /** A recipient must exist, be confirmed and not be frozen. */
  predicate CanReceive(u: User, id: UserId) {
    u.id == id && u.confirmEmail.Some? && u.deletedAt.None?
  }

  function RecipientIndex(users: seq<User>, id: UserId): Option<nat> {
    FindFirst(users, (u: User) => CanReceive(u, id))
  }

  /** `findById` on the messages. */
  function MessageIndex(messages: seq<Message>, id: MessageId): (r: Option<nat>)
    ensures r.Some? ==> r.value < |messages| && messages[r.value].id == id
    ensures r.None? <==> forall i :: 0 <= i < |messages| ==> messages[i].id != id
  {
    FindFirst(messages, (m: Message) => m.id == id)
  }

  /** Creating the message: the schema's content length applies. */
  function Create(st: Collections, content: Option<string>, file: Option<Attachment>, to: UserId, from: Option<UserId>,
                  status: int): (t: Transition<Message>)
    ensures t.after.users == st.users && t.after.revoked == st.revoked
    ensures t.reply.Done? <==> ContentLengthOk(content)
    ensures !t.reply.Done? ==>
      t == Transition(Fail(400, ValidationFailed("Message", "content", ContentError(content).value)), st)
    ensures t.reply.Done? ==>
      && t.reply.status == status
      && t.after.messages == st.messages + [t.reply.value]
      && t.reply.value == Message(FreshMessageId(st.messages), content, file, to, from)
  {
    if !ContentLengthOk(content) then Transition(Fail(400, ValidationFailed("Message", "content", ContentError(content).value)), st)
    else
      var m := Message(FreshMessageId(st.messages), content, file, to, from);
      Transition(Done(status, m), st.(messages := st.messages + [m]))
  }

  /** The answer to a message addressed to its own sender. */
  const SelfSendText: string := "Cannot Send Message To Yourself , شوفلك حياة"

  /** sendMessage: 400 with nothing to send, 400 to oneself, 404 for a
      recipient that is missing, unconfirmed or frozen; otherwise a message
      to `reciverId` from the authenticated user (none when anonymous), 201. */
  function SendStep(st: Collections, sender: Option<UserId>, reciverId: UserId,
                    content: Option<string>, file: Option<Attachment>): (t: Transition<Message>)
    ensures !t.reply.Hang? && t.after.users == st.users && t.after.revoked == st.revoked
    ensures NothingToSend(content, file) ==> t == Transition(Fail(400, "Message Content Is Required"), st)
    ensures !NothingToSend(content, file) && sender == Some(reciverId) ==> t == Transition(Fail(400, SelfSendText), st)
    ensures !NothingToSend(content, file) && sender != Some(reciverId) && RecipientIndex(st.users, reciverId).None? ==>
      t == Transition(Fail(404, "In-Valid Recipient Account"), st)
    ensures !NothingToSend(content, file) && sender != Some(reciverId) && RecipientIndex(st.users, reciverId).Some? ==>
      t == Create(st, content, file, reciverId, sender, 201)
    ensures t.reply.Done? ==>
      && !NothingToSend(content, file) && sender != Some(reciverId) && RecipientIndex(st.users, reciverId).Some?
      && t.reply.status == 201
      && t.after.messages == st.messages + [t.reply.value]
      && t.reply.value.reciverId == reciverId && t.reply.value.senderId == sender
      && t.reply.value.content == content && t.reply.value.image == file
    ensures !t.reply.Done? ==> t.after == st
  {
    if NothingToSend(content, file) then Transition(Fail(400, "Message Content Is Required"), st)
    else if sender == Some(reciverId) then Transition(Fail(400, SelfSendText), st)
    else if RecipientIndex(st.users, reciverId).None? then Transition(Fail(404, "In-Valid Recipient Account"), st)
    else Create(st, content, file, reciverId, sender, 201)
  }

  /** deleteMessage: 404 for a missing message, 403 unless the requester is
      its recipient; otherwise exactly that message is removed. */
  function DeleteStep(st: Collections, requester: UserId, messageId: MessageId): (t: Transition<string>)
    ensures !t.reply.Hang? && t.after.users == st.users && t.after.revoked == st.revoked
    ensures MessageIndex(st.messages, messageId).None? ==> t == Transition(Fail(404, "Message Not Found"), st)
    ensures MessageIndex(st.messages, messageId).Some? ==>
      var i := MessageIndex(st.messages, messageId).value;
      && (st.messages[i].reciverId != requester ==> t == Transition(Fail(403, "You're not Allow To Delete This Message"), st))
      && (st.messages[i].reciverId == requester ==> t.reply.Done? && t.after.messages == RemoveAt(st.messages, i))
  {
    match MessageIndex(st.messages, messageId)
    case None => Transition(Fail(404, "Message Not Found"), st)
    case Some(i) =>
      if st.messages[i].reciverId != requester then Transition(Fail(403, "You're not Allow To Delete This Message"), st)
      else Transition(Done(200, "Message Deleted Successfully"), st.(messages := RemoveAt(st.messages, i)))
  }

  /** replyMessage: 400 with nothing to send; 404 when the message is missing
      or anonymous, and 404 unless the requester is its recipient; otherwise a
      message to the original sender from the requester, 201. */
  function ReplyStep(st: Collections, requester: UserId, messageId: MessageId,
                     content: Option<string>, file: Option<Attachment>): (t: Transition<Message>)
    ensures !t.reply.Hang? && t.after.users == st.users && t.after.revoked == st.revoked
    ensures NothingToSend(content, file) ==> t == Transition(Fail(400, "Message Content Is Required"), st)
    ensures !NothingToSend(content, file) && MessageIndex(st.messages, messageId).None? ==>
      t == Transition(Fail(404, "Cannot Reply This Message , Message Sender Id Is Not Exsists!"), st)
    ensures !NothingToSend(content, file) && MessageIndex(st.messages, messageId).Some? ==>
      var original := st.messages[MessageIndex(st.messages, messageId).value];
      && (original.senderId.None? ==>
            t == Transition(Fail(404, "Cannot Reply This Message , Message Sender Id Is Not Exsists!"), st))
      && (original.senderId.Some? && original.reciverId != requester ==> t == Transition(Fail(404, "Message Not Found"), st))
      && (original.senderId.Some? && original.reciverId == requester ==>
            t == Create(st, content, file, original.senderId.value, Some(requester), 201))
    ensures !t.reply.Done? ==> t.after == st
    ensures t.reply.Done? ==>
      && !NothingToSend(content, file)
      && MessageIndex(st.messages, messageId).Some?
      && var original := st.messages[MessageIndex(st.messages, messageId).value];
      && original.reciverId == requester && original.senderId.Some?
      && t.reply.status == 201
      && t.after.messages == st.messages + [t.reply.value]
      && t.reply.value.reciverId == original.senderId.value
      && t.reply.value.senderId == Some(requester)
      && t.reply.value.content == content && t.reply.value.image == file
  {
    if NothingToSend(content, file) then Transition(Fail(400, "Message Content Is Required"), st)
    else
      match MessageIndex(st.messages, messageId)
      case None => Transition(Fail(404, "Cannot Reply This Message , Message Sender Id Is Not Exsists!"), st)
      case Some(i) =>
        var original := st.messages[i];
        if original.senderId.None? then Transition(Fail(404, "Cannot Reply This Message , Message Sender Id Is Not Exsists!"), st)
        else if original.reciverId != requester then Transition(Fail(404, "Message Not Found"), st)
        else Create(st, content, file, original.senderId.value, Some(requester), 201)
  }

  // ---------------------------------------------------------------- handlers

  method SendMessage(db: Database, sender: Option<UserId>, reciverId: UserId, content: Option<string>, file: Option<Attachment>)
    returns (reply: Reply<Message>)
    modifies db
    ensures Transition(reply, db.Contents()) == SendStep(old(db.Contents()), sender, reciverId, content, file)
  {
    if NothingToSend(content, file) {
      return Fail(400, "Message Content Is Required");
    }
    if sender == Some(reciverId) {
      return Fail(400, SelfSendText);
    }
    if RecipientIndex(db.users, reciverId).None? {
      return Fail(404, "In-Valid Recipient Account");
    }
    if !ContentLengthOk(content) {
      return Fail(400, ValidationFailed("Message", "content", ContentError(content).value));
    }
    var m := Message(FreshMessageId(db.messages), content, file, reciverId, sender);
    db.messages := db.messages + [m];
    reply := Done(201, m);
  }

  method DeleteMessage(db: Database, requester: UserId, messageId: MessageId) returns (reply: Reply<string>)
    modifies db
    ensures Transition(reply, db.Contents()) == DeleteStep(old(db.Contents()), requester, messageId)
  {
    var found := MessageIndex(db.messages, messageId);
    if found.None? {
      return Fail(404, "Message Not Found");
    }
    if db.messages[found.value].reciverId != requester {
      return Fail(403, "You're not Allow To Delete This Message");
    }
    db.messages := RemoveAt(db.messages, found.value);
    reply := Done(200, "Message Deleted Successfully");
  }

  method ReplyMessage(db: Database, requester: UserId, messageId: MessageId, content: Option<string>, file: Option<Attachment>)
    returns (reply: Reply<Message>)
    modifies db
    ensures Transition(reply, db.Contents()) == ReplyStep(old(db.Contents()), requester, messageId, content, file)
  {
    if NothingToSend(content, file) {
      return Fail(400, "Message Content Is Required");
    }
    var found := MessageIndex(db.messages, messageId);
    if found.None? || db.messages[found.value].senderId.None? {
      return Fail(404, "Cannot Reply This Message , Message Sender Id Is Not Exsists!");
    }
    var original := db.messages[found.value];
    if original.reciverId != requester {
      return Fail(404, "Message Not Found");
    }
    if !ContentLengthOk(content) {
      return Fail(400, ValidationFailed("Message", "content", ContentError(content).value));
    }
    var m := Message(FreshMessageId(db.messages), content, file, original.senderId.value, Some(requester));
    db.messages := db.messages + [m];
    reply := Done(201, m);
  }

  // ---------------------------------------------------------------- properties

  lemma AppendMessageKeepsValid(st: Collections, m: Message)
    requires Valid(st) && m.id == FreshMessageId(st.messages)
    ensures Valid(st.(messages := st.messages + [m]))
  {
    var ms := st.messages + [m];
    assert forall i :: 0 <= i < |st.messages| ==> ms[i] == st.messages[i];
  }

  lemma SendKeepsValid(st: Collections, sender: Option<UserId>, reciverId: UserId, content: Option<string>, file: Option<Attachment>)
    requires Valid(st)
    ensures Valid(SendStep(st, sender, reciverId, content, file).after)
  {
    var t := SendStep(st, sender, reciverId, content, file);
    if t.reply.Done? {
      AppendMessageKeepsValid(st, t.reply.value);
    }
  }

  lemma ReplyKeepsValid(st: Collections, requester: UserId, messageId: MessageId, content: Option<string>, file: Option<Attachment>)
    requires Valid(st)
    ensures Valid(ReplyStep(st, requester, messageId, content, file).after)
  {
    var t := ReplyStep(st, requester, messageId, content, file);
    if t.reply.Done? {
      AppendMessageKeepsValid(st, t.reply.value);
    }
  }

  lemma DeleteKeepsValid(st: Collections, requester: UserId, messageId: MessageId)
    requires Valid(st)
    ensures Valid(DeleteStep(st, requester, messageId).after)
  {
    var t := DeleteStep(st, requester, messageId);
    if t.reply.Done? {
      var i := MessageIndex(st.messages, messageId).value;
      var r := RemoveAt(st.messages, i);
      forall a, b | 0 <= a < b < |r| ensures r[a].id != r[b].id {
        var a' := if a < i then a else a + 1;
        var b' := if b < i then b else b + 1;
        assert r[a] == st.messages[a'] && r[b] == st.messages[b'];
      }
    }
  }

  /** A sent message shows in the recipient's `messages` and, unless it was
      anonymous, in the sender's `messagesSent`. */
  lemma SentMessageIsListed(st: Collections, sender: Option<UserId>, reciverId: UserId, content: Option<string>,
                            file: Option<Attachment>, recipient: User, author: User)
    requires SendStep(st, sender, reciverId, content, file).reply.Done?
    requires recipient.id == reciverId
    ensures var t := SendStep(st, sender, reciverId, content, file);
      && t.reply.value in Inbox(recipient, t.after.messages)
      && (sender == Some(author.id) ==> t.reply.value in SentBy(author, t.after.messages))
  {
    var t := SendStep(st, sender, reciverId, content, file);
    assert t.reply.value == t.after.messages[|st.messages|];
  }

  /** After deleting, no message with that id remains; a valid store held one. */
  lemma DeletedMessageIsGone(st: Collections, requester: UserId, messageId: MessageId)
    requires Valid(st)
    requires DeleteStep(st, requester, messageId).reply.Done?
    ensures var t := DeleteStep(st, requester, messageId);
      && |t.after.messages| == |st.messages| - 1
      && forall j :: 0 <= j < |t.after.messages| ==> t.after.messages[j].id != messageId
  {
    var t := DeleteStep(st, requester, messageId);
    var i := MessageIndex(st.messages, messageId).value;
    forall j | 0 <= j < |t.after.messages| ensures t.after.messages[j].id != messageId {
      if j < i {
        assert t.after.messages[j] == st.messages[j];
      } else {
        assert t.after.messages[j] == st.messages[j + 1];
      }
    }
  }

  /** A reply checks nothing about the original sender's account: it still
      reaches a sender who has since been frozen, to whom a new message
      would be refused with 404. */
  lemma ReplyReachesFrozenSender(st: Collections, requester: UserId, messageId: MessageId, content: Option<string>,
                                 file: Option<Attachment>)
    requires Valid(st)
    requires !NothingToSend(content, file) && ContentLengthOk(content)
    requires MessageIndex(st.messages, messageId).Some?
    requires var m := st.messages[MessageIndex(st.messages, messageId).value];
             m.reciverId == requester && m.senderId.Some? && m.senderId != Some(requester)
             && forall i :: 0 <= i < |st.users| && st.users[i].id == m.senderId.value ==> st.users[i].deletedAt.Some?
    ensures var m := st.messages[MessageIndex(st.messages, messageId).value];
      && ReplyStep(st, requester, messageId, content, file).reply.Done?
      && SendStep(st, Some(requester), m.senderId.value, content, file).reply == Fail(404, "In-Valid Recipient Account")
  {
    var m := st.messages[MessageIndex(st.messages, messageId).value];
    assert RecipientIndex(st.users, m.senderId.value).None?;
  }

  // ---------------------------------------------------------------- ids as text

  /** An ObjectId as its `toString()` writes it: 24 lower-case hex digits. */
  predicate IsIdText(s: string) {
    |s| == 24 && forall i :: 0 <= i < |s| ==> IsDigit(s[i]) || 'a' <= s[i] <= 'f'
  }

  function LowerHex(c: char): char {
    if 'A' <= c <= 'F' then (c as int + 32) as char else c
  }

  function UpperHex(c: char): char {
    if 'a' <= c <= 'f' then (c as int - 32) as char else c
  }

  /** The id the recipient lookup queries for, written as `toString()` writes
      it: casting hex text to an ObjectId reads its digits in either case. */
  function CastId(text: string): (r: string)
    ensures |r| == |text| && forall i :: 0 <= i < |text| ==> r[i] == LowerHex(text[i])
  {
    seq(|text|, i requires 0 <= i < |text| => LowerHex(text[i]))
  }

  /** The same id spelled with upper-case hex letters. */
  function UpperSpelling(text: string): (r: string)
    ensures |r| == |text| && forall i :: 0 <= i < |text| ==> r[i] == UpperHex(text[i])
  {
    seq(|text|, i requires 0 <= i < |text| => UpperHex(text[i]))
  }

  /** Line 17 as written: `reciverId == req.user?._id` compares the path
      text with the id's `toString()`. */
  predicate SelfCheckAsWritten(path: string, own: string) {
    path == own
  }

  /** The self check the handler means: the path names one's own ObjectId. */
  predicate SelfCheckIntended(path: string, own: string) {
    CastId(path) == own
  }

  /** As written, one's own id spelled in upper case is a valid ObjectId to
      the request schema, is not refused as a message to oneself, and is
      still found by the recipient lookup as one's own account. */
  lemma UpperCaseOwnIdPassesSelfCheck(own: string, k: nat)
    requires IsIdText(own) && k < |own| && 'a' <= own[k] <= 'f'
    ensures IsObjectId(UpperSpelling(own))
    ensures !SelfCheckAsWritten(UpperSpelling(own), own)
    ensures CastId(UpperSpelling(own)) == own
  {
    var up := UpperSpelling(own);
    assert up[k] != own[k];
    assert forall i :: 0 <= i < |own| ==> CastId(up)[i] == own[i];
  }

  /** The intended check refuses everything the written one refuses, and
      also every other spelling the lookup resolves to one's own account. */
  lemma IntendedSelfCheckRefusesEverySpelling(path: string, own: string)
    requires IsIdText(own)
    ensures SelfCheckAsWritten(path, own) ==> SelfCheckIntended(path, own)
    ensures SelfCheckIntended(UpperSpelling(own), own)
  {
    assert forall i :: 0 <= i < |own| ==> CastId(own)[i] == own[i];
    assert forall i :: 0 <= i < |own| ==> CastId(UpperSpelling(own))[i] == own[i];
  }
}
