/** The three MongoDB collections the services work on: users (in natural
    order, so `findOne` returns the first match), revoked tokens keyed by
    `jti`, and messages. */
module Store {

  import opened Wrappers
  import opened UserModel
  import opened MessageModel
  import opened Tokens

  datatype Collections = Collections(users: seq<User>, revoked: map<string, RevokedToken>, messages: seq<Message>)

  /** A handler's response and the collections afterwards. */
  datatype Transition<T> = Transition(reply: Reply<T>, after: Collections)

  /** What the unique indexes and the schemas keep true of the collections. */
  predicate Valid(c: Collections) {
    && UsersInvariant(c.users)
    && RevokedInvariant(c.revoked)
    && forall i, j :: 0 <= i < j < |c.messages| ==> c.messages[i].id != c.messages[j].id
  }

  /** A number above every `key` in `xs`: the model of a freshly generated
      ObjectId, which no document of the collection has. */
  function FreshId<T>(xs: seq<T>, key: T -> nat): (id: nat)
    ensures forall i :: 0 <= i < |xs| ==> key(xs[i]) < id
  {
    if xs == [] then 0
    else
      var rest := FreshId(xs[1..], key);
      assert forall i :: 1 <= i < |xs| ==> xs[i] == xs[1..][i - 1];
      if key(xs[0]) + 1 > rest then key(xs[0]) + 1 else rest
  }

  /** An `_id` no stored user has. */
  function FreshUserId(users: seq<User>): (id: UserId)
    ensures forall i :: 0 <= i < |users| ==> users[i].id < id
  {
    FreshId(users, (u: User) => u.id)
  }

  /** An `_id` no stored message has. */
  function FreshMessageId(messages: seq<Message>): (id: MessageId)
    ensures forall i :: 0 <= i < |messages| ==> messages[i].id < id
  {
    FreshId(messages, (m: Message) => m.id)
  }

  /** The database connection the handlers share. */
  class Database {
    var users: seq<User>
    var revoked: map<string, RevokedToken>
    var messages: seq<Message>

    function Contents(): Collections
      reads this
    {
      Collections(users, revoked, messages)
    }

    constructor ()
      ensures Contents() == Collections([], map[], [])
    {
      users := [];
      revoked := map[];
      messages := [];
    }
  }
}
