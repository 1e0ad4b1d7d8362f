/** The User document (server/src/DB/models/user.model.js): its fields, enums
    and defaults, the validation Mongoose applies when a user is created, the
    `userName` virtual and the `messages` / `messagesSent` virtuals. */
module UserModel {

  import opened Wrappers
  import opened Text
  import opened Crypto
  import opened Query
  import opened MessageModel

  type UserId = nat

  datatype Gender = Male | Female
  datatype Role = UserRole | Admin
  datatype Provider = System | Google

  function GenderName(g: Gender): string {
    match g
    case Male => "male"
    case Female => "female"
  }

  function ProviderName(p: Provider): string {
    match p
    case System => "system"
    case Google => "google"
  }

  /** Casting a string to the `gender` enum: only its values are allowed. */
  function ParseGender(s: string): (r: Option<Gender>)
    ensures r.Some? <==> s == "male" || s == "female"
    ensures r.Some? ==> GenderName(r.value) == s
  {
    if s == "male" then Some(Male) else if s == "female" then Some(Female) else None
  }

  /** Casting a string to the `provider` enum. */
  function ParseProvider(s: string): (r: Option<Provider>)
    ensures r.Some? <==> s == "system" || s == "google"
    ensures r.Some? ==> ProviderName(r.value) == s
  {
    if s == "system" then Some(System) else if s == "google" then Some(Google) else None
  }

  /** The four `confirmEmailOTP*` fields, which are set together at signup and
      removed together on confirmation: the hashed code, its expiry (ms), the
      number of codes sent, and the end of a resend block (ms). */
  datatype ConfirmOtp = ConfirmOtp(code: Digest, expiresAt: int, count: int, block: Option<int>)

  /** A stored user. Times are milliseconds since the epoch. */
  datatype User = User(
    id: UserId,
    firstName: string,
    lastName: string,
    email: string,
    password: Option<Digest>,
    oldPasswords: seq<Digest>,
    phone: Option<Ciphertext>,
    gender: Gender,
    role: Role,
    provider: Provider,
    confirmEmail: Option<int>,
    confirmOtp: Option<ConfirmOtp>,
    deletedAt: Option<int>,
    deletedBy: Option<UserId>,
    restoredAt: Option<int>,
    restoredBy: Option<UserId>,
    forgotPasswordOTP: Option<Digest>,
    changeCredentialsTime: Option<int>)

  /** The `userName` getter. */
  function UserName(u: User): string {
    u.firstName + " " + u.lastName
  }

  datatype NameParts = NameParts(first: Option<string>, last: Option<string>)

  /** The `userName` setter: split on " " and keep the first two pieces as
      `firstName` and `lastName`; a missing piece stays undefined. */
  function SplitUserName(value: Option<string>): (r: NameParts)
    ensures value.None? <==> r.first.None?
    ensures r.first.Some? ==> ' ' !in r.first.value
    ensures r.last.Some? ==> ' ' !in r.last.value
    ensures value.Some? ==> (r.last.Some? <==> ' ' in value.value)
    ensures value.Some? && ' ' !in value.value ==> r.first == value
  {
    match value
    case None => NameParts(None, None)
    case Some(v) =>
      var pieces := Split(v, ' ');
      assert ' ' !in v ==> pieces == [v] by {
        if ' ' !in v { SplitNoSeparator(v, ' '); }
      }
      NameParts(Some(pieces[0]), if |pieces| >= 2 then Some(pieces[1]) else None)
  }

  /** Setting then getting `userName` gives back a name with exactly one space. */
  lemma UserNameRoundTrip(first: string, last: string)
    requires ' ' !in first && ' ' !in last
    ensures SplitUserName(Some(first + " " + last)) == NameParts(Some(first), Some(last))
  {
    SplitOneSeparator(first, last, ' ');
  }

  /** Only the first two pieces of a longer name survive the setter. */
  lemma UserNameDropsExtraPieces(first: string, last: string, rest: string)
    requires ' ' !in first && ' ' !in last
    ensures SplitUserName(Some(first + " " + last + " " + rest)) == NameParts(Some(first), Some(last))
  {
    SplitAtFirst(first, last + " " + rest, ' ');
    SplitAtFirst(last, rest, ' ');
    assert first + " " + last + " " + rest == first + [' '] + (last + [' '] + rest);
  }

  /** The fields given to `create`, before casting and validation. */
  datatype Draft = Draft(
    userName: Option<string>,
    email: Option<string>,
    password: Option<Digest>,
    phone: Option<Ciphertext>,
    gender: Option<string>,
    provider: Option<string>,
    confirmEmail: Option<int>,
    confirmOtp: Option<ConfirmOtp>)

  /** `required: true` with `minLength: 2`; the upper bound is spelled
      `maxLenght` in the schema and so is not enforced. */
  predicate NameOk(n: Option<string>) {
    n.Some? && |n.value| >= 2
  }

  /** The provider after the default (`system`) is applied. */
  function DraftProvider(d: Draft): Option<Provider> {
    match d.provider
    case None => Some(System)
    case Some(p) => ParseProvider(p)
  }

  /** Everything the schema checks except the provider-dependent requirements. */
  predicate BaseFieldsOk(d: Draft) {
    var parts := SplitUserName(d.userName);
    && NameOk(parts.first) && NameOk(parts.last)
    && d.email.Some? && d.email.value != ""
    && (d.gender.None? || ParseGender(d.gender.value).Some?)
    && DraftProvider(d).Some?
  }

  /** `password`, `phone` and `confirmEmailOTP` are required exactly when the provider is `system`. */
  predicate ProviderFieldsOk(d: Draft)
    requires DraftProvider(d).Some?
  {
    DraftProvider(d).value == System ==> d.password.Some? && d.phone.Some? && d.confirmOtp.Some?
  }

  /** `Model.create`: the stored user with the defaults applied (gender
      `male`, role `user`, provider `system`), or nothing when validation fails. */
  function CreateUser(id: UserId, d: Draft): (r: Option<User>)
    ensures r.Some? <==> BaseFieldsOk(d) && ProviderFieldsOk(d)
    ensures BaseFieldsOk(d) && DraftProvider(d) == Some(Google) ==> r.Some?
    ensures r.Some? ==> r.value.id == id && Some(r.value.email) == d.email
    ensures r.Some? ==> r.value.role == UserRole && r.value.oldPasswords == []
    ensures r.Some? ==> r.value.gender == (if d.gender.None? then Male else ParseGender(d.gender.value).value)
    ensures r.Some? ==> r.value.provider == (if d.provider.None? then System else ParseProvider(d.provider.value).value)
    ensures r.Some? ==> r.value.password == d.password && r.value.phone == d.phone
    ensures r.Some? ==> r.value.confirmEmail == d.confirmEmail && r.value.confirmOtp == d.confirmOtp
    ensures r.Some? ==> r.value.deletedAt.None? && r.value.changeCredentialsTime.None? && r.value.forgotPasswordOTP.None?
    ensures r.Some? ==>
      && r.value.firstName == SplitUserName(d.userName).first.value
      && r.value.lastName == SplitUserName(d.userName).last.value
    ensures r.Some? ==> r.value.deletedBy.None? && r.value.restoredAt.None? && r.value.restoredBy.None?
  {
    if BaseFieldsOk(d) && ProviderFieldsOk(d) then
      var parts := SplitUserName(d.userName);
      Some(User(
        id := id,
        firstName := parts.first.value,
        lastName := parts.last.value,
        email := d.email.value,
        password := d.password,
        oldPasswords := [],
        phone := d.phone,
        gender := if d.gender.None? then Male else ParseGender(d.gender.value).value,
        role := UserRole,
        provider := DraftProvider(d).value,
        confirmEmail := d.confirmEmail,
        confirmOtp := d.confirmOtp,
        deletedAt := None,
        deletedBy := None,
        restoredAt := None,
        restoredBy := None,
        forgotPasswordOTP := None,
        changeCredentialsTime := None))
    else None
  }

  /** A user created from a name with exactly one space reads that name back. */
  lemma CreatedUserNameReadsBack(id: UserId, d: Draft, first: string, last: string)
    requires ' ' !in first && ' ' !in last
    requires d.userName == Some(first + " " + last)
    requires CreateUser(id, d).Some?
    ensures UserName(CreateUser(id, d).value) == first + " " + last
  {
    UserNameRoundTrip(first, last);
  }

  /** The shape every stored user keeps: a password exactly for `system`
      accounts, a phone for `system` accounts, the confirmation OTP exactly while
      a `system` account is unconfirmed, between 1 and 5 codes sent, and a resend
      block only once 5 codes were sent. */
  predicate WellFormed(u: User) {
    && (u.password.Some? <==> u.provider == System)
    && (u.provider == System ==> u.phone.Some?)
    && (u.confirmOtp.Some? <==> u.provider == System && u.confirmEmail.None?)
    && (u.confirmOtp.Some? ==> 1 <= u.confirmOtp.value.count <= 5)
    && (u.confirmOtp.Some? && u.confirmOtp.value.block.Some? ==> u.confirmOtp.value.count == 5)
  }

  /** The unique indexes on `_id` and `email`, and every user well formed. */
  predicate UsersInvariant(users: seq<User>) {
    && (forall i, j :: 0 <= i < j < |users| ==> users[i].id != users[j].id)
    && (forall i, j :: 0 <= i < j < |users| ==> users[i].email != users[j].email)
    && (forall i :: 0 <= i < |users| ==> WellFormed(users[i]))
  }

  /** Replacing a user by a well-formed one with the same `_id` and `email`
      keeps the invariant. */
  lemma UpdateKeepsInvariant(users: seq<User>, i: nat, u: User)
    requires UsersInvariant(users) && i < |users|
    requires u.id == users[i].id && u.email == users[i].email && WellFormed(u)
    ensures UsersInvariant(users[i := u])
  {
  }

  /** Appending a well-formed user with a new `_id` and a new `email` keeps the
      invariant. */
  lemma AppendKeepsInvariant(users: seq<User>, u: User)
    requires UsersInvariant(users) && WellFormed(u)
    requires forall i :: 0 <= i < |users| ==> users[i].id != u.id && users[i].email != u.email
    ensures UsersInvariant(users + [u])
  {
    var r := users + [u];
    assert forall i :: 0 <= i < |users| ==> r[i] == users[i];
  }

  /** Removing a user keeps the invariant. */
  lemma RemoveKeepsInvariant(users: seq<User>, i: nat)
    requires UsersInvariant(users) && i < |users|
    ensures UsersInvariant(RemoveAt(users, i))
  {
    var r := RemoveAt(users, i);
    forall a, b | 0 <= a < b < |r|
      ensures r[a].id != r[b].id && r[a].email != r[b].email
    {
      var a' := if a < i then a else a + 1;
      var b' := if b < i then b else b + 1;
      assert r[a] == users[a'] && r[b] == users[b'];
    }
  }

  /** The `messages` virtual: the messages whose `reciverId` is this user. */
  function Inbox(u: User, messages: seq<Message>): (r: seq<Message>)
    ensures forall m :: m in r <==> m in messages && m.reciverId == u.id
  {
    Filter(messages, (m: Message) => m.reciverId == u.id)
  }

  /** The `messagesSent` virtual: the messages whose `senderId` is this user. */
  function SentBy(u: User, messages: seq<Message>): (r: seq<Message>)
    ensures forall m :: m in r <==> m in messages && m.senderId == Some(u.id)
  {
    Filter(messages, (m: Message) => m.senderId == Some(u.id))
  }
}
