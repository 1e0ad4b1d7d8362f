/** JWT issuance and the authentication gate
    (server/src/utils/security/token.security.js) and the revocation store
    (server/src/DB/models/Token.Model.js).

    A signed token is represented by the key it was signed with and its claims;
    reading token text is a parameter `decode` (the JWT parser). jsonwebtoken's
    `iat` is `floor(now / 1000)` and a token verifies while
    `floor(now / 1000) < exp`. */
module Tokens {

  import opened Wrappers
  import opened Text
  import opened Query
  import opened UserModel

  /** `signatureLevelEnum`. */
  const SystemLevel: string := "System"
  const BearerLevel: string := "Bearer"

  /** `logoutEnum`. */
  const FromAll: string := "fromAll"
  const LogoutFlag: string := "logout"
  const StayLoggedIn: string := "stayLoggedIn"

  /** `tokenTypeEnum`. */
  datatype TokenType = Access | Refresh

  /** The two key sets: the `*_USER_*` and the `*_SYSTEM_*` signatures. */
  datatype Tier = UserTier | SystemTier

  /** One of the four signing secrets. */
  datatype Key = Key(tier: Tier, kind: TokenType)

  datatype Signatures = Signatures(access: Key, refresh: Key)

  /** `getSignatures`: the System keys for the level "System", the User keys for
      every other level string. */
  function GetSignatures(level: string): (s: Signatures)
    ensures s.access.kind == Access && s.refresh.kind == Refresh
    ensures s.access.tier == s.refresh.tier
    ensures s.access.tier == SystemTier <==> level == SystemLevel
  {
    if level == SystemLevel then Signatures(Key(SystemTier, Access), Key(SystemTier, Refresh))
    else Signatures(Key(UserTier, Access), Key(UserTier, Refresh))
  }

  /** The key that verifies a token of `kind` presented under `level`. */
  function KeyFor(level: string, kind: TokenType): Key {
    var s := GetSignatures(level);
    if kind == Access then s.access else s.refresh
  }

  /** The registered claims the server uses: `id`, `jti` ("" when absent),
      `iat` and `exp` in seconds. */
  datatype Claims = Claims(id: Option<UserId>, jti: string, iat: nat, exp: nat)

  /** A signed token. */
  datatype Jwt = Jwt(key: Key, claims: Claims)

  /** Lifetimes in seconds: `expiresIn: 60 * 60` and `expiresIn: "1y"`
      (365.25 days). */
  const AccessTtl: nat := 3600
  const RefreshTtl: nat := 31557600

  /** `jwt.verify`: the claims when the token was signed with `key` and has not
      expired, nothing otherwise. */
  function Verify(j: Jwt, key: Key, nowMs: nat): (r: Option<Claims>)
    ensures r.Some? <==> j.key == key && nowMs / 1000 < j.claims.exp
    ensures r.Some? ==> r.value == j.claims
  {
    if j.key == key && nowMs / 1000 < j.claims.exp then Some(j.claims) else None
  }

  /** The tier a role signs with: System for every role other than `user`. */
  function TierFor(role: Role): (t: Tier)
    ensures t == SystemTier <==> role != UserRole
  {
    if role != UserRole then SystemTier else UserTier
  }

  datatype Credentials = Credentials(access: Jwt, refresh: Jwt)

  /** `generateLoginCredentials`: an access and a refresh token for `u`,
      sharing the freshly drawn `jti`, signed with the tier of `u`'s role. */
  function GenerateLoginCredentials(u: User, jti: string, nowMs: nat): (c: Credentials)
    ensures c.access.key == Key(TierFor(u.role), Access)
    ensures c.refresh.key == Key(TierFor(u.role), Refresh)
    ensures c.access.claims.jti == jti && c.refresh.claims.jti == jti
    ensures c.access.claims.id == Some(u.id) && c.refresh.claims.id == Some(u.id)
    ensures c.access.claims.iat == nowMs / 1000 && c.refresh.claims.iat == nowMs / 1000
    ensures c.access.claims.exp == nowMs / 1000 + AccessTtl
    ensures c.refresh.claims.exp == nowMs / 1000 + RefreshTtl
  {
    var s := GetSignatures(if u.role != UserRole then SystemLevel else BearerLevel);
    var iat := nowMs / 1000;
    Credentials(
      Jwt(s.access, Claims(Some(u.id), jti, iat, iat + AccessTtl)),
      Jwt(s.refresh, Claims(Some(u.id), jti, iat, iat + RefreshTtl)))
  }

  /** What the gate hands to the next handler as `req.user` and `req.decoded`. */
  datatype Session = Session(user: User, decoded: Claims)

  /** A record of the revocation store. */
  datatype RevokedToken = RevokedToken(jti: string, expiresIn: int, userId: UserId)

  /** The revocation store is keyed by `jti` (the unique index). */
  predicate RevokedInvariant(revoked: map<string, RevokedToken>) {
    forall k :: k in revoked ==> revoked[k].jti == k && k != ""
  }

  /** The scheme part and the token part of `authorization?.split(" ")`. */
  function SchemePart(authorization: string): string {
    Split(authorization, ' ')[0]
  }

  function TokenPart(authorization: string): string {
    var parts := Split(authorization, ' ');
    if |parts| >= 2 then parts[1] else ""
  }

  /** The user `findById` returns. */
  function FindUser(users: seq<User>, id: UserId): (r: Option<User>)
    ensures r.Some? ==> r.value in users && r.value.id == id
    ensures r.None? <==> forall i :: 0 <= i < |users| ==> users[i].id != id
  {
    match FindFirst(users, (u: User) => u.id == id)
    case None => None
    case Some(i) => Some(users[i])
  }

  /** A credential change after the token was issued: `changeCredentialsTime`
      (milliseconds) later than `iat * 1000`. */
  predicate ChangedSince(u: User, iat: nat) {
    u.changeCredentialsTime.Some? && u.changeCredentialsTime.value > iat * 1000
  }

  /** Both parts of `authorization?.split(" ")` are present. */
  predicate HasParts(authorization: string) {
    SchemePart(authorization) != "" && TokenPart(authorization) != ""
  }

  /** The claims `jwt.verify` returns for the presented token, when it parses,
      was signed with the presented level's key and has not expired. */
  function VerifiedClaims(authorization: string, tokenType: TokenType, decode: string -> Option<Jwt>,
                          nowMs: nat): Option<Claims> {
    if !HasParts(authorization) || decode(TokenPart(authorization)).None? then None
    else Verify(decode(TokenPart(authorization)).value, KeyFor(SchemePart(authorization), tokenType), nowMs)
  }

  /** `decodedToken`: the guards, in the order the source applies them. A
      failed `jwt.verify` throws without a `cause`, so the error handler
      answers it with 400 and the library's message: the signature is
      checked before the expiry. */
  function DecodedToken(users: seq<User>, revoked: map<string, RevokedToken>, authorization: string,
                        tokenType: TokenType, decode: string -> Option<Jwt>, nowMs: nat): (r: Reply<Session>)
    ensures r.Hang? == false
    ensures !HasParts(authorization) <==> r == Fail(401, "Missing Token Parts")
    ensures HasParts(authorization) && decode(TokenPart(authorization)).None? ==> r == Fail(400, "jwt malformed")
    ensures HasParts(authorization) && decode(TokenPart(authorization)).Some? ==>
      var j := decode(TokenPart(authorization)).value;
      && (j.key != KeyFor(SchemePart(authorization), tokenType) ==> r == Fail(400, "invalid signature"))
      && (j.key == KeyFor(SchemePart(authorization), tokenType) && nowMs / 1000 >= j.claims.exp ==>
            r == Fail(400, "jwt expired"))
    ensures VerifiedClaims(authorization, tokenType, decode, nowMs).Some? ==>
      var c := VerifiedClaims(authorization, tokenType, decode, nowMs).value;
      && (c.jti != "" && c.jti in revoked ==> r == Fail(401, "In-Valid Login Credentials"))
      && ((c.jti == "" || c.jti !in revoked) && c.id.None? ==> r == Fail(400, "In-Valid token"))
      && ((c.jti == "" || c.jti !in revoked) && c.id.Some? && FindUser(users, c.id.value).None? ==>
            r == Fail(404, "Not Registerd Account"))
      && ((c.jti == "" || c.jti !in revoked) && c.id.Some? && FindUser(users, c.id.value).Some?
          && ChangedSince(FindUser(users, c.id.value).value, c.iat) ==>
            r == Fail(401, "In-Valid Login Credentials"))
    ensures r.Done? <==>
      && VerifiedClaims(authorization, tokenType, decode, nowMs).Some?
      && var c := VerifiedClaims(authorization, tokenType, decode, nowMs).value;
      && (c.jti == "" || c.jti !in revoked)
      && c.id.Some?
      && FindUser(users, c.id.value).Some?
      && !ChangedSince(FindUser(users, c.id.value).value, c.iat)
    ensures r.Done? ==> r.status == 200 && r.value.user in users && Some(r.value.user.id) == r.value.decoded.id
    ensures r.Done? ==> r.value.decoded == decode(TokenPart(authorization)).value.claims
  {
    var bearer := SchemePart(authorization);
    var token := TokenPart(authorization);
    if bearer == "" || token == "" then Fail(401, "Missing Token Parts")
    else
      match decode(token)
      case None => Fail(400, "jwt malformed")
      case Some(j) =>
        if j.key != KeyFor(bearer, tokenType) then Fail(400, "invalid signature")
        else
          match Verify(j, KeyFor(bearer, tokenType), nowMs)
          case None => Fail(400, "jwt expired")
          case Some(c) =>
            if c.jti != "" && c.jti in revoked then Fail(401, "In-Valid Login Credentials")
            else if c.id.None? then Fail(400, "In-Valid token")
            else
              match FindUser(users, c.id.value)
              case None => Fail(404, "Not Registerd Account")
              case Some(u) =>
                if ChangedSince(u, c.iat) then Fail(401, "In-Valid Login Credentials")
                else Done(200, Session(u, c))
  }

  /** The lifetime `createRevokeToken` gives a revocation record:
      `expiresIn` is `iat + 31536000` (365 days). */
  const RevocationTtl: nat := 31536000

  /** The lifetime a revocation record needs to outlive the longest-lived
      token it revokes: that of the refresh token. */
  const CorrectedRevocationTtl: nat := RefreshTtl

  function RevokeRecord(s: Session, ttl: nat): RevokedToken {
    RevokedToken(s.decoded.jti, s.decoded.iat + ttl, s.user.id)
  }

  /** The error a failed insert answers: Mongoose's required-path message
      for a token without `jti`, and the unique index's duplicate-key error
      for one already revoked. */
  function RevokeFailure(s: Session): (text: string)
    ensures s.decoded.jti == "" <==> text == "Token validation failed: jti: Path `jti` is required."
  {
    if s.decoded.jti == "" then "Token validation failed: jti: Path `jti` is required."
    else "E11000 duplicate key error"
  }

  /** `createRevokeToken`: insert a record for the session's `jti`. A missing
      `jti` fails the schema and a duplicate one the unique index. */
  function RevokeInsert(revoked: map<string, RevokedToken>, s: Session, ttl: nat): (r: Option<map<string, RevokedToken>>)
    ensures r.Some? <==> s.decoded.jti != "" && s.decoded.jti !in revoked
    ensures r.Some? ==> r.value.Keys == revoked.Keys + {s.decoded.jti}
    ensures r.Some? ==> forall k :: k in revoked ==> r.value[k] == revoked[k]
    ensures r.Some? ==> r.value[s.decoded.jti] == RevokedToken(s.decoded.jti, s.decoded.iat + ttl, s.user.id)
    ensures r.Some? && RevokedInvariant(revoked) ==> RevokedInvariant(r.value)
  {
    if s.decoded.jti == "" || s.decoded.jti in revoked then None
    else Some(revoked[s.decoded.jti := RevokeRecord(s, ttl)])
  }

  /** The daily sweep's filter: drop the records with `expiresIn < floor(now / 1000)`. */
  function Sweep(revoked: map<string, RevokedToken>, nowMs: nat): (r: map<string, RevokedToken>)
    ensures forall k :: k in r <==> k in revoked && revoked[k].expiresIn >= nowMs / 1000
    ensures forall k :: k in r ==> r[k] == revoked[k]
    ensures RevokedInvariant(revoked) ==> RevokedInvariant(r)
  {
    MapRemoveWhere(revoked, (t: RevokedToken) => t.expiresIn < nowMs / 1000)
  }

  /** The header the clients send: "Bearer " and the token. */
  function BearerHeader(token: string): string {
    BearerLevel + " " + token
  }

  lemma {:induction false} HeaderParts(level: string, token: string)
    requires ' ' !in level && ' ' !in token
    ensures SchemePart(level + " " + token) == level
    ensures TokenPart(level + " " + token) == token
  {
    SplitOneSeparator(level, token, ' ');
  }

  /** Completeness: a freshly issued token of a `user`-role account, presented
      as "Bearer <token>", passes the gate as long as its `jti` is not revoked
      and credentials did not change after it was issued. */
  lemma FreshTokenAccepted(users: seq<User>, revoked: map<string, RevokedToken>, u: User, jti: string,
                           issuedMs: nat, nowMs: nat, kind: TokenType, token: string, decode: string -> Option<Jwt>)
    requires u in users && forall i :: 0 <= i < |users| && users[i].id == u.id ==> users[i] == u
    requires u.role == UserRole && jti !in revoked
    requires !ChangedSince(u, issuedMs / 1000)
    requires issuedMs <= nowMs && nowMs / 1000 < issuedMs / 1000 + AccessTtl
    requires token != "" && ' ' !in token
    requires var c := GenerateLoginCredentials(u, jti, issuedMs);
             decode(token) == Some(if kind == Access then c.access else c.refresh)
    ensures DecodedToken(users, revoked, BearerHeader(token), kind, decode, nowMs)
            == Done(200, Session(u, (if kind == Access then GenerateLoginCredentials(u, jti, issuedMs).access
                                     else GenerateLoginCredentials(u, jti, issuedMs).refresh).claims))
  {
    HeaderParts(BearerLevel, token);
    var found := FindUser(users, u.id);
    var i :| 0 <= i < |users| && users[i] == u;
    assert found.Some?;
  }

  /** Tokens of `admin` accounts are signed with the System keys, so the
      "Bearer" scheme the clients send never verifies them. */
  lemma AdminTokenRejectedUnderBearer(users: seq<User>, revoked: map<string, RevokedToken>, u: User, jti: string,
                                      issuedMs: nat, nowMs: nat, kind: TokenType, token: string, decode: string -> Option<Jwt>)
    requires u.role == Admin
    requires token != "" && ' ' !in token
    requires var c := GenerateLoginCredentials(u, jti, issuedMs);
             decode(token) == Some(if kind == Access then c.access else c.refresh)
    ensures DecodedToken(users, revoked, BearerHeader(token), kind, decode, nowMs) == Fail(400, "invalid signature")
  {
    HeaderParts(BearerLevel, token);
  }

  /** Revoking a pair's shared `jti` through either token shuts out both
      tokens of the pair, whatever the header and token type. */
  lemma {:induction false} RevokedPairRejected(users: seq<User>, revoked: map<string, RevokedToken>, s: Session, ttl: nat,
                                               u: User, issuedMs: nat, nowMs: nat, kind: TokenType,
                                               authorization: string, decode: string -> Option<Jwt>)
    requires RevokeInsert(revoked, s, ttl).Some?
    requires var c := GenerateLoginCredentials(u, s.decoded.jti, issuedMs);
             decode(TokenPart(authorization)) == Some(c.access) || decode(TokenPart(authorization)) == Some(c.refresh)
    ensures !DecodedToken(users, RevokeInsert(revoked, s, ttl).value, authorization, kind, decode, nowMs).Done?
  {
    var after := RevokeInsert(revoked, s, ttl).value;
    assert s.decoded.jti in after;
  }

  /** Global invalidation: once `changeCredentialsTime` is later than a
      token's issue time (in ms), that token is refused with 401. */
  lemma ChangedCredentialsRejectOlderTokens(users: seq<User>, revoked: map<string, RevokedToken>, u: User, jti: string,
                                            issuedMs: nat, nowMs: nat, kind: TokenType, token: string, decode: string -> Option<Jwt>)
    requires u in users && forall i :: 0 <= i < |users| && users[i].id == u.id ==> users[i] == u
    requires u.role == UserRole && jti !in revoked
    requires u.changeCredentialsTime.Some? && u.changeCredentialsTime.value > issuedMs
    requires nowMs / 1000 < issuedMs / 1000 + AccessTtl
    requires token != "" && ' ' !in token
    requires var c := GenerateLoginCredentials(u, jti, issuedMs);
             decode(token) == Some(if kind == Access then c.access else c.refresh)
    ensures DecodedToken(users, revoked, BearerHeader(token), kind, decode, nowMs) == Fail(401, "In-Valid Login Credentials")
  {
    HeaderParts(BearerLevel, token);
    var i :| 0 <= i < |users| && users[i] == u;
    assert FindUser(users, u.id).Some?;
  }

  /** `iat` is whole seconds and `changeCredentialsTime` milliseconds, so a
      token issued in the same second as a credential change, but after it,
      is refused with 401 for its whole lifetime. */
  lemma SameSecondTokenRejected(users: seq<User>, revoked: map<string, RevokedToken>, u: User, jti: string,
                                changedMs: nat, issuedMs: nat, nowMs: nat, kind: TokenType, token: string, decode: string -> Option<Jwt>)
    requires u in users && forall i :: 0 <= i < |users| && users[i].id == u.id ==> users[i] == u
    requires u.role == UserRole && jti !in revoked
    requires u.changeCredentialsTime == Some(changedMs)
    requires changedMs <= issuedMs && changedMs / 1000 == issuedMs / 1000 && changedMs % 1000 != 0
    requires nowMs / 1000 < issuedMs / 1000 + AccessTtl
    requires token != "" && ' ' !in token
    requires var c := GenerateLoginCredentials(u, jti, issuedMs);
             decode(token) == Some(if kind == Access then c.access else c.refresh)
    ensures DecodedToken(users, revoked, BearerHeader(token), kind, decode, nowMs) == Fail(401, "In-Valid Login Credentials")
  {
    HeaderParts(BearerLevel, token);
    var i :| 0 <= i < |users| && users[i] == u;
    assert FindUser(users, u.id).Some?;
    assert changedMs > (issuedMs / 1000) * 1000;
  }

  /** A Google account signed in at time 0, for the example below. */
  const ExampleUser := User(1, "Ab", "Cd", "a@b.c", None, [], None, Male, UserRole, Google, Some(0), None,
                            None, None, None, None, None, None)

  /** The decoder of the example: it knows one refresh token, `"t"`. */
  function ExampleDecode(c: Credentials): string -> Option<Jwt> {
    (t: string) => if t == "t" then Some(c.refresh) else None
  }

  /** The example's revoked refresh token is refused before the sweep. */
  lemma RevokedRefreshTokenRefused(c: Credentials, s: Session, revoked: map<string, RevokedToken>)
    requires c == GenerateLoginCredentials(ExampleUser, "j", 0)
    requires s == Session(ExampleUser, c.refresh.claims)
    requires revoked == RevokeInsert(map[], s, RevocationTtl).value
    ensures DecodedToken([ExampleUser], revoked, BearerHeader("t"), Refresh, ExampleDecode(c),
                         (RevocationTtl + 1) * 1000) == Fail(401, "In-Valid Login Credentials")
  {
    HeaderParts(BearerLevel, "t");
    assert FindUser([ExampleUser], 1) == Some(ExampleUser);
  }

  /** After the sweep the same token passes again. */
  lemma SweptRefreshTokenPasses(c: Credentials, s: Session, revoked: map<string, RevokedToken>)
    requires c == GenerateLoginCredentials(ExampleUser, "j", 0)
    requires s == Session(ExampleUser, c.refresh.claims)
    requires revoked == RevokeInsert(map[], s, RevocationTtl).value
    ensures var nowMs := (RevocationTtl + 1) * 1000;
      DecodedToken([ExampleUser], Sweep(revoked, nowMs), BearerHeader("t"), Refresh, ExampleDecode(c), nowMs)
        == Done(200, s)
  {
    HeaderParts(BearerLevel, "t");
    assert FindUser([ExampleUser], 1) == Some(ExampleUser);
  }

  /** As written, the revocation record of a refresh token expires 365 days
      after `iat` while the token lives 365.25 days: a sweep in between drops
      the record and the revoked refresh token passes the gate again. */
  lemma SweepRevivesRevokedRefreshTokenAsWritten()
    ensures
      var c := GenerateLoginCredentials(ExampleUser, "j", 0);
      var s := Session(ExampleUser, c.refresh.claims);
      var revoked := RevokeInsert(map[], s, RevocationTtl).value;
      var nowMs := (RevocationTtl + 1) * 1000;
      && DecodedToken([ExampleUser], revoked, BearerHeader("t"), Refresh, ExampleDecode(c), nowMs)
           == Fail(401, "In-Valid Login Credentials")
      && DecodedToken([ExampleUser], Sweep(revoked, nowMs), BearerHeader("t"), Refresh, ExampleDecode(c), nowMs)
           == Done(200, s)
  {
    var c := GenerateLoginCredentials(ExampleUser, "j", 0);
    var s := Session(ExampleUser, c.refresh.claims);
    var revoked := RevokeInsert(map[], s, RevocationTtl).value;
    RevokedRefreshTokenRefused(c, s, revoked);
    SweptRefreshTokenPasses(c, s, revoked);
  }

  /** With `CorrectedRevocationTtl`, a sweep never drops the revocation of a token
      that would still verify. */
  lemma SweepKeepsLiveRevocations(revoked: map<string, RevokedToken>, s: Session, j: Jwt, key: Key, nowMs: nat)
    requires RevokeInsert(revoked, s, CorrectedRevocationTtl).Some?
    requires j.claims.jti == s.decoded.jti && j.claims.iat == s.decoded.iat
    requires j.claims.exp <= j.claims.iat + RefreshTtl
    requires Verify(j, key, nowMs).Some?
    ensures j.claims.jti in Sweep(RevokeInsert(revoked, s, CorrectedRevocationTtl).value, nowMs)
  {
  }
}
