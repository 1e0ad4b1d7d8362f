/** The account rules of server/src/modules/users/users.service.js: the
    soft-delete life cycle (freeze, restore, delete) and the paging of the
    user search. */
module UsersService {

  import opened Wrappers
  import opened Query
  import opened UserModel
  import opened Store
  import opened Text
  import opened Numerals
  import opened Crypto

  // ---------------------------------------------------------------- freezAccount

  /** The account a freeze request targets: the path `userId`, or the
      requester's own account. */
  function FreezeTarget(requester: User, userId: Option<UserId>): UserId {
    userId.GetOr(requester.id)
  }

  function UnfrozenIndex(users: seq<User>, id: UserId): Option<nat> {
    FindFirst(users, (u: User) => u.id == id && u.deletedAt.None?)
  }

  function Frozen(u: User, actor: UserId, nowMs: nat): User {
    u.(deletedAt := Some(nowMs), deletedBy := Some(actor), restoredAt := None, restoredBy := None)
  }

  /** freezAccount: a path `userId` from a non-admin is refused with 403 before
      anything changes; otherwise the target, if not frozen already, records
      when and by whom it was frozen and loses its restore marks. */
  function FreezeStep(st: Collections, requester: User, userId: Option<UserId>, nowMs: nat): (t: Transition<string>)
    ensures !t.reply.Hang? && t.after.revoked == st.revoked && t.after.messages == st.messages
    ensures userId.Some? && requester.role != Admin ==> t == Transition(Fail(403, "You Are Not Allow To Delete This Account"), st)
    ensures t.reply.Done? <==> (userId.None? || requester.role == Admin)
                               && UnfrozenIndex(st.users, FreezeTarget(requester, userId)).Some?
    ensures !t.reply.Done? ==> t.after == st
    ensures t.reply.Done? ==>
      var i := UnfrozenIndex(st.users, FreezeTarget(requester, userId)).value;
      && st.users[i].id == FreezeTarget(requester, userId) && st.users[i].deletedAt.None?
      && t.after.users == st.users[i := Frozen(st.users[i], requester.id, nowMs)]
  {
    if userId.Some? && requester.role != Admin then Transition(Fail(403, "You Are Not Allow To Delete This Account"), st)
    else
      match UnfrozenIndex(st.users, FreezeTarget(requester, userId))
      case None => Transition(Fail(400, "Account Not Exsist"), st)
      case Some(i) => Transition(Done(200, "Account Freezed Succses"), st.(users := st.users[i := Frozen(st.users[i], requester.id, nowMs)]))
  }

  // ---------------------------------------------------------------- restoreAccount

  /** restoreAccount's filter: the account is frozen, and not by itself. */
  predicate Restorable(u: User, id: UserId) {
    u.id == id && u.deletedAt.Some? && u.deletedBy != Some(id)
  }

  function RestorableIndex(users: seq<User>, id: UserId): (r: Option<nat>)
    ensures r.Some? ==> r.value < |users| && Restorable(users[r.value], id)
    ensures r.None? <==> forall i :: 0 <= i < |users| ==> !Restorable(users[i], id)
  {
    FindFirst(users, (u: User) => Restorable(u, id))
  }

  function Restored(u: User, actor: UserId, nowMs: nat): User {
    u.(deletedAt := None, deletedBy := None, restoredAt := Some(nowMs), restoredBy := Some(actor))
  }

  /** restoreAccount: any authenticated requester may restore a frozen
      account that was not frozen by itself; the freeze marks are removed and
      the restore recorded. */
  function RestoreStep(st: Collections, requester: User, userId: UserId, nowMs: nat): (t: Transition<string>)
    ensures !t.reply.Hang? && t.after.revoked == st.revoked && t.after.messages == st.messages
    ensures t.reply.Done? <==> RestorableIndex(st.users, userId).Some?
    ensures !t.reply.Done? ==> t == Transition(Fail(400, "Account Not Exsist"), st)
    ensures t.reply.Done? ==>
      var i := RestorableIndex(st.users, userId).value;
      t.after.users == st.users[i := Restored(st.users[i], requester.id, nowMs)]
  {
    match RestorableIndex(st.users, userId)
    case None => Transition(Fail(400, "Account Not Exsist"), st)
    case Some(i) => Transition(Done(200, "Account Restored Succses"), st.(users := st.users[i := Restored(st.users[i], requester.id, nowMs)]))
  }

  // ---------------------------------------------------------------- deleteAccount

  function FrozenIndex(users: seq<User>, id: UserId): (r: Option<nat>)
    ensures r.Some? ==> r.value < |users| && users[r.value].id == id && users[r.value].deletedAt.Some?
    ensures r.None? <==> forall i :: 0 <= i < |users| ==> !(users[i].id == id && users[i].deletedAt.Some?)
  {
    FindFirst(users, (u: User) => u.id == id && u.deletedAt.Some?)
  }

  /** What deleteAccount reports: the response and whether the account's
      media folder `users/<id>` is removed. */
  datatype Deletion = Deletion(reply: Reply<string>, after: Collections, cleanupMedia: bool)

  /** deleteAccount: only a frozen account is removed, and its media are
      cleaned up exactly when a row was deleted. */
  function DeleteStep(st: Collections, userId: UserId): (d: Deletion)
    ensures !d.reply.Hang? && d.after.revoked == st.revoked && d.after.messages == st.messages
    ensures d.cleanupMedia <==> d.reply.Done?
    ensures d.reply.Done? <==> FrozenIndex(st.users, userId).Some?
    ensures !d.reply.Done? ==> d.after == st && d.reply == Fail(400, "Account Not Exsist")
    ensures d.reply.Done? ==> d.after.users == RemoveAt(st.users, FrozenIndex(st.users, userId).value)
  {
    match FrozenIndex(st.users, userId)
    case None => Deletion(Fail(400, "Account Not Exsist"), st, false)
    case Some(i) => Deletion(Done(200, "Account Deleted Succses"), st.(users := RemoveAt(st.users, i)), true)
  }

  // ---------------------------------------------------------------- handlers

  method FreezAccount(db: Database, requester: User, userId: Option<UserId>, nowMs: nat) returns (reply: Reply<string>)
    modifies db
    ensures Transition(reply, db.Contents()) == FreezeStep(old(db.Contents()), requester, userId, nowMs)
  {
    if userId.Some? && requester.role != Admin {
      return Fail(403, "You Are Not Allow To Delete This Account");
    }
    var found := UnfrozenIndex(db.users, userId.GetOr(requester.id));
    if found.None? {
      return Fail(400, "Account Not Exsist");
    }
    var i := found.value;
    db.users := db.users[i := Frozen(db.users[i], requester.id, nowMs)];
    reply := Done(200, "Account Freezed Succses");
  }

  method RestoreAccount(db: Database, requester: User, userId: UserId, nowMs: nat) returns (reply: Reply<string>)
    modifies db
    ensures Transition(reply, db.Contents()) == RestoreStep(old(db.Contents()), requester, userId, nowMs)
  {
    var found := RestorableIndex(db.users, userId);
    if found.None? {
      return Fail(400, "Account Not Exsist");
    }
    var i := found.value;
    db.users := db.users[i := Restored(db.users[i], requester.id, nowMs)];
    reply := Done(200, "Account Restored Succses");
  }

  method DeleteAccount(db: Database, userId: UserId) returns (reply: Reply<string>, cleanupMedia: bool)
    modifies db
    ensures Deletion(reply, db.Contents(), cleanupMedia) == DeleteStep(old(db.Contents()), userId)
  {
    var found := FrozenIndex(db.users, userId);
    cleanupMedia := found.Some?;
    if cleanupMedia {
      db.users := RemoveAt(db.users, found.value);
      reply := Done(200, "Account Deleted Succses");
    } else {
      reply := Fail(400, "Account Not Exsist");
    }
  }

  // ---------------------------------------------------------------- the life cycle

  lemma FreezeKeepsValid(st: Collections, requester: User, userId: Option<UserId>, nowMs: nat)
    requires Valid(st)
    ensures Valid(FreezeStep(st, requester, userId, nowMs).after)
  {
    var t := FreezeStep(st, requester, userId, nowMs);
    if t.reply.Done? {
      var i := UnfrozenIndex(st.users, FreezeTarget(requester, userId)).value;
      UpdateKeepsInvariant(st.users, i, t.after.users[i]);
    }
  }

  lemma RestoreKeepsValid(st: Collections, requester: User, userId: UserId, nowMs: nat)
    requires Valid(st)
    ensures Valid(RestoreStep(st, requester, userId, nowMs).after)
  {
    var t := RestoreStep(st, requester, userId, nowMs);
    if t.reply.Done? {
      var i := RestorableIndex(st.users, userId).value;
      UpdateKeepsInvariant(st.users, i, t.after.users[i]);
    }
  }

  lemma DeleteKeepsValid(st: Collections, userId: UserId)
    requires Valid(st)
    ensures Valid(DeleteStep(st, userId).after)
  {
    if FrozenIndex(st.users, userId).Some? {
      RemoveKeepsInvariant(st.users, FrozenIndex(st.users, userId).value);
    }
  }

  /** An account that froze itself can be restored by nobody: restore
      refuses any account whose `deletedBy` is its own id. */
  lemma SelfFrozenStaysFrozen(st: Collections, me: User, nowMs: nat, anyone: User, laterMs: nat)
    requires Valid(st) && me in st.users
    requires FreezeStep(st, me, None, nowMs).reply.Done?
    ensures RestoreStep(FreezeStep(st, me, None, nowMs).after, anyone, me.id, laterMs) == Transition(Fail(400, "Account Not Exsist"), FreezeStep(st, me, None, nowMs).after)
  {
    var after := FreezeStep(st, me, None, nowMs).after;
    var i := UnfrozenIndex(st.users, me.id).value;
    forall j | 0 <= j < |after.users|
      ensures !Restorable(after.users[j], me.id)
    {
      if j != i {
        assert after.users[j] == st.users[j];
        assert st.users[j].id != st.users[i].id;
      }
    }
  }

  /** Restore checks no role: an account an admin froze can be restored by
      any other authenticated user. */
  lemma AdminFreezeUndoneByAnyUser(st: Collections, admin: User, target: UserId, nowMs: nat, anyone: User, laterMs: nat)
    requires Valid(st) && admin.role == Admin && admin.id != target
    requires FreezeStep(st, admin, Some(target), nowMs).reply.Done?
    ensures anyone.role == UserRole ==> RestoreStep(FreezeStep(st, admin, Some(target), nowMs).after, anyone, target, laterMs).reply.Done?
  {
    var after := FreezeStep(st, admin, Some(target), nowMs).after;
    var i := UnfrozenIndex(st.users, target).value;
    assert Restorable(after.users[i], target);
  }

  /** A frozen account can then be deleted, its media are cleaned up and no
      account with its id remains. */
  lemma FreezeThenDelete(st: Collections, me: User, nowMs: nat)
    requires Valid(st)
    requires FreezeStep(st, me, None, nowMs).reply.Done?
    ensures var d := DeleteStep(FreezeStep(st, me, None, nowMs).after, me.id);
      && d.reply.Done? && d.cleanupMedia
      && forall j :: 0 <= j < |d.after.users| ==> d.after.users[j].id != me.id
  {
    var after := FreezeStep(st, me, None, nowMs).after;
    var i := UnfrozenIndex(st.users, me.id).value;
    assert after.users[i].id == me.id && after.users[i].deletedAt.Some?;
    FreezeKeepsValid(st, me, None, nowMs);
    var k := FrozenIndex(after.users, me.id).value;
    assert k == i;
    var r := RemoveAt(after.users, i);
    forall j | 0 <= j < |r| ensures r[j].id != me.id {
      if j < i { assert r[j] == after.users[j]; } else { assert r[j] == after.users[j + 1]; }
    }
  }

  // ---------------------------------------------------------------- searchForUser

  /** `Math.ceil(total / limit)`. */
  function TotalPages(total: nat, limit: nat): (n: nat)
    requires limit >= 1
    ensures n * limit >= total
    ensures n > 0 ==> (n - 1) * limit < total
  {
    (total + limit - 1) / limit
  }

  /** `.skip((page - 1) * limit).limit(limit)` with one number for `limit`. */
  function Page<T>(xs: seq<T>, page: nat, limit: nat): (r: seq<T>)
    requires page >= 1
    ensures |r| <= limit
    ensures (page - 1) * limit >= |xs| ==> r == []
    ensures limit >= 1 ==> r == Window(xs, (page - 1) * limit, limit)
  {
    var from := if (page - 1) * limit < |xs| then (page - 1) * limit else |xs|;
    var to := if from + limit < |xs| then from + limit else |xs|;
    xs[from..to]
  }

  /** Pages 1 to `n`, one after the other. */
  function FirstPages<T>(xs: seq<T>, limit: nat, n: nat): seq<T>
  {
    if n == 0 then [] else FirstPages(xs, limit, n - 1) + Page(xs, n, limit)
  }

  lemma {:induction false} FirstPagesArePrefix<T>(xs: seq<T>, limit: nat, n: nat)
    ensures FirstPages(xs, limit, n) == xs[..if n * limit < |xs| then n * limit else |xs|]
  {
    if n > 0 {
      FirstPagesArePrefix(xs, limit, n - 1);
      var k := (n - 1) * limit;
      assert n * limit == k + limit;
      var from := if k < |xs| then k else |xs|;
      var to := if from + limit < |xs| then from + limit else |xs|;
      assert Page(xs, n, limit) == xs[from..to];
      assert xs[..from] + xs[from..to] == xs[..to];
    }
  }

  /** Reading pages 1 to `totalPages` returns every match exactly once, in order. */
  lemma PagesCoverAllMatches<T>(xs: seq<T>, limit: nat)
    requires limit >= 1
    ensures FirstPages(xs, limit, TotalPages(|xs|, limit)) == xs
  {
    FirstPagesArePrefix(xs, limit, TotalPages(|xs|, limit));
  }

  /** `.skip(skip).limit(take)`; a `take` of 0 sets no limit. */
  function Window<T>(xs: seq<T>, skip: nat, take: nat): (r: seq<T>)
    ensures skip >= |xs| ==> r == []
    ensures skip < |xs| ==> |r| == if take == 0 || skip + take > |xs| then |xs| - skip else take
    ensures forall i :: 0 <= i < |r| ==> skip + i < |xs| && r[i] == xs[skip + i]
  {
    var from := if skip < |xs| then skip else |xs|;
    var to := if take == 0 || from + take > |xs| then |xs| else from + take;
    xs[from..to]
  }

  /** A user as the search sends it: `select("email phone firstName lastName")`
      keeps these keys and `_id`, and the JSON adds the `userName` getter. */
  datatype UserSummary = UserSummary(id: UserId, email: string, phone: Option<Ciphertext>, firstName: string, lastName: string)

  /** One found user after `user.userName = `${firstName} ${lastName}``: the
      setter splits the joined name again and keeps its first two pieces. */
  function Summarize(u: User): (r: UserSummary)
    ensures r.id == u.id && r.email == u.email && r.phone == u.phone
    ensures ' ' !in r.firstName && ' ' !in r.lastName
    ensures ' ' !in u.firstName && ' ' !in u.lastName ==> r.firstName == u.firstName && r.lastName == u.lastName
  {
    SetterSplitsJoinedName(u);
    var parts := SplitUserName(Some(UserName(u)));
    UserSummary(u.id, u.email, u.phone, parts.first.value, parts.last.value)
  }

  /** The joined name always has a space, so the setter finds two pieces;
      names without spaces come back as they were. */
  lemma SetterSplitsJoinedName(u: User)
    ensures var parts := SplitUserName(Some(UserName(u)));
      && parts.first.Some? && parts.last.Some?
      && (' ' !in u.firstName && ' ' !in u.lastName ==> parts == NameParts(Some(u.firstName), Some(u.lastName)))
  {
    assert UserName(u)[|u.firstName|] == ' ';
    if ' ' !in u.firstName && ' ' !in u.lastName {
      UserNameRoundTrip(u.firstName, u.lastName);
    }
  }

  function Summaries(us: seq<User>): (r: seq<UserSummary>)
    ensures |r| == |us|
    ensures forall i :: 0 <= i < |us| ==> r[i] == Summarize(us[i])
  {
    seq(|us|, i requires 0 <= i < |us| => Summarize(us[i]))
  }

  lemma SummariesAppend(a: seq<User>, b: seq<User>)
    ensures Summaries(a + b) == Summaries(a) + Summaries(b)
  {
    assert forall i :: 0 <= i < |a| ==> (a + b)[i] == a[i];
    assert forall i :: 0 <= i < |b| ==> (a + b)[|a| + i] == b[i];
  }

  /** A page or limit text the search validation accepts: left out, or a
      numeral whose value is a whole number of at least 1 (up to 50 for the
      limit). */
  predicate PageTextOk(page: Option<string>) {
    page.None? || (JoiInteger(page.value).Some? && JoiInteger(page.value).value >= 1)
  }

  predicate LimitTextOk(limit: Option<string>) {
    limit.None? || (JoiInteger(limit.value).Some? && 1 <= JoiInteger(limit.value).value <= 50)
  }

  /** What JavaScript's arithmetic makes of the text (`"2" - 1`, `total / "10"`):
      for a numeral joi accepted, its value; without the key, the default. */
  function NumberOf(text: Option<string>, default: int): Option<int> {
    match text
    case None => Some(default)
    case Some(s) => JoiInteger(s)
  }

  /** `parseInt` of the text, or the default (`parseInt(20)` is 20). */
  function ParseIntOf(text: Option<string>, default: int): Option<int> {
    match text
    case None => Some(default)
    case Some(s) => ParseIntPrefix(s)
  }

  /** The page number the skip works with. */
  function PageNumber(page: Option<string>): (n: int)
    requires PageTextOk(page)
    ensures n >= 1 && NumberOf(page, 1) == Some(n)
  {
    NumberOf(page, 1).value
  }

  /** The page size the skip and the page count work with. */
  function PageSize(limit: Option<string>): (n: int)
    requires LimitTextOk(limit)
    ensures 1 <= n <= 50 && NumberOf(limit, 20) == Some(n)
  {
    NumberOf(limit, 20).value
  }

  /** The size of the window the database returns: `parseInt(limit)`. */
  function Take(limit: Option<string>): (n: nat)
    requires LimitTextOk(limit) && ParseIntOf(limit, 20).Some?
    ensures ParseIntOf(limit, 20) == Some(n)
  {
    if limit.Some? then PositiveTextReadsNonNegative(limit.value); ParseIntOf(limit, 20).value
    else 20
  }

  /** `(page - 1) * limit`. */
  function Skip(page: int, size: int): (n: nat)
    requires page >= 1 && size >= 1
    ensures n == (page - 1) * size
  {
    (page - 1) * size
  }

  /** The response data: the page of users, the number of matches, the page
      count and the page number (`parseInt(page)`; nothing is NaN). */
  datatype SearchResult = SearchResult(users: seq<UserSummary>, total: nat, totalPages: nat, currentPage: Option<int>)

  /** searchForUser as written: 400 for an empty query; otherwise the window
      of the users that `matches` (the case-insensitive pattern tested against
      firstName, lastName and email). The texts `page` and `limit` arrive as
      sent: the skip and the page count read them as numbers, while the
      window's size and the page number go through `parseInt`. */
  function SearchForUser(users: seq<User>, query: string, page: Option<string>, limit: Option<string>, matches: User -> bool): (r: Reply<SearchResult>)
    requires PageTextOk(page) && LimitTextOk(limit) && ParseIntOf(limit, 20).Some?
    ensures query == "" <==> r == Fail(400, "Search query is required")
    ensures query != "" ==> r.Done? && r.status == 200
    ensures r.Done? ==>
      var all := Filter(users, matches);
      && r.value.users == Summaries(Window(all, Skip(PageNumber(page), PageSize(limit)), Take(limit)))
      && r.value.total == |all|
      && r.value.totalPages == TotalPages(|all|, PageSize(limit))
      && r.value.currentPage == ParseIntOf(page, 1)
  {
    if query == "" then Fail(400, "Search query is required")
    else
      var all := Filter(users, matches);
      var size := PageSize(limit);
      Done(200, SearchResult(Summaries(Window(all, Skip(PageNumber(page), size), Take(limit))), |all|, TotalPages(|all|, size), ParseIntOf(page, 1)))
  }

  /** searchForUser with one number for `limit` throughout, and the page as that number. */
  function SearchForUserIntended(users: seq<User>, query: string, page: nat, limit: nat, matches: User -> bool): (r: Reply<SearchResult>)
    requires page >= 1 && limit >= 1
    ensures query == "" <==> r == Fail(400, "Search query is required")
    ensures r.Done? ==>
      var all := Filter(users, matches);
      && r.value.users == Summaries(Page(all, page, limit))
      && r.value.total == |all|
      && r.value.totalPages == TotalPages(|all|, limit)
      && r.value.currentPage == Some(page)
  {
    if query == "" then Fail(400, "Search query is required")
    else
      var all := Filter(users, matches);
      Done(200, SearchResult(Summaries(Page(all, page, limit)), |all|, TotalPages(|all|, limit), Some(page)))
  }

  /** The users of pages 1 to `n`, one response after the other. */
  function ReadPages(users: seq<User>, query: string, limit: nat, matches: User -> bool, n: nat): seq<UserSummary>
    requires query != "" && limit >= 1
  {
    if n == 0 then [] else ReadPages(users, query, limit, matches, n - 1) + SearchForUserIntended(users, query, n, limit, matches).value.users
  }

  lemma {:induction false} ReadPagesAreFirstPages(users: seq<User>, query: string, limit: nat, matches: User -> bool, n: nat)
    requires query != "" && limit >= 1
    ensures ReadPages(users, query, limit, matches, n) == Summaries(FirstPages(Filter(users, matches), limit, n))
  {
    if n > 0 {
      ReadPagesAreFirstPages(users, query, limit, matches, n - 1);
      var all := Filter(users, matches);
      SummariesAppend(FirstPages(all, limit, n - 1), Page(all, n, limit));
    }
  }

  /** Reading pages 1 to `totalPages` of the intended search returns every
      matching user exactly once, in order. */
  lemma IntendedSearchCoversAllMatches(users: seq<User>, query: string, limit: nat, matches: User -> bool)
    requires query != "" && limit >= 1
    ensures var first := SearchForUserIntended(users, query, 1, limit, matches);
      && first.Done?
      && ReadPages(users, query, limit, matches, first.value.totalPages) == Summaries(Filter(users, matches))
  {
    var all := Filter(users, matches);
    ReadPagesAreFirstPages(users, query, limit, matches, TotalPages(|all|, limit));
    PagesCoverAllMatches(all, limit);
  }

  /** Page and limit written as plain digits mean the same numbers to
      every step of the handler: it answers as the intended search. */
  lemma PlainNumbersAgree(users: seq<User>, query: string, page: string, limit: string, matches: User -> bool)
    requires page != [] && All(page, IsDigit) && 1 <= DigitsValue(page) <= MaxSafeInteger
    requires limit != [] && All(limit, IsDigit) && 1 <= DigitsValue(limit) <= 50
    ensures && PageTextOk(Some(page)) && LimitTextOk(Some(limit)) && ParseIntOf(Some(limit), 20).Some?
            && SearchForUser(users, query, Some(page), Some(limit), matches)
               == SearchForUserIntended(users, query, DigitsValue(page), DigitsValue(limit), matches)
  {
    DigitTextIsInteger(page);
    DigitTextIsInteger(limit);
    assert PageNumber(Some(page)) == DigitsValue(page);
    assert PageSize(Some(limit)) == Take(Some(limit)) == DigitsValue(limit);
  }

  /** Without page and limit both searches use page 1 and 20 per page. */
  lemma DefaultsAgree(users: seq<User>, query: string, matches: User -> bool)
    ensures SearchForUser(users, query, None, None, matches) == SearchForUserIntended(users, query, 1, 20, matches)
  {
  }

  /** As written, `limit=1e1` passes validation as 10, and the skip and the
      page count use 10, but `parseInt("1e1")` is 1: the first page holds one
      user where the intended search gives up to ten, and the pages the
      response announces cannot reach every match. */
  lemma ExponentLimitShrinksPages(users: seq<User>, query: string, matches: User -> bool)
    requires query != "" && |Filter(users, matches)| >= 2
    ensures LimitTextOk(Some("1e1")) && ParseIntOf(Some("1e1"), 20) == Some(1)
    ensures var r := SearchForUser(users, query, None, Some("1e1"), matches);
      var intended := SearchForUserIntended(users, query, 1, 10, matches);
      && r.Done? && intended.Done?
      && |r.value.users| == 1 < |intended.value.users|
      && r.value.totalPages == intended.value.totalPages < |Filter(users, matches)|
  {
    ReadsExponent();
    ParseIntStopsAtExponent();
    var n := |Filter(users, matches)|;
    assert TotalPages(n, 10) < n;
  }

  /** As written, `limit=0.5e2` passes validation as 50, but `parseInt("0.5e2")`
      is 0, which sets no limit: one response holds every match although the
      page count is worked out for 50 per page. */
  lemma FractionLimitRemovesLimit(users: seq<User>, query: string, matches: User -> bool)
    requires query != ""
    ensures LimitTextOk(Some("0.5e2")) && ParseIntOf(Some("0.5e2"), 20) == Some(0)
    ensures var r := SearchForUser(users, query, None, Some("0.5e2"), matches);
      && r.Done?
      && r.value.users == Summaries(Filter(users, matches))
      && r.value.totalPages == TotalPages(|Filter(users, matches)|, 50)
  {
    ReadsFractionWithExponent();
    ParseIntStopsAtPoint();
    assert Window(Filter(users, matches), 0, 0) == Filter(users, matches);
  }
}
