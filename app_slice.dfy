/** The `app` store of the top-level `src/` application: theme, sidebar,
    a global loading flag, the list of toast notifications and the time of
    the last user activity. */
module AppSlice {
  import opened Wrappers
  import opened ClientTypes
  import opened Query

  datatype Kind = Success | Error | Warning | Info

  /** A toast: `NotificationState`. */
  datatype Notification = Notification(
    id: string,
    kind: Kind,
    title: string,
    description: Option<string>,
    duration: Option<int>)

  /** The payload of `addNotification`: a toast without its id. */
  datatype Draft = Draft(kind: Kind, title: string, description: Option<string>, duration: Option<int>)

  /** `{ ...payload, id }`. */
  function Stamp(d: Draft, newId: string): Notification {
    Notification(newId, d.kind, d.title, d.description, d.duration)
  }

  datatype AppState = AppState(
    theme: Theme,
    sidebarCollapsed: bool,
    loading: bool,
    notifications: seq<Notification>,
    lastActivity: int)

  /** The state the store starts in when the page loads at time `now`. */
  function Initial(now: int): AppState {
    AppState(System, false, false, [], now)
  }

  /** The actions; the generated id and the clock reading come with them. */
  datatype Action =
    | SetTheme(chosen: Theme)
    | ToggleSidebar
    | SetSidebarCollapsed(collapsed: bool)
    | SetLoading(flag: bool)
    | AddNotification(draft: Draft, newId: string)
    | RemoveNotification(target: string)
    | ClearNotifications
    | UpdateLastActivity(now: int)

  /** `notification => notification.id !== target`. */
  function OtherThan(target: string): Notification -> bool {
    (n: Notification) => n.id != target
  }

  function Reduce(st: AppState, a: Action): AppState {
    match a
    case SetTheme(chosen) => st.(theme := chosen)
    case ToggleSidebar => st.(sidebarCollapsed := !st.sidebarCollapsed)
    case SetSidebarCollapsed(collapsed) => st.(sidebarCollapsed := collapsed)
    case SetLoading(flag) => st.(loading := flag)
    case AddNotification(draft, newId) => st.(notifications := st.notifications + [Stamp(draft, newId)])
    case RemoveNotification(target) => st.(notifications := Filter(st.notifications, OtherThan(target)))
    case ClearNotifications => st.(notifications := [])
    case UpdateLastActivity(now) => st.(lastActivity := now)
  }

  /** Toggling the sidebar twice changes nothing. */
  lemma ToggleSidebarTwice(st: AppState)
    ensures Reduce(st, ToggleSidebar).sidebarCollapsed != st.sidebarCollapsed
    ensures Reduce(Reduce(st, ToggleSidebar), ToggleSidebar) == st
  {
  }

  /** Adding a toast appends exactly one item, with the payload's fields and
      the new id, after the existing ones, and touches nothing else. */
  lemma AddAppendsOne(st: AppState, d: Draft, newId: string)
    ensures var r := Reduce(st, AddNotification(d, newId));
      |r.notifications| == |st.notifications| + 1
      && r.notifications[..|st.notifications|] == st.notifications
      && r.notifications[|st.notifications|] == Notification(newId, d.kind, d.title, d.description, d.duration)
      && r == st.(notifications := r.notifications)
  {
  }

  /** Removing by id drops every toast with that id and keeps the others. */
  lemma RemoveDropsExactlyTheId(st: AppState, target: string)
    ensures var r := Reduce(st, RemoveNotification(target)).notifications;
      forall n :: n in r <==> n in st.notifications && n.id != target
  {
  }

  /** Removal keeps the survivors in their order: it works on any split of
      the list piece by piece, and an id nobody has changes nothing. */
  lemma RemoveKeepsOrder(before: seq<Notification>, after: seq<Notification>, target: string)
    ensures Filter(before + after, OtherThan(target)) ==
      Filter(before, OtherThan(target)) + Filter(after, OtherThan(target))
    ensures (forall n :: n in before ==> n.id != target) ==> Filter(before, OtherThan(target)) == before
  {
    FilterAppend(before, after, OtherThan(target));
    if forall n :: n in before ==> n.id != target {
      FilterKeepsAll(before, OtherThan(target));
    }
  }

  /** Removing a freshly added toast by its id restores the list, as long
      as the generated id was new. */
  lemma RemoveUndoesAdd(st: AppState, d: Draft, newId: string)
    requires forall n :: n in st.notifications ==> n.id != newId
    ensures Reduce(Reduce(st, AddNotification(d, newId)), RemoveNotification(newId)) == st
  {
    RemoveKeepsOrder(st.notifications, [Stamp(d, newId)], newId);
    assert Filter([Stamp(d, newId)], OtherThan(newId)) == [];
  }

  /** Clearing empties the list and recording activity stores the clock,
      each leaving the rest of the state alone. */
  lemma ClearAndActivity(st: AppState, now: int)
    ensures Reduce(st, ClearNotifications) == st.(notifications := [])
    ensures Reduce(st, UpdateLastActivity(now)) == st.(lastActivity := now)
  {
  }

  class AppStore {
    var theme: Theme
    var sidebarCollapsed: bool
    var loading: bool
    var notifications: seq<Notification>
    var lastActivity: int

    function State(): AppState
      reads this
    {
      AppState(theme, sidebarCollapsed, loading, notifications, lastActivity)
    }

    /** `now` is `Date.now()` when the module loads. */
    constructor(now: int)
      ensures State() == Initial(now)
    {
      theme := System;
      sidebarCollapsed := false;
      loading := false;
      notifications := [];
      lastActivity := now;
    }

    method Dispatch(a: Action)
      modifies this
      ensures State() == Reduce(old(State()), a)
    {
      match a
      case SetTheme(chosen) =>
        theme := chosen;
      case ToggleSidebar =>
        sidebarCollapsed := !sidebarCollapsed;
      case SetSidebarCollapsed(collapsed) =>
        sidebarCollapsed := collapsed;
      case SetLoading(flag) =>
        loading := flag;
      case AddNotification(draft, newId) =>
        notifications := notifications + [Stamp(draft, newId)];
      case RemoveNotification(target) =>
        notifications := Filter(notifications, OtherThan(target));
      case ClearNotifications =>
        notifications := [];
      case UpdateLastActivity(now) =>
        lastActivity := now;
    }
  }
}
