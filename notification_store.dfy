/** The notification context: a list of toasts, the list of persistent
    notifications shown in the notification centre, and an unread counter
    kept beside that list.

    `Date.now()` and `new Date()` become the parameter `now`; saving to and
    reading from browser storage is left out, except that the stored list,
    if there is one, is a parameter of the constructor. */
module NotificationStore {
  import opened Optional
  import Lists

  /** The class names a known toast type adds (its icon is presentation). */
  datatype ToastStyle = ToastStyle(className: string, iconClassName: string)

  /** `NOTIFICATION_TYPES[type]`: a style for the four known types, nothing otherwise. */
  function StyleOf(kind: string): (r: Option<ToastStyle>)
    ensures r.Some? <==> kind in {"SUCCESS", "ERROR", "WARNING", "INFO"}
  {
    if kind == "SUCCESS" then Some(ToastStyle("bg-green-50 border-green-400 text-green-800", "text-green-400"))
    else if kind == "ERROR" then Some(ToastStyle("bg-red-50 border-red-400 text-red-800", "text-red-400"))
    else if kind == "WARNING" then Some(ToastStyle("bg-yellow-50 border-yellow-400 text-yellow-800", "text-yellow-400"))
    else if kind == "INFO" then Some(ToastStyle("bg-blue-50 border-blue-400 text-blue-800", "text-blue-400"))
    else None
  }

  /** A temporary message. */
  datatype Toast = Toast(id: int, kind: string, message: string, createdAt: int, style: Option<ToastStyle>)

  /** An entry of the notification centre. */
  datatype Notice = Notice(
    id: int,
    title: Option<string>,
    message: Option<string>,
    kind: string,
    entityId: Option<string>,
    createdAt: int,
    isRead: bool)

  /** The argument of `addPersistentNotification`: `None` is a key the
      object does not have. */
  datatype NoticeData = NoticeData(
    id: Option<int>,
    title: Option<string>,
    message: Option<string>,
    kind: Option<string>,
    entityId: Option<string>,
    createdAt: Option<int>,
    isRead: Option<bool>)

  datatype StoreState = StoreState(toasts: seq<Toast>, persistent: seq<Notice>, unreadCount: int)

  const DefaultKind := "complaint"

  predicate IsUnread(n: Notice) { !n.isRead }

  function CountUnread(ns: seq<Notice>): (k: nat)
    ensures k <= |ns|
  {
    Lists.Count(ns, IsUnread)
  }

  /** The counter agrees with the list. */
  predicate Synced(s: StoreState) {
    s.unreadCount == CountUnread(s.persistent)
  }

  function HasId(id: int): Notice -> bool {
    (n: Notice) => n.id == id
  }

  function OtherId(id: int): Notice -> bool {
    (n: Notice) => n.id != id
  }

  function UnreadWithId(id: int): Notice -> bool {
    (n: Notice) => n.id == id && !n.isRead
  }

  function OtherToast(id: int): Toast -> bool {
    (t: Toast) => t.id != id
  }

  function SetRead(n: Notice): Notice {
    n.(isRead := true)
  }

  /** The state after mounting: no toasts, and the stored list (if any) with
      the counter set to its number of unread entries. */
  function Initial(stored: Option<seq<Notice>>): (s: StoreState)
    ensures s.toasts == [] && s.persistent == stored.GetOr([])
    ensures Synced(s)
  {
    var ns := stored.GetOr([]);
    StoreState([], ns, CountUnread(ns))
  }

  /** `addNotification`: the new toast goes at the end. */
  function AddToast(s: StoreState, kind: string, message: string, now: int): (t: StoreState)
    ensures t.toasts == s.toasts + [Toast(now, kind, message, now, StyleOf(kind))]
    ensures t.persistent == s.persistent && t.unreadCount == s.unreadCount
  {
    s.(toasts := s.toasts + [Toast(now, kind, message, now, StyleOf(kind))])
  }

  /** `removeNotification`. */
  function RemoveToast(s: StoreState, id: int): (t: StoreState)
    ensures Lists.IsSubsequence(t.toasts, s.toasts)
    ensures forall i :: 0 <= i < |t.toasts| ==> t.toasts[i].id != id
    ensures forall i :: 0 <= i < |s.toasts| && s.toasts[i].id != id ==> s.toasts[i] in t.toasts
    ensures t.persistent == s.persistent && t.unreadCount == s.unreadCount
  {
    Lists.FilterIsSubsequence(s.toasts, OtherToast(id));
    s.(toasts := Lists.Filter(s.toasts, OtherToast(id)))
  }

  /** The object literal of `addPersistentNotification` before the spread
      of `data`: the `||` defaults and `isRead: false`. */
  function NoticeDefaults(data: NoticeData, now: int): Notice {
    Notice(
      if data.id.Some? && data.id.value != 0 then data.id.value else now,
      data.title,
      data.message,
      if data.kind.Some? && data.kind.value != "" then data.kind.value else DefaultKind,
      data.entityId,
      if data.createdAt.Some? && data.createdAt.value != 0 then data.createdAt.value else now,
      false)
  }

  /** `{ ...base, ...data }`: every key `data` has wins. */
  function Spread(base: Notice, data: NoticeData): Notice {
    Notice(
      data.id.GetOr(base.id),
      if data.title.Some? then data.title else base.title,
      if data.message.Some? then data.message else base.message,
      data.kind.GetOr(base.kind),
      if data.entityId.Some? then data.entityId else base.entityId,
      data.createdAt.GetOr(base.createdAt),
      data.isRead.GetOr(base.isRead))
  }

  function NewNotice(data: NoticeData, now: int): Notice {
    Spread(NoticeDefaults(data, now), data)
  }

  /** Because the spread comes last, a key `data` has always wins, even with
      a falsy value; the defaults apply only to the keys it lacks. */
  lemma NewNoticeFields(data: NoticeData, now: int)
    ensures var n := NewNotice(data, now);
      && n.id == data.id.GetOr(now)
      && n.kind == data.kind.GetOr(DefaultKind)
      && n.createdAt == data.createdAt.GetOr(now)
      && n.isRead == data.isRead.GetOr(false)
      && n.title == data.title && n.message == data.message && n.entityId == data.entityId
    ensures data.kind == Some("") ==> NewNotice(data, now).kind == ""
  {
  }

  /** `addPersistentNotification`: the new entry goes first and the counter
      goes up by one, whatever the entry says. */
  function AddPersistent(s: StoreState, data: NoticeData, now: int): (t: StoreState)
    ensures t.persistent == [NewNotice(data, now)] + s.persistent
    ensures t.unreadCount == s.unreadCount + 1 && t.toasts == s.toasts
  {
    s.(persistent := [NewNotice(data, now)] + s.persistent, unreadCount := s.unreadCount + 1)
  }

  /** The list after `markAsRead(id)`. */
  function MarkRead(ns: seq<Notice>, id: int): (r: seq<Notice>)
    ensures |r| == |ns|
    ensures forall i :: 0 <= i < |ns| ==> r[i] == if ns[i].id == id then ns[i].(isRead := true) else ns[i]
  {
    Lists.MapWhereShape(ns, HasId(id), SetRead);
    Lists.MapWhere(ns, HasId(id), SetRead)
  }

  /** `markAsRead`: matching entries become read; the counter goes down by
      one but not below zero, whether or not anything matched. */
  function MarkAsRead(s: StoreState, id: int): (t: StoreState)
    ensures t.persistent == MarkRead(s.persistent, id)
    ensures t.unreadCount == if s.unreadCount - 1 > 0 then s.unreadCount - 1 else 0
    ensures t.toasts == s.toasts
  {
    s.(persistent := MarkRead(s.persistent, id), unreadCount := if 0 > s.unreadCount - 1 then 0 else s.unreadCount - 1)
  }

  /** `markAllAsRead`. */
  function MarkAllAsRead(s: StoreState): (t: StoreState)
    ensures |t.persistent| == |s.persistent|
    ensures forall i :: 0 <= i < |s.persistent| ==> t.persistent[i] == s.persistent[i].(isRead := true)
    ensures t.unreadCount == 0 && t.toasts == s.toasts
  {
    s.(persistent := seq(|s.persistent|, i requires 0 <= i < |s.persistent| => SetRead(s.persistent[i])),
       unreadCount := 0)
  }

  /** `clearNotification` as written: the counter is left as it was, since
      the check that would lower it reads a name declared only inside the
      list updater. */
  function Clear(s: StoreState, id: int): (t: StoreState)
    ensures Lists.IsSubsequence(t.persistent, s.persistent)
    ensures forall i :: 0 <= i < |t.persistent| ==> t.persistent[i].id != id
    ensures forall i :: 0 <= i < |s.persistent| && s.persistent[i].id != id ==> s.persistent[i] in t.persistent
    ensures t.unreadCount == s.unreadCount && t.toasts == s.toasts
  {
    Lists.FilterIsSubsequence(s.persistent, OtherId(id));
    s.(persistent := Lists.Filter(s.persistent, OtherId(id)))
  }

  /** `prev.find(n => n.id === id)`: the first entry with that id. */
  function FindNotice(ns: seq<Notice>, id: int): (r: Option<Notice>)
    ensures r.Some? ==> r.value in ns && r.value.id == id
    ensures r.Some? ==> exists k :: 0 <= k < |ns| && ns[k] == r.value && forall j :: 0 <= j < k ==> ns[j].id != id
    ensures r.None? ==> forall i :: 0 <= i < |ns| ==> ns[i].id != id
    decreases |ns|
  {
    if ns == [] then None
    else if ns[0].id == id then Some(ns[0])
    else FindNotice(ns[1..], id)
  }

  /** Whether the entry `clearNotification` finds for the id is unread. */
  predicate FoundUnread(ns: seq<Notice>, id: int) {
    var found := FindNotice(ns, id);
    found.Some? && !found.value.isRead
  }

  /** `clearNotification` as evidently intended: the entries with that id
      go, and when the one found was unread the counter goes down by one,
      but not below zero. */
  function ClearFixed(s: StoreState, id: int): (t: StoreState)
    ensures t.persistent == Clear(s, id).persistent && t.toasts == s.toasts
    ensures !FoundUnread(s.persistent, id) ==> t.unreadCount == s.unreadCount
    ensures FoundUnread(s.persistent, id) && s.unreadCount >= 1 ==> t.unreadCount == s.unreadCount - 1
  {
    var t := Clear(s, id);
    if FoundUnread(s.persistent, id) then t.(unreadCount := if s.unreadCount - 1 > 0 then s.unreadCount - 1 else 0)
    else t
  }

  /** `clearAllNotifications`. */
  function ClearAll(s: StoreState): (t: StoreState)
    ensures t.persistent == [] && t.unreadCount == 0 && t.toasts == s.toasts
  {
    s.(persistent := [], unreadCount := 0)
  }

  /** Marking by id lowers the number of unread entries by the number of
      unread entries with that id. */
  lemma {:induction false} MarkReadCount(ns: seq<Notice>, id: int)
    ensures CountUnread(MarkRead(ns, id)) + Lists.Count(ns, UnreadWithId(id)) == CountUnread(ns)
    decreases |ns|
  {
    if ns != [] {
      MarkReadCount(ns[1..], id);
      Lists.MapWhereCons(ns, HasId(id), SetRead);
      var x := if ns[0].id == id then SetRead(ns[0]) else ns[0];
      assert MarkRead(ns, id) == [x] + MarkRead(ns[1..], id);
      Lists.CountCons(x, MarkRead(ns[1..], id), IsUnread);
      Lists.CountCons(ns[0], ns[1..], IsUnread);
      Lists.CountCons(ns[0], ns[1..], UnreadWithId(id));
      assert ns == [ns[0]] + ns[1..];
    }
  }

  /** Clearing by id lowers the number of unread entries by the number of
      unread entries with that id. */
  lemma {:induction false} ClearCount(ns: seq<Notice>, id: int)
    ensures CountUnread(Lists.Filter(ns, OtherId(id))) + Lists.Count(ns, UnreadWithId(id)) == CountUnread(ns)
    decreases |ns|
  {
    if ns != [] {
      ClearCount(ns[1..], id);
      Lists.CountCons(ns[0], ns[1..], IsUnread);
      Lists.CountCons(ns[0], ns[1..], UnreadWithId(id));
      assert ns == [ns[0]] + ns[1..];
      if ns[0].id != id {
        assert Lists.Filter(ns, OtherId(id)) == [ns[0]] + Lists.Filter(ns[1..], OtherId(id));
        Lists.CountCons(ns[0], Lists.Filter(ns[1..], OtherId(id)), IsUnread);
      }
    }
  }

  lemma {:induction false} NoneUnread(r: seq<Notice>)
    requires forall i :: 0 <= i < |r| ==> r[i].isRead
    ensures CountUnread(r) == 0
    decreases |r|
  {
    if r != [] {
      NoneUnread(r[1..]);
      assert r == [r[0]] + r[1..];
      Lists.CountCons(r[0], r[1..], IsUnread);
    }
  }

  /** Toast operations never touch the notification centre; adding and then
      removing a toast with a fresh id gives the toasts back. */
  lemma AddThenRemoveToast(s: StoreState, kind: string, message: string, now: int)
    requires forall i :: 0 <= i < |s.toasts| ==> s.toasts[i].id != now
    ensures RemoveToast(AddToast(s, kind, message, now), now) == s
  {
    var t := Toast(now, kind, message, now, StyleOf(kind));
    Lists.FilterAppend(s.toasts, [t], OtherToast(now));
    Lists.FilterAllKept(s.toasts, OtherToast(now));
    assert Lists.Filter([t], OtherToast(now)) == [];
  }

  /** Adding an entry keeps the counter in step with the list exactly when
      the entry itself is unread. */
  lemma AddPersistentSync(s: StoreState, data: NoticeData, now: int)
    requires Synced(s)
    ensures Synced(AddPersistent(s, data, now)) <==> data.isRead != Some(true)
  {
    Lists.CountCons(NewNotice(data, now), s.persistent, IsUnread);
  }

  /** Marking by id keeps the counter in step exactly when one unread entry
      has that id, or when nothing was unread to begin with. */
  lemma MarkAsReadSync(s: StoreState, id: int)
    requires Synced(s)
    ensures Synced(MarkAsRead(s, id)) <==> s.unreadCount == 0 || Lists.Count(s.persistent, UnreadWithId(id)) == 1
  {
    MarkReadCount(s.persistent, id);
  }

  /** Clearing by id keeps the counter in step exactly when no unread entry has that id. */
  lemma ClearSync(s: StoreState, id: int)
    requires Synced(s)
    ensures Synced(Clear(s, id)) <==> Lists.Count(s.persistent, UnreadWithId(id)) == 0
  {
    ClearCount(s.persistent, id);
  }

  /** With ids unique, the entry found for an id is unread exactly when one
      unread entry has that id. */
  lemma {:induction false} FoundUnreadCount(ns: seq<Notice>, id: int)
    requires Lists.Count(ns, HasId(id)) <= 1
    ensures Lists.Count(ns, UnreadWithId(id)) == if FoundUnread(ns, id) then 1 else 0
    decreases |ns|
  {
    if ns != [] {
      assert ns == [ns[0]] + ns[1..];
      Lists.CountCons(ns[0], ns[1..], HasId(id));
      Lists.CountCons(ns[0], ns[1..], UnreadWithId(id));
      if ns[0].id == id {
        Lists.CountStricter(ns[1..], UnreadWithId(id), HasId(id));
      } else {
        FoundUnreadCount(ns[1..], id);
      }
    }
  }

  /** The corrected clear keeps the counter in step with the list whenever
      ids are unique, unread entry or not. */
  lemma ClearFixedSync(s: StoreState, id: int)
    requires Synced(s) && Lists.Count(s.persistent, HasId(id)) <= 1
    ensures Synced(ClearFixed(s, id))
  {
    ClearCount(s.persistent, id);
    FoundUnreadCount(s.persistent, id);
  }

  /** As written, clearing the only entry, unread, leaves the counter at one
      over an empty list. */
  lemma ClearLeavesStaleCount(n: Notice)
    requires !n.isRead
    ensures Synced(StoreState([], [n], 1))
    ensures var t := Clear(StoreState([], [n], 1), n.id);
      t.persistent == [] && t.unreadCount == 1 && CountUnread(t.persistent) == 0
  {
    Lists.CountCons(n, [], IsUnread);
    assert Lists.Filter([n], OtherId(n.id)) == [];
  }

  /** Marking everything read and clearing everything put the counter back in step. */
  lemma ResetsSync(s: StoreState)
    ensures Synced(MarkAllAsRead(s)) && Synced(ClearAll(s))
  {
    NoneUnread(MarkAllAsRead(s).persistent);
  }

  /** Marking an entry that is already read still lowers the counter. */
  lemma MarkReadTwiceDrifts(n: Notice, now: int)
    requires !n.isRead
    ensures var s := MarkAsRead(MarkAsRead(StoreState([], [n, n.(id := n.id + 1)], 2), n.id), n.id);
      s.unreadCount == 0 && CountUnread(s.persistent) == 1
  {
    var ns := [n, n.(id := n.id + 1)];
    var once := MarkRead(ns, n.id);
    assert once == [SetRead(n), n.(id := n.id + 1)];
    var twice := MarkRead(once, n.id);
    assert twice == once;
    Lists.CountCons(SetRead(n), [n.(id := n.id + 1)], IsUnread);
    Lists.CountCons(n.(id := n.id + 1), [], IsUnread);
  }

  /** The store as a stateful object: each field is one `useState` cell. */
  class Store {
    var toasts: seq<Toast>
    var persistent: seq<Notice>
    var unreadCount: int

    function State(): StoreState
      reads this
    {
      StoreState(toasts, persistent, unreadCount)
    }

    /** Mounting, given what storage held (`None` when nothing was stored
        or it did not parse). */
    constructor (stored: Option<seq<Notice>>)
      ensures State() == Initial(stored)
      ensures Synced(State())
    {
      toasts := [];
      persistent := stored.GetOr([]);
      unreadCount := CountUnread(stored.GetOr([]));
    }

    method AddNotification(kind: string, message: string, now: int) returns (id: int)
      modifies this
      ensures State() == AddToast(old(State()), kind, message, now)
      ensures id == now
    {
      id := now;
      toasts := toasts + [Toast(id, kind, message, now, StyleOf(kind))];
    }

    method Success(message: string, now: int) returns (id: int)
      modifies this
      ensures State() == AddToast(old(State()), "SUCCESS", message, now) && id == now
    {
      id := AddNotification("SUCCESS", message, now);
    }

    method Error(message: string, now: int) returns (id: int)
      modifies this
      ensures State() == AddToast(old(State()), "ERROR", message, now) && id == now
    {
      id := AddNotification("ERROR", message, now);
    }

    method Warning(message: string, now: int) returns (id: int)
      modifies this
      ensures State() == AddToast(old(State()), "WARNING", message, now) && id == now
    {
      id := AddNotification("WARNING", message, now);
    }

    method Info(message: string, now: int) returns (id: int)
      modifies this
      ensures State() == AddToast(old(State()), "INFO", message, now) && id == now
    {
      id := AddNotification("INFO", message, now);
    }

    method RemoveNotification(id: int)
      modifies this
      ensures State() == RemoveToast(old(State()), id)
    {
      toasts := Lists.Filter(toasts, OtherToast(id));
    }

    method AddPersistentNotification(data: NoticeData, now: int) returns (id: int)
      modifies this
      ensures State() == AddPersistent(old(State()), data, now)
      ensures id == NewNotice(data, now).id && persistent[0].id == id
    {
      var n := Spread(NoticeDefaults(data, now), data);
      persistent := [n] + persistent;
      unreadCount := unreadCount + 1;
      id := n.id;
    }

    method MarkNoticeAsRead(id: int)
      modifies this
      ensures State() == MarkAsRead(old(State()), id)
    {
      persistent := Lists.MapWhere(persistent, HasId(id), SetRead);
      unreadCount := if 0 > unreadCount - 1 then 0 else unreadCount - 1;
    }

    method MarkAllNoticesAsRead()
      modifies this
      ensures State() == MarkAllAsRead(old(State()))
    {
      var ns := persistent;
      persistent := seq(|ns|, i requires 0 <= i < |ns| => SetRead(ns[i]));
      unreadCount := 0;
    }

    /** `clearNotification` as written: only the list changes. */
    method ClearNotificationAsWritten(id: int)
      modifies this
      ensures State() == Clear(old(State()), id)
    {
      persistent := Lists.Filter(persistent, OtherId(id));
    }

    /** `clearNotification` with the found entry kept in scope for the
        counter update. */
    method ClearNotification(id: int)
      modifies this
      ensures State() == ClearFixed(old(State()), id)
    {
      var found := FindNotice(persistent, id);
      var wasUnread := found.Some? && !found.value.isRead;
      persistent := Lists.Filter(persistent, OtherId(id));
      if wasUnread {
        unreadCount := if 0 > unreadCount - 1 then 0 else unreadCount - 1;
      }
    }

    method ClearAllNotifications()
      modifies this
      ensures State() == ClearAll(old(State()))
    {
      persistent := [];
      unreadCount := 0;
    }
  }
}
