/** The notification dropdown: what it derives from the notification list
    it is given (the unread count, the badge, the entries listed) and what
    a click does (which entry is marked read, where it navigates). The
    open/closed flag is the one piece of state it owns. */
module NotificationDropdown {
  import opened Optional
  import opened Text
  import Lists
  import opened NotificationStore

  const ListCap := 7

  /** The number of unread entries; 0 when no list was passed. */
  function UnreadCount(notifications: Option<seq<Notice>>): (k: nat)
    ensures notifications.None? ==> k == 0
    ensures notifications.Some? ==> k == CountUnread(notifications.value)
  {
    if notifications.Some? then Lists.Count(notifications.value, IsUnread) else 0
  }

  /** The red badge on the bell: nothing when all is read, '9+' above nine,
      the count itself otherwise. */
  function BadgeLabel(unread: nat): (r: Option<string>)
  {
    if unread > 0 then Some(if unread > 9 then "9+" else NatToString(unread)) else None
  }

  /** The badge is shown exactly when something is unread; below ten it is
      the single digit of the count, from ten on it is '9+'. */
  lemma BadgeLabelMeaning(unread: nat)
    ensures BadgeLabel(unread).Some? <==> unread > 0
    ensures BadgeLabel(unread) == Some("9+") <==> unread >= 10
    ensures 0 < unread < 10 ==> |BadgeLabel(unread).value| == 1 && DigitValue(BadgeLabel(unread).value[0]) == unread
  {
    if 0 < unread < 10 {
      assert NatToString(unread) == [DigitChar(unread)];
    }
  }

  /** `'Mark all as read'` is offered only when something is unread. */
  function OffersMarkAll(unread: nat): bool {
    unread > 0
  }

  /** `notifications.slice(0, 7)`. */
  function Listed(notifications: Option<seq<Notice>>): (r: seq<Notice>)
    ensures |r| <= ListCap
    ensures notifications.None? ==> r == []
    ensures notifications.Some? ==> |r| <= |notifications.value| && r == notifications.value[..|r|]
  {
    if notifications.None? then []
    else if |notifications.value| > ListCap then notifications.value[..ListCap]
    else notifications.value
  }

  function OffersViewAll(notifications: Option<seq<Notice>>): bool {
    notifications.Some? && |notifications.value| > ListCap
  }

  /** The list shows the first seven entries; 'View all notifications'
      appears exactly when that leaves some out, and then seven are shown. */
  lemma ListCapMeaning(notifications: Option<seq<Notice>>)
    ensures OffersViewAll(notifications) <==> notifications.Some? && |Listed(notifications)| < |notifications.value|
    ensures OffersViewAll(notifications) ==> |Listed(notifications)| == ListCap
    ensures !OffersViewAll(notifications) && notifications.Some? ==> Listed(notifications) == notifications.value
  {
  }

  /** How a value prints inside a template literal (`${x}`): a missing
      entity id prints as 'undefined'. */
  function IdText(entityId: Option<string>): string {
    if entityId.Some? then entityId.value else "undefined"
  }

  const ComplaintsPath := "/complaints/"
  const StudentsPath := "/students/"
  const StaffsPath := "/staffs/"
  const NotificationsPath := "/notifications/"

  /** Where clicking an entry navigates. */
  function RouteFor(n: Notice): string {
    if n.kind == "complaint" then ComplaintsPath + IdText(n.entityId)
    else if n.kind == "student" then StudentsPath + IdText(n.entityId)
    else if n.kind == "staff" then StaffsPath + IdText(n.entityId)
    else NotificationsPath + IntToString(n.id)
  }

  /** The route tells the type apart: each of the four path prefixes is
      used by exactly one type (every other type falls to the last), and
      the rest of the route is the entity id, or for the last the entry's
      own id. */
  lemma RouteDeterminesKind(n: Notice)
    ensures OccursAt(RouteFor(n), ComplaintsPath, 0) <==> n.kind == "complaint"
    ensures OccursAt(RouteFor(n), StudentsPath, 0) <==> n.kind == "student"
    ensures OccursAt(RouteFor(n), StaffsPath, 0) <==> n.kind == "staff"
    ensures OccursAt(RouteFor(n), NotificationsPath, 0) <==> n.kind !in {"complaint", "student", "staff"}
    ensures n.kind == "complaint" ==> RouteFor(n)[|ComplaintsPath|..] == IdText(n.entityId)
    ensures n.kind == "student" ==> RouteFor(n)[|StudentsPath|..] == IdText(n.entityId)
    ensures n.kind == "staff" ==> RouteFor(n)[|StaffsPath|..] == IdText(n.entityId)
    ensures n.kind !in {"complaint", "student", "staff"} ==> RouteFor(n)[|NotificationsPath|..] == IntToString(n.id)
  {
    var r := RouteFor(n);
    if n.kind == "complaint" {
      assert r[..|ComplaintsPath|] == ComplaintsPath;
      assert r[1] == 'c';
    } else if n.kind == "student" {
      assert r[..|StudentsPath|] == StudentsPath;
      assert r[1] == 's' && r[3] == 'u';
    } else if n.kind == "staff" {
      assert r[..|StaffsPath|] == StaffsPath;
      assert r[1] == 's' && r[3] == 'a';
    } else {
      assert r[..|NotificationsPath|] == NotificationsPath;
      assert r[1] == 'n';
    }
  }

  /** Entries of no known type go to their own page: two of them share a
      route only if they share an id. */
  lemma OtherRoutesDistinct(a: Notice, b: Notice)
    requires a.kind !in {"complaint", "student", "staff"} && b.kind !in {"complaint", "student", "staff"}
    ensures RouteFor(a) == RouteFor(b) <==> a.id == b.id
  {
    if RouteFor(a) == RouteFor(b) {
      assert RouteFor(a)[|NotificationsPath|..] == IntToString(a.id);
      assert RouteFor(b)[|NotificationsPath|..] == IntToString(b.id);
      IntToStringInjective(a.id, b.id);
    }
  }

  /** What a click on an entry asks for: marking it read (only when it is
      unread) and a route. */
  datatype ClickEffect = ClickEffect(markRead: Option<int>, route: string)

  function Click(n: Notice): (e: ClickEffect)
    ensures e.markRead.Some? <==> !n.isRead
    ensures e.markRead.Some? ==> e.markRead.value == n.id
    ensures e.route == RouteFor(n)
  {
    ClickEffect(if !n.isRead then Some(n.id) else None, RouteFor(n))
  }

  /** Clicking an unread entry of the store and passing the request on to
      the store's `markAsRead` leaves that entry read and strictly lowers the
      dropdown's unread count. Clicking a read entry asks for nothing. */
  lemma ClickMarksEntryRead(s: StoreState, i: nat)
    requires i < |s.persistent|
    ensures var n := s.persistent[i];
      var e := Click(n);
      && (n.isRead ==> e.markRead == None)
      && (!n.isRead ==>
            var t := MarkAsRead(s, e.markRead.value);
            t.persistent[i].isRead && UnreadCount(Some(t.persistent)) < UnreadCount(Some(s.persistent)))
  {
    var n := s.persistent[i];
    if !n.isRead {
      MarkReadCount(s.persistent, n.id);
      assert UnreadWithId(n.id)(s.persistent[i]);
      assert Lists.Filter(s.persistent, UnreadWithId(n.id)) != [];
    }
  }

  /** The dropdown's own state: whether it is open. */
  class Dropdown {
    var isOpen: bool

    constructor ()
      ensures !isOpen
    {
      isOpen := false;
    }

    /** The bell button. */
    method Toggle()
      modifies this
      ensures isOpen == !old(isOpen)
    {
      isOpen := !isOpen;
    }

    /** A mouse-down outside the dropdown. */
    method ClickOutside()
      modifies this
      ensures !isOpen
    {
      isOpen := false;
    }

    /** `handleNotificationClick`: returns what is asked of the store and
        the route, and closes. */
    method ClickNotification(n: Notice) returns (e: ClickEffect)
      modifies this
      ensures e == Click(n) && !isOpen
    {
      var markRead := None;
      if !n.isRead {
        markRead := Some(n.id);
      }
      var route: string;
      if n.kind == "complaint" {
        route := ComplaintsPath + IdText(n.entityId);
      } else if n.kind == "student" {
        route := StudentsPath + IdText(n.entityId);
      } else if n.kind == "staff" {
        route := StaffsPath + IdText(n.entityId);
      } else {
        route := NotificationsPath + IntToString(n.id);
      }
      e := ClickEffect(markRead, route);
      isOpen := false;
    }

    /** 'Mark all as read': asks the store to mark everything, and closes. */
    method ClickMarkAll(unread: nat) returns (markAll: bool)
      requires OffersMarkAll(unread)
      modifies this
      ensures markAll && !isOpen
    {
      markAll := true;
      isOpen := false;
    }

    /** 'View all notifications': navigates to the list page, and closes. */
    method ClickViewAll(notifications: Option<seq<Notice>>) returns (route: string)
      requires OffersViewAll(notifications)
      modifies this
      ensures route == "/notifications" && !isOpen
    {
      route := "/notifications";
      isOpen := false;
    }
  }
}
