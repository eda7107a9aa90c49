/** client/src/components/notifications/NotificationsMenu.tsx: the read
    state of the notifications, the unread badge, where a click navigates,
    and the relative-time label. Times are milliseconds since the epoch;
    the current time is a parameter. */
module NotificationsMenu {
  import opened Js

  datatype Metadata = Metadata(taskId: Option<string>, projectId: Option<string>,
                               commentId: Option<string>, userId: Option<string>)

  datatype Notification = Notification(id: string, kind: string, message: string, read: bool,
                                       createdAt: int, metadata: Option<Metadata>)

  /** `notifs.filter(n => !n.read).length` */
  function UnreadCount(notifications: seq<Notification>): (count: nat)
    ensures count <= |notifications|
    ensures count == 0 <==> forall i | 0 <= i < |notifications| :: notifications[i].read
  {
    if notifications == [] then 0
    else (if notifications[0].read then 0 else 1) + UnreadCount(notifications[1..])
  }

  /** `notifications.map(n => n.id === id ? { ...n, read: true } : n)` */
  function MarkRead(notifications: seq<Notification>, id: string): (marked: seq<Notification>)
    ensures |marked| == |notifications|
    ensures forall i | 0 <= i < |notifications| ::
      marked[i] == if notifications[i].id == id then notifications[i].(read := true) else notifications[i]
  {
    seq(|notifications|, i requires 0 <= i < |notifications| =>
      if notifications[i].id == id then notifications[i].(read := true) else notifications[i])
  }

  /** `notifications.map(n => ({ ...n, read: true }))` */
  function MarkAllRead(notifications: seq<Notification>): (marked: seq<Notification>)
    ensures |marked| == |notifications|
    ensures forall i | 0 <= i < |notifications| :: marked[i] == notifications[i].(read := true)
  {
    seq(|notifications|, i requires 0 <= i < |notifications| => notifications[i].(read := true))
  }

  /** The unread notifications that carry the id. */
  function UnreadWithId(notifications: seq<Notification>, id: string): nat {
    if notifications == [] then 0
    else (if !notifications[0].read && notifications[0].id == id then 1 else 0) + UnreadWithId(notifications[1..], id)
  }

  /** Marking one id read lowers the badge by the unread notifications
      with that id, and by nothing else. */
  lemma {:induction false} MarkReadCount(notifications: seq<Notification>, id: string)
    ensures UnreadCount(MarkRead(notifications, id)) == UnreadCount(notifications) - UnreadWithId(notifications, id)
  {
    if notifications != [] {
      assert MarkRead(notifications, id)[1..] == MarkRead(notifications[1..], id);
      MarkReadCount(notifications[1..], id);
    }
  }

  /** After mark-all the count function agrees with the badge's 0. */
  lemma MarkAllReadCount(notifications: seq<Notification>)
    ensures UnreadCount(MarkAllRead(notifications)) == 0
  {
  }

  /** Where a click on a notification navigates: the task when it has a
      task id, else the project when it has a project id, else nowhere. */
  function NavigationTarget(metadata: Option<Metadata>): (path: Option<string>)
    ensures metadata.Some? && !Blank(metadata.value.taskId) ==> path == Some("/tasks/" + metadata.value.taskId.value)
    ensures metadata.Some? && Blank(metadata.value.taskId) && !Blank(metadata.value.projectId) ==>
      path == Some("/projects/" + metadata.value.projectId.value)
    ensures path == None <==> metadata == None || (Blank(metadata.value.taskId) && Blank(metadata.value.projectId))
  {
    match metadata
    case None => None
    case Some(m) =>
      if !Blank(m.taskId) then Some("/tasks/" + m.taskId.value)
      else if !Blank(m.projectId) then Some("/projects/" + m.projectId.value)
      else None
  }

  function MockNotifications(now: int): seq<Notification> {
    [Notification("1", "task_assigned", "Sei stato assegnato al task \"Completare il design\"", false, now - 1800000,
                  Some(Metadata(Some("task1"), Some("proj1"), None, None))),
     Notification("2", "deadline", "Il task \"Implementare login\" scade oggi", false, now - 3600000,
                  Some(Metadata(Some("task2"), Some("proj1"), None, None))),
     Notification("3", "comment", "Mario Rossi ha commentato sul task \"Bug fix\"", true, now - 86400000,
                  Some(Metadata(Some("task3"), None, Some("comm1"), Some("user1")))),
     Notification("4", "project_invite", "Sei stato invitato al progetto \"Website Redesign\"", true, now - 259200000,
                  Some(Metadata(None, Some("proj2"), None, None))),
     Notification("5", "task_completed", "Laura Bianchi ha completato il task \"Database setup\"", true, now - 345600000,
                  Some(Metadata(Some("task4"), Some("proj1"), None, Some("user2"))))]
  }

  /** Two of the demo notifications are unread. */
  lemma MockUnreadCount(now: int)
    ensures UnreadCount(MockNotifications(now)) == 2
  {
    var ns := MockNotifications(now);
    assert ns[1..][1..][1..][1..][1..] == [];
  }

  /** The component's state: the list and the badge count. */
  class MenuState {
    var notifications: seq<Notification>
    var unreadCount: int

    /** The badge shows the number of unread notifications. */
    ghost predicate Valid()
      reads this
    {
      unreadCount == UnreadCount(notifications)
    }

    constructor ()
      ensures notifications == [] && unreadCount == 0 && Valid()
    {
      notifications, unreadCount := [], 0;
    }

    /** The mount effect: the demo list and its count. */
    method Load(now: int)
      modifies this
      ensures notifications == MockNotifications(now) && unreadCount == 2 && Valid()
    {
      notifications := MockNotifications(now);
      unreadCount := UnreadCount(notifications);
      MockUnreadCount(now);
    }

    /** `handleNotificationClick`: marks that notification read, recounts,
        and answers where to navigate. */
    method HandleNotificationClick(clicked: Notification) returns (navigateTo: Option<string>)
      modifies this
      ensures notifications == MarkRead(old(notifications), clicked.id)
      ensures old(Valid()) ==> unreadCount == old(unreadCount) - UnreadWithId(old(notifications), clicked.id)
      ensures Valid()
      ensures navigateTo == NavigationTarget(clicked.metadata)
    {
      notifications := MarkRead(notifications, clicked.id);
      unreadCount := UnreadCount(notifications);
      MarkReadCount(old(notifications), clicked.id);
      navigateTo := NavigationTarget(clicked.metadata);
    }

    /** `handleMarkAllAsRead`: everything read, badge 0. */
    method HandleMarkAllAsRead()
      modifies this
      ensures notifications == MarkAllRead(old(notifications)) && unreadCount == 0
      ensures Valid()
    {
      notifications := MarkAllRead(notifications);
      unreadCount := 0;
      MarkAllReadCount(old(notifications));
    }
  }

  /** The bucket `formatRelativeTime` picks. */
  datatype RelativeTime = Now | MinutesAgo(minutes: int) | HoursAgo(hours: int) | Yesterday
                        | DaysAgo(days: int) | LocaleDate(at: int)

  /** `Math.floor(a / b)` for a positive `b`: Dafny's division already
      rounds down there, also for a negative `a`. */
  function FloorDiv(a: int, b: int): (q: int)
    requires b > 0
    ensures q * b <= a < q * b + b
  {
    a / b
  }

  /** `formatRelativeTime(date)` at the time `now`. A date in the future is
      "now". */
  function FormatRelativeTime(now: int, date: int): (r: RelativeTime)
    ensures r == Now <==> now - date < 60000
    ensures r.MinutesAgo? <==> 60000 <= now - date < 3600000
    ensures r.MinutesAgo? ==> r.minutes == FloorDiv(now - date, 60000) && 1 <= r.minutes < 60
    ensures r.HoursAgo? <==> 3600000 <= now - date < 86400000
    ensures r.HoursAgo? ==> r.hours == FloorDiv(now - date, 3600000) && 1 <= r.hours < 24
    ensures r == Yesterday <==> 86400000 <= now - date < 2 * 86400000
    ensures r.DaysAgo? <==> 2 * 86400000 <= now - date < 7 * 86400000
    ensures r.DaysAgo? ==> r.days == FloorDiv(now - date, 86400000) && 2 <= r.days < 7
    ensures r.LocaleDate? <==> 7 * 86400000 <= now - date
  {
    var diffMins := FloorDiv(now - date, 60000);
    if diffMins < 1 then Now
    else if diffMins < 60 then MinutesAgo(diffMins)
    else
      var diffHours := FloorDiv(diffMins, 60);
      if diffHours < 24 then HoursAgo(diffHours)
      else
        var diffDays := FloorDiv(diffHours, 24);
        if diffDays == 1 then Yesterday
        else if diffDays < 7 then DaysAgo(diffDays)
        else LocaleDate(date)
  }

  /** The Italian text for a bucket (the locale date is left abstract). */
  function Label(r: RelativeTime, localeDate: string): (text: string)
  {
    match r
    case Now => "Adesso"
    case MinutesAgo(m) => (if m >= 0 then NatToString(m) else "") + " min fa"
    case HoursAgo(h) => (if h >= 0 then NatToString(h) else "") + " ore fa"
    case Yesterday => "Ieri"
    case DaysAgo(d) => (if d >= 0 then NatToString(d) else "") + " giorni fa"
    case LocaleDate(_) => localeDate
  }

  /** The demo notifications read as 30 minutes, 1 hour, yesterday, 3 days
      and 4 days ago. */
  lemma MockNotificationTimes(now: int)
    ensures FormatRelativeTime(now, now - 1800000) == MinutesAgo(30)
    ensures FormatRelativeTime(now, now - 3600000) == HoursAgo(1)
    ensures FormatRelativeTime(now, now - 86400000) == Yesterday
    ensures FormatRelativeTime(now, now - 259200000) == DaysAgo(3)
    ensures FormatRelativeTime(now, now - 345600000) == DaysAgo(4)
    ensures Label(MinutesAgo(30), "") == "30 min fa"
  {
    assert NatToString(30) == NatToString(3) + [DigitChar(0)];
  }

  /** An older date never gets a more recent bucket. */
  lemma BucketsAreOrdered(now: int, older: int, newer: int)
    requires older <= newer
    ensures Rank(FormatRelativeTime(now, older)) >= Rank(FormatRelativeTime(now, newer))
  {
  }

  function Rank(r: RelativeTime): nat {
    match r
    case Now => 0
    case MinutesAgo(_) => 1
    case HoursAgo(_) => 2
    case Yesterday => 3
    case DaysAgo(_) => 4
    case LocaleDate(_) => 5
  }
}
