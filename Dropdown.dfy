/**
 * The notification bell and its dropdown: the unread badge, the relative
 * "time ago" label of each entry, the cap of five entries shown, and the
 * open/closed state driven by the bell, the close button, Escape, a click
 * outside the dropdown and "View All".
 */
module Dropdown {
  import opened Seqs
  import opened Text

  datatype Kind = Shipment | Payment | Alert

  /** `timestamp` is a time in milliseconds, as `Date.getTime()` gives it. */
  datatype Notification = Notification(id: string, kind: Kind, message: string, timestamp: int, read: bool)

  const MaxShown: nat := 5

  const IsUnread: Notification -> bool := (n: Notification) => !n.read
  const IsRead: Notification -> bool := (n: Notification) => n.read

  /** The number on the bell badge: `notifications.filter((n) => !n.read).length`. */
  function UnreadCount(ns: seq<Notification>): (r: nat)
    ensures r <= |ns|
  {
    |Filter(ns, IsUnread)|
  }

  /** The badge counts the unread entries: with the read ones they make up the whole list, and
      the badge is zero exactly when every entry is read. */
  lemma UnreadCountSpec(ns: seq<Notification>)
    ensures UnreadCount(ns) + |Filter(ns, IsRead)| == |ns|
    ensures UnreadCount(ns) <= |ns|
    ensures UnreadCount(ns) == 0 <==> forall i :: 0 <= i < |ns| ==> ns[i].read
  {
    FilterPartition(ns, IsUnread, IsRead);
    FilterDropsAll(ns, IsUnread);
  }

  /** The entries listed in the dropdown: `notifications.slice(0, 5)`. */
  function Shown(ns: seq<Notification>): (r: seq<Notification>)
    ensures |r| <= MaxShown && |r| <= |ns| && r == ns[..|r|]
  {
    ns[..Min(MaxShown, |ns|)]
  }

  lemma ShownIsCappedPrefix(ns: seq<Notification>)
    ensures |Shown(ns)| == Min(MaxShown, |ns|) <= MaxShown
    ensures forall i :: 0 <= i < |Shown(ns)| ==> Shown(ns)[i] == ns[i]
    ensures |ns| <= MaxShown ==> Shown(ns) == ns
  {
  }

  // ---------------------------------------------------------------------------
  // "Time ago" labels

  const MsPerMinute: int := 60000
  const MsPerHour: int := 3600000
  const MsPerDay: int := 86400000

  /** The unit and amount `getTimeAgo` chooses. */
  datatype Elapsed = MinutesAgo(minutes: int) | HoursAgo(hours: int) | DaysAgo(days: int)

  /** `getTimeAgo` on `diffMs = now - timestamp`; division by a positive constant in Dafny is
      floor division, as `Math.floor(diffMs / k)` is. */
  function TimeAgo(diffMs: int): (e: Elapsed)
    ensures e.MinutesAgo? ==> e.minutes < 60
    ensures e.HoursAgo? ==> 1 <= e.hours < 24
    ensures e.DaysAgo? ==> e.days >= 1
  {
    var diffMins := diffMs / MsPerMinute;
    var diffHours := diffMs / MsPerHour;
    var diffDays := diffMs / MsPerDay;
    if diffMins < 60 then MinutesAgo(diffMins)
    else if diffHours < 24 then HoursAgo(diffHours)
    else DaysAgo(diffDays)
  }

  /** The bucket in terms of the difference itself: minutes below one hour, hours from one
      hour up to a day, days from one day on, each amount the whole units elapsed. */
  lemma TimeAgoBuckets(diffMs: int)
    ensures TimeAgo(diffMs).MinutesAgo? <==> diffMs < MsPerHour
    ensures TimeAgo(diffMs).HoursAgo? <==> MsPerHour <= diffMs < MsPerDay
    ensures TimeAgo(diffMs).DaysAgo? <==> MsPerDay <= diffMs
    ensures TimeAgo(diffMs).MinutesAgo? ==>
      var m := TimeAgo(diffMs).minutes;
      m < 60 && m * MsPerMinute <= diffMs < (m + 1) * MsPerMinute
    ensures TimeAgo(diffMs).HoursAgo? ==>
      var h := TimeAgo(diffMs).hours;
      1 <= h <= 23 && h * MsPerHour <= diffMs < (h + 1) * MsPerHour
    ensures TimeAgo(diffMs).DaysAgo? ==>
      var d := TimeAgo(diffMs).days;
      d >= 1 && d * MsPerDay <= diffMs < (d + 1) * MsPerDay
  {
  }

  /** Coarseness of a unit: minutes, then hours, then days. */
  function UnitRank(e: Elapsed): nat
  {
    match e
    case MinutesAgo(_) => 0
    case HoursAgo(_) => 1
    case DaysAgo(_) => 2
  }

  /** An older timestamp never gets a finer unit. */
  lemma TimeAgoMonotone(d1: int, d2: int)
    requires d1 <= d2
    ensures UnitRank(TimeAgo(d1)) <= UnitRank(TimeAgo(d2))
  {
    TimeAgoBuckets(d1);
    TimeAgoBuckets(d2);
  }

  /** The text of an `Elapsed` value, as the template literals write it. */
  function Label(e: Elapsed): string
  {
    match e
    case MinutesAgo(m) => IntToDecimal(m) + "m ago"
    case HoursAgo(h) => IntToDecimal(h) + "h ago"
    case DaysAgo(d) => IntToDecimal(d) + "d ago"
  }

  /** The label always ends with a one-letter unit (m, h or d) and " ago". */
  function GetTimeAgo(diffMs: int): (text: string)
    ensures |text| >= 6 && text[|text| - 4..] == " ago"
    ensures text[|text| - 5] in "mhd"
  {
    Label(TimeAgo(diffMs))
  }

  /** The label is the amount's text followed by the unit suffix. The amount is negative
      exactly for a timestamp in the future, which then reads "-<digits>m ago"; the digits
      have no leading zero and read back as the magnitude of the amount. */
  lemma GetTimeAgoReadsBack(diffMs: int)
    ensures var e := TimeAgo(diffMs);
      var amount := match e case MinutesAgo(m) => m case HoursAgo(h) => h case DaysAgo(d) => d;
      var suffix := match e case MinutesAgo(_) => "m ago" case HoursAgo(_) => "h ago" case DaysAgo(_) => "d ago";
      var number := GetTimeAgo(diffMs)[..|GetTimeAgo(diffMs)| - 5];
      var digits := if diffMs < 0 then number[1..] else number;
      && GetTimeAgo(diffMs) == number + suffix
      && (amount < 0 <==> diffMs < 0)
      && (diffMs < 0 ==> e.MinutesAgo?)
      && (number[0] == '-' <==> diffMs < 0)
      && |digits| >= 1
      && (forall i :: 0 <= i < |digits| ==> IsDigit(digits[i]))
      && (digits[0] == '0' ==> digits == "0")
      && DecimalValue(digits) == if amount < 0 then -amount else amount
  {
    var e := TimeAgo(diffMs);
    var amount := match e case MinutesAgo(m) => m case HoursAgo(h) => h case DaysAgo(d) => d;
    var s := GetTimeAgo(diffMs);
    assert s[..|s| - 5] == IntToDecimal(amount);
    if diffMs < 0 {
      assert diffMs / MsPerMinute < 0;
    }
  }

  // ---------------------------------------------------------------------------
  // Open / closed state

  datatype Event =
    | BellClicked
    | CloseClicked
    | KeyDown(key: string)
    /** A press anywhere in the page; `insideDropdown` holds when it lands inside the
        container that holds both the bell and the panel, so a press on the bell is inside. */
    | MouseDown(insideDropdown: bool)
    | ViewAllClicked

  /** The open state after an event. The Escape and outside-click listeners exist only while
      the dropdown is open, and both close it. */
  function Step(isOpen: bool, e: Event): (r: bool)
    ensures e.BellClicked? ==> r == !isOpen
    ensures Closes(e) ==> !r
    ensures !Closes(e) && !e.BellClicked? ==> r == isOpen
  {
    match e
    case BellClicked => !isOpen
    case CloseClicked => false
    case KeyDown(key) => if isOpen && key == "Escape" then false else isOpen
    case MouseDown(inside) => if isOpen && !inside then false else isOpen
    case ViewAllClicked => false
  }

  predicate Closes(e: Event)
  {
    e.CloseClicked? || e.ViewAllClicked? || e == KeyDown("Escape") || e == MouseDown(false)
  }

  /** The bell flips the state; every closing event leaves it closed, so repeating it changes
      nothing; other keys and clicks inside the dropdown change nothing. */
  lemma StepProperties(isOpen: bool, e: Event)
    ensures e.BellClicked? ==> Step(isOpen, e) == !isOpen && Step(Step(isOpen, e), e) == isOpen
    ensures Closes(e) ==> !Step(isOpen, e) && Step(Step(isOpen, e), e) == Step(isOpen, e)
    ensures !Closes(e) && !e.BellClicked? ==> Step(isOpen, e) == isOpen
  {
  }

  class NotificationDropdown {
    var isOpen: bool
    const notifications: seq<Notification>

    constructor (initial: seq<Notification>)
      ensures !isOpen && notifications == initial
    {
      isOpen := false;
      notifications := initial;
    }

    method HandleToggle()
      modifies this
      ensures isOpen == Step(old(isOpen), BellClicked)
    {
      isOpen := !isOpen;
    }

    method CloseButtonClicked()
      modifies this
      ensures isOpen == Step(old(isOpen), CloseClicked)
    {
      isOpen := false;
    }

    method HandleKeyDown(key: string)
      modifies this
      ensures isOpen == Step(old(isOpen), KeyDown(key))
    {
      if isOpen && key == "Escape" {
        isOpen := false;
      }
    }

    /** `insideDropdown` is true for a press on the bell too: the listener's container holds
        both the bell and the panel, so the bell's own click is never preceded by a close. */
    method HandleMouseDown(insideDropdown: bool)
      modifies this
      ensures isOpen == Step(old(isOpen), MouseDown(insideDropdown))
    {
      if isOpen && !insideDropdown {
        isOpen := false;
      }
    }

    /** "View All": closes the dropdown and returns the route it navigates to. */
    method HandleViewAll() returns (route: string)
      modifies this
      ensures isOpen == Step(old(isOpen), ViewAllClicked)
      ensures route == "/dashboard/notifications"
    {
      isOpen := false;
      route := "/dashboard/notifications";
    }
  }
}
