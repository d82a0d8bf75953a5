/**
 * The notifications page: the list held in component state, the handlers that
 * change it (mark one or all read, pick a filter tab, type a search query,
 * move between pages) and the views derived from it on every render (the
 * filtered list, the current page, the per-tab counts and the TODAY/EARLIER
 * groups).
 */
module NotificationsList {
  import opened Options
  import opened Seqs
  import opened Text

  /** The category of a notification; `All` is also the "all" filter tab. */
  datatype Category = All | Shipments | Settlements | System

  datatype Icon = ShipmentIcon | ContractIcon | AlertIcon | SystemIcon | InvoiceIcon | PaymentIcon

  datatype Notification = Notification(
    id: string,
    category: Category,
    icon: Icon,
    title: string,
    badge: Option<string>,
    badgeColor: Option<string>,
    description: string,
    timestamp: string,
    actionLabel: Option<string>,
    isRead: bool,
    link: Option<string>)

  const ItemsPerPage: nat := 10

  // ---------------------------------------------------------------------------
  // Marking notifications read

  /** The list after "Mark all as read": same entries in the same order, all read. */
  function MarkAllRead(s: seq<Notification>): (r: seq<Notification>)
    ensures |r| == |s|
    ensures forall i :: 0 <= i < |s| ==> r[i].isRead && r[i].(isRead := s[i].isRead) == s[i]
  {
    if s == [] then [] else [s[0].(isRead := true)] + MarkAllRead(s[1..])
  }

  /** The list after clicking the notification `id`: every entry with that id becomes read. */
  function MarkRead(s: seq<Notification>, id: string): (r: seq<Notification>)
    ensures |r| == |s|
    ensures forall i :: 0 <= i < |s| ==> r[i].(isRead := s[i].isRead) == s[i]
    ensures forall i :: 0 <= i < |s| ==> r[i].isRead == (s[i].isRead || s[i].id == id)
    ensures forall i :: 0 <= i < |s| && s[i].id != id ==> r[i] == s[i]
  {
    if s == [] then []
    else
      var rest := MarkRead(s[1..], id);
      var r := [if s[0].id == id then s[0].(isRead := true) else s[0]] + rest;
      assert forall i :: 1 <= i < |s| ==> r[i] == rest[i - 1] && s[i] == s[1..][i - 1];
      r
  }

  /** Clicking the same notification twice has the effect of clicking it once. */
  lemma MarkReadIdempotent(s: seq<Notification>, id: string)
    ensures MarkRead(MarkRead(s, id), id) == MarkRead(s, id)
  {
    var once := MarkRead(s, id);
    var twice := MarkRead(once, id);
    assert forall i :: 0 <= i < |s| ==> twice[i] == once[i];
  }

  /** "Mark all as read" after any single click gives the same list as "Mark all as read" alone. */
  lemma MarkAllReadAbsorbsClick(s: seq<Notification>, id: string)
    ensures MarkAllRead(MarkRead(s, id)) == MarkAllRead(s)
  {
    var a := MarkAllRead(MarkRead(s, id));
    var b := MarkAllRead(s);
    assert forall i :: 0 <= i < |s| ==> a[i] == b[i];
  }

  // ---------------------------------------------------------------------------
  // Filtering and search

  /** The tab clause: the "all" tab shows every entry, any other tab only its own category. */
  predicate MatchesFilter(n: Notification, active: Category)
    ensures active == All ==> MatchesFilter(n, active)
    ensures MatchesFilter(n, active) && n.category != active ==> active == All
  {
    active == All || n.category == active
  }

  /** The search clause: an empty query matches everything; otherwise the lower-cased
      query must occur in the lower-cased title, description or badge, if there is a badge. */
  predicate MatchesSearch(n: Notification, query: string)
    ensures MatchesSearch(n, query) && query != "" ==>
      |query| <= |n.title| || |query| <= |n.description| || (n.badge.Some? && |query| <= |n.badge.value|)
  {
    || query == ""
    || Includes(Lower(n.title), Lower(query))
    || Includes(Lower(n.description), Lower(query))
    || (n.badge.Some? && Includes(Lower(n.badge.value), Lower(query)))
  }

  predicate Matches(n: Notification, active: Category, query: string)
  {
    MatchesFilter(n, active) && MatchesSearch(n, query)
  }

  function Matcher(active: Category, query: string): Notification -> bool
  {
    n => Matches(n, active, query)
  }

  /** `filteredNotifications`: the entries that pass the tab and the search, in list order. */
  function Visible(s: seq<Notification>, active: Category, query: string): (r: seq<Notification>)
    ensures IsSubsequence(r, s)
    ensures forall n :: n in r <==> n in s && MatchesFilter(n, active) && MatchesSearch(n, query)
  {
    Filter(s, Matcher(active, query))
  }

  /** For a non-empty query, an entry matches exactly when the lower-cased query occurs at
      some position of the lower-cased title, description or present badge. */
  lemma SearchMatchesOccurrence(n: Notification, query: string)
    requires query != ""
    ensures MatchesSearch(n, query) <==>
      || (exists i :: OccursAt(Lower(n.title), Lower(query), i))
      || (exists i :: OccursAt(Lower(n.description), Lower(query), i))
      || (n.badge.Some? && exists i :: OccursAt(Lower(n.badge.value), Lower(query), i))
  {
    IncludesIff(Lower(n.title), Lower(query));
    IncludesIff(Lower(n.description), Lower(query));
    if n.badge.Some? {
      IncludesIff(Lower(n.badge.value), Lower(query));
    }
  }

  /** The search ignores the letter case of the query. */
  lemma SearchIgnoresQueryCase(n: Notification, query: string)
    ensures MatchesSearch(n, query) == MatchesSearch(n, Lower(query))
  {
    LowerIdempotent(query);
  }

  /** With an empty search box the "all" tab lists the whole list. */
  lemma VisibleAllWithoutQuery(s: seq<Notification>)
    ensures Visible(s, All, "") == s
  {
    FilterKeepsAll(s, Matcher(All, ""));
  }

  /** Marking entries read never changes which entries are listed, nor their order. */
  lemma {:induction false} VisibleAfterMarkRead(s: seq<Notification>, id: string, active: Category, query: string)
    ensures Visible(MarkRead(s, id), active, query) == MarkRead(Visible(s, active, query), id)
  {
    if s != [] {
      VisibleAfterMarkRead(s[1..], id, active, query);
      assert MarkRead(s, id)[1..] == MarkRead(s[1..], id);
    }
  }

  lemma {:induction false} VisibleAfterMarkAllRead(s: seq<Notification>, active: Category, query: string)
    ensures Visible(MarkAllRead(s), active, query) == MarkAllRead(Visible(s, active, query))
  {
    if s != [] {
      VisibleAfterMarkAllRead(s[1..], active, query);
      assert MarkAllRead(s)[1..] == MarkAllRead(s[1..]);
    }
  }

  // ---------------------------------------------------------------------------
  // Pagination

  /** An index argument of `Array.prototype.slice`: negative counts back from the end,
      and the result is clamped to [0, n]. */
  function SliceIndex(i: int, n: nat): (k: nat)
    ensures k <= n
    ensures 0 <= i <= n ==> k == i
    ensures i > n ==> k == n
  {
    if i < 0 then (if n + i < 0 then 0 else n + i) else if i > n then n else i
  }

  /** `s.slice(start, end)`: the run of `s` that starts at the clamped start index. */
  function Slice<T>(s: seq<T>, start: int, end: int): (r: seq<T>)
    ensures SliceIndex(start, |s|) + |r| <= |s|
    ensures forall k :: 0 <= k < |r| ==> r[k] == s[SliceIndex(start, |s|) + k]
  {
    var a := SliceIndex(start, |s|);
    var b := SliceIndex(end, |s|);
    if a < b then s[a..b] else []
  }

  /** `Math.ceil(n / itemsPerPage)`: the fewest pages of ten that hold n entries. */
  function TotalPages(n: nat): (pages: nat)
    ensures n <= pages * ItemsPerPage < n + ItemsPerPage
  {
    (n + ItemsPerPage - 1) / ItemsPerPage
  }

  /** `paginatedNotifications` for page number `page`: never more than ten entries, whatever
      the page number. */
  function Page<T>(s: seq<T>, page: int): (r: seq<T>)
    ensures |r| <= ItemsPerPage
  {
    Slice(s, (page - 1) * ItemsPerPage, (page - 1) * ItemsPerPage + ItemsPerPage)
  }

  /** Page p (from 1) is the window s[(p-1)*10 .. min(p*10, n)], so it holds at most ten entries,
      and it is non-empty exactly when p is at most the number of pages. */
  lemma PageWindow<T>(s: seq<T>, page: int)
    requires page >= 1
    ensures Page(s, page) == s[Min((page - 1) * ItemsPerPage, |s|)..Min(page * ItemsPerPage, |s|)]
    ensures |Page(s, page)| <= ItemsPerPage
    ensures Page(s, page) != [] <==> page <= TotalPages(|s|)
  {
  }

  /** Pages 1 to k, in order. */
  function PagesUpTo<T>(s: seq<T>, k: nat): seq<seq<T>>
  {
    if k == 0 then [] else PagesUpTo(s, k - 1) + [Page(s, k)]
  }

  lemma {:induction false} PagesUpToPrefix<T>(s: seq<T>, k: nat)
    ensures Flatten(PagesUpTo(s, k)) == s[..Min(k * ItemsPerPage, |s|)]
  {
    if k > 0 {
      PagesUpToPrefix(s, k - 1);
      var pages := PagesUpTo(s, k);
      assert pages[..|pages| - 1] == PagesUpTo(s, k - 1);
      PageWindow(s, k);
      var lo := Min((k - 1) * ItemsPerPage, |s|);
      var hi := Min(k * ItemsPerPage, |s|);
      assert s[..lo] + s[lo..hi] == s[..hi];
    }
  }

  /** Reading pages 1 to totalPages one after another gives back the filtered list. */
  lemma PagesReassemble<T>(s: seq<T>)
    ensures |PagesUpTo(s, TotalPages(|s|))| == TotalPages(|s|)
    ensures Flatten(PagesUpTo(s, TotalPages(|s|))) == s
  {
    PagesUpToPrefix(s, TotalPages(|s|));
    PagesUpToLength(s, TotalPages(|s|));
  }

  lemma {:induction false} PagesUpToLength<T>(s: seq<T>, k: nat)
    ensures |PagesUpTo(s, k)| == k
  {
    if k > 0 {
      PagesUpToLength(s, k - 1);
    }
  }

  /** The Previous button: `Math.max(1, prev - 1)`. */
  function PreviousPage(page: int): (r: int)
    ensures r >= 1
    ensures page >= 2 ==> r == page - 1
  {
    Max(1, page - 1)
  }

  /** The Next button: `Math.min(totalPages, prev + 1)`. */
  function NextPage(page: int, totalPages: int): (r: int)
    ensures r <= totalPages
    ensures page < totalPages ==> r == page + 1
    ensures page >= totalPages ==> r == totalPages
  {
    Min(totalPages, page + 1)
  }

  /** Previous never goes below page 1 and Next never beyond the last page; from a page in
      range, both stay in range and move by at most one. */
  lemma NavigationClamps(page: int, totalPages: int)
    requires totalPages >= 1
    ensures PreviousPage(page) >= 1 && NextPage(page, totalPages) <= totalPages
    ensures 1 <= page <= totalPages ==>
      && 1 <= PreviousPage(page) <= page
      && page <= NextPage(page, totalPages) <= totalPages
      && NextPage(page, totalPages) - PreviousPage(page) <= 2
  {
  }

  // ---------------------------------------------------------------------------
  // Tab counts and the TODAY / EARLIER groups

  function InCategory(c: Category): Notification -> bool
  {
    (n: Notification) => n.category == c
  }

  /** `getFilterCount`: the number shown on a filter tab. */
  function FilterCount(s: seq<Notification>, c: Category): (r: nat)
    ensures r <= |s|
  {
    if c == All then |s| else |Filter(s, InCategory(c))|
  }

  /** A tab's count is the number of entries that tab lists while the search box is empty. */
  lemma FilterCountIsTabLength(s: seq<Notification>, c: Category)
    ensures FilterCount(s, c) == |Visible(s, c, "")|
    ensures FilterCount(s, c) <= FilterCount(s, All)
  {
    if c == All {
      VisibleAllWithoutQuery(s);
    } else {
      FilterCongruent(s, InCategory(c), Matcher(c, ""));
    }
  }

  /** The three category tabs together count every entry except those whose own category is "all". */
  lemma {:induction false} CategoryCountsSum(s: seq<Notification>)
    ensures FilterCount(s, Shipments) + FilterCount(s, Settlements) + FilterCount(s, System)
            + |Filter(s, InCategory(All))| == FilterCount(s, All)
  {
    if s != [] {
      CategoryCountsSum(s[1..]);
    }
  }

  const IsUnread: Notification -> bool := (n: Notification) => !n.isRead
  const IsRead: Notification -> bool := (n: Notification) => n.isRead

  /** `todayNotifications`: the unread entries of the page. */
  function TodayGroup(page: seq<Notification>): (r: seq<Notification>)
    ensures forall n :: n in r <==> n in page && !n.isRead
  {
    Filter(page, IsUnread)
  }

  /** `olderNotifications`: the read entries of the page. */
  function EarlierGroup(page: seq<Notification>): (r: seq<Notification>)
    ensures forall n :: n in r <==> n in page && n.isRead
  {
    Filter(page, IsRead)
  }

  /** TODAY and EARLIER split the page by read state: each keeps page order, and together
      they hold every entry of the page exactly once. */
  lemma TodayEarlierPartition(page: seq<Notification>)
    ensures IsSubsequence(TodayGroup(page), page) && IsSubsequence(EarlierGroup(page), page)
    ensures forall n :: n in TodayGroup(page) <==> n in page && !n.isRead
    ensures forall n :: n in EarlierGroup(page) <==> n in page && n.isRead
    ensures |TodayGroup(page)| + |EarlierGroup(page)| == |page|
    ensures multiset(TodayGroup(page)) + multiset(EarlierGroup(page)) == multiset(page)
  {
    FilterPartition(page, IsUnread, IsRead);
  }

  // ---------------------------------------------------------------------------
  // The stale page number after a filter or search change

  /** Once the filter or search leaves at most one page of results, page 2 is empty and no
      pagination controls are shown, although results exist. */
  lemma StalePageIsBlank(s: seq<Notification>, active: Category, query: string)
    requires 0 < |Visible(s, active, query)| <= ItemsPerPage
    ensures Page(Visible(s, active, query), 2) == []
    ensures TotalPages(|Visible(s, active, query)|) == 1
  {
    PageWindow(Visible(s, active, query), 2);
  }

  function SampleNotification(id: string, c: Category): Notification
  {
    Notification(id, c, SystemIcon, "t", None, None, "d", "now", None, false, None)
  }

  /** Eleven entries, ten of them shipments and the last one a system notice. */
  function StaleWitnessList(): seq<Notification>
  {
    seq(10, i => SampleNotification("s", Shipments)) + [SampleNotification("x", System)]
  }

  /** On that list the "all" tab has two pages, and the "system" tab, picked while on page 2,
      has a single result that page 2 does not show. */
  lemma StaleFilterWitness()
    ensures var s := StaleWitnessList();
      && TotalPages(|Visible(s, All, "")|) == 2
      && |Visible(s, System, "")| == 1
      && Page(Visible(s, System, ""), 2) == []
      && TotalPages(|Visible(s, System, "")|) == 1
  {
    var ships := seq(10, i => SampleNotification("s", Shipments));
    var sys := [SampleNotification("x", System)];
    var s := ships + sys;
    assert s == StaleWitnessList();
    VisibleAllWithoutQuery(s);
    FilterAppend(ships, sys, Matcher(System, ""));
    FilterDropsAll(ships, Matcher(System, ""));
    assert Filter(sys, Matcher(System, "")) == sys;
    StalePageIsBlank(s, System, "");
  }

  // ---------------------------------------------------------------------------
  // The page component's state

  class NotificationsPage {
    var notifications: seq<Notification>
    var activeFilter: Category
    var searchQuery: string
    var currentPage: int

    ghost predicate Valid()
      reads this
    {
      currentPage >= 1
    }

    constructor (initial: seq<Notification>)
      ensures Valid()
      ensures notifications == initial && activeFilter == All && searchQuery == "" && currentPage == 1
    {
      notifications := initial;
      activeFilter := All;
      searchQuery := "";
      currentPage := 1;
    }

    function Filtered(): seq<Notification>
      reads this
    {
      Visible(notifications, activeFilter, searchQuery)
    }

    function PageCount(): nat
      reads this
    {
      TotalPages(|Filtered()|)
    }

    function Paginated(): seq<Notification>
      reads this
    {
      Page(Filtered(), currentPage)
    }

    /** The Previous/Next controls are rendered only when there is more than one page. */
    predicate ShowsPagination()
      reads this
    {
      PageCount() > 1
    }

    /** Results exist, yet the current page lists none of them and offers no way to navigate. */
    predicate ShowsNothing()
      reads this
    {
      Filtered() != [] && Paginated() == [] && !ShowsPagination()
    }

    method MarkAllAsRead()
      modifies this
      ensures notifications == MarkAllRead(old(notifications))
      ensures activeFilter == old(activeFilter) && searchQuery == old(searchQuery)
      ensures currentPage == old(currentPage)
      ensures Filtered() == MarkAllRead(old(Filtered())) && PageCount() == old(PageCount())
    {
      VisibleAfterMarkAllRead(notifications, activeFilter, searchQuery);
      notifications := MarkAllRead(notifications);
    }

    method NotificationClick(id: string)
      modifies this
      ensures notifications == MarkRead(old(notifications), id)
      ensures activeFilter == old(activeFilter) && searchQuery == old(searchQuery)
      ensures currentPage == old(currentPage)
      ensures Filtered() == MarkRead(old(Filtered()), id) && PageCount() == old(PageCount())
    {
      VisibleAfterMarkRead(notifications, id, activeFilter, searchQuery);
      notifications := MarkRead(notifications, id);
    }

    /** A filter tab click, as the page does it: the page number is left as it was. */
    method SetActiveFilter(c: Category)
      modifies this
      ensures activeFilter == c
      ensures notifications == old(notifications) && searchQuery == old(searchQuery)
      ensures currentPage == old(currentPage)
    {
      activeFilter := c;
    }

    /** Typing in the search box, as the page does it: the page number is left as it was. */
    method SetSearchQuery(q: string)
      modifies this
      ensures searchQuery == q
      ensures notifications == old(notifications) && activeFilter == old(activeFilter)
      ensures currentPage == old(currentPage)
    {
      searchQuery := q;
    }

    /** A filter tab click that also returns to page 1, so results are never hidden. */
    method SelectFilter(c: Category)
      requires Valid()
      modifies this
      ensures Valid()
      ensures activeFilter == c && currentPage == 1
      ensures notifications == old(notifications) && searchQuery == old(searchQuery)
      ensures !ShowsNothing() && (Filtered() != [] ==> Paginated() != [])
    {
      activeFilter := c;
      currentPage := 1;
      PageWindow(Filtered(), 1);
    }

    /** A search edit that also returns to page 1, so results are never hidden. */
    method Search(q: string)
      requires Valid()
      modifies this
      ensures Valid()
      ensures searchQuery == q && currentPage == 1
      ensures notifications == old(notifications) && activeFilter == old(activeFilter)
      ensures !ShowsNothing() && (Filtered() != [] ==> Paginated() != [])
    {
      searchQuery := q;
      currentPage := 1;
      PageWindow(Filtered(), 1);
    }

    method PreviousClicked()
      requires Valid() && ShowsPagination()
      modifies this
      ensures Valid()
      ensures currentPage == PreviousPage(old(currentPage))
      ensures notifications == old(notifications) && activeFilter == old(activeFilter)
      ensures searchQuery == old(searchQuery)
    {
      currentPage := Max(1, currentPage - 1);
    }

    method NextClicked()
      requires Valid() && ShowsPagination()
      modifies this
      ensures Valid()
      ensures currentPage == NextPage(old(currentPage), old(PageCount()))
      ensures currentPage <= PageCount()
      ensures notifications == old(notifications) && activeFilter == old(activeFilter)
      ensures searchQuery == old(searchQuery)
    {
      currentPage := Min(PageCount(), currentPage + 1);
    }
  }

  /** The handlers as written, driven on the witness list: Next on the "all" tab, then the
      "system" tab. The page is left showing none of the existing results and no controls. */
  method StaleFilterScenario() returns (page: NotificationsPage)
    ensures page.Valid() && page.activeFilter == System && page.currentPage == 2
    ensures page.Filtered() != [] && page.ShowsNothing()
  {
    StaleFilterWitness();
    VisibleAllWithoutQuery(StaleWitnessList());
    page := new NotificationsPage(StaleWitnessList());
    page.NextClicked();
    page.SetActiveFilter(System);
  }
}
