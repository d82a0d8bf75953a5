# Navin dashboard: verified model of the list, form and timeline logic

This project models the logic of five parts of the Navin logistics dashboard front end in Dafny, with proofs:

- **Notifications page** (`NotificationsList.dfy`). The page holds a list of notifications in state. Its handlers mark one entry or all entries read, pick a category tab, take a search query and move between pages. On every render it derives four views: the filtered list, the current page of ten, the count on each tab, and the unread ("TODAY") and read ("EARLIER") groups of that page. The state is the class `NotificationsPage`. Its handlers are methods, and each derived view is a function proved correct by lemmas.
- **Delivery success rate** (`DeliverySuccess.dfy`). It sums the outcome counts, finds the first `Delivered` row and gives the rounded percentage. A total of zero gives 0.
- **Customer profile form** (`ProfileForm.dfy`). It covers the per-field rules and the field update on change. It also covers the submit step, a loop over the profile's keys that collects the errors and starts the save only when there are none. The form state is the class `CustomerProfile`.
- **Notification dropdown** (`Dropdown.dfy`). It models the unread badge, the "time ago" labels, the cap of five entries shown and the open/closed state. The state is the class `NotificationDropdown`.
- **Tracking timeline** (`Timeline.dfy`). It maps each milestone to one list item and adds connectors between items.

Three helper modules support them:

- `Seqs.dfy`: `filter`, order-preserving subsequences and the flattening of pages.
- `Text.dfy`: lower-casing, `includes` and the decimal text of integers.
- `Options.dfy`: optional values.

## Model

| member | source | states |
|---|---|---|
| `Seqs.Filter` | frontend/src/pages/Notifications/NotificationsPage.tsx:299-310 | `filter` keeps exactly the elements that satisfy the predicate, in order (an order-preserving subsequence), and never adds any |
| `Seqs.FilterPartition` | frontend/src/pages/Notifications/NotificationsPage.tsx:324-325 | filtering by a predicate and by its negation splits a list: the lengths add up and the multisets add up to the original |
| `Text.Lower` | frontend/src/pages/Notifications/NotificationsPage.tsx:304-308 | `toLowerCase` keeps the length, turns each capital A-Z into its small letter, leaves no capital and keeps every other character; `Text.LowerIdempotent` shows it is idempotent |
| `Text.Includes` | frontend/src/pages/Notifications/NotificationsPage.tsx:304-308 | `includes` never finds a needle longer than the haystack; `Text.IncludesIff` characterizes it by occurrence positions |
| `Text.IncludesIff` | frontend/src/pages/Notifications/NotificationsPage.tsx:304-308 | `includes` holds exactly when the needle occurs at some position of the haystack |
| `Text.LowerIdempotent` | frontend/src/pages/Notifications/NotificationsPage.tsx:304-308 | lower-casing twice equals lower-casing once |
| `Text.NatToDecimal` | frontend/src/components/notifications/NotificationDropdown/NotificationDropdown.tsx:70-75 | the decimal text of a number is non-empty, all digits, with no leading zero |
| `Text.DecimalRoundTrip` | frontend/src/components/notifications/NotificationDropdown/NotificationDropdown.tsx:70-75 | reading the decimal text of n back gives n |
| `Text.IntToDecimal` | frontend/src/components/notifications/NotificationDropdown/NotificationDropdown.tsx:70-75 | the text of an integer in a template literal: a leading "-" exactly when it is negative, then a non-empty run of digits without leading zeros that reads back as its magnitude |
| `NotificationsList.MarkAllRead` | frontend/src/pages/Notifications/NotificationsPage.tsx:280-287 | same length and order, every entry read, every other field unchanged |
| `NotificationsList.MarkRead` | frontend/src/pages/Notifications/NotificationsPage.tsx:289-297 | same length and order; entries with the clicked id become read; every other entry is unchanged; no field but `isRead` changes |
| `NotificationsList.MarkReadIdempotent` | frontend/src/pages/Notifications/NotificationsPage.tsx:289-297 | clicking the same notification twice equals clicking it once |
| `NotificationsList.MarkAllReadAbsorbsClick` | frontend/src/pages/Notifications/NotificationsPage.tsx:280-297 | "mark all" after a single click gives the same list as "mark all" alone |
| `NotificationsList.MatchesFilter` | frontend/src/pages/Notifications/NotificationsPage.tsx:300-301 | the "all" tab shows every entry, and any other tab shows only entries of its own category |
| `NotificationsList.MatchesSearch` | frontend/src/pages/Notifications/NotificationsPage.tsx:302-308 | a non-empty query matches only when it fits within the title, the description or a present badge; `NotificationsList.SearchMatchesOccurrence` and `NotificationsList.SearchIgnoresQueryCase` state the full rule |
| `NotificationsList.Visible` | frontend/src/pages/Notifications/NotificationsPage.tsx:299-310 | the filtered list is an order-preserving subsequence; an entry is in it iff it is in the list, its tab is "all" or its category matches, and the search matches |
| `NotificationsList.SearchMatchesOccurrence` | frontend/src/pages/Notifications/NotificationsPage.tsx:302-308 | for a non-empty query, an entry matches iff the lower-cased query occurs in the lower-cased title, description or present badge; a missing badge never matches |
| `NotificationsList.SearchIgnoresQueryCase` | frontend/src/pages/Notifications/NotificationsPage.tsx:302-308 | a query and its lower-cased form match the same entries |
| `NotificationsList.VisibleAllWithoutQuery` | frontend/src/pages/Notifications/NotificationsPage.tsx:299-310 | the "all" tab with an empty query lists the whole list |
| `NotificationsList.VisibleAfterMarkRead` | frontend/src/pages/Notifications/NotificationsPage.tsx:289-310 | marking read by id changes no entry's membership or position in the filtered list |
| `NotificationsList.VisibleAfterMarkAllRead` | frontend/src/pages/Notifications/NotificationsPage.tsx:280-310 | the same for "mark all as read" |
| `NotificationsList.SliceIndex` | frontend/src/pages/Notifications/NotificationsPage.tsx:314-317 | a `slice` index is clamped into [0, n]; an index already in range is kept |
| `NotificationsList.Slice` | frontend/src/pages/Notifications/NotificationsPage.tsx:314-317 | `slice` yields a run of the list that starts at the clamped start index and fits within the list |
| `NotificationsList.TotalPages` | frontend/src/pages/Notifications/NotificationsPage.tsx:312 | `totalPages` is the ceiling of n/10: n <= 10·totalPages < n + 10 |
| `NotificationsList.Page` | frontend/src/pages/Notifications/NotificationsPage.tsx:313-317 | a page never holds more than ten entries, whatever the page number; `NotificationsList.PageWindow` gives its exact window |
| `NotificationsList.PageWindow` | frontend/src/pages/Notifications/NotificationsPage.tsx:312-317 | page p is the window [(p-1)·10, min(p·10, n)); it holds at most 10 entries; it is non-empty iff p <= totalPages |
| `NotificationsList.PagesReassemble` | frontend/src/pages/Notifications/NotificationsPage.tsx:312-317 | pages 1..totalPages, concatenated, give back the filtered list |
| `NotificationsList.PagesUpToPrefix` | frontend/src/pages/Notifications/NotificationsPage.tsx:312-317 | pages 1..k concatenated are the first min(10k, n) entries |
| `NotificationsList.PreviousPage` | frontend/src/pages/Notifications/NotificationsPage.tsx:534 | Previous yields a page of at least 1, and the page before from page 2 on |
| `NotificationsList.NextPage` | frontend/src/pages/Notifications/NotificationsPage.tsx:545 | Next yields the page after from below the last page, and exactly the last page from the last page or from a stale page beyond it |
| `NotificationsList.NavigationClamps` | frontend/src/pages/Notifications/NotificationsPage.tsx:534-545 | Previous never goes below 1 and Next never above totalPages; from a page in range both stay in range |
| `NotificationsList.FilterCount` | frontend/src/pages/Notifications/NotificationsPage.tsx:319-322 | a tab count is at most the number of entries; `NotificationsList.FilterCountIsTabLength` ties it to the tab's list |
| `NotificationsList.FilterCountIsTabLength` | frontend/src/pages/Notifications/NotificationsPage.tsx:319-322 | a tab's count equals the number of entries it lists with an empty search, and is at most the "all" count, which is the list length |
| `NotificationsList.CategoryCountsSum` | frontend/src/pages/Notifications/NotificationsPage.tsx:319-322 | the three category counts plus the entries whose own category is "all" add up to the list length |
| `NotificationsList.TodayGroup` | frontend/src/pages/Notifications/NotificationsPage.tsx:324 | TODAY holds exactly the unread entries of the page |
| `NotificationsList.EarlierGroup` | frontend/src/pages/Notifications/NotificationsPage.tsx:325 | EARLIER holds exactly the read entries of the page |
| `NotificationsList.TodayEarlierPartition` | frontend/src/pages/Notifications/NotificationsPage.tsx:324-325 | TODAY holds exactly the unread entries of the page and EARLIER the read ones, each in page order; their lengths and multisets add up to the page |
| `NotificationsList.StalePageIsBlank` | frontend/src/pages/Notifications/NotificationsPage.tsx:312-317 | when a filter leaves 1 to 10 results there is one page, and page 2 shows none of them |
| `NotificationsList.StaleFilterWitness` | frontend/src/pages/Notifications/NotificationsPage.tsx:372-397 | a concrete list: "all" has two pages, while "system" has one result that page 2 does not show |
| `NotificationsList.StaleFilterScenario` | frontend/src/pages/Notifications/NotificationsPage.tsx:372-397 | driving the page object as written on that list (Next on "all", then the "system" tab) ends on page 2 with results that are neither listed nor reachable by pagination |
| `NotificationsList.NotificationsPage.constructor` | frontend/src/pages/Notifications/NotificationsPage.tsx:34-39 | initial state: the given list, the "all" tab, an empty query, page 1 |
| `NotificationsList.NotificationsPage.MarkAllAsRead` | frontend/src/pages/Notifications/NotificationsPage.tsx:280-287 | the list becomes `MarkAllRead` of the old one; the other state is unchanged; the filtered list is the old one marked read and the page count is unchanged |
| `NotificationsList.NotificationsPage.NotificationClick` | frontend/src/pages/Notifications/NotificationsPage.tsx:289-297 | the same for marking by id |
| `NotificationsList.NotificationsPage.SetActiveFilter` | frontend/src/pages/Notifications/NotificationsPage.tsx:372-397 | a tab click sets the filter and leaves the page number as it was (as written) |
| `NotificationsList.NotificationsPage.SetSearchQuery` | frontend/src/pages/Notifications/NotificationsPage.tsx:401-406 | typing sets the query and leaves the page number as it was (as written) |
| `NotificationsList.NotificationsPage.SelectFilter` | frontend/src/pages/Notifications/NotificationsPage.tsx:372-397 | corrected tab click: it also returns to page 1, so existing results are always shown |
| `NotificationsList.NotificationsPage.Search` | frontend/src/pages/Notifications/NotificationsPage.tsx:401-406 | corrected search edit: it also returns to page 1, so existing results are always shown |
| `NotificationsList.NotificationsPage.PreviousClicked` | frontend/src/pages/Notifications/NotificationsPage.tsx:532-538 | the page becomes max(1, p-1) and stays >= 1; nothing else changes |
| `NotificationsList.NotificationsPage.NextClicked` | frontend/src/pages/Notifications/NotificationsPage.tsx:542-550 | the page becomes min(totalPages, p+1), stays >= 1 and is at most totalPages, so Next from a stale page beyond the last lands on the last page; nothing else changes |
| `DeliverySuccess.Total` | frontend/src/components/dashboard/Charts/DeliverySuccessChart/mockDeliveryData.ts:22 | the `reduce` sum of the counts is not negative when no count is; `DeliverySuccess.TotalAppend` and `DeliverySuccess.TotalBoundsEachCount` state the rest |
| `DeliverySuccess.TotalAppend` | frontend/src/components/dashboard/Charts/DeliverySuccessChart/mockDeliveryData.ts:22 | the total of two lists joined is the sum of their totals (the chart legend shows the same total) |
| `DeliverySuccess.TotalBoundsEachCount` | frontend/src/components/dashboard/Charts/DeliverySuccessChart/mockDeliveryData.ts:22 | with no negative count, each count lies between 0 and the total |
| `DeliverySuccess.FindDelivered` | frontend/src/components/dashboard/Charts/DeliverySuccessChart/mockDeliveryData.ts:23 | `find` returns the first row with status exactly "Delivered", or none if no row has that status |
| `DeliverySuccess.DeliveredCount` | frontend/src/components/dashboard/Charts/DeliverySuccessChart/mockDeliveryData.ts:23 | the delivered count: the count of the first row whose status is "Delivered", or 0 when no row has that status |
| `DeliverySuccess.RoundedPercent` | frontend/src/components/dashboard/Charts/DeliverySuccessChart/mockDeliveryData.ts:24 | the result is the integer nearest to 100·part/whole, with halves rounded up |
| `DeliverySuccess.SuccessRate` | frontend/src/components/dashboard/Charts/DeliverySuccessChart/mockDeliveryData.ts:21-25 | `calculateSuccessRate`: 0 when the total is not positive, otherwise the nearest integer to 100·delivered/total (halves up) |
| `DeliverySuccess.RateZeroWithoutTotal` | frontend/src/components/dashboard/Charts/DeliverySuccessChart/mockDeliveryData.ts:24 | a total of zero gives a rate of 0 |
| `DeliverySuccess.RateZeroWithoutDelivered` | frontend/src/components/dashboard/Charts/DeliverySuccessChart/mockDeliveryData.ts:23-24 | with no "Delivered" row, the delivered count and the rate are 0 |
| `DeliverySuccess.DeliveredWithinTotal` | frontend/src/components/dashboard/Charts/DeliverySuccessChart/mockDeliveryData.ts:22-23 | with no negative count, 0 <= delivered <= total |
| `DeliverySuccess.RoundedPercentBounds` | frontend/src/components/dashboard/Charts/DeliverySuccessChart/mockDeliveryData.ts:24 | rounding a fraction between 0 and 1 gives a value in [0, 100] |
| `DeliverySuccess.RoundedPercentOfZero` | frontend/src/components/dashboard/Charts/DeliverySuccessChart/mockDeliveryData.ts:24 | 0 out of a positive whole rounds to 0 |
| `DeliverySuccess.RateIsPercentage` | frontend/src/components/dashboard/Charts/DeliverySuccessChart/mockDeliveryData.ts:21-25 | with no negative count, the rate lies in [0, 100] |
| `DeliverySuccess.RateFullWhenAllDelivered` | frontend/src/components/dashboard/Charts/DeliverySuccessChart/mockDeliveryData.ts:21-25 | when the delivered count equals a positive total, the rate is 100 |
| `DeliverySuccess.RateFullForSingleDeliveredRow` | frontend/src/components/dashboard/Charts/DeliverySuccessChart/mockDeliveryData.ts:21-25 | a single "Delivered" row with a positive count gives 100 |
| `ProfileForm.With` | frontend/src/pages/dashboard/Customer/Profile/CustomerProfile.tsx:43 | the spread update gives the named field the new value and keeps every other field |
| `ProfileForm.DigitsAtLeastIff` | frontend/src/pages/dashboard/Customer/Profile/CustomerProfile.tsx:36 | the pattern `^\d{k,}$` accepts exactly the strings of at least k characters that are all ASCII digits |
| `ProfileForm.Validate` | frontend/src/pages/dashboard/Customer/Profile/CustomerProfile.tsx:33-39 | a non-empty message is always the one for that field: name, phone or address; `ProfileForm.ValidateRules` says when each is given |
| `ProfileForm.ValidateRules` | frontend/src/pages/dashboard/Customer/Profile/CustomerProfile.tsx:33-39 | a name or address is rejected iff it is empty; a phone is rejected iff it is not 10 or more digits; email and wallet are never rejected |
| `ProfileForm.FieldOrderComplete` | frontend/src/pages/dashboard/Customer/Profile/CustomerProfile.tsx:50 | the keys the submit loop walks include every profile field |
| `ProfileForm.SubmitErrors` | frontend/src/pages/dashboard/Customer/Profile/CustomerProfile.tsx:49-55 | the collected errors are keyed only by validated fields, each with that field's non-empty message |
| `ProfileForm.SubmitErrorsKeys` | frontend/src/pages/dashboard/Customer/Profile/CustomerProfile.tsx:49-55 | the collected errors are keyed by exactly the failing fields among fullName, phone and address; email and wallet never appear |
| `ProfileForm.SaveGate` | frontend/src/pages/dashboard/Customer/Profile/CustomerProfile.tsx:56-58 | there are no errors iff the name and address are non-empty and the phone matches its pattern |
| `ProfileForm.InitialProfileFailsAllRules` | frontend/src/pages/dashboard/Customer/Profile/CustomerProfile.tsx:18-24 | submitting the initial, empty profile reports all three validated fields, each with its message |
| `ProfileForm.CollectErrors` | frontend/src/pages/dashboard/Customer/Profile/CustomerProfile.tsx:49-55 | the `forEach` loop over the keys builds exactly `SubmitErrors` of the profile |
| `ProfileForm.CustomerProfile.constructor` | frontend/src/pages/dashboard/Customer/Profile/CustomerProfile.tsx:28-30 | initial state: the empty profile, no errors, not loading |
| `ProfileForm.CustomerProfile.HandleChange` | frontend/src/pages/dashboard/Customer/Profile/CustomerProfile.tsx:41-45 | only the named field and its error entry change; the entry is that field's validation message, so it shows iff the new value fails |
| `ProfileForm.CustomerProfile.HandleSave` | frontend/src/pages/dashboard/Customer/Profile/CustomerProfile.tsx:47-58 | the errors become the collected ones; loading becomes true iff there are none, otherwise it is unchanged |
| `ProfileForm.CustomerProfile.SaveFinished` | frontend/src/pages/dashboard/Customer/Profile/CustomerProfile.tsx:60-63 | the delayed callback clears loading and changes nothing else |
| `Dropdown.UnreadCount` | frontend/src/components/notifications/NotificationDropdown/NotificationDropdown.tsx:61 | the badge count is at most the number of notifications |
| `Dropdown.UnreadCountSpec` | frontend/src/components/notifications/NotificationDropdown/NotificationDropdown.tsx:61 | the badge count plus the read entries is the list length, so it is at most the length; it is 0 iff every entry is read |
| `Dropdown.Shown` | frontend/src/components/notifications/NotificationDropdown/NotificationDropdown.tsx:159 | the dropdown lists a prefix of the notifications of at most five entries |
| `Dropdown.ShownIsCappedPrefix` | frontend/src/components/notifications/NotificationDropdown/NotificationDropdown.tsx:159 | the dropdown shows the first min(5, n) entries, in order |
| `Dropdown.TimeAgo` | frontend/src/components/notifications/NotificationDropdown/NotificationDropdown.tsx:63-77 | the unit and amount: fewer than 60 minutes, 1 to 23 hours, or at least one day |
| `Dropdown.GetTimeAgo` | frontend/src/components/notifications/NotificationDropdown/NotificationDropdown.tsx:63-77 | every label ends with the unit letter m, h or d followed by " ago" |
| `Dropdown.TimeAgoBuckets` | frontend/src/components/notifications/NotificationDropdown/NotificationDropdown.tsx:63-77 | the unit is minutes below one hour, hours (1 to 23) below one day, days (>= 1) from then on; each amount is the whole units elapsed |
| `Dropdown.TimeAgoMonotone` | frontend/src/components/notifications/NotificationDropdown/NotificationDropdown.tsx:63-77 | a larger difference never gets a finer unit |
| `Dropdown.GetTimeAgoReadsBack` | frontend/src/components/notifications/NotificationDropdown/NotificationDropdown.tsx:70-75 | the label is the amount's text followed by "m ago", "h ago" or "d ago"; it starts with "-" exactly for a future timestamp (always in minutes), and its digits have no leading zero and read back as the magnitude of the amount |
| `Dropdown.Step` | frontend/src/components/notifications/NotificationDropdown/NotificationDropdown.tsx:92-128 | the bell flips the open state; the close button, Escape, an outside press and View All leave it closed; any other event keeps it |
| `Dropdown.StepProperties` | frontend/src/components/notifications/NotificationDropdown/NotificationDropdown.tsx:92-128 | the bell flips the state and twice restores it; close, Escape, an outside click and View All close it, and repeating them changes nothing; other events change nothing |
| `Dropdown.NotificationDropdown.constructor` | frontend/src/components/notifications/NotificationDropdown/NotificationDropdown.tsx:56-57 | starts closed, with the given notifications |
| `Dropdown.NotificationDropdown.HandleToggle` | frontend/src/components/notifications/NotificationDropdown/NotificationDropdown.tsx:119-121 | the bell flips `isOpen` |
| `Dropdown.NotificationDropdown.CloseButtonClicked` | frontend/src/components/notifications/NotificationDropdown/NotificationDropdown.tsx:149-155 | the close button closes the dropdown |
| `Dropdown.NotificationDropdown.HandleKeyDown` | frontend/src/components/notifications/NotificationDropdown/NotificationDropdown.tsx:102-106 | Escape closes an open dropdown; any other key changes nothing |
| `Dropdown.NotificationDropdown.HandleMouseDown` | frontend/src/components/notifications/NotificationDropdown/NotificationDropdown.tsx:93-100 | a press outside an open dropdown closes it; a press inside changes nothing |
| `Dropdown.NotificationDropdown.HandleViewAll` | frontend/src/components/notifications/NotificationDropdown/NotificationDropdown.tsx:123-128 | closes the dropdown and yields the notifications route |
| `Timeline.RenderItem` | frontend/src/components/shipment/TrackingTimeline/TrackingTimeline.tsx:75-98 | an item is keyed by its milestone id and carries the status class; it has a connector iff another milestone follows, solid iff that milestone is completed |
| `Timeline.Render` | frontend/src/components/shipment/TrackingTimeline/TrackingTimeline.tsx:74-99 | one list item per milestone |
| `Timeline.RenderAt` | frontend/src/components/shipment/TrackingTimeline/TrackingTimeline.tsx:74-91 | item i renders milestone i (its key and icon label); it has a connector iff i < n-1, and that connector is solid iff milestone i is completed |
| `Timeline.LastHasNoConnector` | frontend/src/components/shipment/TrackingTimeline/TrackingTimeline.tsx:82 | the last item has no connector, whatever its status |
| `Timeline.ConnectorCount` | frontend/src/components/shipment/TrackingTimeline/TrackingTimeline.tsx:82 | there are max(n-1, 0) connectors |
| `Timeline.SolidConnectorCount` | frontend/src/components/shipment/TrackingTimeline/TrackingTimeline.tsx:82-88 | the number of solid connectors equals the number of completed milestones other than the last |
| `Timeline.ItemsPerStatus` | frontend/src/components/shipment/TrackingTimeline/TrackingTimeline.tsx:77 | the items carrying class `timeline-item-<s>` are as many as the milestones with status s |
| `Timeline.StatusClassInjective` | frontend/src/components/shipment/TrackingTimeline/TrackingTimeline.tsx:77 | distinct statuses give distinct item classes |
| `Timeline.IconLabelInjective` | frontend/src/components/shipment/TrackingTimeline/TrackingTimeline.tsx:17-69 | each status has its own icon label: Completed, Current, Upcoming |

## Left out

- JSX markup, CSS and Tailwind classes used only for styling, lucide icons and SVG drawing. For the timeline, the model keeps the class tokens and the icon label, which the component's tests query.
- Routing, `navigate`, and the console message in "View All". `HandleViewAll` only returns the route.
- Registering and removing the DOM listeners in the dropdown. `Step` models their effect: they exist only while the dropdown is open.
- The clock. `getTimeAgo` takes the millisecond difference `now - timestamp` as an integer argument, and the mock timestamps are not modelled.
- The 1.5-second timer of the simulated save. Its callback is the separate method `SaveFinished`.
- The `disabled` attribute of the Save button and of the Previous/Next buttons. The handlers are modelled as if callable. Previous and Next require that the pagination is rendered (more than one page), because otherwise the buttons do not exist.
- Recharts rendering and the tooltip of the delivery chart. The chart's legend total is the same sum as `DeliverySuccess.Total`.
- `DeliverySuccess.RoundedPercent` rounds the exact quotient. JavaScript rounds a double, so the two can differ by one at half-way cases such as 29 out of 200.
- `DeliverySuccess.DeliveredCount` treats counts as integers. NaN and fractional counts (for which `|| 0` and `reduce` behave differently) are not modelled.
- `Text.Lower` maps only the ASCII letters A-Z. `toLowerCase` follows full Unicode case mapping.
- `Text.IntToDecimal` gives the plain decimal form. JavaScript switches to exponent notation from 10^21, which a millisecond difference never reaches.
- The notification and milestone fixtures, the empty-state and section-label texts, the badge colours, and the action buttons whose click handler does nothing.
- `ProfileForm.CustomerProfile.HandleChange` takes a `Field`. In the page only the fullName, phone and address inputs have a change handler, so other input names never reach it.

## Findings

| source | as written | input that shows it | evidently intended | confidence | as-written member | corrected member |
|---|---|---|---|---|---|---|
| frontend/src/pages/Notifications/NotificationsPage.tsx:372-406 | A tab click or a search edit changes the filter or query but keeps `currentPage` | 16 mock notifications: on the "All" tab press Next (page 2 of 2), then click "System" (3 results). Page 2 of a one-page list is empty, the empty-state message is not shown because results exist, and the pagination is hidden | Return to page 1 whenever the filter or the query changes | medium, not executed | `NotificationsList.NotificationsPage.SetActiveFilter`, `NotificationsList.NotificationsPage.SetSearchQuery`, shown by `NotificationsList.StalePageIsBlank`, `NotificationsList.StaleFilterWitness` and `NotificationsList.StaleFilterScenario` | `NotificationsList.NotificationsPage.SelectFilter`, `NotificationsList.NotificationsPage.Search` |
