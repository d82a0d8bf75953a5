/**
 * The shipment tracking timeline: each milestone becomes one list item whose
 * classes and icon follow its status, and every item but the last carries a
 * connector to the next one, solid after a completed milestone and dashed
 * otherwise.
 */
module Timeline {
  import opened Options
  import opened Seqs

  datatype Status = Completed | Current | Upcoming

  datatype Milestone = Milestone(id: string, name: string, timestamp: string, location: string, status: Status)

  datatype Connector = Solid | Dashed

  /** One rendered list item: its key, class tokens, icon, optional connector and the
      three lines of text. */
  datatype TimelineItem = TimelineItem(
    key: string,
    classes: seq<string>,
    iconLabel: string,
    iconClasses: seq<string>,
    connector: Option<Connector>,
    name: string,
    timestamp: string,
    location: string)

  /** The status as written in the source: 'completed', 'current' or 'upcoming'. */
  function StatusName(s: Status): string
  {
    match s
    case Completed => "completed"
    case Current => "current"
    case Upcoming => "upcoming"
  }

  /** The accessible label of the status icon. */
  function IconLabel(s: Status): string
  {
    match s
    case Completed => "Completed"
    case Current => "Current"
    case Upcoming => "Upcoming"
  }

  /** The class token `timeline-item-<status>`. */
  function StatusClass(s: Status): string
  {
    "timeline-item-" + StatusName(s)
  }

  function ConnectorFor(s: Status): Connector
  {
    if s == Completed then Solid else Dashed
  }

  /** One list item: keyed by the milestone id, carrying the status class and icon, and a
      connector only when another milestone follows, solid only after a completed one. */
  function RenderItem(m: Milestone, hasNext: bool): (it: TimelineItem)
    ensures it.key == m.id && StatusClass(m.status) in it.classes
    ensures it.connector.Some? <==> hasNext
    ensures it.connector == Some(Solid) <==> hasNext && m.status == Completed
  {
    TimelineItem(
      m.id,
      ["timeline-item", StatusClass(m.status)],
      IconLabel(m.status),
      ["timeline-icon", "timeline-icon-" + StatusName(m.status)],
      if hasNext then Some(ConnectorFor(m.status)) else None,
      m.name, m.timestamp, m.location)
  }

  /** `milestones.map((milestone, index) => ...)`: `index < milestones.length - 1` holds
      exactly when a later milestone follows. */
  function Render(ms: seq<Milestone>): (items: seq<TimelineItem>)
    ensures |items| == |ms|
  {
    if ms == [] then [] else [RenderItem(ms[0], |ms| > 1)] + Render(ms[1..])
  }

  /** Item i renders milestone i; it has a connector exactly when i < n - 1, solid exactly
      when milestone i is completed. */
  lemma {:induction false} RenderAt(ms: seq<Milestone>, i: nat)
    requires i < |ms|
    ensures Render(ms)[i] == RenderItem(ms[i], i < |ms| - 1)
    ensures Render(ms)[i].connector.Some? <==> i < |ms| - 1
    ensures Render(ms)[i].connector == Some(Solid) <==> i < |ms| - 1 && ms[i].status == Completed
    ensures Render(ms)[i].key == ms[i].id && Render(ms)[i].iconLabel == IconLabel(ms[i].status)
  {
    if i > 0 {
      RenderAt(ms[1..], i - 1);
    }
  }

  /** The last milestone never has a connector, whatever its status. */
  lemma LastHasNoConnector(ms: seq<Milestone>)
    requires |ms| > 0
    ensures Render(ms)[|ms| - 1].connector == None
  {
    RenderAt(ms, |ms| - 1);
  }

  function HasConnector(): TimelineItem -> bool
  {
    (it: TimelineItem) => it.connector.Some?
  }

  /** There are max(n - 1, 0) connectors. */
  lemma {:induction false} ConnectorCount(ms: seq<Milestone>)
    ensures |Filter(Render(ms), HasConnector())| == Max(|ms| - 1, 0)
  {
    if ms != [] {
      ConnectorCount(ms[1..]);
    }
  }

  function HasSolidConnector(): TimelineItem -> bool
  {
    (it: TimelineItem) => it.connector == Some(Solid)
  }

  /** The solid connectors are as many as the completed milestones other than the last. */
  lemma {:induction false} SolidConnectorCount(ms: seq<Milestone>)
    requires |ms| > 0
    ensures |Filter(Render(ms), HasSolidConnector())| == |Filter(ms[..|ms| - 1], HasStatus(Completed))|
  {
    if |ms| > 1 {
      SolidConnectorCount(ms[1..]);
      assert ms[..|ms| - 1] == [ms[0]] + ms[1..][..|ms[1..]| - 1];
    }
  }

  function HasClass(token: string): TimelineItem -> bool
  {
    (it: TimelineItem) => token in it.classes
  }

  function HasStatus(s: Status): Milestone -> bool
  {
    (m: Milestone) => m.status == s
  }

  /** Distinct statuses give distinct class tokens, none equal to the plain `timeline-item`. */
  lemma StatusClassInjective(a: Status, b: Status)
    ensures StatusClass(a) == StatusClass(b) <==> a == b
    ensures StatusClass(a) != "timeline-item"
  {
    assert |StatusClass(a)| > |"timeline-item"|;
    if a != b {
      var k := |"timeline-item-"|;
      assert StatusClass(a)[k + 1] != StatusClass(b)[k + 1] || |StatusClass(a)| != |StatusClass(b)|;
    }
  }

  /** Selecting `.timeline-item-<s>` finds as many items as there are milestones with status s. */
  lemma {:induction false} ItemsPerStatus(ms: seq<Milestone>, s: Status)
    ensures |Filter(Render(ms), HasClass(StatusClass(s)))| == |Filter(ms, HasStatus(s))|
  {
    if ms != [] {
      ItemsPerStatus(ms[1..], s);
      StatusClassInjective(ms[0].status, s);
      StatusClassInjective(s, s);
    }
  }

  /** Each status has its own icon label. */
  lemma IconLabelInjective(a: Status, b: Status)
    ensures IconLabel(a) == IconLabel(b) <==> a == b
  {
    if a != b {
      assert IconLabel(a)[1] != IconLabel(b)[1] || |IconLabel(a)| != |IconLabel(b)|;
    }
  }
}
