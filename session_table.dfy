/**
 * The admin session table: the type and status filters, the status badge
 * and the empty state.
 */
module SessionTable {
  import opened Wrappers
  import opened Records
  import opened Lists
  import opened Badges
  import opened Labels

  /**
   * The row filter: with a type chosen, only sessions whose joined type
   * name equals it (a session without one never does); with a status
   * chosen, only sessions with that status.
   */
  function Keep(filterType: string, filterStatus: string): CountedSession -> bool {
    (c: CountedSession) =>
      (filterType == "all" || SessionTypeName(c.session) == Some(filterType)) &&
      (filterStatus == "all" || c.session.status.Name() == filterStatus)
  }

  /** `filtered`. */
  function Filtered(ss: seq<CountedSession>, filterType: string, filterStatus: string): (r: seq<CountedSession>)
    ensures forall c :: c in r <==>
      c in ss &&
      (filterType == "all" || SessionTypeName(c.session) == Some(filterType)) &&
      (filterStatus == "all" || c.session.status.Name() == filterStatus)
  {
    Filter(ss, Keep(filterType, filterStatus))
  }

  /** With both filters on "all" the table lists every session, in order. */
  lemma AllFiltersKeepEverything(ss: seq<CountedSession>)
    ensures Filtered(ss, "all", "all") == ss
  {
    FilterAll(ss, Keep("all", "all"));
  }

  /** A session without a joined type is hidden as soon as a type is chosen. */
  lemma UntypedHiddenByTypeFilter(ss: seq<CountedSession>, c: CountedSession, filterType: string, filterStatus: string)
    requires filterType != "all" && c.session.conversation_type.None?
    ensures c !in Filtered(ss, filterType, filterStatus)
  {
  }

  /** The filter keeps the list order: it distributes over concatenation. */
  lemma FilteredKeepsOrder(a: seq<CountedSession>, b: seq<CountedSession>, filterType: string, filterStatus: string)
    ensures Filtered(a + b, filterType, filterStatus) == Filtered(a, filterType, filterStatus) + Filtered(b, filterType, filterStatus)
  {
    FilterConcat(a, b, Keep(filterType, filterStatus));
  }

  /** `statusBadge`: the three session statuses get a Dutch text and colour; anything else is shown plain. */
  function StatusBadge(status: string): (b: Badge)
    ensures status == "published" ==> b == Badge("Gepubliceerd", Success)
    ensures status == "draft" ==> b == Badge("Concept", Default)
    ensures status == "cancelled" ==> b == Badge("Geannuleerd", Danger)
    ensures status !in {"published", "draft", "cancelled"} ==> b == Badge(status, Default)
  {
    match status
    case "published" => Badge("Gepubliceerd", Success)
    case "draft" => Badge("Concept", Default)
    case "cancelled" => Badge("Geannuleerd", Danger)
    case _ => Badge(status, Default)
  }

  /** Every stored status has its own Dutch badge text. */
  lemma StoredStatusesTranslated(s: SessionStatus, t: SessionStatus)
    requires s != t
    ensures StatusBadge(s.Name()).text != StatusBadge(t.Name()).text
    ensures StatusBadge(s.Name()).text != s.Name()
  {
  }

  datatype TableView = NoSessions | Rows(rows: seq<CountedSession>)

  /**
   * The empty card depends on the unfiltered list only: a filter that
   * matches nothing shows an empty table.
   */
  function View(ss: seq<CountedSession>, filterType: string, filterStatus: string): (v: TableView)
    ensures v.NoSessions? <==> |ss| == 0
    ensures v.Rows? ==> v.rows == Filtered(ss, filterType, filterStatus)
  {
    if |ss| == 0 then NoSessions else Rows(Filtered(ss, filterType, filterStatus))
  }

  /** The registrations column: the count, 0 when missing or zero, over the capacity. */
  function CountText(c: CountedSession): (r: (int, int))
    ensures r.1 == c.session.max_participants
    ensures c.registrationCount.None? ==> r.0 == 0
    ensures c.registrationCount.Some? ==> r.0 == c.registrationCount.value
  {
    (c.registrationCount.GetOr(0), c.session.max_participants)
  }
}
