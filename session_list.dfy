/**
 * The public session list: the location choices, the location filter, the
 * three sort orders and what the list shows when nothing is left.
 */
module SessionList {
  import opened Text
  import opened Records
  import opened Lists
  import opened Sorting

  datatype SortOrder = ByDate | ByTime | ByLocation

  /** The location of every session, in list order. */
  function LocationsOf(ss: seq<CountedSession>): (locs: seq<string>)
    ensures |locs| == |ss|
    ensures forall i :: 0 <= i < |ss| ==> locs[i] == ss[i].session.location
  {
    seq(|ss|, i requires 0 <= i < |ss| => ss[i].session.location)
  }

  /** String order of `sort()` and `localeCompare`, taken as code-point order. */
  function StringLe(): (string, string) -> bool {
    (a: string, b: string) => LexLe(a, b)
  }

  lemma StringLeIsPreorder()
    ensures Total(StringLe()) && Transitive(StringLe())
  {
    forall a: string, b: string
      ensures StringLe()(a, b) || StringLe()(b, a)
    {
      LexLeTotal(a, b);
    }
    forall a: string, b: string, c: string | StringLe()(a, b) && StringLe()(b, c)
      ensures StringLe()(a, c)
    {
      LexLeTransitive(a, b, c);
    }
  }

  /**
   * `locations`: the distinct locations, sorted, when the filter is shown;
   * no choices otherwise.
   */
  function Locations(ss: seq<CountedSession>, showFilter: bool): seq<string> {
    if !showFilter then [] else SortBy(Distinct(LocationsOf(ss)), StringLe())
  }

  /**
   * With the filter shown, the choices are strictly ascending (so without
   * repeats) and are exactly the locations of the sessions.
   */
  lemma LocationsSortedDistinct(ss: seq<CountedSession>, showFilter: bool)
    ensures !showFilter ==> Locations(ss, showFilter) == []
    ensures showFilter ==>
      var locs := Locations(ss, showFilter);
      (forall i, j :: 0 <= i < j < |locs| ==> LexLe(locs[i], locs[j]) && locs[i] != locs[j]) &&
      (forall loc :: loc in locs <==> loc in LocationsOf(ss))
  {
    if showFilter {
      var d := Distinct(LocationsOf(ss));
      var locs := SortBy(d, StringLe());
      StringLeIsPreorder();
      SortBySorted(d, StringLe());
      PermutationKeepsNoDuplicates(d, locs);
      assert forall loc :: loc in locs <==> loc in multiset(locs);
      assert forall loc :: loc in d <==> loc in multiset(d);
    }
  }

  /** There are choices exactly when the filter is shown and there is a session. */
  lemma LocationsEmptyIff(ss: seq<CountedSession>, showFilter: bool)
    ensures |Locations(ss, showFilter)| == 0 <==> !showFilter || |ss| == 0
  {
    if showFilter && |ss| > 0 {
      assert ss[0].session.location in LocationsOf(ss);
      assert ss[0].session.location in Distinct(LocationsOf(ss));
      assert |Distinct(LocationsOf(ss))| > 0;
    }
  }

  function AtLocation(choice: string): CountedSession -> bool {
    (c: CountedSession) => c.session.location == choice
  }

  /**
   * `filteredSessions`: every session when the filter is hidden or no
   * location is chosen, else the sessions at the chosen location.
   */
  function FilterByLocation(ss: seq<CountedSession>, showFilter: bool, choice: string): (r: seq<CountedSession>)
    ensures !showFilter || choice == "" ==> r == ss
    ensures showFilter && choice != "" ==>
      (forall c :: c in r <==> c in ss && c.session.location == choice) &&
      |r| == CountWhere(ss, AtLocation(choice))
  {
    if !showFilter || choice == "" then ss
    else
      FilterLength(ss, AtLocation(choice));
      Filter(ss, AtLocation(choice))
  }

  /** The filter keeps the list order: it distributes over concatenation. */
  lemma FilterByLocationKeepsOrder(a: seq<CountedSession>, b: seq<CountedSession>, showFilter: bool, choice: string)
    ensures FilterByLocation(a + b, showFilter, choice) ==
      FilterByLocation(a, showFilter, choice) + FilterByLocation(b, showFilter, choice)
  {
    if showFilter && choice != "" {
      FilterConcat(a, b, AtLocation(choice));
    }
  }

  /**
   * The comparator of each order. `instant(date, start)` stands for the
   * time value of `new Date(date + "T" + start)`.
   */
  function Comparator(order: SortOrder, instant: (string, string) -> int): (CountedSession, CountedSession) -> bool {
    match order
    case ByDate => (a: CountedSession, b: CountedSession) =>
      instant(a.session.date, a.session.start_time) <= instant(b.session.date, b.session.start_time)
    case ByTime => (a: CountedSession, b: CountedSession) => LexLe(a.session.start_time, b.session.start_time)
    case ByLocation => (a: CountedSession, b: CountedSession) => LexLe(a.session.location, b.session.location)
  }

  lemma ComparatorIsPreorder(order: SortOrder, instant: (string, string) -> int)
    ensures Total(Comparator(order, instant)) && Transitive(Comparator(order, instant))
  {
    var le := Comparator(order, instant);
    forall a: CountedSession, b: CountedSession
      ensures le(a, b) || le(b, a)
    {
      match order
      case ByDate =>
      case ByTime => LexLeTotal(a.session.start_time, b.session.start_time);
      case ByLocation => LexLeTotal(a.session.location, b.session.location);
    }
    forall a: CountedSession, b: CountedSession, c: CountedSession | le(a, b) && le(b, c)
      ensures le(a, c)
    {
      match order
      case ByDate =>
      case ByTime => LexLeTransitive(a.session.start_time, b.session.start_time, c.session.start_time);
      case ByLocation => LexLeTransitive(a.session.location, b.session.location, c.session.location);
    }
  }

  /** `sortedSessions`: a sorted copy of the filtered list. */
  function SortedSessions(ss: seq<CountedSession>, showFilter: bool, choice: string,
                          order: SortOrder, instant: (string, string) -> int): seq<CountedSession> {
    SortBy(FilterByLocation(ss, showFilter, choice), Comparator(order, instant))
  }

  /**
   * The sorted list is a permutation of the filtered one, earliest first for
   * 'date', ascending start time for 'time', ascending location for 'location'.
   */
  lemma SortedSessionsOrdered(ss: seq<CountedSession>, showFilter: bool, choice: string,
                              order: SortOrder, instant: (string, string) -> int)
    ensures var r := SortedSessions(ss, showFilter, choice, order, instant);
      multiset(r) == multiset(FilterByLocation(ss, showFilter, choice)) &&
      (order == ByDate ==> forall i, j :: 0 <= i < j < |r| ==>
        instant(r[i].session.date, r[i].session.start_time) <= instant(r[j].session.date, r[j].session.start_time)) &&
      (order == ByTime ==> forall i, j :: 0 <= i < j < |r| ==> LexLe(r[i].session.start_time, r[j].session.start_time)) &&
      (order == ByLocation ==> forall i, j :: 0 <= i < j < |r| ==> LexLe(r[i].session.location, r[j].session.location))
  {
    ComparatorIsPreorder(order, instant);
    SortBySorted(FilterByLocation(ss, showFilter, choice), Comparator(order, instant));
  }

  /** A list already in the chosen order is shown as it is. */
  lemma SortedInputUnchanged(ss: seq<CountedSession>, order: SortOrder, instant: (string, string) -> int)
    requires SortedBy(ss, Comparator(order, instant))
    ensures SortedSessions(ss, false, "", order, instant) == ss
  {
    SortBySortedInput(ss, Comparator(order, instant));
  }

  const NoSessionsText := "Er zijn momenteel geen beschikbare sessies."

  datatype ListView = Message(text: string) | Cards(sessions: seq<CountedSession>)

  /** What the list renders: the empty-state text, the no-match text, or the cards in sorted order. */
  function View(ss: seq<CountedSession>, showFilter: bool, choice: string,
                order: SortOrder, instant: (string, string) -> int): (v: ListView)
    ensures |ss| == 0 ==> v == Message(NoSessionsText)
    ensures v.Cards? <==> |FilterByLocation(ss, showFilter, choice)| > 0
    ensures v.Cards? ==> multiset(v.sessions) == multiset(FilterByLocation(ss, showFilter, choice))
    ensures |ss| > 0 && v.Message? ==>
      v.text == (if choice != "" then "Geen sessies gevonden op " + choice + "." else NoSessionsText)
  {
    if |ss| == 0 then Message(NoSessionsText)
    else
      var sorted := SortedSessions(ss, showFilter, choice, order, instant);
      if |sorted| == 0 then
        Message(if choice != "" then "Geen sessies gevonden op " + choice + "." else NoSessionsText)
      else Cards(sorted)
  }

  /** With the filter off, a non-empty list always shows cards, whatever location was chosen before. */
  lemma FilterOffShowsCards(ss: seq<CountedSession>, choice: string, order: SortOrder, instant: (string, string) -> int)
    requires |ss| > 0
    ensures View(ss, false, choice, order, instant).Cards?
  {
  }
}
