/**
 * The admin sessions page: every session, each with its number of active
 * registrations.
 */
module SessionsPage {
  import opened Wrappers
  import opened Records
  import opened Counting
  import opened SessionCounts
  import Registrations

  /** `sessionsWithCounts` for the fetched sessions (`sessions || []`) and the count query's rows. */
  function Page(sessions: Option<seq<Session>>, table: Option<seq<Registration>>): seq<CountedSession> {
    var ss := sessions.GetOr([]);
    WithCounts(ss, CountsFor(SessionIds(ss), table))
  }

  /** The page's data loading: the count fold, then the merge. */
  method Load(sessions: Option<seq<Session>>, table: Option<seq<Registration>>) returns (list: seq<CountedSession>)
    ensures list == Page(sessions, table)
  {
    var ss := sessions.GetOr([]);
    var counts := LoadCounts(ss, table);
    list := WithCounts(ss, counts);
  }

  /**
   * The list has the fetched sessions in their order, each unchanged and
   * paired with its number of active registrations.
   */
  lemma PageShowsActiveCounts(ss: seq<Session>, table: seq<Registration>)
    ensures var list := Page(Some(ss), Some(table));
      |list| == |ss| &&
      forall i :: 0 <= i < |ss| ==>
        list[i].session == ss[i] && list[i].registrationCount == Some(Registrations.ActiveCount(table, ss[i].id))
  {
    var ids := SessionIds(ss);
    forall i | 0 <= i < |ss|
      ensures Get(CountsFor(ids, Some(table)), ss[i].id) == Registrations.ActiveCount(table, ss[i].id)
    {
      assert ids[i] == ss[i].id;
      CountsAreActiveRegistrations(ids, table, ss[i].id);
    }
  }

  /** Without sessions there is nothing to count, and when the count query fails every count is 0. */
  lemma FailedCountQueryShowsZero(ss: seq<Session>)
    ensures var list := Page(Some(ss), None);
      |list| == |ss| && forall i :: 0 <= i < |ss| ==> list[i].registrationCount == Some(0)
    ensures Page(None, None) == [] && Page(Some([]), None) == []
  {
    CountsOnlyForListedSessions(SessionIds(ss), None);
  }
}
