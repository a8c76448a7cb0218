/**
 * The registration counts the session pages attach to their sessions: one
 * query for the active registrations of the listed sessions (skipped when
 * there is none), a count per session id, and the merge that puts each
 * count next to its session.
 */
module SessionCounts {
  import opened Wrappers
  import opened Records
  import opened Lists
  import opened Counting
  import Registrations

  /** `sessions.map(s => s.id)`. */
  function SessionIds(ss: seq<Session>): (ids: seq<string>)
    ensures |ids| == |ss| && forall i :: 0 <= i < |ss| ==> ids[i] == ss[i].id
  {
    seq(|ss|, i requires 0 <= i < |ss| => ss[i].id)
  }

  /** The rows the count query selects: active, for one of the listed sessions. */
  function ActiveIn(ids: seq<string>): Registration -> bool {
    (r: Registration) => r.session_id in ids && r.status == Active
  }

  /** `reg.session_id` of every returned row. */
  function SessionIdsOfRows(rows: seq<Registration>): (keys: seq<string>)
    ensures |keys| == |rows| && forall i :: 0 <= i < |rows| ==> keys[i] == rows[i].session_id
  {
    seq(|rows|, i requires 0 <= i < |rows| => rows[i].session_id)
  }

  /**
   * `registrationCounts`: empty when there is no session or when the query
   * returns no data (`registrations || []`), else the tally of the
   * returned rows by session id.
   */
  function CountsFor(ids: seq<string>, table: Option<seq<Registration>>): map<string, nat> {
    if |ids| == 0 then map[]
    else Tally(SessionIdsOfRows(Filter(table.GetOr([]), ActiveIn(ids))))
  }

  /** The fold over the returned rows, run only when there is a session to count for. */
  method LoadCounts(ss: seq<Session>, table: Option<seq<Registration>>) returns (counts: map<string, nat>)
    ensures counts == CountsFor(SessionIds(ss), table)
  {
    counts := map[];
    var ids := SessionIds(ss);
    if |ids| > 0 {
      var rows := Filter(table.GetOr([]), ActiveIn(ids));
      counts := CountByKey(SessionIdsOfRows(rows));
    }
  }

  lemma {:induction false} TallyOfActiveRows(ids: seq<string>, table: seq<Registration>, id: string)
    requires id in ids
    ensures multiset(SessionIdsOfRows(Filter(table, ActiveIn(ids))))[id] == Registrations.ActiveCount(table, id)
    decreases |table|
  {
    if |table| > 0 {
      var init := table[..|table| - 1];
      var r := table[|table| - 1];
      TallyOfActiveRows(ids, init, id);
      var before := Filter(init, ActiveIn(ids));
      if ActiveIn(ids)(r) {
        assert SessionIdsOfRows(before + [r]) == SessionIdsOfRows(before) + [r.session_id];
      }
    }
  }

  /**
   * The count a page shows for a listed session is the number of its active
   * registrations: the same number the registration endpoint checks against
   * the capacity.
   */
  lemma CountsAreActiveRegistrations(ids: seq<string>, table: seq<Registration>, id: string)
    requires id in ids
    ensures Get(CountsFor(ids, Some(table)), id) == Registrations.ActiveCount(table, id)
  {
    TallyOfActiveRows(ids, table, id);
  }

  /** Only listed sessions get a count, and a failed query counts nothing. */
  lemma CountsOnlyForListedSessions(ids: seq<string>, table: Option<seq<Registration>>)
    ensures forall k :: k in CountsFor(ids, table) ==> k in ids
    ensures table.None? ==> CountsFor(ids, table) == map[]
    ensures |ids| == 0 ==> CountsFor(ids, table) == map[]
  {
    if |ids| > 0 {
      var rows := Filter(table.GetOr([]), ActiveIn(ids));
      forall k | k in SessionIdsOfRows(rows)
        ensures k in ids
      {
        var i :| 0 <= i < |rows| && SessionIdsOfRows(rows)[i] == k;
        assert rows[i] in rows;
      }
    }
  }

  /**
   * `sessionsWithCounts`: every session, in order, with its count added
   * (0 when it has none).
   */
  function WithCounts(ss: seq<Session>, counts: map<string, nat>): (r: seq<CountedSession>)
    ensures |r| == |ss|
    ensures forall i :: 0 <= i < |ss| ==> r[i].session == ss[i] && r[i].registrationCount == Some(Get(counts, ss[i].id))
  {
    seq(|ss|, i requires 0 <= i < |ss| => CountedSession(ss[i], Some(Get(counts, ss[i].id))))
  }
}
