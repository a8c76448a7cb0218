/**
 * The admin dashboard: the totals, the active registrations per
 * conversation type, the sessions that are more than 80% booked, and the
 * error views shown instead when a query fails.
 */
module Dashboard {
  import opened Wrappers
  import opened Text
  import opened Records
  import opened Lists
  import opened Counting
  import opened SessionCounts
  import opened SessionQueries
  import Registrations

  /** An error the store reports for a query. */
  datatype DbError = DbError(code: string, message: string)

  /** The errors of the four checked queries: totals of sessions and registrations, registrations by type, upcoming sessions. */
  datatype QueryErrors = QueryErrors(
    sessions: Option<DbError>,
    registrations: Option<DbError>,
    byType: Option<DbError>,
    sessionsList: Option<DbError>)

  /** The tables; the count query's data is missing when it fails, which the page does not check. */
  datatype Store = Store(sessions: seq<Session>, registrations: seq<Registration>, countQueryFails: bool)

  datatype DashboardView =
    | SchemaMissing(error: string)
    | LoadFailed(error: string)
    | Stats(totalSessions: nat, totalRegistrations: nat, typeCounts: map<string, nat>,
            groupCount: nat, inloopCount: nat, highOccupancy: seq<Session>)

  const SchemaMissingCode := "42P01"

  predicate HasError(e: QueryErrors) {
    e.sessions.Some? || e.registrations.Some? || e.byType.Some? || e.sessionsList.Some?
  }

  /** `error?.message` as a truthy value: present and not empty. */
  predicate HasMessage(e: Option<DbError>) {
    e.Some? && e.value.message != ""
  }

  /** `a?.message || b?.message || c?.message || d?.message`, rendered: the first non-empty message, or nothing. */
  function ErrorMessage(e: QueryErrors): (m: string)
    ensures HasMessage(e.sessions) ==> m == e.sessions.value.message
    ensures !HasMessage(e.sessions) && HasMessage(e.registrations) ==> m == e.registrations.value.message
    ensures !HasMessage(e.sessions) && !HasMessage(e.registrations) && HasMessage(e.byType) ==> m == e.byType.value.message
    ensures !HasMessage(e.sessions) && !HasMessage(e.registrations) && !HasMessage(e.byType) ==>
      m == (if e.sessionsList.Some? then e.sessionsList.value.message else "")
  {
    if HasMessage(e.sessions) then e.sessions.value.message
    else if HasMessage(e.registrations) then e.registrations.value.message
    else if HasMessage(e.byType) then e.byType.value.message
    else if e.sessionsList.Some? then e.sessionsList.value.message
    else ""
  }

  /** A missing-table error on one of the two totals queries. */
  predicate SchemaIsMissing(e: QueryErrors) {
    (e.sessions.Some? && e.sessions.value.code == SchemaMissingCode) ||
    (e.registrations.Some? && e.registrations.value.code == SchemaMissingCode)
  }

  /** `reg.session?.conversation_type?.name || 'unknown'`. */
  function TypeKey(reg: Registration): (k: string)
    ensures k != ""
    ensures RegistrationTypeName(reg).Some? && RegistrationTypeName(reg).value != "" ==> k == RegistrationTypeName(reg).value
    ensures RegistrationTypeName(reg).None? ==> k == "unknown"
  {
    var name := RegistrationTypeName(reg);
    if name.Some? && name.value != "" then name.value else "unknown"
  }

  function TypeKeys(regs: seq<Registration>): (keys: seq<string>)
    ensures |keys| == |regs| && forall i :: 0 <= i < |regs| ==> keys[i] == TypeKey(regs[i])
  {
    seq(|regs|, i requires 0 <= i < |regs| => TypeKey(regs[i]))
  }

  function IsActive(): Registration -> bool {
    (r: Registration) => r.status == Active
  }

  /** The `typeCounts` fold over the fetched active registrations. */
  method TypeCounts(regs: seq<Registration>) returns (acc: map<string, nat>)
    ensures acc == Tally(TypeKeys(regs))
  {
    acc := CountByKey(TypeKeys(regs));
  }

  /** The per-type counts add up to the number of active registrations. */
  lemma TypeCountsSumToActive(regs: seq<Registration>)
    ensures var keys := TypeKeys(Filter(regs, IsActive()));
      SumOver(Distinct(keys), Tally(keys)) == CountWhere(regs, IsActive())
  {
    TallySum(TypeKeys(Filter(regs, IsActive())));
    FilterLength(regs, IsActive());
  }

  /**
   * `(count / max) * 100 > 80` on exact numbers: with a positive capacity
   * more than 80% booked; with capacity 0 any registration makes it
   * (division by zero gives Infinity, and 0/0 is NaN); a negative
   * capacity never does.
   */
  predicate IsHighOccupancy(count: nat, max: int) {
    if max > 0 then 100 * count > 80 * max
    else if max == 0 then count > 0
    else false
  }

  /** For a positive capacity the test is `count / max > 4/5`, strictly: exactly 80% is not high. */
  lemma HighOccupancyThreshold(count: nat, max: int)
    requires max > 0
    ensures IsHighOccupancy(count, max) <==> 5 * count > 4 * max
    ensures 5 * count == 4 * max ==> !IsHighOccupancy(count, max)
  {
  }

  /** More registrations never lower the occupancy. */
  lemma HighOccupancyMonotone(count: nat, more: nat, max: int)
    requires IsHighOccupancy(count, max) && count <= more
    ensures IsHighOccupancy(more, max)
  {
  }

  function IsHighFor(counts: map<string, nat>): Session -> bool {
    (s: Session) => IsHighOccupancy(Get(counts, s.id), s.max_participants)
  }

  /** `highOccupancySessions`. */
  function HighOccupancy(upcoming: seq<Session>, counts: map<string, nat>): seq<Session> {
    Filter(upcoming, IsHighFor(counts))
  }

  /** The count query's answer: the registration table, or nothing when the query fails. */
  function CountAnswer(store: Store): Option<seq<Registration>> {
    if store.countQueryFails then None else Some(store.registrations)
  }

  function SessionCounted(): Session -> bool {
    (s: Session) => s.status != SessionStatus.Cancelled
  }

  /** The page: an error view when a query failed, else the statistics. */
  function Page(store: Store, errors: QueryErrors, nowIso: string): DashboardView {
    if HasError(errors) then
      if SchemaIsMissing(errors) then SchemaMissing(ErrorMessage(errors)) else LoadFailed(ErrorMessage(errors))
    else
      var typeCounts := Tally(TypeKeys(Filter(store.registrations, IsActive())));
      var upcoming := Filter(store.sessions, IsUpcoming(Today(nowIso)));
      var counts := CountsFor(SessionIds(upcoming), CountAnswer(store));
      Stats(CountWhere(store.sessions, SessionCounted()), CountWhere(store.registrations, IsActive()),
            typeCounts, Get(typeCounts, "groepsontwikkelgesprek"), Get(typeCounts, "inloopgesprek"),
            HighOccupancy(upcoming, counts))
  }

  /** The page's data loading, with its two folds. */
  method Load(store: Store, errors: QueryErrors, nowIso: string) returns (view: DashboardView)
    ensures view == Page(store, errors, nowIso)
  {
    var typeCounts := TypeCounts(Filter(store.registrations, IsActive()));
    var upcoming := Filter(store.sessions, IsUpcoming(Today(nowIso)));
    var counts := LoadCounts(upcoming, CountAnswer(store));
    if HasError(errors) {
      if SchemaIsMissing(errors) {
        return SchemaMissing(ErrorMessage(errors));
      }
      return LoadFailed(ErrorMessage(errors));
    }
    view := Stats(CountWhere(store.sessions, SessionCounted()), CountWhere(store.registrations, IsActive()),
                  typeCounts, Get(typeCounts, "groepsontwikkelgesprek"), Get(typeCounts, "inloopgesprek"),
                  HighOccupancy(upcoming, counts));
  }

  /** A missing table on either totals query shows the schema view; any other failure the error view. */
  lemma ErrorViews(store: Store, errors: QueryErrors, nowIso: string)
    ensures SchemaIsMissing(errors) <==> Page(store, errors, nowIso).SchemaMissing?
    ensures Page(store, errors, nowIso).Stats? <==> !HasError(errors)
  {
  }

  /**
   * The high-occupancy list keeps the order of the upcoming sessions and
   * holds exactly those more than 80% booked by their active registrations.
   */
  lemma HighOccupancyListed(store: Store, errors: QueryErrors, nowIso: string)
    requires !HasError(errors) && !store.countQueryFails
    ensures var high := Page(store, errors, nowIso).highOccupancy;
      var today := Today(nowIso);
      forall s :: s in high <==>
        s in store.sessions && s.status == Published && LexLe(today, s.date) &&
        IsHighOccupancy(Registrations.ActiveCount(store.registrations, s.id), s.max_participants)
  {
    var today := Today(nowIso);
    var upcoming := Filter(store.sessions, IsUpcoming(today));
    var ids := SessionIds(upcoming);
    var counts := CountsFor(ids, Some(store.registrations));
    forall s | s in upcoming
      ensures Get(counts, s.id) == Registrations.ActiveCount(store.registrations, s.id)
    {
      var i :| 0 <= i < |upcoming| && upcoming[i] == s;
      assert ids[i] == s.id;
      CountsAreActiveRegistrations(ids, store.registrations, s.id);
    }
  }

  /** The high-occupancy list is in the order of the upcoming sessions. */
  lemma HighOccupancyKeepsOrder(a: seq<Session>, b: seq<Session>, counts: map<string, nat>)
    ensures HighOccupancy(a + b, counts) == HighOccupancy(a, counts) + HighOccupancy(b, counts)
  {
    FilterConcat(a, b, IsHighFor(counts));
  }

  /**
   * When the count query fails, every count reads 0, and 0 places taken is
   * never more than 80% of any capacity: the list is empty.
   */
  lemma FailedCountQueryListsNoBookedSession(store: Store, errors: QueryErrors, nowIso: string)
    requires !HasError(errors) && store.countQueryFails
    ensures Page(store, errors, nowIso).highOccupancy == []
  {
    var upcoming := Filter(store.sessions, IsUpcoming(Today(nowIso)));
    CountsOnlyForListedSessions(SessionIds(upcoming), None);
    NoneHighWithoutCounts(upcoming);
  }

  lemma {:induction false} NoneHighWithoutCounts(upcoming: seq<Session>)
    ensures HighOccupancy(upcoming, map[]) == []
    decreases |upcoming|
  {
    if |upcoming| > 0 {
      NoneHighWithoutCounts(upcoming[..|upcoming| - 1]);
    }
  }
}
