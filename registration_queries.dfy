/**
 * The registration list query of the admin endpoints: rows narrowed by
 * equality on the optional session id and status, newest first.
 */
module RegistrationQueries {
  import opened Wrappers
  import opened Text
  import opened Records
  import opened Lists
  import opened Sorting

  /** A query parameter as JavaScript tests it: present and not empty. */
  predicate Given(p: Option<string>) {
    p.Some? && p.value != ""
  }

  /** `.eq('session_id', sessionId)` when given and `.eq('status', status)` when given. */
  function Matches(sessionId: Option<string>, status: Option<string>): Registration -> bool {
    (r: Registration) =>
      (!Given(sessionId) || r.session_id == sessionId.value) &&
      (!Given(status) || r.status.Name() == status.value)
  }

  /** `.order('created_at', { ascending: false })`; timestamps are ISO strings, so string order is time order. */
  function NewestFirst(): (Registration, Registration) -> bool {
    (a: Registration, b: Registration) => LexLe(b.created_at, a.created_at)
  }

  lemma NewestFirstIsPreorder()
    ensures Total(NewestFirst()) && Transitive(NewestFirst())
  {
    forall a: Registration, b: Registration
      ensures NewestFirst()(a, b) || NewestFirst()(b, a)
    {
      LexLeTotal(a.created_at, b.created_at);
    }
    forall a: Registration, b: Registration, c: Registration | NewestFirst()(a, b) && NewestFirst()(b, c)
      ensures NewestFirst()(a, c)
    {
      LexLeTransitive(c.created_at, b.created_at, a.created_at);
    }
  }

  /** The rows the query returns. */
  function Fetch(table: seq<Registration>, sessionId: Option<string>, status: Option<string>): seq<Registration> {
    SortBy(Filter(table, Matches(sessionId, status)), NewestFirst())
  }

  /**
   * The query returns exactly the rows equal on the given parameters, the
   * most recently created first.
   */
  lemma FetchSpec(table: seq<Registration>, sessionId: Option<string>, status: Option<string>)
    ensures var r := Fetch(table, sessionId, status);
      (forall x :: x in r <==>
        (x in table && (!Given(sessionId) || x.session_id == sessionId.value) &&
         (!Given(status) || x.status.Name() == status.value))) &&
      (forall i, j :: 0 <= i < j < |r| ==> LexLe(r[j].created_at, r[i].created_at))
  {
    var f := Filter(table, Matches(sessionId, status));
    var r := SortBy(f, NewestFirst());
    NewestFirstIsPreorder();
    SortBySorted(f, NewestFirst());
    assert forall x :: x in r <==> x in multiset(r);
    assert forall x :: x in f <==> x in multiset(f);
  }
}
