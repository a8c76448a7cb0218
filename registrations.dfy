/**
 * The public registration endpoint: validate the body, find the published
 * session, refuse a full session, refuse a second active sign-up for the
 * same address, then insert one row. The store is the sequence of
 * registration rows; the session table is read only.
 */
module Registrations {
  import opened Wrappers
  import opened Records
  import opened Validation
  import opened Utils

  /** How the store answers the insert: the row, a unique-constraint violation, or another error. */
  datatype InsertResult = Inserted | UniqueViolation | StoreError(message: string)

  datatype Body =
    | ErrorBody(error: string)
    | InvalidBody(error: string, errors: seq<Issue>)
    | Created(registration: Registration)

  datatype Response = Response(status: int, body: Body)

  const NotFoundMessage := "Sessie niet gevonden of niet beschikbaar"
  const FullMessage := "Deze sessie is vol"
  const DuplicateMessage := "Je bent al ingeschreven voor deze sessie"
  const FullOrDuplicateMessage := "Deze sessie is vol of je bent al ingeschreven"
  const InvalidDataMessage := "Ongeldige gegevens"
  const GenericErrorMessage := "Er is een fout opgetreden"

  predicate IsActiveFor(r: Registration, sessionId: string) {
    r.session_id == sessionId && r.status == Active
  }

  predicate IsActiveMatch(r: Registration, sessionId: string, email: string) {
    IsActiveFor(r, sessionId) && r.email == email
  }

  /** The exact count of active rows of a session, as the capacity query asks for it. */
  function ActiveCount(rows: seq<Registration>, sessionId: string): (n: nat)
    ensures n <= |rows|
  {
    if |rows| == 0 then 0
    else ActiveCount(rows[..|rows| - 1], sessionId) + (if IsActiveFor(rows[|rows| - 1], sessionId) then 1 else 0)
  }

  /** The number of active rows for one session and address. */
  function ActiveMatches(rows: seq<Registration>, sessionId: string, email: string): (n: nat)
    ensures n <= ActiveCount(rows, sessionId)
  {
    if |rows| == 0 then 0
    else
      var last := if IsActiveMatch(rows[|rows| - 1], sessionId, email) then 1 else 0;
      ActiveMatches(rows[..|rows| - 1], sessionId, email) + last
  }

  function PublishedWithId(sessions: seq<Session>, id: string): seq<Session> {
    if |sessions| == 0 then []
    else
      var s := sessions[|sessions| - 1];
      PublishedWithId(sessions[..|sessions| - 1], id) + (if s.id == id && s.status == Published then [s] else [])
  }

  /** The session lookup with `.single()`: a row only when exactly one published row has the id. */
  function PublishedSingle(sessions: seq<Session>, id: string): (r: Option<Session>)
    ensures r.Some? ==> r.value in sessions && r.value.id == id && r.value.status == Published
  {
    PublishedWithIdMembers(sessions, id);
    var found := PublishedWithId(sessions, id);
    if |found| == 1 then Some(found[0]) else None
  }

  lemma {:induction false} PublishedWithIdMembers(sessions: seq<Session>, id: string)
    ensures forall s :: s in PublishedWithId(sessions, id) ==> s in sessions && s.id == id && s.status == Published
  {
    if |sessions| > 0 {
      PublishedWithIdMembers(sessions[..|sessions| - 1], id);
    }
  }

  /** The row the store holds after a successful insert: status falls back to the store default, active. */
  function NewRow(x: RegistrationInput, id: string, createdAt: string, token: string): Registration {
    Registration(id, x.sessionId, x.email, x.name, x.department, Active, None, Some(token), createdAt, None)
  }

  /**
   * Everything one call depends on besides the rows: the store's and the
   * clock's answers. `countFailed` and `lookupFailed` say that the capacity
   * query or the duplicate query came back with an error, which the handler
   * never reads: it goes on with a null count or a null row.
   */
  datatype Environment = Environment(
    ext: ExternalChecks,
    newId: string,
    createdAt: string,
    draw1: RandomDraw,
    draw2: RandomDraw,
    countFailed: bool,
    lookupFailed: bool,
    insert: InsertResult)

  datatype Outcome = Outcome(response: Response, rows: seq<Registration>)

  /** `count || 0`: the active rows of the session, or 0 when the count query failed. */
  function CountSeen(rows: seq<Registration>, sessionId: string, env: Environment): (n: nat)
    ensures env.countFailed ==> n == 0
    ensures !env.countFailed ==> n == ActiveCount(rows, sessionId)
  {
    if env.countFailed then 0 else ActiveCount(rows, sessionId)
  }

  /**
   * `existing` after `.single()`: a row only when the query succeeded and
   * found exactly one active row for the session and address.
   */
  predicate DuplicateSeen(rows: seq<Registration>, sessionId: string, email: string, env: Environment) {
    !env.lookupFailed && ActiveMatches(rows, sessionId, email) == 1
  }

  /**
   * The insert's answer. The table's unique constraint on active rows per
   * session and address, which the handler relies on when it reads code
   * 23505, refuses a row that would duplicate one; otherwise the store
   * answers as `env.insert` says.
   */
  function StoreAnswer(rows: seq<Registration>, x: RegistrationInput, env: Environment): (a: InsertResult)
    ensures ActiveMatches(rows, x.sessionId, x.email) > 0 ==> a == UniqueViolation
    ensures ActiveMatches(rows, x.sessionId, x.email) == 0 ==> a == env.insert
  {
    if ActiveMatches(rows, x.sessionId, x.email) > 0 then UniqueViolation else env.insert
  }

  /**
   * One POST. `body` is `None` when the request is not JSON, which the
   * handler's catch answers with a generic 500.
   */
  function Admit(sessions: seq<Session>, rows: seq<Registration>, body: Option<RegistrationInput>, env: Environment): Outcome {
    if body.None? then Outcome(Response(500, ErrorBody(GenericErrorMessage)), rows)
    else
      var parsed := RegistrationSchema(body.value, env.ext);
      if parsed.Err? then Outcome(Response(400, InvalidBody(InvalidDataMessage, parsed.error)), rows)
      else
        var x := parsed.value;
        var session := PublishedSingle(sessions, x.sessionId);
        if session.None? then Outcome(Response(404, ErrorBody(NotFoundMessage)), rows)
        else if CountSeen(rows, x.sessionId, env) >= session.value.max_participants then
          Outcome(Response(400, ErrorBody(FullMessage)), rows)
        else if DuplicateSeen(rows, x.sessionId, x.email, env) then
          Outcome(Response(400, ErrorBody(DuplicateMessage)), rows)
        else
          var row := NewRow(x, env.newId, env.createdAt, CancellationToken(env.draw1, env.draw2));
          match StoreAnswer(rows, x, env)
          case UniqueViolation => Outcome(Response(400, ErrorBody(FullOrDuplicateMessage)), rows)
          case StoreError(m) => Outcome(Response(500, ErrorBody(m)), rows)
          case Inserted => Outcome(Response(201, Created(row)), rows + [row])
  }

  /** No published session has more active rows than places. */
  predicate CapacityRespected(sessions: seq<Session>, rows: seq<Registration>) {
    forall s :: s in sessions && s.status == Published ==> ActiveCount(rows, s.id) <= Max0(s.max_participants)
  }

  function Max0(n: int): nat { if n < 0 then 0 else n }

  /** Nobody holds two active rows for one session. */
  predicate AtMostOneActive(rows: seq<Registration>) {
    forall i, j :: 0 <= i < j < |rows| && rows[i].status == Active && rows[j].status == Active ==>
      rows[i].session_id != rows[j].session_id || rows[i].email != rows[j].email
  }

  /**
   * The registration table. Its unique constraint keeps one active row per
   * session and address whatever the queries answer; capacity is kept only
   * as long as the count query answers.
   */
  class RegistrationStore {
    const sessions: seq<Session>
    var rows: seq<Registration>

    ghost predicate Valid()
      reads this
    {
      AtMostOneActive(rows)
    }

    ghost predicate WithinCapacity()
      reads this
    {
      CapacityRespected(sessions, rows)
    }

    constructor (sessions: seq<Session>)
      ensures this.sessions == sessions && rows == []
      ensures Valid() && WithinCapacity()
    {
      this.sessions := sessions;
      rows := [];
    }

    /** The POST handler, one step at a time; the table changes only by the final insert. */
    method Register(body: Option<RegistrationInput>, env: Environment) returns (resp: Response)
      requires Valid()
      modifies this
      ensures Valid()
      ensures old(WithinCapacity()) && !env.countFailed ==> WithinCapacity()
      ensures resp == Admit(sessions, old(rows), body, env).response
      ensures rows == Admit(sessions, old(rows), body, env).rows
    {
      AdmitPreservesInvariants(sessions, rows, body, env);
      if body.None? {
        return Response(500, ErrorBody(GenericErrorMessage));
      }
      var parsed := RegistrationSchema(body.value, env.ext);
      if parsed.Err? {
        return Response(400, InvalidBody(InvalidDataMessage, parsed.error));
      }
      var x := parsed.value;
      var session := PublishedSingle(sessions, x.sessionId);
      if session.None? {
        return Response(404, ErrorBody(NotFoundMessage));
      }
      var count := CountSeen(rows, x.sessionId, env);
      if count >= session.value.max_participants {
        return Response(400, ErrorBody(FullMessage));
      }
      if DuplicateSeen(rows, x.sessionId, x.email, env) {
        return Response(400, ErrorBody(DuplicateMessage));
      }
      var token := CancellationToken(env.draw1, env.draw2);
      var row := NewRow(x, env.newId, env.createdAt, token);
      var answer := StoreAnswer(rows, x, env);
      match answer {
        case UniqueViolation =>
          return Response(400, ErrorBody(FullOrDuplicateMessage));
        case StoreError(m) =>
          return Response(500, ErrorBody(m));
        case Inserted =>
          rows := rows + [row];
          return Response(201, Created(row));
      }
    }
  }

  // ---------------------------------------------------------------- properties

  /** A body the schema rejects is answered with its issues before the store is read. */
  lemma SchemaFailureFirst(sessions: seq<Session>, rows: seq<Registration>, x: RegistrationInput, env: Environment)
    requires RegistrationSchema(x, env.ext).Err?
    ensures Admit(sessions, rows, Some(x), env) ==
      Outcome(Response(400, InvalidBody(InvalidDataMessage, RegistrationSchema(x, env.ext).error)), rows)
  {
  }

  /** An unknown or unpublished session gives 404 and leaves the table as it was. */
  lemma UnknownSessionNotFound(sessions: seq<Session>, rows: seq<Registration>, x: RegistrationInput, env: Environment)
    requires RegistrationSchema(x, env.ext).Ok?
    requires forall s :: s in sessions && s.id == x.sessionId ==> s.status != Published
    ensures Admit(sessions, rows, Some(x), env) == Outcome(Response(404, ErrorBody(NotFoundMessage)), rows)
  {
  }

  /**
   * When the count query answers, a full session is refused before the
   * duplicate check, so a duplicate on a full session hears "vol".
   */
  lemma FullBeforeDuplicate(sessions: seq<Session>, rows: seq<Registration>, x: RegistrationInput, env: Environment, s: Session)
    requires RegistrationSchema(x, env.ext).Ok? && !env.countFailed
    requires PublishedSingle(sessions, x.sessionId) == Some(s)
    requires ActiveCount(rows, x.sessionId) >= s.max_participants
    ensures Admit(sessions, rows, Some(x), env) == Outcome(Response(400, ErrorBody(FullMessage)), rows)
  {
  }

  /**
   * When the duplicate query answers, an active row for the same session
   * and address is refused when there is room.
   */
  lemma DuplicateRefused(sessions: seq<Session>, rows: seq<Registration>, x: RegistrationInput, env: Environment, s: Session)
    requires RegistrationSchema(x, env.ext).Ok? && !env.lookupFailed
    requires PublishedSingle(sessions, x.sessionId) == Some(s)
    requires ActiveCount(rows, x.sessionId) < s.max_participants
    requires AtMostOneActive(rows)
    requires exists r :: r in rows && IsActiveMatch(r, x.sessionId, x.email)
    ensures Admit(sessions, rows, Some(x), env) == Outcome(Response(400, ErrorBody(DuplicateMessage)), rows)
  {
    var r :| r in rows && IsActiveMatch(r, x.sessionId, x.email);
    MatchesAtMostOne(rows, x.sessionId, x.email);
    MatchesPositive(rows, x.sessionId, x.email, r);
  }

  lemma {:induction false} MatchesPositive(rows: seq<Registration>, sessionId: string, email: string, r: Registration)
    requires r in rows && IsActiveMatch(r, sessionId, email)
    ensures ActiveMatches(rows, sessionId, email) >= 1
  {
    var init := rows[..|rows| - 1];
    if r != rows[|rows| - 1] {
      assert r in init by {
        var i :| 0 <= i < |rows| && rows[i] == r;
        assert i < |rows| - 1 && init[i] == r;
      }
      MatchesPositive(init, sessionId, email, r);
    }
  }

  lemma {:induction false} MatchesAtMostOne(rows: seq<Registration>, sessionId: string, email: string)
    requires AtMostOneActive(rows)
    ensures ActiveMatches(rows, sessionId, email) <= 1
  {
    if |rows| > 0 {
      var init := rows[..|rows| - 1];
      assert AtMostOneActive(init);
      MatchesAtMostOne(init, sessionId, email);
      if IsActiveMatch(rows[|rows| - 1], sessionId, email) {
        MatchesZeroWithout(init, sessionId, email, rows[|rows| - 1], rows);
      }
    }
  }

  /** When the last row is an active match, no earlier row is one. */
  lemma MatchesZeroWithout(init: seq<Registration>, sessionId: string, email: string, last: Registration, rows: seq<Registration>)
    requires rows == init + [last] && AtMostOneActive(rows) && IsActiveMatch(last, sessionId, email)
    ensures ActiveMatches(init, sessionId, email) == 0
  {
    forall r | r in init
      ensures !IsActiveMatch(r, sessionId, email)
    {
      var i :| 0 <= i < |init| && init[i] == r;
      assert rows[i] == r && rows[|init|] == last;
    }
    NoMatchesZero(init, sessionId, email);
  }

  lemma {:induction false} NoMatchesZero(rows: seq<Registration>, sessionId: string, email: string)
    requires forall r :: r in rows ==> !IsActiveMatch(r, sessionId, email)
    ensures ActiveMatches(rows, sessionId, email) == 0
  {
    if |rows| > 0 {
      var init := rows[..|rows| - 1];
      assert forall r :: r in init ==> r in rows;
      NoMatchesZero(init, sessionId, email);
    }
  }

  /** Rows that are not active (cancelled, no-show) never change the answer to a sign-up. */
  lemma InactiveRowsNeverBlock(sessions: seq<Session>, rows: seq<Registration>, extra: seq<Registration>,
                               body: Option<RegistrationInput>, env: Environment)
    requires forall i :: 0 <= i < |extra| ==> extra[i].status != Active
    ensures Admit(sessions, rows + extra, body, env).response == Admit(sessions, rows, body, env).response
  {
    if body.Some? && RegistrationSchema(body.value, env.ext).Ok? {
      var x := body.value;
      InactiveCounts(rows, extra, x.sessionId, x.email);
    }
  }

  lemma {:induction false} InactiveCounts(rows: seq<Registration>, extra: seq<Registration>, sessionId: string, email: string)
    requires forall i :: 0 <= i < |extra| ==> extra[i].status != Active
    ensures ActiveCount(rows + extra, sessionId) == ActiveCount(rows, sessionId)
    ensures ActiveMatches(rows + extra, sessionId, email) == ActiveMatches(rows, sessionId, email)
  {
    if |extra| == 0 {
      assert rows + extra == rows;
    } else {
      var e' := extra[..|extra| - 1];
      assert (rows + extra)[..|rows + extra| - 1] == rows + e';
      InactiveCounts(rows, e', sessionId, email);
    }
  }

  /** A 201 adds exactly one active row holding the submitted fields and the generated token. */
  lemma SuccessInsertsOneRow(sessions: seq<Session>, rows: seq<Registration>, body: Option<RegistrationInput>, env: Environment)
    requires Admit(sessions, rows, body, env).response.status == 201
    ensures body.Some? && env.insert == Inserted
    ensures var o := Admit(sessions, rows, body, env);
      var x := body.value; var r := o.rows[|rows|];
      |o.rows| == |rows| + 1 && o.rows[..|rows|] == rows &&
      r.session_id == x.sessionId && r.email == x.email && r.name == x.name &&
      r.department == x.department && r.status == Active &&
      r.cancellation_token == Some(CancellationToken(env.draw1, env.draw2)) &&
      o.response.body == Created(r)
  {
    var o := Admit(sessions, rows, body, env);
    assert o.rows[..|rows|] == rows;
  }

  /** Any response but 201 leaves the table as it was. */
  lemma FailureLeavesRows(sessions: seq<Session>, rows: seq<Registration>, body: Option<RegistrationInput>, env: Environment)
    requires Admit(sessions, rows, body, env).response.status != 201
    ensures Admit(sessions, rows, body, env).rows == rows
  {
  }

  /**
   * The store's insert errors, once both checks let the sign-up through: a
   * unique violation is a 400 with the combined message, anything else a
   * 500 with its own, and a clean insert a 201.
   */
  lemma InsertErrorMapping(sessions: seq<Session>, rows: seq<Registration>, x: RegistrationInput, env: Environment, s: Session)
    requires RegistrationSchema(x, env.ext).Ok?
    requires PublishedSingle(sessions, x.sessionId) == Some(s)
    requires CountSeen(rows, x.sessionId, env) < s.max_participants
    requires !DuplicateSeen(rows, x.sessionId, x.email, env)
    ensures StoreAnswer(rows, x, env) == UniqueViolation ==>
      Admit(sessions, rows, Some(x), env) == Outcome(Response(400, ErrorBody(FullOrDuplicateMessage)), rows)
    ensures StoreAnswer(rows, x, env).StoreError? ==>
      Admit(sessions, rows, Some(x), env) == Outcome(Response(500, ErrorBody(StoreAnswer(rows, x, env).message)), rows)
    ensures StoreAnswer(rows, x, env) == Inserted ==> Admit(sessions, rows, Some(x), env).response.status == 201
  {
  }

  /**
   * A failed count query reads as 0, so a full session with room for at
   * least one still takes a new address: 201, and the session then holds
   * more active rows than places.
   */
  lemma FailedCountOverfills(sessions: seq<Session>, rows: seq<Registration>, x: RegistrationInput, env: Environment, s: Session)
    requires RegistrationSchema(x, env.ext).Ok?
    requires PublishedSingle(sessions, x.sessionId) == Some(s)
    requires 0 < s.max_participants <= ActiveCount(rows, x.sessionId)
    requires ActiveMatches(rows, x.sessionId, x.email) == 0
    requires env.countFailed && env.insert == Inserted
    ensures Admit(sessions, rows, Some(x), env).response.status == 201
    ensures ActiveCount(Admit(sessions, rows, Some(x), env).rows, x.sessionId) > s.max_participants
  {
    var o := Admit(sessions, rows, Some(x), env);
    assert o.rows[..|o.rows| - 1] == rows;
  }

  /**
   * A failed duplicate query reads as no row; the insert of a second
   * active row for the address then meets the unique constraint and is
   * answered with the combined message, the table unchanged.
   */
  lemma FailedLookupMeetsConstraint(sessions: seq<Session>, rows: seq<Registration>, x: RegistrationInput, env: Environment, s: Session)
    requires RegistrationSchema(x, env.ext).Ok?
    requires PublishedSingle(sessions, x.sessionId) == Some(s)
    requires CountSeen(rows, x.sessionId, env) < s.max_participants
    requires env.lookupFailed
    requires exists r :: r in rows && IsActiveMatch(r, x.sessionId, x.email)
    ensures Admit(sessions, rows, Some(x), env) == Outcome(Response(400, ErrorBody(FullOrDuplicateMessage)), rows)
  {
    var r :| r in rows && IsActiveMatch(r, x.sessionId, x.email);
    MatchesPositive(rows, x.sessionId, x.email, r);
  }

  /**
   * Run one after another, sign-ups keep every address to one active row
   * per session whatever the queries answer, and keep every published
   * session within capacity as long as the count query answers.
   */
  lemma AdmitPreservesInvariants(sessions: seq<Session>, rows: seq<Registration>, body: Option<RegistrationInput>, env: Environment)
    requires AtMostOneActive(rows)
    ensures AtMostOneActive(Admit(sessions, rows, body, env).rows)
    ensures CapacityRespected(sessions, rows) && !env.countFailed ==>
      CapacityRespected(sessions, Admit(sessions, rows, body, env).rows)
  {
    var o := Admit(sessions, rows, body, env);
    if o.rows != rows {
      var x := body.value;
      var s := PublishedSingle(sessions, x.sessionId).value;
      var row := o.rows[|rows|];
      assert o.rows == rows + [row];
      assert row.session_id == x.sessionId && row.email == x.email;
      AppendKeepsUnique(rows, row);
      if CapacityRespected(sessions, rows) && !env.countFailed {
        AppendKeepsCapacity(sessions, rows, row, s);
      }
    }
  }

  /** A row added to a session that still has room keeps every published session within capacity. */
  lemma AppendKeepsCapacity(sessions: seq<Session>, rows: seq<Registration>, row: Registration, s: Session)
    requires CapacityRespected(sessions, rows)
    requires PublishedSingle(sessions, row.session_id) == Some(s)
    requires ActiveCount(rows, row.session_id) < s.max_participants
    ensures CapacityRespected(sessions, rows + [row])
  {
    var rows' := rows + [row];
    forall t | t in sessions && t.status == Published
      ensures ActiveCount(rows', t.id) <= Max0(t.max_participants)
    {
      assert rows'[..|rows'| - 1] == rows;
      if t.id == row.session_id {
        SinglePublishedUnique(sessions, row.session_id, t);
      }
    }
  }

  /** A row for an address with no active row in its session keeps addresses to one active row. */
  lemma AppendKeepsUnique(rows: seq<Registration>, row: Registration)
    requires AtMostOneActive(rows)
    requires ActiveMatches(rows, row.session_id, row.email) == 0
    ensures AtMostOneActive(rows + [row])
  {
    var rows' := rows + [row];
    forall i, j | 0 <= i < j < |rows'| && rows'[i].status == Active && rows'[j].status == Active
      ensures rows'[i].session_id != rows'[j].session_id || rows'[i].email != rows'[j].email
    {
      if j == |rows| && rows'[i].session_id == row.session_id && rows'[i].email == row.email {
        assert rows[i] in rows && IsActiveMatch(rows[i], row.session_id, row.email);
        MatchesPositive(rows, row.session_id, row.email, rows[i]);
      }
    }
  }

  /** A session `.single()` returns is the only published session with that id. */
  lemma SinglePublishedUnique(sessions: seq<Session>, id: string, t: Session)
    requires PublishedSingle(sessions, id).Some?
    requires t in sessions && t.status == Published && t.id == id
    ensures t == PublishedSingle(sessions, id).value
  {
    PublishedInFilter(sessions, id, t);
  }

  lemma {:induction false} PublishedInFilter(sessions: seq<Session>, id: string, t: Session)
    requires t in sessions && t.status == Published && t.id == id
    ensures t in PublishedWithId(sessions, id)
  {
    var init := sessions[..|sessions| - 1];
    if t != sessions[|sessions| - 1] {
      assert t in init by {
        var i :| 0 <= i < |sessions| && sessions[i] == t;
        assert i < |sessions| - 1 && init[i] == t;
      }
      PublishedInFilter(init, id, t);
    }
  }
}
