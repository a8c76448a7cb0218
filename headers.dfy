/**
 * The admin endpoint that creates a page header. When the new header is
 * to be active, every existing header is first switched off by one bulk
 * update (every row whose id differs from the nil UUID), then the new row
 * is inserted. The table is an array of rows updated in place.
 */
module Headers {
  import opened Wrappers
  import opened Records
  import opened Validation

  const NilUuid := "00000000-0000-0000-0000-000000000000"

  datatype Body =
    | ErrorBody(error: string)
    | InvalidBody(error: string, errors: seq<Issue>)
    | CreatedHeader(header: Header)

  datatype Response = Response(status: int, body: Body)

  /** The store's answers for one call: whether the bulk update took effect, and the insert's error if any. */
  datatype StoreAnswers = StoreAnswers(newId: string, createdAt: string, updateApplied: bool, insertError: Option<string>)

  /** One row after the bulk update: only `is_active` changes, and only off the nil id. */
  function Deactivate(h: Header): (r: Header)
    ensures r.id == h.id && r.title == h.title && r.subtitle == h.subtitle && r.created_at == h.created_at
    ensures r.is_active == (h.is_active && h.id == NilUuid)
  {
    if h.id != NilUuid then h.(is_active := false) else h
  }

  function DeactivateAll(hs: seq<Header>): (r: seq<Header>)
    ensures |r| == |hs|
    ensures forall i :: 0 <= i < |hs| ==> r[i] == Deactivate(hs[i])
  {
    seq(|hs|, i requires 0 <= i < |hs| => Deactivate(hs[i]))
  }

  function ActiveCount(hs: seq<Header>): nat {
    if |hs| == 0 then 0 else ActiveCount(hs[..|hs| - 1]) + (if hs[|hs| - 1].is_active then 1 else 0)
  }

  predicate NoNilId(hs: seq<Header>) {
    forall i :: 0 <= i < |hs| ==> hs[i].id != NilUuid
  }

  datatype Outcome = Outcome(response: Response, rows: seq<Header>)

  /** What one POST answers and what the table holds afterwards. */
  function Create(hs: seq<Header>, isAdmin: bool, body: Option<HeaderInput>, store: StoreAnswers): Outcome {
    if !isAdmin then Outcome(Response(401, ErrorBody("Unauthorized")), hs)
    else if body.None? then Outcome(Response(500, ErrorBody("Er is een fout opgetreden")), hs)
    else
      var parsed := HeaderSchema(body.value);
      if parsed.Err? then Outcome(Response(400, InvalidBody("Ongeldige gegevens", parsed.error)), hs)
      else
        var v := parsed.value;
        var updated := if v.is_active && store.updateApplied then DeactivateAll(hs) else hs;
        if store.insertError.Some? then Outcome(Response(500, ErrorBody(store.insertError.value)), updated)
        else
          var h := Header(store.newId, v.title, v.subtitle, v.is_active, store.createdAt);
          Outcome(Response(201, CreatedHeader(h)), updated + [h])
  }

  class HeaderTable {
    var rows: array<Header>

    constructor (initial: seq<Header>)
      ensures fresh(rows) && rows[..] == initial
    {
      rows := new Header[|initial|](i requires 0 <= i < |initial| => initial[i]);
    }

    /** The bulk update `is_active = false` on every row but the nil id, in place. */
    method DeactivateOthers()
      modifies rows
      ensures rows[..] == DeactivateAll(old(rows[..]))
    {
      var i := 0;
      while i < rows.Length
        invariant 0 <= i <= rows.Length
        invariant forall k :: 0 <= k < i ==> rows[k] == Deactivate(old(rows[k]))
        invariant forall k :: i <= k < rows.Length ==> rows[k] == old(rows[k])
      {
        if rows[i].id != NilUuid {
          rows[i] := rows[i].(is_active := false);
        }
        i := i + 1;
      }
    }

    /** The insert: a new array one longer, holding the old rows and then `h`. */
    method Append(h: Header)
      modifies this
      ensures fresh(rows) && rows[..] == old(rows[..]) + [h]
    {
      var src := rows;
      var next := new Header[src.Length + 1](i => h);
      var i := 0;
      while i < src.Length
        invariant 0 <= i <= src.Length
        invariant forall k :: 0 <= k < i ==> next[k] == src[k]
        invariant next[src.Length] == h
      {
        next[i] := src[i];
        i := i + 1;
      }
      assert next[..] == src[..] + [h];
      rows := next;
    }

    /** POST /api/admin/headers. */
    method Post(isAdmin: bool, body: Option<HeaderInput>, store: StoreAnswers) returns (resp: Response)
      modifies this, rows
      ensures resp == Create(old(rows[..]), isAdmin, body, store).response
      ensures rows[..] == Create(old(rows[..]), isAdmin, body, store).rows
    {
      if !isAdmin {
        return Response(401, ErrorBody("Unauthorized"));
      }
      if body.None? {
        return Response(500, ErrorBody("Er is een fout opgetreden"));
      }
      var parsed := HeaderSchema(body.value);
      if parsed.Err? {
        return Response(400, InvalidBody("Ongeldige gegevens", parsed.error));
      }
      var v := parsed.value;
      if v.is_active && store.updateApplied {
        DeactivateOthers();
      }
      if store.insertError.Some? {
        return Response(500, ErrorBody(store.insertError.value));
      }
      var h := Header(store.newId, v.title, v.subtitle, v.is_active, store.createdAt);
      Append(h);
      resp := Response(201, CreatedHeader(h));
    }
  }

  // ---------------------------------------------------------------- properties

  /** A caller who is not signed in gets 401 and the table is unchanged. */
  lemma NonAdminUnauthorized(hs: seq<Header>, body: Option<HeaderInput>, store: StoreAnswers)
    ensures Create(hs, false, body, store) == Outcome(Response(401, ErrorBody("Unauthorized")), hs)
  {
  }

  /** An invalid body gets 400 before any update. */
  lemma InvalidBodyNoChange(hs: seq<Header>, x: HeaderInput, store: StoreAnswers)
    requires x.title == "" || x.subtitle == ""
    ensures Create(hs, true, Some(x), store).response.status == 400
    ensures Create(hs, true, Some(x), store).rows == hs
  {
  }

  lemma {:induction false} DeactivateAllNoneActive(hs: seq<Header>)
    requires NoNilId(hs)
    ensures ActiveCount(DeactivateAll(hs)) == 0
  {
    if |hs| > 0 {
      var init := hs[..|hs| - 1];
      assert DeactivateAll(hs)[..|hs| - 1] == DeactivateAll(init);
      DeactivateAllNoneActive(init);
    }
  }

  lemma ActiveCountAppend(hs: seq<Header>, h: Header)
    ensures ActiveCount(hs + [h]) == ActiveCount(hs) + (if h.is_active then 1 else 0)
  {
    assert (hs + [h])[..|hs|] == hs;
  }

  /**
   * Creating an active header, when the bulk update took effect and no row
   * carries the nil id, leaves the new header as the only active one.
   */
  lemma ActiveHeaderIsOnlyActive(hs: seq<Header>, x: HeaderInput, store: StoreAnswers)
    requires x.title != "" && x.subtitle != "" && x.is_active == Some(true)
    requires store.updateApplied && store.insertError.None? && NoNilId(hs)
    ensures var o := Create(hs, true, Some(x), store);
      o.response.status == 201 && |o.rows| == |hs| + 1 &&
      o.rows[|hs|].is_active && ActiveCount(o.rows) == 1
  {
    var o := Create(hs, true, Some(x), store);
    DeactivateAllNoneActive(hs);
    ActiveCountAppend(DeactivateAll(hs), o.rows[|hs|]);
    assert o.rows == DeactivateAll(hs) + [o.rows[|hs|]];
  }

  /**
   * The bulk update's error is never read: when it did not apply, creating
   * an active header still answers 201 and adds a second active one next
   * to the active header already stored.
   */
  lemma FailedUpdateKeepsOldActive(hs: seq<Header>, x: HeaderInput, store: StoreAnswers)
    requires x.title != "" && x.subtitle != "" && x.is_active == Some(true)
    requires !store.updateApplied && store.insertError.None? && ActiveCount(hs) >= 1
    ensures var o := Create(hs, true, Some(x), store);
      o.response.status == 201 && ActiveCount(o.rows) == ActiveCount(hs) + 1 && ActiveCount(o.rows) >= 2
  {
    var o := Create(hs, true, Some(x), store);
    ActiveCountAppend(hs, o.rows[|hs|]);
    assert o.rows == hs + [o.rows[|hs|]];
  }

  /** Creating an inactive header leaves every existing row as it was and adds one. */
  lemma InactiveHeaderKeepsRows(hs: seq<Header>, x: HeaderInput, store: StoreAnswers)
    requires x.title != "" && x.subtitle != "" && x.is_active != Some(true)
    requires store.insertError.None?
    ensures var o := Create(hs, true, Some(x), store);
      |o.rows| == |hs| + 1 && o.rows[..|hs|] == hs && !o.rows[|hs|].is_active
  {
    var o := Create(hs, true, Some(x), store);
    assert o.rows[..|hs|] == hs;
  }

  /** A successful POST keeps "at most one active header" and adds exactly one row. */
  lemma CreatePreservesSingleActive(hs: seq<Header>, isAdmin: bool, body: Option<HeaderInput>, store: StoreAnswers)
    requires ActiveCount(hs) <= 1 && NoNilId(hs) && store.updateApplied
    requires Create(hs, isAdmin, body, store).response.status == 201
    ensures var o := Create(hs, isAdmin, body, store);
      |o.rows| == |hs| + 1 && ActiveCount(o.rows) <= 1
  {
    var o := Create(hs, isAdmin, body, store);
    var v := HeaderSchema(body.value).value;
    var h := o.rows[|hs|];
    if v.is_active {
      DeactivateAllNoneActive(hs);
      ActiveCountAppend(DeactivateAll(hs), h);
      assert o.rows == DeactivateAll(hs) + [h];
    } else {
      ActiveCountAppend(hs, h);
      assert o.rows == hs + [h];
    }
  }

  /** The bulk update changes no title, subtitle, id or creation time. */
  lemma DeactivateTouchesOnlyFlag(hs: seq<Header>)
    ensures |DeactivateAll(hs)| == |hs|
    ensures forall i :: 0 <= i < |hs| ==>
      var r := DeactivateAll(hs)[i];
      r.id == hs[i].id && r.title == hs[i].title && r.subtitle == hs[i].subtitle && r.created_at == hs[i].created_at
  {
  }

  /** When the insert fails after the bulk update, the answer is 500 and no header is active. */
  lemma InsertFailureLeavesNoneActive(hs: seq<Header>, x: HeaderInput, store: StoreAnswers)
    requires x.title != "" && x.subtitle != "" && x.is_active == Some(true)
    requires store.updateApplied && store.insertError.Some? && NoNilId(hs)
    ensures var o := Create(hs, true, Some(x), store);
      o.response == Response(500, ErrorBody(store.insertError.value)) && ActiveCount(o.rows) == 0
  {
    DeactivateAllNoneActive(hs);
  }

  /** A row holding the nil id keeps its flag: the bulk update's filter skips it. */
  lemma NilIdSurvivesUpdate(hs: seq<Header>, i: nat)
    requires i < |hs| && hs[i].id == NilUuid && hs[i].is_active
    ensures DeactivateAll(hs)[i].is_active
  {
  }
}
