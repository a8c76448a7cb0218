/**
 * GET /api/admin/registrations: the registration list for the admin, with
 * optional session, status and conversation-type parameters.
 */
module AdminRegistrations {
  import opened Wrappers
  import opened Records
  import opened Lists
  import opened RegistrationQueries

  datatype Response = Unauthorized | Failed(message: string) | Listed(rows: seq<Registration>)

  /** The in-memory type filter: the joined type name is present and equal to the parameter. */
  function OfType(t: string): Registration -> bool {
    (r: Registration) => RegistrationTypeName(r) == Some(t)
  }

  /**
   * The answer. `queryError` is the store's error for the list query;
   * `typeLookup` is the conversation-type row the handler looks up and then
   * does not use.
   */
  function List(isAdmin: bool, table: seq<Registration>, queryError: Option<string>,
                sessionId: Option<string>, typeParam: Option<string>, status: Option<string>,
                typeLookup: Option<ConversationTypeRecord>): (resp: Response)
    ensures !isAdmin ==> resp == Unauthorized
    ensures isAdmin && queryError.Some? ==> resp == Failed(queryError.value)
    ensures isAdmin && queryError.None? && !Given(typeParam) ==> resp == Listed(Fetch(table, sessionId, status))
    ensures isAdmin && queryError.None? && Given(typeParam) ==>
      resp == Listed(Filter(Fetch(table, sessionId, status), OfType(typeParam.value)))
  {
    if !isAdmin then Unauthorized
    else if queryError.Some? then Failed(queryError.value)
    else
      var fetched := Fetch(table, sessionId, status);
      if Given(typeParam) then Listed(Filter(fetched, OfType(typeParam.value))) else Listed(fetched)
  }

  /** The conversation-type lookup has no effect on the answer. */
  lemma LookupIgnored(isAdmin: bool, table: seq<Registration>, queryError: Option<string>,
                      sessionId: Option<string>, typeParam: Option<string>, status: Option<string>,
                      a: Option<ConversationTypeRecord>, b: Option<ConversationTypeRecord>)
    ensures List(isAdmin, table, queryError, sessionId, typeParam, status, a) ==
            List(isAdmin, table, queryError, sessionId, typeParam, status, b)
  {
  }

  /**
   * With a type parameter the answer is the fetched rows whose joined type
   * name equals it, in fetched order; rows without a type name are left out.
   */
  lemma TypeFilterExact(table: seq<Registration>, sessionId: Option<string>, t: string, status: Option<string>,
                        lookup: Option<ConversationTypeRecord>)
    requires t != ""
    ensures var resp := List(true, table, None, sessionId, Some(t), status, lookup);
      var fetched := Fetch(table, sessionId, status);
      resp.Listed? &&
      (forall r :: r in resp.rows <==> r in fetched && RegistrationTypeName(r) == Some(t)) &&
      (forall r :: r in resp.rows ==> r.session.Some? && r.session.value.conversation_type.Some?)
  {
  }

  /** The type filter keeps the fetched order: it distributes over concatenation. */
  lemma TypeFilterKeepsOrder(a: seq<Registration>, b: seq<Registration>, t: string)
    ensures Filter(a + b, OfType(t)) == Filter(a, OfType(t)) + Filter(b, OfType(t))
  {
    FilterConcat(a, b, OfType(t));
  }
}
