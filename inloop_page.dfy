/**
 * The public page of the walk-in conversation type: the type lookup, the
 * upcoming sessions of that type, and their registration counts.
 */
module InloopPage {
  import opened Wrappers
  import opened Text
  import opened Records
  import opened Lists
  import opened Counting
  import opened SessionCounts
  import opened SessionQueries
  import Registrations

  const TypeName := "inloopgesprek"

  /** The store as far as this page reads it. */
  datatype Store = Store(types: seq<ConversationTypeRecord>, sessions: seq<Session>, registrations: Option<seq<Registration>>)

  datatype PageView = TypeNotFound | SessionListOf(sessions: seq<CountedSession>)

  /**
   * Without exactly one type row named "inloopgesprek" the page says the
   * type is not found; else it lists that type's upcoming sessions with
   * their counts.
   */
  function Page(store: Store, nowIso: string): PageView {
    var t := SingleByName(store.types, TypeName);
    if t.None? then TypeNotFound
    else
      var ss := UpcomingOfType(store.sessions, t.value.id, Today(nowIso));
      SessionListOf(WithCounts(ss, CountsFor(SessionIds(ss), store.registrations)))
  }

  /** The page's data loading: the type guard, the count fold, then the merge. */
  method Load(store: Store, nowIso: string) returns (view: PageView)
    ensures view == Page(store, nowIso)
  {
    var t := SingleByName(store.types, TypeName);
    if t.None? {
      return TypeNotFound;
    }
    var ss := UpcomingOfType(store.sessions, t.value.id, Today(nowIso));
    var counts := LoadCounts(ss, store.registrations);
    view := SessionListOf(WithCounts(ss, counts));
  }

  /** A missing type shows "Gesprekstype niet gevonden" whatever the sessions are. */
  lemma MissingTypeNotFound(store: Store, nowIso: string)
    requires CountWhere(store.types, HasName(TypeName)) != 1
    ensures Page(store, nowIso) == TypeNotFound
  {
  }

  /**
   * When the type is found, the list holds exactly its published sessions
   * dated today or later, ordered by date then start time, each with its
   * number of active registrations.
   */
  lemma ListedSessions(store: Store, nowIso: string, regs: seq<Registration>)
    requires store.registrations == Some(regs)
    requires SingleByName(store.types, TypeName).Some?
    ensures var t := SingleByName(store.types, TypeName).value;
      var today := Today(nowIso);
      var list := Page(store, nowIso).sessions;
      (forall i :: 0 <= i < |list| ==>
        var s := list[i].session;
        s in store.sessions && s.conversation_type_id == t.id && s.status == Published && LexLe(today, s.date) &&
        list[i].registrationCount == Some(Registrations.ActiveCount(regs, s.id))) &&
      (forall s :: s in store.sessions && s.conversation_type_id == t.id && s.status == Published && LexLe(today, s.date) ==>
        exists i :: 0 <= i < |list| && list[i].session == s) &&
      (forall i, j :: 0 <= i < j < |list| ==> LexLe(list[i].session.date, list[j].session.date))
  {
    var t := SingleByName(store.types, TypeName).value;
    var today := Today(nowIso);
    var ss := UpcomingOfType(store.sessions, t.id, today);
    var ids := SessionIds(ss);
    var list := Page(store, nowIso).sessions;
    UpcomingOfTypeMembers(store.sessions, t.id, today);
    UpcomingOfTypeOrdered(store.sessions, t.id, today);
    forall i | 0 <= i < |list|
      ensures list[i].registrationCount == Some(Registrations.ActiveCount(regs, list[i].session.id))
    {
      assert ids[i] == ss[i].id;
      CountsAreActiveRegistrations(ids, regs, ss[i].id);
    }
    forall s | s in store.sessions && s.conversation_type_id == t.id && s.status == Published && LexLe(today, s.date)
      ensures exists i :: 0 <= i < |list| && list[i].session == s
    {
      var i :| 0 <= i < |ss| && ss[i] == s;
      assert list[i].session == s;
    }
  }
}
