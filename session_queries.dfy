/**
 * The session queries of the public and dashboard pages, as filters and an
 * ordering over the session table: published sessions dated today or
 * later, optionally of one conversation type, ordered by date and then
 * start time.
 */
module SessionQueries {
  import opened Wrappers
  import opened Text
  import opened Records
  import opened Lists
  import opened Sorting

  /** `new Date().toISOString().split('T')[0]`: the date part of the current instant. */
  function Today(nowIso: string): (d: string)
    ensures 'T' !in d
    ensures d == nowIso[..FirstIndex(nowIso, 'T')]
  {
    SplitFirst(nowIso, 'T');
    Split(nowIso, 'T')[0]
  }

  /**
   * `.eq('status', 'published').gte('date', today)`; dates are ISO
   * `YYYY-MM-DD` strings, so string order is date order.
   */
  function IsUpcoming(today: string): Session -> bool {
    (s: Session) => s.status == Published && LexLe(today, s.date)
  }

  function OfTypeUpcoming(typeId: string, today: string): Session -> bool {
    (s: Session) => s.conversation_type_id == typeId && s.status == Published && LexLe(today, s.date)
  }

  /** Strictly before in string order. */
  predicate LexLt(a: string, b: string) {
    LexLe(a, b) && a != b
  }

  /** `.order('date').order('start_time')`: by date, ties broken by start time. */
  function DateThenTime(): (Session, Session) -> bool {
    (a: Session, b: Session) => LexLt(a.date, b.date) || (a.date == b.date && LexLe(a.start_time, b.start_time))
  }

  lemma DateThenTimeIsPreorder()
    ensures Total(DateThenTime()) && Transitive(DateThenTime())
  {
    var le := DateThenTime();
    forall a: Session, b: Session
      ensures le(a, b) || le(b, a)
    {
      LexLeTotal(a.date, b.date);
      LexLeTotal(a.start_time, b.start_time);
    }
    forall a: Session, b: Session, c: Session | le(a, b) && le(b, c)
      ensures le(a, c)
    {
      if a.date == b.date && b.date == c.date {
        LexLeTransitive(a.start_time, b.start_time, c.start_time);
      } else {
        LexLeTotal(b.date, b.date);
        assert LexLe(a.date, b.date) && LexLe(b.date, c.date);
        LexLeTransitive(a.date, b.date, c.date);
        if a.date == c.date {
          LexLeAntisymmetric(a.date, b.date);
        }
      }
    }
  }

  /** The sessions of one type the public page asks for, in the order it asks for them. */
  function UpcomingOfType(table: seq<Session>, typeId: string, today: string): seq<Session> {
    SortBy(Filter(table, OfTypeUpcoming(typeId, today)), DateThenTime())
  }

  /** The answer holds exactly the published sessions of the type dated today or later. */
  lemma UpcomingOfTypeMembers(table: seq<Session>, typeId: string, today: string)
    ensures forall s :: s in UpcomingOfType(table, typeId, today) <==>
      s in table && s.conversation_type_id == typeId && s.status == Published && LexLe(today, s.date)
  {
    var f := Filter(table, OfTypeUpcoming(typeId, today));
    var r := SortBy(f, DateThenTime());
    assert forall s :: s in r <==> s in multiset(r);
    assert forall s :: s in f <==> s in multiset(f);
  }

  /** The answer is ordered by date, and by start time within a date. */
  lemma UpcomingOfTypeOrdered(table: seq<Session>, typeId: string, today: string)
    ensures var r := UpcomingOfType(table, typeId, today);
      forall i, j :: 0 <= i < j < |r| ==>
        LexLe(r[i].date, r[j].date) && (r[i].date == r[j].date ==> LexLe(r[i].start_time, r[j].start_time))
  {
    var f := Filter(table, OfTypeUpcoming(typeId, today));
    DateThenTimeIsPreorder();
    SortBySorted(f, DateThenTime());
    var r := SortBy(f, DateThenTime());
    forall i, j | 0 <= i < j < |r|
      ensures LexLe(r[i].date, r[j].date)
    {
      assert DateThenTime()(r[i], r[j]);
      LexLeTotal(r[i].date, r[i].date);
    }
  }

  /** `.eq('name', name).single()`: the type when exactly one row has that name. */
  function SingleByName(types: seq<ConversationTypeRecord>, name: string): (r: Option<ConversationTypeRecord>)
    ensures r.Some? ==> r.value in types && r.value.name == name
    ensures r.Some? <==> CountWhere(types, HasName(name)) == 1
  {
    var found := Filter(types, HasName(name));
    FilterLength(types, HasName(name));
    if |found| == 1 then
      assert found[0] in found;
      Some(found[0])
    else None
  }

  function HasName(name: string): ConversationTypeRecord -> bool {
    (t: ConversationTypeRecord) => t.name == name
  }
}
