/**
 * The public session card: places left, the full and almost-full states,
 * and what the card shows because of them (badge colour, the
 * "(Bijna vol)" note, the sign-up button).
 */
module SessionCard {
  import opened Wrappers
  import opened Text
  import opened Records
  import opened Badges
  import opened Utils

  /** `registrationCount || 0`: a missing count reads as 0, any other count as itself. */
  function RegisteredCount(c: CountedSession): int {
    c.registrationCount.GetOr(0)
  }

  /** `availableSpots`: the places left, negative when the session is overbooked. */
  function AvailableSpots(c: CountedSession): (spots: int)
    ensures spots + RegisteredCount(c) == c.session.max_participants
  {
    c.session.max_participants - RegisteredCount(c)
  }

  /** `isFull`: no place left, which includes an overbooked session. */
  predicate IsFull(c: CountedSession) {
    AvailableSpots(c) <= 0
  }

  /** `isAlmostFull`: one to three places left. */
  predicate IsAlmostFull(c: CountedSession) {
    AvailableSpots(c) <= 3 && AvailableSpots(c) > 0
  }

  /** A session is full exactly when its registrations reach its capacity. */
  lemma FullIffCapacityReached(c: CountedSession)
    ensures IsFull(c) <==> RegisteredCount(c) >= c.session.max_participants
    ensures c.registrationCount.None? ==> (IsFull(c) <==> c.session.max_participants <= 0)
  {
  }

  /** Full and almost full exclude each other. */
  lemma NeverFullAndAlmostFull(c: CountedSession)
    ensures !(IsFull(c) && IsAlmostFull(c))
  {
  }

  /** The badge colour: danger when full, else warning when almost full, else info. */
  function CardBadge(c: CountedSession): (v: BadgeVariant)
    ensures v == Danger <==> RegisteredCount(c) >= c.session.max_participants
    ensures v == Warning <==> 1 <= c.session.max_participants - RegisteredCount(c) <= 3
    ensures v == Info <==> c.session.max_participants - RegisteredCount(c) > 3
  {
    if IsFull(c) then Danger else if IsAlmostFull(c) then Warning else Info
  }

  /** The sign-up button: its label and whether it is disabled. */
  datatype SignUpButton = SignUpButton(caption: string, disabled: bool, href: string)

  function CardButton(c: CountedSession): (b: SignUpButton)
    ensures b.disabled <==> RegisteredCount(c) >= c.session.max_participants
    ensures b.caption == "Vol" <==> b.disabled
    ensures !b.disabled ==> b.caption == "Aanmelden"
    ensures b.href == "/inschrijven/" + c.session.id
  {
    var full := IsFull(c);
    SignUpButton(if full then "Vol" else "Aanmelden", full, "/inschrijven/" + c.session.id)
  }

  /** The places line: places left "van" capacity. */
  function PlacesText(c: CountedSession): (line: string)
    ensures var spots := IntToString(AvailableSpots(c));
      |line| > |spots| && line[..|spots|] == spots && (AvailableSpots(c) < 0 <==> line[0] == '-')
  {
    IntToString(AvailableSpots(c)) + " van " + IntToString(c.session.max_participants) + " plekken beschikbaar"
  }

  /**
   * The places line, word by word: the places left, "van", the capacity,
   * "plekken", "beschikbaar"; each number is written as `String(n)`, which
   * reads back as the number (`IntToStringValue`).
   */
  lemma PlacesTextWords(c: CountedSession)
    ensures Split(PlacesText(c), ' ') ==
      [IntToString(AvailableSpots(c)), "van", IntToString(c.session.max_participants), "plekken", "beschikbaar"]
  {
    IntToStringChars(AvailableSpots(c), ' ');
    IntToStringChars(c.session.max_participants, ' ');
    LineWords(IntToString(AvailableSpots(c)), IntToString(c.session.max_participants));
  }

  lemma LineWords(spots: string, max: string)
    requires ' ' !in spots && ' ' !in max
    ensures Split(spots + " van " + max + " plekken beschikbaar", ' ') == [spots, "van", max, "plekken", "beschikbaar"]
  {
    var head := spots + " " + "van" + " " + max;
    VanSpaced(spots);
    TailSpaced(head);
    SplitNoSeparator(spots, ' ');
    SplitSnoc(spots, "van", ' ');
    SplitSnoc(spots + " " + "van", max, ' ');
    SplitSnoc(head, "plekken", ' ');
    SplitSnoc(head + " " + "plekken", "beschikbaar", ' ');
  }

  lemma VanSpaced(x: string)
    ensures x + " van " == x + " " + "van" + " "
  {
    assert " van " == " " + "van" + " ";
  }

  lemma TailSpaced(x: string)
    ensures x + " plekken beschikbaar" == x + " " + "plekken" + " " + "beschikbaar"
  {
    assert " plekken beschikbaar" == " " + "plekken" + " " + "beschikbaar";
  }

  /** Whether the "(Bijna vol)" note follows the places line: almost full and not full. */
  function ShowsAlmostFullNote(c: CountedSession): (shown: bool)
    ensures shown <==> 1 <= c.session.max_participants - RegisteredCount(c) <= 3
  {
    IsAlmostFull(c) && !IsFull(c)
  }

  /** The time line: start, and " - end" when an end time is set. */
  function TimeLine(s: Session): (line: string)
    ensures |line| >= |FormatTime(s.start_time)| && line[..|FormatTime(s.start_time)|] == FormatTime(s.start_time)
    ensures (s.end_time.None? || s.end_time.value == "") <==> line == FormatTime(s.start_time)
  {
    if s.end_time.Some? && s.end_time.value != "" then FormatTime(s.start_time) + " - " + FormatTime(s.end_time.value)
    else FormatTime(s.start_time)
  }

  /** The place line: "Online (Teams)" for online sessions, the location otherwise. */
  function PlaceText(s: Session): (t: string)
    ensures s.is_online ==> t == "Online (Teams)"
    ensures !s.is_online ==> t == s.location
  {
    if s.is_online then "Online (Teams)" else s.location
  }
}
