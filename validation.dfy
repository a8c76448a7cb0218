/**
 * The request schemas: registration, session (with its two refinements),
 * header and session cancellation. A schema either yields the validated,
 * defaulted record or the list of issues, one per failing check, in the
 * order the schema lists its fields, followed by the refinements.
 */
module Validation {
  import opened Wrappers
  import opened Text
  import opened Records

  /** One problem found by a schema: the field it is about and its message. */
  datatype Issue = Issue(path: string, message: string)

  /**
   * Checks the schemas take from the validation library or the clock:
   * the library's e-mail and URL formats, and the session date refinement
   * that compares the parsed date with today's local midnight.
   */
  datatype ExternalChecks = ExternalChecks(
    isEmail: string -> bool,
    isUrl: string -> bool,
    notBeforeToday: string -> bool)

  predicate IsHexDigit(c: char) {
    ('0' <= c <= '9') || ('a' <= c <= 'f') || ('A' <= c <= 'F')
  }

  /** The library's UUID shape: 8-4-4-4-12 hexadecimal digits, either case. */
  predicate IsUuid(s: string) {
    |s| == 36 &&
    forall i :: 0 <= i < 36 ==>
      if i == 8 || i == 13 || i == 18 || i == 23 then s[i] == '-' else IsHexDigit(s[i])
  }


  /** The pattern `^([0-1][0-9]|2[0-3]):[0-5][0-9]$`, character by character. */
  predicate IsClockTime(s: string) {
    |s| == 5 && IsDigit(s[1]) && s[2] == ':' && '0' <= s[3] <= '5' && IsDigit(s[4]) &&
    (('0' <= s[0] <= '1') || (s[0] == '2' && s[1] <= '3'))
  }

  function ClockHours(s: string): (h: nat)
    requires IsClockTime(s)
    ensures h < 24
  {
    10 * DigitValue(s[0]) + DigitValue(s[1])
  }

  function ClockMinutes(s: string): (m: nat)
    requires IsClockTime(s)
    ensures m < 60
  {
    10 * DigitValue(s[3]) + DigitValue(s[4])
  }

  /** Minutes since midnight, h·60 + m. */
  function MinuteOfDay(s: string): nat
    requires IsClockTime(s)
  {
    ClockHours(s) * 60 + ClockMinutes(s)
  }

  /** The "HH:MM" text of an hour and a minute. */
  function ClockText(h: nat, m: nat): (s: string)
    requires h < 24 && m < 60
    ensures |s| == 5
  {
    [DigitChar(h / 10), DigitChar(h % 10), ':', DigitChar(m / 10), DigitChar(m % 10)]
  }

  /** Every hour 00-23 and minute 00-59 written as "HH:MM" matches, and reads back. */
  lemma ClockTextMatches(h: nat, m: nat)
    requires h < 24 && m < 60
    ensures IsClockTime(ClockText(h, m))
    ensures ClockHours(ClockText(h, m)) == h && ClockMinutes(ClockText(h, m)) == m
  {
  }

  /** Every matching text is "HH:MM" of its hour and minute: nothing else matches. */
  lemma ClockTimeIsText(s: string)
    requires IsClockTime(s)
    ensures s == ClockText(ClockHours(s), ClockMinutes(s))
  {
    var t := ClockText(ClockHours(s), ClockMinutes(s));
    assert t[0] == s[0] && t[1] == s[1] && t[3] == s[3] && t[4] == s[4];
  }

  /**
   * The numeric literal `Number` reads once the surrounding white space is
   * gone, for the texts a time field can hold: an optional sign and decimal
   * digits, the empty text being 0. Any other text is here NaN, written `None`.
   */
  function NumericLiteral(u: string): Option<int> {
    if u == [] then Some(0)
    else if AllDigits(u) then Some(DecimalValue(u))
    else if |u| > 1 && (u[0] == '+' || u[0] == '-') && AllDigits(u[1..]) then
      var n: int := DecimalValue(u[1..]);
      Some(if u[0] == '-' then -n else n)
    else None
  }

  /** `Number(t)`: white space at either end is skipped, then the literal is read. */
  function NumberOf(t: string): Option<int>
    decreases |t|
  {
    if t != [] && IsWhite(t[0]) then NumberOf(t[1..])
    else if t != [] && IsWhite(t[|t| - 1]) then NumberOf(t[..|t| - 1])
    else NumericLiteral(t)
  }

  /** `Number(t)` reads the literal `t.trim()` leaves. */
  lemma {:induction false} NumberOfTrim(t: string)
    ensures NumberOf(t) == NumericLiteral(Trim(t))
    decreases |t|
  {
    if t == [] {
    } else if IsWhite(t[0]) {
      NumberOfTrim(t[1..]);
      LeadingWhiteStep(t);
    } else if IsWhite(t[|t| - 1]) {
      NumberOfTrim(t[..|t| - 1]);
      TrailingWhiteStep(t);
    } else {
      TrimFixed(t);
    }
  }

  lemma LeadingWhiteStep(t: string)
    requires t != [] && IsWhite(t[0])
    requires NumberOf(t[1..]) == NumericLiteral(Trim(t[1..]))
    ensures NumberOf(t) == NumericLiteral(Trim(t))
  {
    TrimLeadingWhite(t);
  }

  lemma TrailingWhiteStep(t: string)
    requires t != [] && !IsWhite(t[0]) && IsWhite(t[|t| - 1])
    requires NumberOf(t[..|t| - 1]) == NumericLiteral(Trim(t[..|t| - 1]))
    ensures NumberOf(t) == NumericLiteral(Trim(t))
  {
    TrimTrailingWhite(t);
  }

  /** A text of decimal digits alone is read as its decimal value. */
  lemma NumberOfDigits(t: string)
    requires t != [] && AllDigits(t)
    ensures NumberOf(t) == Some(DecimalValue(t))
  {
    assert !IsWhite(t[0]) && !IsWhite(t[|t| - 1]);
  }

  /**
   * The refinement's arithmetic on any text: `t.split(':').map(Number)`, then
   * `parts[0] * 60 + parts[1]`. It is NaN (`None`) when there is no second
   * part (`undefined` is NaN) or a part is not a number.
   */
  function RefinementMinutes(t: string): Option<int> {
    PartsMinutes(Split(t, ':'))
  }

  /** `parts[0] * 60 + parts[1]` on the parts read by `Number`. */
  function PartsMinutes(parts: seq<string>): Option<int> {
    if |parts| >= 2 && NumberOf(parts[0]).Some? && NumberOf(parts[1]).Some? then
      Some(NumberOf(parts[0]).value * 60 + NumberOf(parts[1]).value)
    else None
  }

  /** For a text that matched the pattern, the refinement's arithmetic gives its minute of the day. */
  lemma RefinementMinutesOfClock(t: string)
    requires IsClockTime(t)
    ensures RefinementMinutes(t) == Some(MinuteOfDay(t))
  {
    var parts := [t[..2], t[3..]];
    SplitClock(t);
    ClockPartsMinutes(t);
    MinutesFromParts(t, parts, Some(MinuteOfDay(t)));
  }

  lemma ClockPartsMinutes(t: string)
    requires IsClockTime(t)
    ensures PartsMinutes([t[..2], t[3..]]) == Some(MinuteOfDay(t))
  {
    ClockPartsRead(t);
    MinutesOfTwoParts(t[..2], t[3..], ClockHours(t), ClockMinutes(t));
  }

  lemma MinutesOfSplit(t: string, a: string, b: string, h: int, m: int)
    requires Split(t, ':') == [a, b] && NumberOf(a) == Some(h) && NumberOf(b) == Some(m)
    ensures RefinementMinutes(t) == Some(h * 60 + m)
  {
    MinutesOfTwoParts(a, b, h, m);
    MinutesFromParts(t, [a, b], Some(h * 60 + m));
  }

  /** The hour and minute digits of a matched time read as its hour and minute. */
  lemma ClockPartsRead(t: string)
    requires IsClockTime(t)
    ensures NumberOf(t[..2]) == Some(ClockHours(t)) && NumberOf(t[3..]) == Some(ClockMinutes(t))
  {
    DigitsValue(t[..2], ClockHours(t));
    DigitsValue(t[3..], ClockMinutes(t));
  }

  lemma MinutesFromParts(t: string, parts: seq<string>, v: Option<int>)
    requires Split(t, ':') == parts && PartsMinutes(parts) == v
    ensures RefinementMinutes(t) == v
  {
  }

  lemma MinutesOfTwoParts(a: string, b: string, h: int, m: int)
    requires NumberOf(a) == Some(h) && NumberOf(b) == Some(m)
    ensures PartsMinutes([a, b]) == Some(h * 60 + m)
  {
  }

  /** A time without ':' has no second part, and `undefined` makes the sum NaN. */
  lemma NoColonIsNaN(t: string)
    requires ':' !in t
    ensures RefinementMinutes(t).None?
  {
    SplitNoSeparator(t, ':');
  }

  /** `end > start` on two numbers, false when either is NaN. */
  predicate After(end: Option<int>, start: Option<int>) {
    end.Some? && start.Some? && end.value > start.value
  }

  lemma DecimalTwoDigits(s: string)
    requires |s| == 2 && IsDigit(s[0]) && IsDigit(s[1])
    ensures DecimalValue(s) == 10 * DigitValue(s[0]) + DigitValue(s[1])
  {
    var init := s[..1];
    assert init[..0] == [];
    assert DecimalValue(init) == DigitValue(s[0]);
  }

  lemma SplitClock(s: string)
    requires IsClockTime(s)
    ensures Split(s, ':') == [s[..2], s[3..]]
  {
    assert s == s[..2] + [':'] + s[3..];
    SplitAtSeparator(s[..2], s[3..], ':');
    SplitNoSeparator(s[3..], ':');
  }

  /** A JavaScript value that is a non-empty string (truthy). */
  predicate HasText(v: Option<string>) {
    v.Some? && v.value != ""
  }

  // ---------------------------------------------------------------- registration

  datatype RegistrationInput = RegistrationInput(
    email: string, sessionId: string, name: string, department: string)

  const NameMessage := "Naam moet minimaal 2 tekens bevatten"
  const DepartmentMessage := "Afdeling moet minimaal 2 tekens bevatten"

  /**
   * `registrationSchema`; a valid input passes through unchanged. `min(2)`
   * counts UTF-16 code units, as `length` does.
   */
  function RegistrationSchema(x: RegistrationInput, ext: ExternalChecks): (r: Result<RegistrationInput, seq<Issue>>)
    ensures r.Ok? <==>
      ext.isEmail(x.email) && IsUuid(x.sessionId) && CodeUnits(x.name) >= 2 && CodeUnits(x.department) >= 2
    ensures r.Ok? ==> r.value == x
    ensures r.Err? ==> |r.error| > 0
    ensures r.Err? ==> (Issue("email", "Ongeldig e-mailadres") in r.error <==> !ext.isEmail(x.email))
    ensures r.Err? ==> (Issue("sessionId", "Ongeldige sessie ID") in r.error <==> !IsUuid(x.sessionId))
    ensures r.Err? ==> (Issue("name", NameMessage) in r.error <==> CodeUnits(x.name) < 2)
    ensures r.Err? ==> (Issue("department", DepartmentMessage) in r.error <==> CodeUnits(x.department) < 2)
  {
    var issues :=
      (if ext.isEmail(x.email) then [] else [Issue("email", "Ongeldig e-mailadres")]) +
      (if IsUuid(x.sessionId) then [] else [Issue("sessionId", "Ongeldige sessie ID")]) +
      (if CodeUnits(x.name) >= 2 then [] else [Issue("name", NameMessage)]) +
      (if CodeUnits(x.department) >= 2 then [] else [Issue("department", DepartmentMessage)]);
    if issues == [] then Ok(x) else Err(issues)
  }

  /** A name of one character above U+FFFF (one emoji) is two code units long and passes `min(2)`. */
  lemma AstralNamePassesMinimum(x: RegistrationInput, ext: ExternalChecks)
    requires |x.name| == 1 && IsAstral(x.name[0])
    ensures CodeUnits(x.name) == 2
    ensures RegistrationSchema(x, ext).Err? ==> Issue("name", NameMessage) !in RegistrationSchema(x, ext).error
  {
    assert x.name[1..] == [];
  }

  // ---------------------------------------------------------------- session

  /** A session body as parsed from JSON, before defaults are applied. */
  datatype SessionInput = SessionInput(
    conversation_type_id: string,
    date: string,
    start_time: string,
    end_time: Option<string>,
    location: string,
    is_online: Option<bool>,
    teams_link: Option<string>,
    facilitator: string,
    facilitator_user_id: Option<string>,
    max_participants: real,
    status: Option<string>,
    target_audience: Option<string>,
    notes: Option<string>,
    instructions: Option<string>)

  /** A session body that passed the schema, with `is_online` and `status` defaulted. */
  datatype SessionData = SessionData(
    conversation_type_id: string,
    date: string,
    start_time: string,
    end_time: Option<string>,
    location: string,
    is_online: bool,
    teams_link: Option<string>,
    facilitator: string,
    facilitator_user_id: Option<string>,
    max_participants: int,
    status: SessionStatus,
    target_audience: Option<string>,
    notes: Option<string>,
    instructions: Option<string>)

  function ParseSessionStatus(s: string): Option<SessionStatus> {
    if s == "draft" then Some(Draft)
    else if s == "published" then Some(Published)
    else if s == "cancelled" then Some(SessionStatus.Cancelled)
    else None
  }

  predicate IsInteger(x: real) {
    x.Floor as real == x
  }

  const TimeFormatMessage := "Ongeldig tijdformaat (HH:MM)"
  const TeamsLinkRequiredMessage := "Teams-link is verplicht voor online sessies"
  const EndAfterStartMessage := "Eindtijd moet na starttijd zijn"

  function OptionalIssue(ok: bool, path: string, message: string): seq<Issue> {
    if ok then [] else [Issue(path, message)]
  }

  const ConversationTypeMessage := "Ongeldig gesprekstype"
  const DateMessage := "Datum moet vandaag of in de toekomst zijn"
  const LocationMessage := "Locatie moet minimaal 2 tekens bevatten"
  const UrlMessage := "Ongeldige URL"
  const FacilitatorMessage := "Begeleider moet minimaal 2 tekens bevatten"
  const UserIdMessage := "Ongeldige gebruiker ID"
  const IntegerMessage := "Expected integer, received float"
  const MinimumMessage := "Minimaal 1 deelnemer vereist"
  const EnumMessage := "Invalid enum value. Expected 'draft' | 'published' | 'cancelled', received '"

  /** The per-field checks of `sessionSchema`, in the order the schema lists the fields. */
  function SessionFieldIssues(x: SessionInput, ext: ExternalChecks): seq<Issue> {
    OptionalIssue(IsUuid(x.conversation_type_id), "conversation_type_id", ConversationTypeMessage) +
    OptionalIssue(ext.notBeforeToday(x.date), "date", DateMessage) +
    OptionalIssue(IsClockTime(x.start_time), "start_time", TimeFormatMessage) +
    OptionalIssue(x.end_time.None? || IsClockTime(x.end_time.value), "end_time", TimeFormatMessage) +
    OptionalIssue(CodeUnits(x.location) >= 2, "location", LocationMessage) +
    OptionalIssue(x.teams_link.None? || ext.isUrl(x.teams_link.value), "teams_link", UrlMessage) +
    OptionalIssue(CodeUnits(x.facilitator) >= 2, "facilitator", FacilitatorMessage) +
    OptionalIssue(x.facilitator_user_id.None? || IsUuid(x.facilitator_user_id.value),
      "facilitator_user_id", UserIdMessage) +
    OptionalIssue(IsInteger(x.max_participants), "max_participants", IntegerMessage) +
    OptionalIssue(x.max_participants >= 1.0, "max_participants", MinimumMessage) +
    OptionalIssue(x.status.None? || ParseSessionStatus(x.status.value).Some?, "status",
      EnumMessage + x.status.GetOr("") + "'")
  }

  /** The first refinement: an online session needs a (non-empty) Teams link. */
  predicate MissingTeamsLink(x: SessionInput) {
    x.is_online.GetOr(false) && !HasText(x.teams_link)
  }

  /**
   * The second refinement: when both times are non-empty, the end must come
   * strictly after the start. It runs whether or not the times matched the
   * pattern, and a time that does not read as two numbers compares false.
   */
  predicate EndNotAfterStart(x: SessionInput) {
    HasText(x.end_time) && x.start_time != "" &&
    !After(RefinementMinutes(x.end_time.value), RefinementMinutes(x.start_time))
  }

  function SessionRefinementIssues(x: SessionInput): seq<Issue> {
    OptionalIssue(!MissingTeamsLink(x), "teams_link", TeamsLinkRequiredMessage) +
    OptionalIssue(!EndNotAfterStart(x), "end_time", EndAfterStartMessage)
  }

  /** What an accepted session body satisfies, stated field by field. */
  predicate SessionRules(x: SessionInput, ext: ExternalChecks) {
    && IsUuid(x.conversation_type_id)
    && ext.notBeforeToday(x.date)
    && IsClockTime(x.start_time)
    && (x.end_time.Some? ==> IsClockTime(x.end_time.value)
                             && MinuteOfDay(x.end_time.value) > MinuteOfDay(x.start_time))
    && CodeUnits(x.location) >= 2
    && (x.teams_link.Some? ==> ext.isUrl(x.teams_link.value))
    && (x.is_online == Some(true) ==> x.teams_link.Some? && x.teams_link.value != "")
    && CodeUnits(x.facilitator) >= 2
    && (x.facilitator_user_id.Some? ==> IsUuid(x.facilitator_user_id.value))
    && IsInteger(x.max_participants) && x.max_participants >= 1.0
    && (x.status.Some? ==> x.status.value in {"draft", "published", "cancelled"})
  }

  function WithDefaults(x: SessionInput): SessionData {
    SessionData(
      x.conversation_type_id, x.date, x.start_time, x.end_time, x.location,
      x.is_online.GetOr(false), x.teams_link, x.facilitator, x.facilitator_user_id,
      x.max_participants.Floor,
      if x.status.Some? && ParseSessionStatus(x.status.value).Some?
      then ParseSessionStatus(x.status.value).value else Draft,
      x.target_audience, x.notes, x.instructions)
  }

  /**
   * A failed enum check aborts the object (the other field checks only mark
   * it dirty), and the refinements then do not run.
   */
  predicate StatusAccepted(x: SessionInput) {
    x.status.None? || ParseSessionStatus(x.status.value).Some?
  }

  /** `sessionSchema` with its two refinements. */
  function SessionSchema(x: SessionInput, ext: ExternalChecks): (r: Result<SessionData, seq<Issue>>)
    ensures r.Ok? <==> SessionRules(x, ext)
    ensures r.Err? ==> |r.error| > 0
    ensures r.Ok? ==> r.value.is_online == (x.is_online == Some(true))
    ensures r.Ok? && x.status.None? ==> r.value.status == Draft
    ensures r.Ok? ==> r.value.max_participants >= 1 && r.value.max_participants as real == x.max_participants
    ensures r.Ok? ==> r.value.status.Name() == x.status.GetOr("draft")
  {
    var issues := SessionFieldIssues(x, ext) +
      (if StatusAccepted(x) then SessionRefinementIssues(x) else []);
    NoIssuesIff(x, ext);
    if issues == [] then Ok(WithDefaults(x)) else Err(issues)
  }

  /** The schema reports no issue exactly when the rules hold. */
  lemma NoIssuesIff(x: SessionInput, ext: ExternalChecks)
    ensures SessionFieldIssues(x, ext) + (if StatusAccepted(x) then SessionRefinementIssues(x) else []) == []
      <==> SessionRules(x, ext)
  {
    if SessionFieldIssues(x, ext) == [] {
      assert StatusAccepted(x);
      RefinementsIff(x);
    }
  }

  /** With every field well formed, the refinements report nothing exactly when their rules hold. */
  lemma RefinementsIff(x: SessionInput)
    requires IsClockTime(x.start_time) && (x.end_time.None? || IsClockTime(x.end_time.value))
    ensures SessionRefinementIssues(x) == [] <==>
      (x.end_time.Some? ==> MinuteOfDay(x.end_time.value) > MinuteOfDay(x.start_time)) &&
      (x.is_online == Some(true) ==> x.teams_link.Some? && x.teams_link.value != "")
  {
    RefinementMinutesOfClock(x.start_time);
    if x.end_time.Some? {
      RefinementMinutesOfClock(x.end_time.value);
    }
  }

  /** An online session without a link is rejected, with the issue on `teams_link`. */
  lemma OnlineWithoutLinkRejected(x: SessionInput, ext: ExternalChecks)
    requires x.is_online == Some(true) && (x.teams_link.None? || x.teams_link.value == "")
    ensures SessionSchema(x, ext).Err?
    ensures StatusAccepted(x) ==>
      Issue("teams_link", TeamsLinkRequiredMessage) in SessionSchema(x, ext).error
  {
    if !StatusAccepted(x) { return; }
    var issues := SessionFieldIssues(x, ext) + SessionRefinementIssues(x);
    assert SessionRefinementIssues(x)[0] == Issue("teams_link", TeamsLinkRequiredMessage);
    assert issues[|SessionFieldIssues(x, ext)|] == Issue("teams_link", TeamsLinkRequiredMessage);
  }

  /**
   * Two non-empty times whose arithmetic does not put the end after the start
   * are rejected with the issue on `end_time`, whether or not they matched
   * the pattern.
   */
  lemma EndNotAfterStartRejected(x: SessionInput, ext: ExternalChecks)
    requires EndNotAfterStart(x)
    ensures SessionSchema(x, ext).Err?
    ensures StatusAccepted(x) ==>
      Issue("end_time", EndAfterStartMessage) in SessionSchema(x, ext).error
  {
    if !StatusAccepted(x) {
      assert SessionFieldIssues(x, ext) != [];
      return;
    }
    var issues := SessionFieldIssues(x, ext) + SessionRefinementIssues(x);
    var r := SessionRefinementIssues(x);
    assert r[|r| - 1] == Issue("end_time", EndAfterStartMessage);
    assert issues[|issues| - 1] == r[|r| - 1];
  }

  /** For well-formed times, equal or reversed times trigger the refinement. */
  lemma ClockTimesNotAfter(x: SessionInput)
    requires x.end_time.Some? && IsClockTime(x.end_time.value) && IsClockTime(x.start_time)
    ensures EndNotAfterStart(x) <==> MinuteOfDay(x.end_time.value) <= MinuteOfDay(x.start_time)
  {
    RefinementMinutesOfClock(x.start_time);
    RefinementMinutesOfClock(x.end_time.value);
  }

  /** The refinement also runs on times the pattern rejected: "09:60" reads as 600 minutes, not after "10:00". */
  lemma OutOfRangeEndCompared(x: SessionInput)
    requires x.start_time == "10:00" && x.end_time == Some("09:60")
    ensures EndNotAfterStart(x)
  {
    TenOClock();
    NineSixty();
  }

  lemma TenOClock()
    ensures RefinementMinutes("10:00") == Some(600)
  {
    RefinementMinutesOfClock("10:00");
    assert MinuteOfDay("10:00") == 600;
  }

  /** "09:60" splits into "09" and "60" and reads as 9 * 60 + 60 minutes. */
  lemma NineSixty()
    ensures RefinementMinutes("09:60") == Some(600)
  {
    assert "09:60" == "09" + [':'] + "60";
    SplitAtSeparator("09", "60", ':');
    SplitNoSeparator("60", ':');
    DigitsValue("09", 9);
    DigitsValue("60", 60);
    MinutesOfSplit("09:60", "09", "60", 9, 60);
  }

  lemma DigitsValue(t: string, v: nat)
    requires |t| == 2 && IsDigit(t[0]) && IsDigit(t[1])
    requires 10 * DigitValue(t[0]) + DigitValue(t[1]) == v
    ensures NumberOf(t) == Some(v)
  {
    NumberOfDigits(t);
    DecimalTwoDigits(t);
    assert DecimalValue(t) == v;
  }

  /** A time without ':' reads as NaN, so it is never after, nor before, the other time. */
  lemma NonNumericEndCompared(x: SessionInput)
    requires HasText(x.end_time) && x.start_time != "" && ':' !in x.end_time.value
    ensures EndNotAfterStart(x)
  {
    NoColonIsNaN(x.end_time.value);
  }

  // ---------------------------------------------------------------- header

  datatype HeaderInput = HeaderInput(title: string, subtitle: string, is_active: Option<bool>)

  datatype HeaderData = HeaderData(title: string, subtitle: string, is_active: bool)

  /** `headerSchema`: non-empty title and subtitle; `is_active` defaults to false. */
  function HeaderSchema(x: HeaderInput): (r: Result<HeaderData, seq<Issue>>)
    ensures r.Ok? <==> x.title != "" && x.subtitle != ""
    ensures r.Ok? ==> r.value.title == x.title && r.value.subtitle == x.subtitle
    ensures r.Ok? ==> (r.value.is_active <==> x.is_active == Some(true))
    ensures r.Err? ==> |r.error| > 0
  {
    var issues :=
      OptionalIssue(|x.title| >= 1, "title", "Titel is verplicht") +
      OptionalIssue(|x.subtitle| >= 1, "subtitle", "Subtitle is verplicht");
    if issues == [] then Ok(HeaderData(x.title, x.subtitle, x.is_active.GetOr(false))) else Err(issues)
  }

  /** `cancelSessionSchema`: a non-empty reason. */
  function CancelSessionSchema(reason: string): (r: Result<string, seq<Issue>>)
    ensures r.Ok? <==> reason != ""
    ensures r.Ok? ==> r.value == reason
    ensures r.Err? ==> r.error == [Issue("cancellation_reason", "Reden voor annulering is verplicht")]
  {
    if |reason| >= 1 then Ok(reason)
    else Err([Issue("cancellation_reason", "Reden voor annulering is verplicht")])
  }
}
