/**
 * The admin form that creates or edits a session: the time and date
 * helpers it uses, its state (the form fields, the error per field, the
 * submitting flag) and the handlers that change that state.
 */
module SessionForm {
  import opened Wrappers
  import opened Text
  import opened Records

  // ---------------------------------------------------------------- time helpers

  datatype TimeParts = TimeParts(hours: string, minutes: string)

  /** `parseTime`: the text before the first ':' and the second ':'-part, each '' when absent. */
  function ParseTime(time: string): (p: TimeParts)
    ensures time == "" ==> p == TimeParts("", "")
    ensures ':' !in p.hours && ':' !in p.minutes
  {
    if time == "" then TimeParts("", "")
    else
      var parts := Split(time, ':');
      TimeParts(parts[0], if |parts| > 1 then parts[1] else "")
  }

  /** What `parseTime` reads: hours end at the first ':', minutes at the next one. */
  lemma ParseTimeReads(time: string)
    ensures ParseTime(time).hours == time[..FirstIndex(time, ':')]
    ensures ':' !in time ==> ParseTime(time).minutes == ""
    ensures ':' in time ==>
      var rest := time[FirstIndex(time, ':') + 1..];
      ParseTime(time).minutes == rest[..FirstIndex(rest, ':')]
  {
    SplitFirst(time, ':');
    if ':' in time {
      var i := FirstIndex(time, ':');
      var a, b := time[..i], time[i + 1..];
      assert time == a + [':'] + b;
      SplitAtSeparator(a, b, ':');
      SplitFirst(b, ':');
    }
  }

  /** The dropdowns write "hours:minutes", and `parseTime` reads the two parts back. */
  lemma ParseTimeRoundTrip(h: string, m: string)
    requires h != "" && ':' !in h && ':' !in m
    ensures ParseTime(h + ":" + m) == TimeParts(h, m)
  {
    assert h + ":" + m == h + [':'] + m;
    SplitAtSeparator(h, m, ':');
    SplitNoSeparator(m, ':');
  }

  function Pad2(s: string): (r: string)
    ensures |r| >= 2 && (|s| >= 2 ==> r == s)
  {
    PadStart(s, 2, '0')
  }

  /**
   * `toHHMM`: `None` for blank input or input without ':'; otherwise the
   * first two ':'-parts of the trimmed text, each padded with '0' to two
   * characters.
   */
  function ToHHMM(t: string): (r: Option<string>)
    ensures r.None? <==> AllWhite(t) || ':' !in t
    ensures r.Some? ==>
      var p := ParseTime(Trim(t));
      r.value == Pad2(p.hours) + ":" + Pad2(p.minutes)
  {
    var s := Trim(t);
    TrimEmptyIff(t);
    TrimKeepsNonWhite(t, ':');
    if t == "" || s == "" then None
    else
      var parts := Split(s, ':');
      SplitFirst(s, ':');
      if |parts| >= 2 then Some(Pad2(parts[0]) + ":" + Pad2(parts[1]))
      else None
  }

  /** Text that neither starts nor ends in white space is its own trim. */
  lemma TrimClean(s: string)
    requires s != [] && !IsWhite(s[0]) && !IsWhite(s[|s| - 1])
    ensures Trim(s) == s && !AllWhite(s)
  {
    TrimStartFixed(s);
    TrimEndFixed(s);
  }

  /** Text that neither starts nor ends in white space. */
  predicate Clean(s: string) {
    s != [] && !IsWhite(s[0]) && !IsWhite(s[|s| - 1])
  }

  /** On clean text holding a ':', `toHHMM` pads the first two parts of the split. */
  lemma ToHHMMClean(s: string)
    requires Clean(s) && ':' in s
    ensures |Split(s, ':')| >= 2
    ensures ToHHMM(s) == Some(Pad2(Split(s, ':')[0]) + ":" + Pad2(Split(s, ':')[1]))
  {
    TrimClean(s);
    SplitFirst(s, ':');
  }

  /** `toHHMM` of clean "h:m" pads h and m. */
  lemma ToHHMMOfClean(h: string, m: string)
    requires Clean(h + ":" + m)
    requires h != "" && ':' !in h && ':' !in m
    ensures ToHHMM(h + ":" + m) == Some(Pad2(h) + ":" + Pad2(m))
  {
    var s := h + ":" + m;
    assert s == h + [':'] + m;
    ToHHMMClean(s);
    SplitAtSeparator(h, m, ':');
    SplitNoSeparator(m, ':');
  }

  /** `toHHMM` of clean "h:m:tail" pads h and m and drops the tail. */
  lemma ToHHMMOfCleanLonger(h: string, m: string, tail: string)
    requires Clean(h + ":" + m + ":" + tail)
    requires h != "" && ':' !in h && ':' !in m
    ensures ToHHMM(h + ":" + m + ":" + tail) == Some(Pad2(h) + ":" + Pad2(m))
  {
    var s := h + ":" + m + ":" + tail;
    assert s == h + [':'] + (m + [':'] + tail);
    ToHHMMClean(s);
    SplitAtSeparator(h, m + [':'] + tail, ':');
    SplitAtSeparator(m, tail, ':');
  }

  /** A well-formed "HH:MM" is left as it is. */
  lemma ToHHMMKeepsClockTime(hh: string, mm: string)
    requires |hh| == 2 && |mm| == 2 && ':' !in hh && ':' !in mm
    requires !IsWhite(hh[0]) && !IsWhite(mm[1])
    ensures ToHHMM(hh + ":" + mm) == Some(hh + ":" + mm)
  {
    var t := hh + ":" + mm;
    assert t[0] == hh[0] && t[4] == mm[1];
    ToHHMMOfClean(hh, mm);
  }

  /** A stored "HH:MM:SS" loses its seconds. */
  lemma ToHHMMDropsSeconds(hh: string, mm: string, ss: string)
    requires |hh| == 2 && |mm| == 2 && ':' !in hh && ':' !in mm
    requires ss != "" && !IsWhite(hh[0]) && !IsWhite(ss[|ss| - 1])
    ensures ToHHMM(hh + ":" + mm + ":" + ss) == Some(hh + ":" + mm)
  {
    var t := hh + ":" + mm + ":" + ss;
    assert t[0] == hh[0] && t[|t| - 1] == ss[|ss| - 1];
    ToHHMMOfCleanLonger(hh, mm, ss);
  }

  /**
   * `toHHMM` applied to its own result gives that result again, when the
   * result does not end in white space.
   */
  lemma ToHHMMIdempotent(t: string)
    requires ToHHMM(t).Some? && !IsWhite(ToHHMM(t).value[|ToHHMM(t).value| - 1])
    ensures ToHHMM(ToHHMM(t).value) == ToHHMM(t)
  {
    var p := ParseTime(Trim(t));
    var h, m := Pad2(p.hours), Pad2(p.minutes);
    var out := h + ":" + m;
    assert ToHHMM(t).value == out;
    PaddedHoursClean(t);
    NoColonAfterPad(p.hours);
    NoColonAfterPad(p.minutes);
    assert out[0] == h[0];
    ToHHMMOfClean(h, m);
  }

  /** The padded hours of a time `toHHMM` accepts start with a character that is not white space. */
  lemma PaddedHoursClean(t: string)
    requires ToHHMM(t).Some?
    ensures !IsWhite(Pad2(ParseTime(Trim(t)).hours)[0])
  {
    var s := Trim(t);
    var hours := ParseTime(s).hours;
    TrimEmptyIff(t);
    ParseTimeReads(s);
    if |hours| >= 2 {
      assert Pad2(hours)[0] == s[0];
    } else {
      assert Pad2(hours)[0] == '0';
    }
  }

  lemma NoColonAfterPad(s: string)
    requires ':' !in s
    ensures ':' !in Pad2(s) && Pad2(Pad2(s)) == Pad2(s)
  {
    var r := Pad2(s);
    var k := |r| - |s|;
    assert forall i :: k <= i < |r| ==> r[i] == r[k..][i - k];
  }

  /** `toHHMM` reads only the trimmed text. */
  lemma ToHHMMOfTrim(t: string)
    ensures ToHHMM(t) == ToHHMM(Trim(t))
  {
    TrimIdempotent(t);
    TrimEmptyIff(t);
    TrimEmptyIff(Trim(t));
    TrimKeepsNonWhite(t, ':');
    TrimKeepsNonWhite(Trim(t), ':');
  }

  lemma TrimDropsTrailingSpace(v: string)
    requires Clean(v)
    ensures Trim(v + [' ']) == v
  {
    var u := v + [' '];
    assert u[0] == v[0];
    TrimStartFixed(u);
    assert u[..|u| - 1] == v;
    TrimEndFixed(v);
  }

  lemma Pad2FirstNotWhite(h: string)
    requires h != "" && !IsWhite(h[0])
    ensures !IsWhite(Pad2(h)[0])
  {
    if |h| < 2 {
      assert Pad2(h)[0] == '0';
    }
  }

  /**
   * Why the previous lemma needs its condition: a second part ending in a
   * space, followed by a third part, survives the first normalisation
   * (for instance "1:2 :3" gives "01:2 ") ...
   */
  lemma ToHHMMKeepsInnerSpace(h: string, d: char, tail: string)
    requires h != "" && ':' !in h && !IsWhite(h[0])
    requires d != ':' && !IsWhite(d) && tail != "" && !IsWhite(tail[|tail| - 1])
    ensures ToHHMM(h + ":" + [d, ' '] + ":" + tail) == Some(Pad2(h) + ":" + [d, ' '])
  {
    var s := h + ":" + [d, ' '] + ":" + tail;
    assert s[0] == h[0] && s[|s| - 1] == tail[|tail| - 1];
    ToHHMMOfCleanLonger(h, [d, ' '], tail);
  }

  /** ... but not the second ("01:2 " gives "01:02"). */
  lemma ToHHMMDropsInnerSpace(h: string, d: char)
    requires h != "" && ':' !in h && !IsWhite(h[0]) && d != ':' && !IsWhite(d)
    ensures ToHHMM(Pad2(h) + ":" + [d, ' ']) == Some(Pad2(h) + ":" + ['0', d])
  {
    var p := Pad2(h);
    Pad2FirstNotWhite(h);
    NoColonAfterPad(h);
    var v := p + ":" + [d];
    assert v[0] == p[0] && v[|v| - 1] == d;
    TrimDropsTrailingSpace(v);
    assert v + [' '] == p + ":" + [d, ' '];
    ToHHMMOfTrim(v + [' ']);
    ToHHMMOfClean(p, [d]);
    Pad2OneChar(d);
  }

  lemma Pad2OneChar(d: char)
    ensures Pad2([d]) == ['0', d]
  {
    var q := Pad2([d]);
    assert q[1..] == [d] && q[0] == '0';
    assert q == [q[0]] + q[1..];
  }

  // ---------------------------------------------------------------- date helpers

  type Month = m: int | 1 <= m <= 12 witness 1
  type Day = d: int | 1 <= d <= 31 witness 1

  /** What the date picker's `Date` yields in local time: `getFullYear()`, `getMonth() + 1`, `getDate()`. */
  datatype CalendarDate = CalendarDate(year: int, month: Month, day: Day)

  /** `n.toString().padStart(2, '0')` for a month or day: two digits that read back as `n`. */
  function TwoDigits(n: int): (r: string)
    requires 1 <= n <= 31
    ensures |r| == 2
    ensures AllDigits(r) && DecimalValue(r) == n
  {
    NatToStringSmall(n);
    PaddedValue(n);
    Pad2(NatToString(n))
  }

  lemma PaddedValue(n: nat)
    requires 1 <= n < 100
    ensures AllDigits(Pad2(NatToString(n))) && DecimalValue(Pad2(NatToString(n))) == n
  {
    NatToStringSmall(n);
    NatToStringValue(n);
    var r := Pad2(NatToString(n));
    if n < 10 {
      assert r[1..] == NatToString(n) && r[0] == '0';
      assert r[..1][..0] == [];
    }
  }

  lemma NatToStringSmall(n: nat)
    requires n < 100
    ensures |NatToString(n)| == if n < 10 then 1 else 2
  {
    if n >= 10 {
      assert NatToString(n) == NatToString(n / 10) + [DigitChar(n % 10)];
    }
  }

  lemma NatToStringFourDigits(n: nat)
    requires 1000 <= n <= 9999
    ensures |NatToString(n)| == 4
  {
    NatToStringSmall(n / 100);
    assert NatToString(n / 10) == NatToString(n / 100) + [DigitChar(n / 10 % 10)];
  }

  /** `handleDateChange`'s storage form, `${year}-${month}-${day}`. */
  function StorageDate(d: CalendarDate): (r: string)
    ensures '-' in r
  {
    var r := IntToString(d.year) + "-" + TwoDigits(d.month) + "-" + TwoDigits(d.day);
    assert r[|IntToString(d.year)|] == '-';
    r
  }

  /** `formatDateForDisplay`: DD-MM-YYYY, and '' without a date. */
  function DisplayDate(d: Option<CalendarDate>): (r: string)
    ensures d.None? <==> r == ""
  {
    match d
    case None => ""
    case Some(c) => TwoDigits(c.day) + "-" + TwoDigits(c.month) + "-" + IntToString(c.year)
  }

  /**
   * The year, month and day pieces read back as their numbers; a negative
   * year is an empty piece (before its minus sign) and then its digits.
   */
  predicate ReadsAsDate(pieces: seq<string>, d: CalendarDate) {
    var k := if d.year < 0 then 1 else 0;
    |pieces| == k + 3 && (k == 1 ==> pieces[0] == "") &&
    AllDigits(pieces[k]) && DecimalValue(pieces[k]) == (if d.year < 0 then -d.year else d.year) &&
    AllDigits(pieces[k + 1]) && DecimalValue(pieces[k + 1]) == d.month &&
    AllDigits(pieces[k + 2]) && DecimalValue(pieces[k + 2]) == d.day
  }

  lemma DigitsWithoutDash(t: string)
    requires AllDigits(t)
    ensures '-' !in t
  {
  }

  /** The digits of a year without its sign, and `String(year)` in terms of them. */
  lemma YearDigits(year: int) returns (y: string)
    ensures AllDigits(y) && DecimalValue(y) == (if year < 0 then -year else year) && '-' !in y
    ensures IntToString(year) == if year < 0 then "-" + y else y
  {
    y := NatToString(if year < 0 then -year else year);
    NatToStringValue(if year < 0 then -year else year);
    DigitsWithoutDash(y);
  }

  /**
   * The stored date splits at '-' into the year, month and day, each
   * reading back as its number.
   */
  lemma StorageDateReadsBack(d: CalendarDate)
    ensures ReadsAsDate(Split(StorageDate(d), '-'), d)
  {
    var m, da := TwoDigits(d.month), TwoDigits(d.day);
    var y := YearDigits(d.year);
    DigitsWithoutDash(m);
    DigitsWithoutDash(da);
    StoragePieces(IntToString(d.year), y, m, da, d.year < 0);
  }

  lemma StoragePieces(ys: string, y: string, m: string, da: string, negative: bool)
    requires '-' !in y && '-' !in m && '-' !in da
    requires ys == if negative then "-" + y else y
    ensures Split(ys + "-" + m + "-" + da, '-') == if negative then ["", y, m, da] else [y, m, da]
  {
    if negative {
      assert ys == [] + "-" + y;
      SplitSnoc([], y, '-');
    } else {
      SplitNoSeparator(y, '-');
    }
    SplitSnoc(ys, m, '-');
    SplitSnoc(ys + "-" + m, da, '-');
  }

  /**
   * The day, month and year pieces of a display text read back as their
   * numbers; a negative year is an empty piece and then its digits.
   */
  predicate ReadsAsDisplayDate(pieces: seq<string>, d: CalendarDate) {
    var k := if d.year < 0 then 1 else 0;
    |pieces| == k + 3 && (k == 1 ==> pieces[2] == "") &&
    AllDigits(pieces[0]) && DecimalValue(pieces[0]) == d.day &&
    AllDigits(pieces[1]) && DecimalValue(pieces[1]) == d.month &&
    AllDigits(pieces[k + 2]) && DecimalValue(pieces[k + 2]) == (if d.year < 0 then -d.year else d.year)
  }

  /**
   * The display form splits at '-' into the day, the month and the year,
   * each reading back as its number; without a date it is empty.
   */
  lemma DisplayDateReadsBack(d: CalendarDate)
    ensures ReadsAsDisplayDate(Split(DisplayDate(Some(d)), '-'), d)
  {
    var m, da := TwoDigits(d.month), TwoDigits(d.day);
    var y := YearDigits(d.year);
    DigitsWithoutDash(m);
    DigitsWithoutDash(da);
    DisplayPieces(IntToString(d.year), y, m, da, d.year < 0);
    DisplayPiecesRead(Split(DisplayDate(Some(d)), '-'), y, m, da, d);
  }

  lemma DisplayPiecesRead(pieces: seq<string>, y: string, m: string, da: string, d: CalendarDate)
    requires AllDigits(y) && DecimalValue(y) == (if d.year < 0 then -d.year else d.year)
    requires AllDigits(m) && DecimalValue(m) == d.month
    requires AllDigits(da) && DecimalValue(da) == d.day
    requires pieces == if d.year < 0 then [da, m, "", y] else [da, m, y]
    ensures ReadsAsDisplayDate(pieces, d)
  {
  }

  lemma DisplayPieces(ys: string, y: string, m: string, da: string, negative: bool)
    requires '-' !in y && '-' !in m && '-' !in da
    requires ys == if negative then "-" + y else y
    ensures Split(da + "-" + m + "-" + ys, '-') == if negative then [da, m, "", y] else [da, m, y]
  {
    var x := da + "-" + m;
    SplitNoSeparator(da, '-');
    SplitSnoc(da, m, '-');
    if negative {
      assert x + "-" + ys == x + "-" + "" + "-" + y;
      SplitSnoc(x, "", '-');
      SplitSnoc(x + "-" + "", y, '-');
    } else {
      SplitSnoc(x, y, '-');
    }
  }

  /** For four-digit years the display form is the storage form's parts in reverse order. */
  lemma DisplayReversesStorage(d: CalendarDate)
    requires 1000 <= d.year <= 9999
    ensures var s := StorageDate(d);
      |s| == 10 && DisplayDate(Some(d)) == s[8..10] + "-" + s[5..7] + "-" + s[..4]
  {
    NatToStringFourDigits(d.year);
    var y, mo, da := IntToString(d.year), TwoDigits(d.month), TwoDigits(d.day);
    assert |y| == 4;
    var s := StorageDate(d);
    assert s == y + "-" + mo + "-" + da;
    SlicesOfDate(y, mo, da);
  }

  lemma SlicesOfDate(y: string, mo: string, da: string)
    requires |y| == 4 && |mo| == 2 && |da| == 2
    ensures var s := y + "-" + mo + "-" + da;
      |s| == 10 && s[..4] == y && s[5..7] == mo && s[8..10] == da
  {
    var s := y + "-" + mo + "-" + da;
    assert s[..4] == y;
    assert s[5..7] == mo;
    assert s[8..10] == da;
  }

  /** `parseDateString`: no date for ''; otherwise whatever the date parser makes of "<s>T00:00:00". */
  function ParseDateString(s: string, parseLocal: string -> Option<CalendarDate>): (r: Option<CalendarDate>)
    ensures s == "" ==> r.None?
  {
    if s == "" then None else parseLocal(s + "T00:00:00")
  }

  // ---------------------------------------------------------------- form state

  /** The form's fields. `max_participants` is `None` when the number input reads as NaN. */
  datatype FormData = FormData(
    conversation_type_id: string,
    date: string,
    start_time: string,
    end_time: string,
    location: string,
    is_online: bool,
    teams_link: string,
    facilitator: string,
    facilitator_user_id: string,
    max_participants: Option<int>,
    status: string,
    target_audience: string,
    notes: string,
    instructions: string)

  /** The initial fields: the edited session's values, with '' (or 10, false, 'draft') for the falsy ones. */
  function InitialFormData(session: Option<Session>): (fd: FormData)
    ensures session.None? ==> fd.max_participants == Some(10) && fd.status == "draft" && fd.date == ""
    ensures session.Some? && session.value.max_participants != 0 ==>
      fd.max_participants == Some(session.value.max_participants)
  {
    match session
    case None => FormData("", "", "", "", "", false, "", "", "", Some(10), "draft", "", "", "")
    case Some(s) =>
      FormData(s.conversation_type_id, s.date, s.start_time, s.end_time.GetOr(""), s.location,
        s.is_online, s.teams_link.GetOr(""), s.facilitator, s.facilitator_user_id.GetOr(""),
        Some(if s.max_participants == 0 then 10 else s.max_participants), s.status.Name(),
        s.target_audience.GetOr(""), s.notes.GetOr(""), s.instructions.GetOr(""))
  }

  datatype TimeField = StartTime | EndTime {
    function Key(): string {
      match this
      case StartTime => "start_time"
      case EndTime => "end_time"
    }
  }

  function TimeOf(fd: FormData, field: TimeField): string {
    match field
    case StartTime => fd.start_time
    case EndTime => fd.end_time
  }

  function WithTime(fd: FormData, field: TimeField, t: string): (r: FormData)
    ensures TimeOf(r, field) == t
    ensures r.date == fd.date && r.location == fd.location && r.facilitator == fd.facilitator
    ensures field == StartTime ==> r.end_time == fd.end_time
    ensures field == EndTime ==> r.start_time == fd.start_time
  {
    match field
    case StartTime => fd.(start_time := t)
    case EndTime => fd.(end_time := t)
  }

  /** One client-side check of `handleSubmit`, in the order they run. */
  datatype FormCheck = DateCheck | StartCheck | EndCheck | TypeCheck | LocationCheck | FacilitatorCheck {
    function Field(): string {
      match this
      case DateCheck => "date"
      case StartCheck => "start_time"
      case EndCheck => "end_time"
      case TypeCheck => "conversation_type_id"
      case LocationCheck => "location"
      case FacilitatorCheck => "facilitator"
    }
    function Message(): string {
      match this
      case DateCheck => "Selecteer een datum"
      case StartCheck => "Selecteer een starttijd"
      case EndCheck => "Selecteer een geldige eindtijd"
      case TypeCheck => "Selecteer een gesprekstype"
      case LocationCheck => "Locatie moet minimaal 2 tekens bevatten"
      case FacilitatorCheck => "Begeleider moet minimaal 2 tekens bevatten"
    }
    function Rank(): nat {
      match this
      case DateCheck => 0
      case StartCheck => 1
      case EndCheck => 2
      case TypeCheck => 3
      case LocationCheck => 4
      case FacilitatorCheck => 5
    }
  }

  predicate Passes(fd: FormData, c: FormCheck) {
    match c
    case DateCheck => '-' in fd.date
    case StartCheck => ':' in fd.start_time
    case EndCheck => fd.end_time == "" || ':' in fd.end_time
    case TypeCheck => fd.conversation_type_id != ""
    case LocationCheck => CodeUnits(Trim(fd.location)) >= 2
    case FacilitatorCheck => CodeUnits(Trim(fd.facilitator)) >= 2
  }

  /** The chain of early returns in `handleSubmit`: the first check that fails, if any. */
  function FirstFailure(fd: FormData): (r: Option<FormCheck>)
    ensures r.Some? ==> !Passes(fd, r.value) && forall c: FormCheck :: c.Rank() < r.value.Rank() ==> Passes(fd, c)
    ensures r.None? <==> forall c: FormCheck :: Passes(fd, c)
  {
    if fd.date == "" || '-' !in fd.date then Some(DateCheck)
    else if fd.start_time == "" || ':' !in fd.start_time then Some(StartCheck)
    else if fd.end_time != "" && ':' !in fd.end_time then Some(EndCheck)
    else if fd.conversation_type_id == "" then Some(TypeCheck)
    else if fd.location == "" || CodeUnits(Trim(fd.location)) < 2 then Some(LocationCheck)
    else if fd.facilitator == "" || CodeUnits(Trim(fd.facilitator)) < 2 then Some(FacilitatorCheck)
    else None
  }

  /** `value?.trim() || undefined`. */
  function OptionalTrimmed(s: string): (r: Option<string>)
    ensures r.None? <==> AllWhite(s)
    ensures r.Some? ==> r.value == Trim(s) && r.value != ""
  {
    TrimEmptyIff(s);
    if Trim(s) == "" then None else Some(Trim(s))
  }

  /** `Number(max_participants) || 10`: NaN and 0 become 10. */
  function SubmittedMax(n: Option<int>): (r: int)
    ensures r != 0
    ensures n.Some? && n.value != 0 ==> r == n.value
  {
    if n.None? || n.value == 0 then 10 else n.value
  }

  /** The body the form sends. */
  datatype SubmitData = SubmitData(
    conversation_type_id: string,
    date: string,
    start_time: string,
    end_time: Option<string>,
    location: string,
    is_online: bool,
    teams_link: Option<string>,
    facilitator: string,
    facilitator_user_id: Option<string>,
    max_participants: int,
    status: string,
    target_audience: Option<string>,
    notes: Option<string>,
    instructions: Option<string>)

  function BuildSubmitData(fd: FormData): (d: SubmitData)
    ensures d.conversation_type_id == fd.conversation_type_id && d.date == fd.date
    ensures d.location == fd.location && d.facilitator == fd.facilitator
    ensures d.is_online == fd.is_online && d.status == fd.status
    ensures d.start_time == ToHHMM(fd.start_time).GetOr(fd.start_time)
    ensures d.end_time == if AllWhite(fd.end_time) then None else ToHHMM(Trim(fd.end_time))
    ensures d.max_participants == SubmittedMax(fd.max_participants) && d.max_participants != 0
    ensures d.teams_link == OptionalTrimmed(fd.teams_link)
    ensures d.facilitator_user_id == OptionalTrimmed(fd.facilitator_user_id)
    ensures d.target_audience == OptionalTrimmed(fd.target_audience)
    ensures d.notes == OptionalTrimmed(fd.notes) && d.instructions == OptionalTrimmed(fd.instructions)
  {
    var end := Trim(fd.end_time);
    TrimEmptyIff(fd.end_time);
    SubmitData(
      fd.conversation_type_id, fd.date,
      ToHHMM(fd.start_time).GetOr(fd.start_time),
      if end != "" then ToHHMM(end) else None,
      fd.location, fd.is_online, OptionalTrimmed(fd.teams_link), fd.facilitator,
      OptionalTrimmed(fd.facilitator_user_id), SubmittedMax(fd.max_participants), fd.status,
      OptionalTrimmed(fd.target_audience), OptionalTrimmed(fd.notes), OptionalTrimmed(fd.instructions))
  }

  /** Once the checks pass, an end time is sent exactly when one was entered, in "HH:MM" form. */
  lemma EndTimeSentWhenEntered(fd: FormData)
    requires FirstFailure(fd).None?
    ensures BuildSubmitData(fd).end_time.Some? <==> !AllWhite(fd.end_time)
    ensures BuildSubmitData(fd).end_time.Some? ==>
      BuildSubmitData(fd).end_time == ToHHMM(Trim(fd.end_time))
  {
    assert Passes(fd, EndCheck);
    var end := Trim(fd.end_time);
    TrimEmptyIff(fd.end_time);
    TrimKeepsNonWhite(fd.end_time, ':');
    if end != "" {
      TrimIdempotent(fd.end_time);
      TrimEmptyIff(end);
    }
  }

  /** The request the form sends: PUT to the session's own URL when editing, POST otherwise. */
  datatype SubmitRequest = SubmitRequest(httpMethod: string, url: string, data: SubmitData)

  // ---------------------------------------------------------------- server reply

  /** One entry of a server's `errors` list; absent members are `None`. */
  datatype ServerIssue = ServerIssue(path: Option<seq<string>>, field: Option<string>,
                                     message: Option<string>, msg: Option<string>)

  /** `err.path?.[0] || err.field || 'submit'`. */
  function IssueField(e: ServerIssue): (f: string)
    ensures f != ""
  {
    if e.path.Some? && |e.path.value| > 0 && e.path.value[0] != "" then e.path.value[0]
    else if e.field.Some? && e.field.value != "" then e.field.value
    else "submit"
  }

  /** `err.message || err.msg || 'Ongeldige waarde'`. */
  function IssueMessage(e: ServerIssue): (m: string)
    ensures m != ""
  {
    if e.message.Some? && e.message.value != "" then e.message.value
    else if e.msg.Some? && e.msg.value != "" then e.msg.value
    else "Ongeldige waarde"
  }

  /** The `reduce` into a field-to-message map, later entries overwriting earlier ones. */
  function ErrorMapOf(errs: seq<ServerIssue>): map<string, string> {
    if |errs| == 0 then map[]
    else ErrorMapOf(errs[..|errs| - 1])[IssueField(errs[|errs| - 1]) := IssueMessage(errs[|errs| - 1])]
  }

  /** The map's keys are exactly the issues' fields. */
  lemma {:induction false} ErrorMapKeys(errs: seq<ServerIssue>, k: string)
    ensures k in ErrorMapOf(errs) <==> exists i :: 0 <= i < |errs| && IssueField(errs[i]) == k
    decreases |errs|
  {
    if |errs| > 0 {
      var init := errs[..|errs| - 1];
      ErrorMapKeys(init, k);
      if k in ErrorMapOf(errs) && k != IssueField(errs[|errs| - 1]) {
        var i :| 0 <= i < |init| && IssueField(init[i]) == k;
        assert IssueField(errs[i]) == k;
      }
      if exists i :: 0 <= i < |errs| && IssueField(errs[i]) == k {
        var i :| 0 <= i < |errs| && IssueField(errs[i]) == k;
        if i < |init| {
          assert IssueField(init[i]) == k;
        }
      }
    }
  }

  /** A field holds the message of the last issue for it. */
  lemma {:induction false} ErrorMapLastWins(errs: seq<ServerIssue>, i: nat)
    requires i < |errs|
    requires forall j :: i < j < |errs| ==> IssueField(errs[j]) != IssueField(errs[i])
    ensures IssueField(errs[i]) in ErrorMapOf(errs)
    ensures ErrorMapOf(errs)[IssueField(errs[i])] == IssueMessage(errs[i])
    decreases |errs|
  {
    if i < |errs| - 1 {
      var init := errs[..|errs| - 1];
      assert forall j :: i < j < |init| ==> init[j] == errs[j];
      ErrorMapLastWins(init, i);
    }
  }

  /**
   * What the server said, as the form sees it. `Unreadable` is a body that
   * `response.json()` rejects; `bodyPresent` tells whether the response had
   * a body at all, since the `response.text()` that follows rejects once
   * `json()` has consumed one.
   */
  datatype ServerReply =
    | NetworkFailure
    | Unreadable(bodyPresent: bool)
    | Reply(ok: bool, errors: Option<seq<ServerIssue>>, error: Option<string>)

  const ResponseParseMessage := "Er is een fout opgetreden bij het verwerken van de response"
  const GenericMessage := "Er is een fout opgetreden"
  const RetryMessage := "Er is een fout opgetreden. Probeer het opnieuw."

  /** The errors the form shows after an unsuccessful reply (a successful one navigates away). */
  function ReplyErrors(reply: ServerReply): (e: map<string, string>)
    requires !(reply.Reply? && reply.ok)
    ensures reply.Reply? && reply.errors.Some? ==> e == ErrorMapOf(reply.errors.value)
    ensures reply.Reply? && reply.errors.None? ==> e.Keys == {"submit"}
    ensures reply.Reply? && reply.errors.None? ==>
      e["submit"] == (if reply.error.Some? && reply.error.value != "" then reply.error.value else GenericMessage)
    ensures reply.NetworkFailure? ==> e == map["submit" := RetryMessage]
    ensures reply.Unreadable? && reply.bodyPresent ==> e == map["submit" := RetryMessage]
    ensures reply.Unreadable? && !reply.bodyPresent ==> e == map["submit" := ResponseParseMessage]
  {
    match reply
    case NetworkFailure => map["submit" := RetryMessage]
    case Unreadable(bodyPresent) =>
      // `text()` on a consumed body throws into the outer catch
      if bodyPresent then map["submit" := RetryMessage] else map["submit" := ResponseParseMessage]
    case Reply(_, errs, err) =>
      if errs.Some? then ErrorMapOf(errs.value)
      else if err.Some? && err.value != "" then map["submit" := err.value]
      else map["submit" := GenericMessage]
  }

  class SessionFormState {
    /** The id of the edited session; `None` when creating. */
    const editing: Option<string>
    var formData: FormData
    var errors: map<string, string>
    var isSubmitting: bool

    constructor (session: Option<Session>)
      ensures editing == (if session.Some? then Some(session.value.id) else None)
      ensures formData == InitialFormData(session) && errors == map[] && !isSubmitting
    {
      editing := if session.Some? then Some(session.value.id) else None;
      formData := InitialFormData(session);
      errors := map[];
      isSubmitting := false;
    }

    /** `handleDateChange`: a picked date is stored as YYYY-MM-DD and clears the date error; no date clears the field. */
    method HandleDateChange(date: Option<CalendarDate>)
      modifies this
      ensures date.Some? ==> formData == old(formData).(date := StorageDate(date.value)) && errors == old(errors) - {"date"}
      ensures date.None? ==> formData == old(formData).(date := "") && errors == old(errors)
      ensures isSubmitting == old(isSubmitting)
    {
      if date.Some? {
        formData := formData.(date := StorageDate(date.value));
        errors := errors - {"date"};
      } else {
        formData := formData.(date := "");
      }
    }

    /** `handleTimeSelect`: "hours:minutes" when both are chosen (clearing that field's error), else ''. */
    method HandleTimeSelect(field: TimeField, hours: string, minutes: string)
      modifies this
      ensures hours != "" && minutes != "" ==>
        formData == WithTime(old(formData), field, hours + ":" + minutes) && errors == old(errors) - {field.Key()}
      ensures hours == "" || minutes == "" ==>
        formData == WithTime(old(formData), field, "") && errors == old(errors)
      ensures isSubmitting == old(isSubmitting)
    {
      if hours != "" && minutes != "" {
        formData := WithTime(formData, field, hours + ":" + minutes);
        errors := errors - {field.Key()};
      } else {
        formData := WithTime(formData, field, "");
      }
    }

    /** The hour dropdown: keeps the current minutes, or "00" when there are none. */
    method SelectHour(field: TimeField, hour: string)
      modifies this
      ensures var m := ParseTime(TimeOf(old(formData), field)).minutes;
        formData == WithTime(old(formData), field, if hour == "" then "" else hour + ":" + (if m == "" then "00" else m))
      ensures hour != "" ==> errors == old(errors) - {field.Key()}
      ensures hour == "" ==> errors == old(errors)
      ensures isSubmitting == old(isSubmitting)
    {
      var current := ParseTime(TimeOf(formData, field)).minutes;
      HandleTimeSelect(field, hour, if current == "" then "00" else current);
    }

    /** The minute dropdown: keeps the current hours, or "00" when there are none. */
    method SelectMinute(field: TimeField, minute: string)
      modifies this
      ensures var h := ParseTime(TimeOf(old(formData), field)).hours;
        formData == WithTime(old(formData), field, if minute == "" then "" else (if h == "" then "00" else h) + ":" + minute)
      ensures minute != "" ==> errors == old(errors) - {field.Key()}
      ensures minute == "" ==> errors == old(errors)
      ensures isSubmitting == old(isSubmitting)
    {
      var current := ParseTime(TimeOf(formData, field)).hours;
      HandleTimeSelect(field, if current == "" then "00" else current, minute);
    }

    /**
     * `handleSubmit` up to the request: the first failing check sets its
     * one error and nothing is sent; otherwise the flag goes up and the
     * request is built.
     */
    method HandleSubmit() returns (request: Option<SubmitRequest>)
      modifies this
      ensures formData == old(formData)
      ensures var f := FirstFailure(formData);
        && (f.Some? ==> request.None? && errors == map[f.value.Field() := f.value.Message()] && isSubmitting == old(isSubmitting))
        && (f.None? ==> request.Some? && errors == map[] && isSubmitting)
      ensures request.Some? ==> request.value.data == BuildSubmitData(formData)
      ensures request.Some? ==>
        if editing.Some? then request.value.httpMethod == "PUT" && request.value.url == "/api/admin/sessions/" + editing.value
        else request.value.httpMethod == "POST" && request.value.url == "/api/admin/sessions"
    {
      errors := map[];
      var failure := FirstFailure(formData);
      if failure.Some? {
        errors := map[failure.value.Field() := failure.value.Message()];
        return None;
      }
      isSubmitting := true;
      var url := if editing.Some? then "/api/admin/sessions/" + editing.value else "/api/admin/sessions";
      var verb := if editing.Some? then "PUT" else "POST";
      request := Some(SubmitRequest(verb, url, BuildSubmitData(formData)));
    }

    /** The server's `errors` list folded into a field-to-message map. */
    static method CollectErrors(errs: seq<ServerIssue>) returns (acc: map<string, string>)
      ensures acc == ErrorMapOf(errs)
    {
      acc := map[];
      var i := 0;
      while i < |errs|
        invariant 0 <= i <= |errs|
        invariant acc == ErrorMapOf(errs[..i])
      {
        assert errs[..i + 1][..i] == errs[..i];
        acc := acc[IssueField(errs[i]) := IssueMessage(errs[i])];
        i := i + 1;
      }
      assert errs[..|errs|] == errs;
    }

    /** The reply: success navigates away; anything else shows its errors and lowers the flag. */
    method HandleReply(reply: ServerReply) returns (navigate: bool)
      modifies this
      ensures navigate <==> reply.Reply? && reply.ok
      ensures navigate ==> errors == old(errors) && isSubmitting == old(isSubmitting)
      ensures !navigate ==> errors == ReplyErrors(reply) && !isSubmitting
      ensures formData == old(formData)
    {
      match reply {
        case NetworkFailure =>
          errors := map["submit" := RetryMessage];
          isSubmitting := false;
          return false;
        case Unreadable(bodyPresent) =>
          if bodyPresent {
            errors := map["submit" := RetryMessage];
          } else {
            errors := map["submit" := ResponseParseMessage];
          }
          isSubmitting := false;
          return false;
        case Reply(ok, errs, err) =>
          if ok {
            return true;
          }
          if errs.Some? {
            errors := CollectErrors(errs.value);
          } else if err.Some? && err.value != "" {
            errors := map["submit" := err.value];
          } else {
            errors := map["submit" := GenericMessage];
          }
          isSubmitting := false;
          return false;
      }
    }
  }

  /** A date chosen in the picker always satisfies the submit check on the date. */
  lemma PickedDatePassesCheck(fd: FormData, d: CalendarDate)
    ensures Passes(fd.(date := StorageDate(d)), DateCheck)
  {
  }

  /** A time chosen with both dropdowns always satisfies the submit check on that field. */
  lemma PickedTimePassesCheck(fd: FormData, field: TimeField, h: string, m: string)
    requires h != "" && m != ""
    ensures var fd' := WithTime(fd, field, h + ":" + m);
      Passes(fd', if field == StartTime then StartCheck else EndCheck)
  {
    var t := h + ":" + m;
    assert t[|h|] == ':';
  }
}
