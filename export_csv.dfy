/**
 * GET /api/admin/export with `format=csv`: one header line and one line of
 * ten quoted cells per registration, joined by line feeds. Cells are
 * wrapped in double quotes but not escaped, which departs from section 2
 * of RFC 4180.
 */
module ExportCsv {
  import opened Wrappers
  import opened Text
  import opened Records
  import opened Lists
  import opened RegistrationQueries
  import opened SessionQueries

  const Headers: seq<string> := [
    "Datum aanmelding", "Gesprekstype", "Sessie datum", "Sessie tijd", "E-mail",
    "Naam", "Afdeling", "Locatie", "Begeleider", "Status"]

  /** `a || ''` for an optional text. */
  function OrEmpty(s: Option<string>): string {
    if s.Some? then s.value else ""
  }

  /**
   * The ten cells of one registration. `localeString` stands for
   * `new Date(created_at).toLocaleString('nl-NL')`.
   */
  function Cells(reg: Registration, localeString: string -> string): (cells: seq<string>)
    ensures |cells| == |Headers|
    ensures cells[0] == localeString(reg.created_at)
    ensures cells[1] == OrEmpty(RegistrationTypeName(reg))
    ensures reg.session.Some? ==>
      cells[2] == reg.session.value.date && cells[3] == reg.session.value.start_time &&
      cells[8] == reg.session.value.facilitator
    ensures cells[4] == reg.email && cells[5] == reg.name && cells[6] == reg.department
    ensures cells[9] == reg.status.Name()
    ensures reg.session.None? ==> cells[1] == "" && cells[2] == "" && cells[3] == "" && cells[7] == "" && cells[8] == ""
    ensures reg.session.Some? && reg.session.value.is_online ==> cells[7] == "Online (Teams)"
    ensures reg.session.Some? && !reg.session.value.is_online ==> cells[7] == reg.session.value.location
  {
    var s := reg.session;
    [ localeString(reg.created_at),
      OrEmpty(RegistrationTypeName(reg)),
      if s.Some? then s.value.date else "",
      if s.Some? then s.value.start_time else "",
      reg.email,
      reg.name,
      reg.department,
      if s.Some? && s.value.is_online then "Online (Teams)" else if s.Some? then s.value.location else "",
      if s.Some? then s.value.facilitator else "",
      reg.status.Name() ]
  }

  /** `"${cell}"`: the cell between double quotes, as it is. */
  function Quote(cell: string): (field: string)
    ensures |field| == |cell| + 2 && field[0] == '"' && field[|field| - 1] == '"'
    ensures field[1..|field| - 1] == cell
  {
    "\"" + cell + "\""
  }

  function QuoteAll(cells: seq<string>): (fields: seq<string>)
    ensures |fields| == |cells| && forall i :: 0 <= i < |cells| ==> fields[i] == Quote(cells[i])
  {
    seq(|cells|, i requires 0 <= i < |cells| => Quote(cells[i]))
  }

  /** One record: the quoted cells joined by ','. */
  function Line(reg: Registration, localeString: string -> string): string {
    Join(QuoteAll(Cells(reg, localeString)), ",")
  }

  function Lines(regs: seq<Registration>, localeString: string -> string): (lines: seq<string>)
    ensures |lines| == |regs| && forall i :: 0 <= i < |regs| ==> lines[i] == Line(regs[i], localeString)
  {
    seq(|regs|, i requires 0 <= i < |regs| => Line(regs[i], localeString))
  }

  /** The file: the header line, then one line per registration, joined by '\n' with no final newline. */
  function Content(regs: seq<Registration>, localeString: string -> string): string {
    Join([Join(Headers, ",")] + Lines(regs, localeString), "\n")
  }

  /** The header line splits back into the ten names: none holds a ','. */
  lemma HeaderLineFields()
    ensures Split(Join(Headers, ","), ',') == Headers
    ensures '"' !in Join(Headers, ",") && '\n' !in Join(Headers, ",")
  {
    HeadersPlain();
    SplitJoin(Headers, ',');
    JoinNoChar(Headers, ',', '"');
    JoinNoChar(Headers, ',', '\n');
  }

  /** Text with no comma, double quote or line feed. */
  predicate Plain(s: string) {
    forall i :: 0 <= i < |s| ==> s[i] != ',' && s[i] != '"' && s[i] != '\n'
  }

  lemma HeadersPlain()
    ensures forall k :: 0 <= k < |Headers| ==> ',' !in Headers[k] && '"' !in Headers[k] && '\n' !in Headers[k]
  {
    assert Plain(Headers[0]);
    assert Plain(Headers[1]);
    assert Plain(Headers[2]);
    assert Plain(Headers[3]);
    assert Plain(Headers[4]);
    assert Plain(Headers[5]);
    assert Plain(Headers[6]);
    assert Plain(Headers[7]);
    assert Plain(Headers[8]);
    assert Plain(Headers[9]);
  }

  /** A join of pieces without `x`, by a separator other than `x`, has no `x`. */
  lemma {:induction false} JoinNoChar(parts: seq<string>, sep: char, x: char)
    requires sep != x && forall i :: 0 <= i < |parts| ==> x !in parts[i]
    ensures x !in Join(parts, [sep])
    decreases |parts|
  {
    if |parts| > 1 {
      JoinNoChar(parts[1..], sep, x);
    }
  }

  /** No cell holds a line feed. */
  predicate NoLineFeedIn(reg: Registration, localeString: string -> string) {
    forall i :: 0 <= i < |Headers| ==> '\n' !in Cells(reg, localeString)[i]
  }

  lemma LineHasNoLineFeed(reg: Registration, localeString: string -> string)
    requires NoLineFeedIn(reg, localeString)
    ensures '\n' !in Line(reg, localeString)
  {
    var fields := QuoteAll(Cells(reg, localeString));
    forall i | 0 <= i < |fields|
      ensures '\n' !in fields[i]
    {
      assert fields[i] == "\"" + Cells(reg, localeString)[i] + "\"";
    }
    JoinNoChar(fields, ',', '\n');
  }

  /**
   * When no cell holds a line feed, splitting the file at line feeds gives
   * the header line and then exactly one line per registration, in order.
   */
  lemma LinesOfContent(regs: seq<Registration>, localeString: string -> string)
    requires forall i :: 0 <= i < |regs| ==> NoLineFeedIn(regs[i], localeString)
    ensures var lines := Split(Content(regs, localeString), '\n');
      |lines| == 1 + |regs| && lines[0] == Join(Headers, ",") &&
      forall i :: 0 <= i < |regs| ==> lines[i + 1] == Line(regs[i], localeString)
  {
    HeaderLineFields();
    var lines := Lines(regs, localeString);
    forall i | 0 <= i < |lines|
      ensures '\n' !in lines[i]
    {
      LineHasNoLineFeed(regs[i], localeString);
    }
    SplitLines(Join(Headers, ","), lines);
  }

  /** Lines without a line feed, joined by line feeds, split back into themselves. */
  lemma SplitLines(head: string, body: seq<string>)
    requires '\n' !in head && forall i :: 0 <= i < |body| ==> '\n' !in body[i]
    ensures Split(Join([head] + body, "\n"), '\n') == [head] + body
  {
    var parts := [head] + body;
    forall i | 0 <= i < |parts|
      ensures '\n' !in parts[i]
    {
      if i > 0 {
        assert parts[i] == body[i - 1];
      }
    }
    SplitJoin(parts, '\n');
  }

  /**
   * Section 2 of RFC 4180, rule 7: a double quote inside a quoted field is
   * written twice. `body` is the text between the enclosing quotes.
   */
  predicate QuotesDoubled(body: string)
    decreases |body|
  {
    if |body| == 0 then true
    else if body[0] == '"' then |body| >= 2 && body[1] == '"' && QuotesDoubled(body[2..])
    else QuotesDoubled(body[1..])
  }

  /**
   * Rule 7 is not met: a cell with a single double quote (a name such as
   * `Jan "JJ` in the e-mail, name or department column) comes out with the
   * quote as it is.
   */
  lemma UnescapedQuote(a: string, b: string)
    requires '"' !in a && '"' !in b
    ensures var field := Quote(a + "\"" + b);
      !QuotesDoubled(field[1..|field| - 1])
  {
    var body := a + "\"" + b;
    assert Quote(body)[1..|Quote(body)| - 1] == body;
    assert body == a + ("\"" + b);
    QuoteAfterPlainPrefix(a, "\"" + b);
    assert (("\"" + b)[1..]) == b;
    if |b| > 0 {
      assert ("\"" + b)[1] == b[0];
      assert b[0] in b;
    }
  }

  lemma {:induction false} QuoteAfterPlainPrefix(a: string, rest: string)
    requires '"' !in a
    ensures QuotesDoubled(a + rest) == QuotesDoubled(rest)
    decreases |a|
  {
    if |a| > 0 {
      assert a[0] in a;
      assert (a + rest)[0] == a[0];
      assert (a + rest)[1..] == a[1..] + rest;
      QuoteAfterPlainPrefix(a[1..], rest);
    } else {
      assert a + rest == rest;
    }
  }

  /**
   * Rules 1 and 2: records are separated by a line feed alone, not CRLF,
   * and the last one has no line break; a file with rows is header, '\n',
   * first line, and so on.
   */
  lemma RecordsSeparatedByLineFeed(regs: seq<Registration>, localeString: string -> string)
    requires |regs| >= 1
    ensures Content(regs, localeString) ==
      Join(Headers, ",") + "\n" + Join(Lines(regs, localeString), "\n")
  {
    var parts := [Join(Headers, ",")] + Lines(regs, localeString);
    assert parts[1..] == Lines(regs, localeString);
  }

  /**
   * A line feed in a cell (here the e-mail) is written as it is, inside
   * the cell's quotes, as rule 6 of section 2 of RFC 4180 allows. A reader
   * that splits the file at line feeds, though, finds more than the header
   * line and one record in the file of that one registration.
   */
  lemma EmbeddedLineFeedSplitsRecord(reg: Registration, localeString: string -> string)
    requires '\n' in reg.email
    ensures |Split(Content([reg], localeString), '\n')| > 2
  {
    HeaderLineFields();
    LineKeepsLineFeed(reg, localeString);
    ContentOfOne(reg, localeString);
    SplitTwoLines(Join(Headers, ","), Line(reg, localeString));
  }

  /** The file of one registration: the header line and its record. */
  lemma ContentOfOne(reg: Registration, localeString: string -> string)
    ensures Content([reg], localeString) == Join([Join(Headers, ","), Line(reg, localeString)], "\n")
  {
    assert [Join(Headers, ",")] + Lines([reg], localeString) == [Join(Headers, ","), Line(reg, localeString)];
  }

  /** A line feed in the e-mail cell is a line feed in the record. */
  lemma LineKeepsLineFeed(reg: Registration, localeString: string -> string)
    requires '\n' in reg.email
    ensures '\n' in Line(reg, localeString)
  {
    var fields := QuoteAll(Cells(reg, localeString));
    assert fields[4] == "\"" + reg.email + "\"";
    JoinContains(fields, ",", 4, '\n');
  }

  /** Two lines joined by a line feed, the second holding one itself, split into more than two parts. */
  lemma SplitTwoLines(head: string, line: string)
    requires '\n' !in head && '\n' in line
    ensures |Split(Join([head, line], "\n"), '\n')| > 2
  {
    assert Join([head, line], "\n") == head + ['\n'] + line;
    SplitAtSeparator(head, line, '\n');
    SplitFirst(line, '\n');
  }

  /** A character of one piece is a character of the join. */
  lemma {:induction false} JoinContains(parts: seq<string>, sep: string, i: nat, x: char)
    requires i < |parts| && x in parts[i]
    ensures x in Join(parts, sep)
    decreases |parts|
  {
    if |parts| > 1 && i > 0 {
      JoinContains(parts[1..], sep, i - 1, x);
    }
  }

  datatype Response = Unauthorized | Failed(message: string) | Csv(content: string, filename: string) | Excel

  /** `format || 'excel'`: only "csv" selects the CSV branch. */
  predicate WantsCsv(format: Option<string>) {
    format == Some("csv")
  }

  /** The export: 401, the query's error, the CSV file, or the spreadsheet branch. */
  function Export(isAdmin: bool, table: seq<Registration>, queryError: Option<string>,
                  format: Option<string>, sessionId: Option<string>,
                  localeString: string -> string, nowIso: string): (resp: Response)
    ensures !isAdmin ==> resp == Unauthorized
    ensures isAdmin && queryError.Some? ==> resp == Failed(queryError.value)
    ensures isAdmin && queryError.None? ==> (resp.Csv? <==> WantsCsv(format))
    ensures resp.Csv? ==> resp.content == Content(Fetch(table, sessionId, None), localeString)
  {
    if !isAdmin then Unauthorized
    else if queryError.Some? then Failed(queryError.value)
    else if WantsCsv(format) then
      var today := Today(nowIso);
      Csv(Content(Fetch(table, sessionId, None), localeString), "aanmeldingen-groeigesprekken-" + today + ".csv")
    else Excel
  }
}
