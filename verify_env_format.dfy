/**
 * The format check of the environment files: every line of `.env` and
 * `.env.local` is checked in turn, the three Supabase variables are looked
 * for, and the problems found are listed with their 1-based line numbers.
 */
module VerifyEnvFormat {
  import opened Wrappers
  import opened Text
  import opened EnvLine
  import opened Lists

  const UrlKey := "NEXT_PUBLIC_SUPABASE_URL"
  const AnonKey := "NEXT_PUBLIC_SUPABASE_ANON_KEY"
  const ServiceKey := "SUPABASE_SERVICE_ROLE_KEY"

  lemma KeysDistinct()
    ensures UrlKey != AnonKey && UrlKey != ServiceKey && AnonKey != ServiceKey
  {
    assert |UrlKey| == 24 && |AnonKey| == 29 && |ServiceKey| == 25;
  }

  /** The files looked at, in this order. */
  const EnvFiles := [".env", ".env.local"]

  /** The anon key length under which it is reported as too short. */
  const MinAnonKeyLength := 100

  /** One problem found, with the 1-based number of its line. */
  datatype Issue =
    | MissingEquals(line: nat)
    | Spacing(line: nat)
    | EmptyValue(line: nat, key: string)
    | NotHttps(line: nat)
    | ShortKey(line: nat, length: nat)
  {
    /** The message as the script prints it. */
    function Text(): (t: string)
      ensures StartsWith(t, At(line))
    {
      var head := At(line);
      var tail := match this
        case MissingEquals(_) => "Missing = sign"
        case Spacing(_) => "Has spaces around = sign"
        case EmptyValue(_, key) => key + " has empty value"
        case NotHttps(_) => UrlKey + " should start with https://"
        case ShortKey(_, len) => AnonKey + " seems too short (" + NatToString(len) + " chars, expected ~200+)";
      assert (head + tail)[..|head|] == head;
      head + tail
    }
  }

  function At(n: nat): string {
    "Line " + NatToString(n) + ": "
  }

  /** A '=' with white space right before it or a space right after it. */
  predicate HasSpacing(trimmed: string)
    requires '=' in trimmed
  {
    ValuePartsExist(trimmed);
    Key(trimmed) != Trim(Key(trimmed)) || StartsWith(ValueParts(trimmed)[0], " ")
  }

  /** The issues for the value of the URL variable: empty, or not `https://`. */
  function UrlIssues(n: nat, value: string): seq<Issue> {
    if value == "" then [EmptyValue(n, UrlKey)]
    else if !StartsWith(value, "https://") then [NotHttps(n)]
    else []
  }

  /** The issues for the value of the anon key: empty, or shorter than 100 UTF-16 code units. */
  function AnonIssues(n: nat, value: string): seq<Issue> {
    if value == "" then [EmptyValue(n, AnonKey)]
    else if CodeUnits(value) < MinAnonKeyLength then [ShortKey(n, CodeUnits(value))]
    else []
  }

  function ServiceIssues(n: nat, value: string): seq<Issue> {
    if value == "" then [EmptyValue(n, ServiceKey)] else []
  }

  /** The issues a value gets under the key it is given for. */
  function ValueIssues(n: nat, key: string, value: string): seq<Issue> {
    if key == UrlKey then UrlIssues(n, value)
    else if key == AnonKey then AnonIssues(n, value)
    else if key == ServiceKey then ServiceIssues(n, value)
    else []
  }

  /** The issues of an entry: the spacing issue when `spaced`, then those of its value. */
  function EntryIssues(n: nat, spaced: bool, key: string, value: string): seq<Issue> {
    (if spaced then [Spacing(n)] else []) + ValueIssues(n, key, value)
  }

  /** The issues of line number `n`, in the order they are pushed. */
  function LineIssues(n: nat, line: string): seq<Issue> {
    var trimmed := Trim(line);
    if IsSkipped(trimmed) then []
    else if '=' !in trimmed then [MissingEquals(n)]
    else EntryIssues(n, HasSpacing(trimmed), Trim(Key(trimmed)), Value(trimmed))
  }

  /** Whether a line assigns `key`: not skipped, with a '=', and `key` before it once trimmed. */
  predicate Defines(line: string, key: string) {
    var trimmed := Trim(line);
    !IsSkipped(trimmed) && '=' in trimmed && Trim(Key(trimmed)) == key
  }

  function NumberedIssues(): (nat, string) -> seq<Issue> {
    (n: nat, line: string) => LineIssues(n, line)
  }

  /** The issues of all lines, in line order. */
  function IssuesOf(lines: seq<string>): seq<Issue> {
    Gather(lines, NumberedIssues())
  }

  function Assigns(key: string): string -> bool {
    line => Defines(line, key)
  }

  /** Whether some line assigns `key`. */
  predicate Found(lines: seq<string>, key: string) {
    AnyOf(lines, Assigns(key))
  }

  datatype FileReport =
    | NotFound
    | Checked(hasUrl: bool, hasAnonKey: bool, hasServiceKey: bool, issues: seq<Issue>, looksCorrect: bool)

  /** The report for a file's content. */
  function Report(content: string): FileReport {
    var lines := Lines(content);
    var issues := IssuesOf(lines);
    Checked(Found(lines, UrlKey), Found(lines, AnonKey), Found(lines, ServiceKey), issues,
            |issues| == 0 && Found(lines, UrlKey) && Found(lines, AnonKey))
  }

  /** A blank or comment line gives no issue. */
  lemma SkippedLineIsSilent(n: nat, line: string)
    requires IsSkipped(Trim(line))
    ensures LineIssues(n, line) == []
  {
  }

  /** Any other line without '=' gives exactly the missing-sign issue, with its line number. */
  lemma MissingEqualsOnly(n: nat, line: string)
    requires !IsSkipped(Trim(line)) && '=' !in Trim(line)
    ensures LineIssues(n, line) == [MissingEquals(n)]
  {
  }

  /** A blank line, a comment or a line without '=' assigns no variable. */
  lemma NonEntryAssignsNothing(line: string)
    requires IsSkipped(Trim(line)) || '=' !in Trim(line)
    ensures forall key :: !Defines(line, key)
  {
  }

  lemma EntryLineIssues(n: nat, line: string)
    requires !IsSkipped(Trim(line)) && '=' in Trim(line)
    ensures var trimmed := Trim(line);
      LineIssues(n, line) == EntryIssues(n, HasSpacing(trimmed), Trim(Key(trimmed)), Value(trimmed))
  {
  }

  /**
   * The `forEach` callback for line number `n`: the issues it pushes and
   * which of the three variables it sees.
   */
  method CheckLine(n: nat, line: string) returns (pushed: seq<Issue>, url: bool, anon: bool, service: bool)
    ensures pushed == LineIssues(n, line)
    ensures url == Defines(line, UrlKey) && anon == Defines(line, AnonKey) && service == Defines(line, ServiceKey)
  {
    pushed, url, anon, service := [], false, false, false;
    var trimmed := Trim(line);
    if IsSkipped(trimmed) {
      SkippedLineIsSilent(n, line);
      NonEntryAssignsNothing(line);
      return;
    }
    if '=' !in trimmed {
      MissingEqualsOnly(n, line);
      NonEntryAssignsNothing(line);
      pushed := pushed + [MissingEquals(n)];
      return;
    }
    ValuePartsExist(trimmed);
    var key := Key(trimmed);
    var valueParts := ValueParts(trimmed);
    var keyTrimmed := Trim(key);
    var value := Value(trimmed);
    if key != keyTrimmed || StartsWith(valueParts[0], " ") {
      pushed := [Spacing(n)];
    }
    assert pushed == if HasSpacing(trimmed) then [Spacing(n)] else [];
    var more;
    more, url, anon, service := CheckValue(n, keyTrimmed, value);
    EntryLineIssues(n, line);
    pushed := pushed + more;
  }

  /** The three required-variable checks of one entry. */
  method CheckValue(n: nat, keyTrimmed: string, value: string) returns (pushed: seq<Issue>, url: bool, anon: bool, service: bool)
    ensures pushed == ValueIssues(n, keyTrimmed, value)
    ensures url == (keyTrimmed == UrlKey) && anon == (keyTrimmed == AnonKey) && service == (keyTrimmed == ServiceKey)
  {
    KeysDistinct();
    pushed, url, anon, service := [], false, false, false;
    if keyTrimmed == UrlKey {
      url := true;
      if value == "" {
        pushed := pushed + [EmptyValue(n, UrlKey)];
      } else if !StartsWith(value, "https://") {
        pushed := pushed + [NotHttps(n)];
      }
    }
    if keyTrimmed == AnonKey {
      anon := true;
      if value == "" {
        pushed := pushed + [EmptyValue(n, AnonKey)];
      } else if CodeUnits(value) < MinAnonKeyLength {
        pushed := pushed + [ShortKey(n, CodeUnits(value))];
      }
    }
    if keyTrimmed == ServiceKey {
      service := true;
      if value == "" {
        pushed := pushed + [EmptyValue(n, ServiceKey)];
      }
    }
  }

  function ReportFor(file: Option<string>): FileReport {
    if file.Some? then Report(file.value) else NotFound
  }

  lemma StepLines(lines: seq<string>, i: nat)
    requires i < |lines|
    ensures IssuesOf(lines[..i + 1]) == IssuesOf(lines[..i]) + LineIssues(i + 1, lines[i])
    ensures forall key :: Found(lines[..i + 1], key) == (Found(lines[..i], key) || Defines(lines[i], key))
  {
    GatherStep(lines, i, NumberedIssues());
    assert lines[..i + 1][..i] == lines[..i];
  }

  /** The line-by-line check of one existing file. */
  method CheckFile(content: string) returns (r: FileReport)
    ensures r == Report(content)
  {
    var lines := Lines(content);
    var hasUrl, hasAnonKey, hasServiceKey := false, false, false;
    var issues: seq<Issue> := [];
    var i := 0;
    while i < |lines|
      invariant 0 <= i <= |lines|
      invariant issues == IssuesOf(lines[..i])
      invariant hasUrl == Found(lines[..i], UrlKey)
      invariant hasAnonKey == Found(lines[..i], AnonKey)
      invariant hasServiceKey == Found(lines[..i], ServiceKey)
    {
      var pushed, url, anon, service := CheckLine(i + 1, lines[i]);
      StepLines(lines, i);
      issues := issues + pushed;
      hasUrl := hasUrl || url;
      hasAnonKey := hasAnonKey || anon;
      hasServiceKey := hasServiceKey || service;
      i := i + 1;
    }
    assert lines[..i] == lines;
    r := Checked(hasUrl, hasAnonKey, hasServiceKey, issues, |issues| == 0 && hasUrl && hasAnonKey);
  }

  /** The report for one entry of `EnvFiles`. */
  method CheckEnvFile(file: Option<string>) returns (r: FileReport)
    ensures r == ReportFor(file)
  {
    if file.Some? {
      r := CheckFile(file.value);
    } else {
      r := NotFound;
    }
  }

  /**
   * The whole script: a report per file, in the order of `EnvFiles`
   * (`None` for a file that does not exist), and exit code 1 exactly when
   * no file exists.
   */
  method VerifyEnvFiles(files: seq<Option<string>>) returns (reports: seq<FileReport>, exitCode: int)
    ensures |reports| == |files|
    ensures forall i :: 0 <= i < |files| ==>
      reports[i] == ReportFor(files[i])
    ensures exitCode == 1 <==> forall i :: 0 <= i < |files| ==> files[i].None?
    ensures exitCode == 0 || exitCode == 1
  {
    var foundAny := false;
    reports := [];
    var i := 0;
    while i < |files|
      invariant 0 <= i <= |files|
      invariant |reports| == i
      invariant forall j :: 0 <= j < i ==>
        reports[j] == ReportFor(files[j])
      invariant foundAny <==> exists j :: 0 <= j < i && files[j].Some?
    {
      var report := CheckEnvFile(files[i]);
      if files[i].Some? {
        foundAny := true;
      }
      ReportsStep(files, reports, report);
      reports := reports + [report];
      i := i + 1;
    }
    exitCode := if !foundAny then 1 else 0;
  }

  lemma ReportsStep(files: seq<Option<string>>, reports: seq<FileReport>, report: FileReport)
    requires |reports| < |files| && report == ReportFor(files[|reports|])
    requires forall j :: 0 <= j < |reports| ==> reports[j] == ReportFor(files[j])
    ensures forall j :: 0 <= j < |reports| + 1 ==> (reports + [report])[j] == ReportFor(files[j])
  {
  }
}

module VerifyEnvFormatProperties {
  import opened Text
  import opened EnvLine
  import opened Lists
  import opened VerifyEnvFormat

  /** A string that does not start with white space is left as it is by `trim` exactly when it does not end with white space. */
  lemma TrimUnchangedIff(s: string)
    requires s != []
    requires !IsWhite(s[0])
    ensures Trim(s) == s <==> !IsWhite(s[|s| - 1])
  {
    TrimStartFixed(s);
    if IsWhite(s[|s| - 1]) {
      assert |TrimEnd(s)| < |s|;
    } else {
      TrimEndFixed(s);
    }
  }

  /**
   * The spacing issue is raised exactly when white space stands right
   * before the first '=' or a space right after it.
   */
  lemma SpacingIff(line: string)
    requires '=' in Trim(line)
    ensures var t := Trim(line);
      var i := FirstIndex(t, '=');
      HasSpacing(t) <==> (i > 0 && IsWhite(t[i - 1])) || (i + 1 < |t| && t[i + 1] == ' ')
  {
    var t := Trim(line);
    var i := FirstIndex(t, '=');
    KeyValueSplit(t);
    ValuePartsExist(t);
    var key := t[..i];
    if key != [] {
      assert key[0] == t[0];
      TrimUnchangedIff(key);
    }
    var rest := t[i + 1..];
    SplitFirst(t, '=');
    SplitFirst(rest, '=');
    assert ValueParts(t) == Split(rest, '=') by {
      assert t == key + "=" + rest;
      SplitAtSeparator(key, rest, '=');
    }
    var first := Split(rest, '=')[0];
    assert first == rest[..FirstIndex(rest, '=')];
    if i + 1 < |t| && t[i + 1] == ' ' {
      assert rest[0] == ' ';
      assert FirstIndex(rest, '=') > 0;
      assert first[..1] == " ";
    }
    if StartsWith(first, " ") {
      assert rest[0] == ' ';
    }
  }

  /** A URL entry gets one URL issue at most, and none exactly when its value starts with `https://`. */
  lemma UrlEntryIssues(n: nat, spaced: bool, value: string)
    ensures var issues := EntryIssues(n, spaced, UrlKey, value);
      (EmptyValue(n, UrlKey) in issues <==> value == "") &&
      (NotHttps(n) in issues <==> value != "" && !StartsWith(value, "https://")) &&
      (Spacing(n) in issues <==> spaced) &&
      (forall x :: x in issues ==> x == Spacing(n) || x == EmptyValue(n, UrlKey) || x == NotHttps(n))
  {
  }

  /**
   * An anon-key entry is reported when its value is empty, or else shorter
   * than 100 UTF-16 code units, the length the message then quotes.
   */
  lemma AnonEntryIssues(n: nat, spaced: bool, value: string)
    ensures var issues := EntryIssues(n, spaced, AnonKey, value);
      (EmptyValue(n, AnonKey) in issues <==> value == "") &&
      (ShortKey(n, CodeUnits(value)) in issues <==> value != "" && CodeUnits(value) < MinAnonKeyLength) &&
      (forall x :: x in issues ==> x == Spacing(n) || x == EmptyValue(n, AnonKey) || x == ShortKey(n, CodeUnits(value)))
  {
    KeysDistinct();
  }

  /** An entry for any other variable gets at most the spacing issue. */
  lemma OtherEntryIssues(n: nat, spaced: bool, key: string, value: string)
    requires key != UrlKey && key != AnonKey && key != ServiceKey
    ensures EntryIssues(n, spaced, key, value) == if spaced then [Spacing(n)] else []
  {
  }

  /** Every issue of a file carries the number of a line of that file. */
  lemma {:induction false} IssueLineNumbers(lines: seq<string>)
    ensures forall x :: x in IssuesOf(lines) ==> 1 <= x.line <= |lines|
    decreases |lines|
  {
    if |lines| > 0 {
      var n := |lines|;
      IssueLineNumbers(lines[..n - 1]);
      LineIssuesNumbered(n, lines[n - 1]);
    }
  }

  lemma LineIssuesNumbered(n: nat, line: string)
    ensures forall x :: x in LineIssues(n, line) ==> x.line == n
  {
    var t := Trim(line);
    if IsSkipped(t) {
      SkippedLineIsSilent(n, line);
    } else if '=' !in t {
      MissingEqualsNumbered(n, line);
    } else {
      EntryLineNumbered(n, line);
    }
  }

  lemma MissingEqualsNumbered(n: nat, line: string)
    requires !IsSkipped(Trim(line)) && '=' !in Trim(line)
    ensures forall x :: x in LineIssues(n, line) ==> x.line == n
  {
    MissingEqualsOnly(n, line);
    SingleIssueNumbered(LineIssues(n, line), n);
  }

  lemma SingleIssueNumbered(issues: seq<Issue>, n: nat)
    requires issues == [MissingEquals(n)]
    ensures forall x :: x in issues ==> x.line == n
  {
  }

  lemma EntryLineNumbered(n: nat, line: string)
    requires !IsSkipped(Trim(line)) && '=' in Trim(line)
    ensures forall x :: x in LineIssues(n, line) ==> x.line == n
  {
    var t := Trim(line);
    EntryLineIssues(n, line);
    EntryIssuesNumbered(n, HasSpacing(t), Trim(Key(t)), Value(t));
  }

  lemma EntryIssuesNumbered(n: nat, spaced: bool, key: string, value: string)
    ensures forall x :: x in EntryIssues(n, spaced, key, value) ==> x.line == n
  {
  }

  /** The issues of each line are among the issues of the file. */
  lemma LineIssuesIncluded(lines: seq<string>, i: nat)
    requires i < |lines|
    ensures forall x :: x in LineIssues(i + 1, lines[i]) ==> x in IssuesOf(lines)
  {
    GatherIncludes(lines, i, NumberedIssues());
  }

  /** `Found` holds exactly when some line assigns the key. */
  lemma FoundIff(lines: seq<string>, key: string)
    ensures Found(lines, key) <==> exists i :: 0 <= i < |lines| && Defines(lines[i], key)
  {
    AnyOfIff(lines, Assigns(key));
  }

  /**
   * "Format looks correct" is reported only for a file with no issue in
   * which both the URL and the anon key are assigned; a line without '='
   * rules it out.
   */
  lemma LooksCorrectIff(content: string)
    ensures var lines := Lines(content);
      Report(content).looksCorrect <==>
        |IssuesOf(lines)| == 0 &&
        (exists i :: 0 <= i < |lines| && Defines(lines[i], UrlKey)) &&
        (exists i :: 0 <= i < |lines| && Defines(lines[i], AnonKey))
  {
    FoundIff(Lines(content), UrlKey);
    FoundIff(Lines(content), AnonKey);
  }

  lemma MissingEqualsRulesOutCorrect(content: string, i: nat)
    requires i < |Lines(content)|
    requires var t := Trim(Lines(content)[i]); !IsSkipped(t) && '=' !in t
    ensures MissingEquals(i + 1) in Report(content).issues
    ensures !Report(content).looksCorrect
  {
    var lines := Lines(content);
    MissingEqualsInIssues(lines, i);
    assert Report(content).issues == IssuesOf(lines);
  }

  lemma MissingEqualsInIssues(lines: seq<string>, i: nat)
    requires i < |lines|
    requires var t := Trim(lines[i]); !IsSkipped(t) && '=' !in t
    ensures MissingEquals(i + 1) in IssuesOf(lines)
  {
    var issues := LineIssues(i + 1, lines[i]);
    MissingEqualsOnly(i + 1, lines[i]);
    assert issues[0] == MissingEquals(i + 1);
    LineIssuesIncluded(lines, i);
  }
}
