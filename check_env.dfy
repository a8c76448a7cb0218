/**
 * The listing of `.env.local`: every entry is shown with its value cut to
 * 30 characters, comments are echoed, and the exit code says whether both
 * Supabase variables are there.
 */
module CheckEnv {
  import opened Text
  import opened Lists
  import opened Wrappers
  import opened EnvLine

  const UrlKey := "NEXT_PUBLIC_SUPABASE_URL"
  const AnonKey := "NEXT_PUBLIC_SUPABASE_ANON_KEY"

  /** How many characters of a value are shown. */
  const ShownLength := 30

  /** `displayValue`: "(empty)", or the first 30 characters and "...", or the value itself. */
  function Display(value: string): (shown: string)
    ensures value == "" ==> shown == "(empty)"
    ensures 0 < |value| <= ShownLength ==> shown == value
    ensures |value| > ShownLength ==>
      |shown| == ShownLength + 3 && shown[..ShownLength] == value[..ShownLength] && shown[ShownLength..] == "..."
  {
    if |value| > 0 then
      (if |value| > ShownLength then value[..ShownLength] + "..." else value)
    else "(empty)"
  }

  /** Two long values that agree on their first 30 characters are shown alike: nothing after them leaks. */
  lemma DisplayHidesTail(a: string, b: string)
    requires |a| > ShownLength && |b| > ShownLength && a[..ShownLength] == b[..ShownLength]
    ensures Display(a) == Display(b)
  {
  }

  /** What one line prints: the entry with its shown value, the echoed comment, or nothing. */
  function LineOutput(line: string): (out: seq<string>)
    ensures |out| <= 1
    ensures var t := Trim(line); out == [] <==> t == "" || (t[0] != '#' && !IsEntry(t))
  {
    var t := Trim(line);
    if t != "" && !StartsWith(t, "#") then
      if IsEntry(t) then ["  " + Trim(Key(t)) + " = " + Display(Value(t))] else []
    else if StartsWith(t, "#") then ["  " + t]
    else []
  }


  function ListsKey(key: string): string -> bool {
    line => EntryFor(line, key)
  }

  function OutputAt(): (nat, string) -> seq<string> {
    (n: nat, line: string) => LineOutput(line)
  }

  datatype Outcome =
    | FileMissing
    | Listed(output: seq<string>, hasUrl: bool, hasAnonKey: bool)

  /** The outcome for the file's content, `None` when it does not exist. */
  function OutcomeOf(file: Option<string>): Outcome {
    if file.None? then FileMissing
    else
      var lines := Lines(file.value);
      Listed(Gather(lines, OutputAt()), AnyOf(lines, ListsKey(UrlKey)), AnyOf(lines, ListsKey(AnonKey)))
  }

  /** Exit code 1 when the file is missing or either variable was not listed. */
  function ExitCode(o: Outcome): int {
    if o.FileMissing? || !o.hasUrl || !o.hasAnonKey then 1 else 0
  }

  /** The script: the `forEach` over the lines, then the exit code. */
  method Check(file: Option<string>) returns (outcome: Outcome, exitCode: int)
    ensures outcome == OutcomeOf(file)
    ensures exitCode == ExitCode(outcome)
  {
    if file.None? {
      return FileMissing, 1;
    }
    var lines := Lines(file.value);
    var output: seq<string> := [];
    var hasUrl, hasAnonKey := false, false;
    var i := 0;
    while i < |lines|
      invariant 0 <= i <= |lines|
      invariant output == Gather(lines[..i], OutputAt())
      invariant hasUrl == AnyOf(lines[..i], ListsKey(UrlKey))
      invariant hasAnonKey == AnyOf(lines[..i], ListsKey(AnonKey))
    {
      GatherStep(lines, i, OutputAt());
      assert lines[..i + 1][..i] == lines[..i];
      var t := Trim(lines[i]);
      if t != "" && !StartsWith(t, "#") {
        if IsEntry(t) {
          var key := Trim(Key(t));
          output := output + ["  " + key + " = " + Display(Value(t))];
          if key == UrlKey {
            hasUrl := true;
          }
          if key == AnonKey {
            hasAnonKey := true;
          }
        }
      } else if StartsWith(t, "#") {
        output := output + ["  " + t];
      }
      i := i + 1;
    }
    assert lines[..i] == lines;
    outcome := Listed(output, hasUrl, hasAnonKey);
    exitCode := if !hasUrl || !hasAnonKey then 1 else 0;
  }

  /** The script succeeds exactly when the file exists and has a line listing each variable. */
  lemma ExitZeroIff(file: Option<string>)
    ensures ExitCode(OutcomeOf(file)) == 0 <==>
      file.Some? &&
      (exists i :: 0 <= i < |Lines(file.value)| && EntryFor(Lines(file.value)[i], UrlKey)) &&
      (exists j :: 0 <= j < |Lines(file.value)| && EntryFor(Lines(file.value)[j], AnonKey))
  {
    if file.Some? {
      var lines := Lines(file.value);
      FlagIff(lines, UrlKey);
      FlagIff(lines, AnonKey);
    }
  }

  /** A flag is set exactly when some line is an entry for its key. */
  lemma FlagIff(lines: seq<string>, key: string)
    ensures AnyOf(lines, ListsKey(key)) <==> exists i :: 0 <= i < |lines| && EntryFor(lines[i], key)
  {
    AnyOfIff(lines, ListsKey(key));
  }

  /** A line whose trimmed text starts with '=' has no key: it prints nothing and sets no flag. */
  lemma EmptyKeyIgnored(line: string, key: string)
    requires Trim(line) != [] && Trim(line)[0] == '='
    ensures LineOutput(line) == [] && !EntryFor(line, key)
  {
    EntryIff(Trim(line));
  }

  /** A line listed for a key is shown as that key followed by its value's display. */
  lemma ListedLineShown(line: string, key: string)
    requires EntryFor(line, key)
    ensures LineOutput(line) == ["  " + key + " = " + Display(Value(Trim(line)))]
  {
    EntryIff(Trim(line));
  }
}
