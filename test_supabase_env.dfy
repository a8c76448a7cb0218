/**
 * The `.env.local` loader of the connection test script: every entry line
 * sets a process environment variable under its trimmed key, with one
 * surrounding quote removed from each end of its value; later lines win.
 */
module SupabaseEnvLoader {
  import opened Wrappers
  import opened Text
  import opened EnvLine

  predicate IsQuote(c: char) {
    c == '"' || c == '\''
  }

  /**
   * `value.replace(/^["']|["']$/g, '')`: one leading quote and then, in
   * what is left, one trailing quote are dropped; the two never overlap.
   */
  function StripQuotes(v: string): (r: string)
    ensures |v| - 2 <= |r| <= |v|
    ensures (v == [] || (!IsQuote(v[0]) && !IsQuote(v[|v| - 1]))) ==> r == v
    ensures |v| > 0 && IsQuote(v[0]) ==> r == StripTrailing(v[1..])
    ensures |v| > 0 && !IsQuote(v[0]) ==> r == StripTrailing(v)
  {
    var rest := if |v| > 0 && IsQuote(v[0]) then v[1..] else v;
    StripTrailing(rest)
  }

  /** Drops one trailing quote. */
  function StripTrailing(s: string): (r: string)
    ensures |s| > 0 && IsQuote(s[|s| - 1]) ==> r == s[..|s| - 1]
    ensures (s == [] || !IsQuote(s[|s| - 1])) ==> r == s
  {
    if |s| > 0 && IsQuote(s[|s| - 1]) then s[..|s| - 1] else s
  }

  /** A value wrapped in quotes of either kind, matching or not, comes back bare. */
  lemma StripQuotesOfQuoted(s: string, open: char, close: char)
    requires IsQuote(open) && IsQuote(close)
    ensures StripQuotes([open] + s + [close]) == s
  {
    var v := [open] + s + [close];
    assert v[1..] == s + [close];
    assert (s + [close])[..|s|] == s;
  }

  /** Only one quote goes from each end: doubled quotes leave the inner pair. */
  lemma StripQuotesOnlyOnce(s: string, q: char)
    requires IsQuote(q)
    ensures StripQuotes([q, q] + s + [q, q]) == [q] + s + [q]
  {
    var v := [q, q] + s + [q, q];
    assert v[1..] == [q] + s + [q, q];
    assert ([q] + s + [q, q])[..|s| + 2] == [q] + s + [q];
  }

  /** A lone quote on one side is dropped all the same. */
  lemma StripQuotesOneSided(s: string, q: char)
    requires IsQuote(q)
    requires s == [] || !IsQuote(s[|s| - 1])
    ensures StripQuotes([q] + s) == s
  {
    assert ([q] + s)[1..] == s;
  }

  /** What one line does to the environment. */
  function Apply(env: map<string, string>, line: string): map<string, string> {
    var t := Trim(line);
    if IsEntry(t) then env[Trim(Key(t)) := StripQuotes(Value(t))] else env
  }

  /** An entry line sets its own key to its unquoted value and leaves every other key alone. */
  lemma ApplyEffect(env: map<string, string>, line: string, key: string)
    ensures EntryFor(line, key) ==> key in Apply(env, line) && Apply(env, line)[key] == StripQuotes(Value(Trim(line)))
    ensures !EntryFor(line, key) ==>
      (key in Apply(env, line) <==> key in env) && (key in env ==> Apply(env, line)[key] == env[key])
  {
  }

  /** The environment after the lines, applied in file order. */
  function Loaded(env: map<string, string>, lines: seq<string>): map<string, string>
    decreases |lines|
  {
    if |lines| == 0 then env else Apply(Loaded(env, lines[..|lines| - 1]), lines[|lines| - 1])
  }

  /** The last entry for a key decides its value. */
  lemma {:induction false} LastEntryWins(env: map<string, string>, lines: seq<string>, j: nat, key: string)
    requires j < |lines| && EntryFor(lines[j], key)
    requires forall k :: j < k < |lines| ==> !EntryFor(lines[k], key)
    ensures key in Loaded(env, lines)
    ensures Loaded(env, lines)[key] == StripQuotes(Value(Trim(lines[j])))
    decreases |lines|
  {
    var init := lines[..|lines| - 1];
    ApplyEffect(Loaded(env, init), lines[|lines| - 1], key);
    if j < |lines| - 1 {
      assert forall k :: j < k < |init| ==> init[k] == lines[k];
      LastEntryWins(env, init, j, key);
    }
  }

  /** A key no line sets keeps what it had, or stays unset. */
  lemma {:induction false} UntouchedKeys(env: map<string, string>, lines: seq<string>, key: string)
    requires forall k :: 0 <= k < |lines| ==> !EntryFor(lines[k], key)
    ensures key in Loaded(env, lines) <==> key in env
    ensures key in env ==> Loaded(env, lines)[key] == env[key]
    decreases |lines|
  {
    if |lines| > 0 {
      var init := lines[..|lines| - 1];
      assert forall k :: 0 <= k < |init| ==> init[k] == lines[k];
      UntouchedKeys(env, init, key);
      ApplyEffect(Loaded(env, init), lines[|lines| - 1], key);
    }
  }

  /** The `forEach` callback: sets the line's variable when the line is an entry. */
  method AssignLine(env: map<string, string>, line: string) returns (r: map<string, string>)
    ensures r == Apply(env, line)
  {
    r := env;
    var t := Trim(line);
    if t != "" && !StartsWith(t, "#") {
      var key := Key(t);
      if key != "" && |ValueParts(t)| > 0 {
        r := env[Trim(key) := StripQuotes(Value(t))];
        assert IsEntry(t);
      } else {
        assert !IsEntry(t);
      }
    } else {
      assert IsSkipped(t);
    }
  }

  /** `process.env`. */
  class ProcessEnv {
    var vars: map<string, string>

    constructor(initial: map<string, string>)
      ensures vars == initial
    {
      vars := initial;
    }

    /** The loader: nothing happens when the file is missing. */
    method LoadEnvFile(file: Option<string>)
      modifies this
      ensures file.None? ==> vars == old(vars)
      ensures file.Some? ==> vars == Loaded(old(vars), Lines(file.value))
    {
      if file.None? {
        return;
      }
      var lines := Lines(file.value);
      var i := 0;
      while i < |lines|
        invariant 0 <= i <= |lines|
        invariant vars == Loaded(old(vars), lines[..i])
      {
        assert lines[..i + 1][..i] == lines[..i];
        vars := AssignLine(vars, lines[i]);
        i := i + 1;
      }
      assert lines[..i] == lines;
    }
  }
}
