/**
 * How the environment-file scripts read one line: trimmed, skipped when
 * blank or a comment, otherwise split at the first '=' into a key and the
 * rest, the rest joined back with '=' and trimmed into the value.
 */
module EnvLine {
  import opened Text

  /** `content.split('\n')`. */
  function Lines(content: string): (lines: seq<string>)
    ensures |lines| >= 1
    ensures forall i :: 0 <= i < |lines| ==> '\n' !in lines[i]
  {
    Split(content, '\n')
  }

  /** A trimmed line that is empty or starts with '#'. */
  predicate IsSkipped(trimmed: string) {
    trimmed == "" || StartsWith(trimmed, "#")
  }

  /** `key` of `[key, ...valueParts] = trimmed.split('=')`. */
  function Key(trimmed: string): string {
    Split(trimmed, '=')[0]
  }

  /** `valueParts` of `[key, ...valueParts] = trimmed.split('=')`. */
  function ValueParts(trimmed: string): seq<string> {
    Split(trimmed, '=')[1..]
  }

  /** `valueParts.join('=').trim()`. */
  function Value(trimmed: string): string {
    Trim(Join(ValueParts(trimmed), "="))
  }

  /**
   * The key is the text before the first '=', the value the trimmed text
   * after it (which may itself hold '='), and key, '=' and the joined parts
   * give back the line.
   */
  lemma KeyValueSplit(trimmed: string)
    ensures Key(trimmed) == trimmed[..FirstIndex(trimmed, '=')] && '=' !in Key(trimmed)
    ensures |ValueParts(trimmed)| > 0 <==> '=' in trimmed
    ensures '=' in trimmed ==>
      Value(trimmed) == Trim(trimmed[FirstIndex(trimmed, '=') + 1..]) &&
      Key(trimmed) + "=" + Join(ValueParts(trimmed), "=") == trimmed
  {
    KeyIsPrefix(trimmed);
    if '=' in trimmed {
      var i := FirstIndex(trimmed, '=');
      var rest := Join(ValueParts(trimmed), "=");
      ValueIsSuffix(trimmed);
      assert Value(trimmed) == Trim(rest);
      Around(trimmed, i);
    }
  }

  lemma KeyIsPrefix(trimmed: string)
    ensures Key(trimmed) == trimmed[..FirstIndex(trimmed, '=')]
    ensures |ValueParts(trimmed)| > 0 <==> '=' in trimmed
  {
    SplitFirst(trimmed, '=');
  }

  lemma ValueIsSuffix(trimmed: string)
    requires '=' in trimmed
    ensures Join(ValueParts(trimmed), "=") == trimmed[FirstIndex(trimmed, '=') + 1..]
  {
    SplitFirst(trimmed, '=');
  }

  /** A line with a '=' has at least one value part. */
  lemma ValuePartsExist(trimmed: string)
    requires '=' in trimmed
    ensures |ValueParts(trimmed)| > 0
  {
    SplitFirst(trimmed, '=');
  }

  /**
   * The entry test shared by the loader and the listing script: not blank,
   * not a comment, a non-empty key and at least one '='.
   */
  predicate IsEntry(trimmed: string) {
    !IsSkipped(trimmed) && Key(trimmed) != "" && |ValueParts(trimmed)| > 0
  }

  /** An entry is a non-comment line holding a '=' that is not its first character. */
  lemma EntryIff(trimmed: string)
    ensures IsEntry(trimmed) <==>
      (trimmed != [] && trimmed[0] != '#' && '=' in trimmed && trimmed[0] != '=')
  {
    KeyValueSplit(trimmed);
    if trimmed != [] {
      assert StartsWith(trimmed, "#") <==> trimmed[0] == '#';
    }
    if '=' in trimmed {
      assert FirstIndex(trimmed, '=') == 0 <==> trimmed[0] == '=';
    }
  }

  /** The raw line, once trimmed, is an entry whose trimmed key is `key`. */
  predicate EntryFor(line: string, key: string) {
    var t := Trim(line);
    IsEntry(t) && Trim(Key(t)) == key
  }
}
