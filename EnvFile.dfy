/**
 * `load_env`: reading `KEY=value` lines of the credentials file into a
 * dictionary. Blank lines and lines that start with `#` are skipped, a line
 * is split at its first `=`, a later key overwrites an earlier one, and the
 * first non-blank line without `=` raises inside the `try`, so the function
 * returns what it had collected before that line. The file's lines (or that
 * it could not be opened) are the input.
 */
module EnvFile {
  import opened Wrappers

  /** The characters MicroPython's `str.strip()` removes: space, \t, \n, \r, \v, \f. */
  predicate IsSpace(c: char) {
    c == ' ' || c == '\t' || c == '\n' || c == '\r' || c == '\U{000B}' || c == '\U{000C}'
  }

  /** Number of whitespace characters at the start of s. */
  function LeadingSpaces(s: string): (n: nat)
    ensures n <= |s|
    ensures forall i :: 0 <= i < n ==> IsSpace(s[i])
    ensures n == |s| || !IsSpace(s[n])
  {
    if s != [] && IsSpace(s[0]) then 1 + LeadingSpaces(s[1..]) else 0
  }

  function StripRight(s: string): (r: string)
    ensures |r| <= |s| && r == s[..|r|]
    ensures forall i :: |r| <= i < |s| ==> IsSpace(s[i])
    ensures r == [] || !IsSpace(r[|r| - 1])
  {
    if s != [] && IsSpace(s[|s| - 1]) then StripRight(s[..|s| - 1]) else s
  }

  /**
   * `str.strip()`: the slice of s between its leading and its trailing
   * whitespace; what is cut away is whitespace only, and what is left is
   * empty or starts and ends with a non-space.
   */
  function Strip(s: string): (r: string)
    ensures LeadingSpaces(s) + |r| <= |s| && r == s[LeadingSpaces(s)..LeadingSpaces(s) + |r|]
    ensures forall i :: LeadingSpaces(s) + |r| <= i < |s| ==> IsSpace(s[i])
    ensures r == [] || (!IsSpace(r[0]) && !IsSpace(r[|r| - 1]))
  {
    var a := LeadingSpaces(s);
    var r := StripRight(s[a..]);
    assert r == s[a..a + |r|];
    r
  }

  /**
   * `s.split(sep, 1)` unpacked into two names: the text before the first
   * separator and everything after it, or None (Python raises ValueError)
   * when there is no separator.
   */
  function SplitAtFirst(s: string, sep: char): (r: Option<(string, string)>)
    ensures r.None? <==> sep !in s
    ensures r.Some? ==> r.value.0 + [sep] + r.value.1 == s && sep !in r.value.0
  {
    if s == [] then None
    else if s[0] == sep then Some(([], s[1..]))
    else match SplitAtFirst(s[1..], sep)
      case None => None
      case Some((k, v)) =>
        assert s == [s[0]] + s[1..];
        Some(([s[0]] + k, v))
  }

  /** What the loop body does with one line of the file. */
  datatype LineKind = Skipped | Entry(key: string, value: string) | Malformed

  /**
   * A line is skipped when it is blank after stripping or when the raw line
   * (not the stripped one) starts with `#`; otherwise it is an entry split
   * at the first `=` of the stripped line, or malformed if it has none.
   */
  function Classify(line: string): (k: LineKind)
    ensures k.Skipped? <==> Strip(line) == [] || (line != [] && line[0] == '#')
    ensures k.Malformed? <==> !k.Skipped? && '=' !in Strip(line)
    ensures k.Entry? ==> k.key + "=" + k.value == Strip(line) && '=' !in k.key
  {
    var s := Strip(line);
    if s == [] || (line != [] && line[0] == '#') then Skipped
    else match SplitAtFirst(s, '=')
      case None => Malformed
      case Some((key, value)) => Entry(key, value)
  }

  /** The dictionary after the rest of the file, starting from env. */
  function Collected(env: map<string, string>, lines: seq<string>): map<string, string>
    decreases |lines|
  {
    if lines == [] then env
    else match Classify(lines[0])
      case Skipped => Collected(env, lines[1..])
      case Entry(k, v) => Collected(env[k := v], lines[1..])
      case Malformed => env
  }

  predicate NoMalformed(lines: seq<string>) {
    forall i :: 0 <= i < |lines| ==> !Classify(lines[i]).Malformed?
  }

  /**
   * load_env. `file` is None when the file cannot be opened; the exception is
   * caught and the empty dictionary is returned.
   */
  method LoadEnv(file: Option<seq<string>>) returns (env: map<string, string>)
    ensures file.None? ==> env == map[]
    ensures file.Some? ==> env == Collected(map[], file.value)
  {
    env := map[];
    if file.None? {
      return;
    }
    var rest := file.value;
    while rest != []
      invariant Collected(env, rest) == Collected(map[], file.value)
      decreases |rest|
    {
      var line := rest[0];
      match Classify(line) {
        case Skipped =>
        case Entry(k, v) =>
          env := env[k := v];
        case Malformed =>
          return;
      }
      rest := rest[1..];
    }
  }

  /** Reading a file in two parts, the first without a malformed line. */
  lemma {:induction false} CollectedAppend(env: map<string, string>, a: seq<string>, b: seq<string>)
    requires NoMalformed(a)
    ensures Collected(env, a + b) == Collected(Collected(env, a), b)
    decreases |a|
  {
    if a != [] {
      assert (a + b)[0] == a[0] && (a + b)[1..] == a[1..] + b;
      match Classify(a[0])
      case Skipped => CollectedAppend(env, a[1..], b);
      case Entry(k, v) => CollectedAppend(env[k := v], a[1..], b);
    } else {
      assert a + b == b;
    }
  }

  /** A malformed line ends the parse: nothing at or after it has any effect. */
  lemma MalformedLineStops(a: seq<string>, bad: string, b: seq<string>)
    requires NoMalformed(a) && Classify(bad).Malformed?
    ensures Collected(map[], a + [bad] + b) == Collected(map[], a)
  {
    assert a + [bad] + b == a + ([bad] + b);
    assert ([bad] + b)[0] == bad;
    CollectedAppend(map[], a, [bad] + b);
  }

  /** A later line for a key overwrites whatever earlier lines gave it. */
  lemma LaterEntryWins(a: seq<string>, line: string)
    requires NoMalformed(a) && Classify(line).Entry?
    ensures var k := Classify(line);
      Collected(map[], a + [line]) == Collected(map[], a)[k.key := k.value]
  {
    CollectedAppend(map[], a, [line]);
  }

  /** The key a classified line defines, if it is an entry. */
  function KindKey(kind: LineKind): Option<string> {
    if kind.Entry? then Some(kind.key) else None
  }

  /** The key a line defines, if it is an entry. */
  function KeyOf(line: string): Option<string> {
    KindKey(Classify(line))
  }

  /** The classification of every line, in order. */
  function Kinds(lines: seq<string>): (ks: seq<LineKind>)
    ensures |ks| == |lines|
    ensures forall i :: 0 <= i < |lines| ==> ks[i] == Classify(lines[i])
  {
    seq(|lines|, i requires 0 <= i < |lines| => Classify(lines[i]))
  }

  /** The parse over already classified lines. */
  function Apply(env: map<string, string>, ks: seq<LineKind>): map<string, string>
    decreases |ks|
  {
    if ks == [] then env
    else match ks[0]
      case Skipped => Apply(env, ks[1..])
      case Entry(k, v) => Apply(env[k := v], ks[1..])
      case Malformed => env
  }

  lemma {:induction false} CollectedIsApply(env: map<string, string>, lines: seq<string>)
    ensures Collected(env, lines) == Apply(env, Kinds(lines))
    decreases |lines|
  {
    if lines != [] {
      assert Kinds(lines)[1..] == Kinds(lines[1..]);
      assert Kinds(lines)[0] == Classify(lines[0]);
      match Classify(lines[0])
      case Skipped => CollectedIsApply(env, lines[1..]);
      case Entry(k, v) => CollectedIsApply(env[k := v], lines[1..]);
      case Malformed =>
    }
  }

  /**
   * Without a malformed kind, the parse from env ends with the keys of env
   * and exactly the keys of the entries.
   */
  lemma {:induction false} ApplyKeys(env: map<string, string>, ks: seq<LineKind>, k: string)
    requires forall i :: 0 <= i < |ks| ==> !ks[i].Malformed?
    ensures k in Apply(env, ks) <==> k in env || exists i :: 0 <= i < |ks| && KindKey(ks[i]) == Some(k)
    decreases |ks|
  {
    if ks != [] {
      var rest := ks[1..];
      var next := if ks[0].Entry? then env[ks[0].key := ks[0].value] else env;
      assert Apply(env, ks) == Apply(next, rest);
      ApplyKeys(next, rest, k);
      if exists i :: 0 <= i < |rest| && KindKey(rest[i]) == Some(k) {
        var i :| 0 <= i < |rest| && KindKey(rest[i]) == Some(k);
        assert KindKey(ks[i + 1]) == Some(k);
      }
      if exists i :: 0 <= i < |ks| && KindKey(ks[i]) == Some(k) {
        var i :| 0 <= i < |ks| && KindKey(ks[i]) == Some(k);
        if i > 0 {
          assert KindKey(rest[i - 1]) == Some(k);
        }
      }
    }
  }

  /**
   * In a file without a malformed line, the dictionary's keys are exactly
   * the keys of its entry lines.
   */
  lemma CollectedKeys(lines: seq<string>, k: string)
    requires NoMalformed(lines)
    ensures k in Collected(map[], lines) <==>
      exists i :: 0 <= i < |lines| && KeyOf(lines[i]) == Some(k)
  {
    var ks := Kinds(lines);
    CollectedIsApply(map[], lines);
    ApplyKeys(map[], ks, k);
    if exists i :: 0 <= i < |ks| && KindKey(ks[i]) == Some(k) {
      var i :| 0 <= i < |ks| && KindKey(ks[i]) == Some(k);
      assert KeyOf(lines[i]) == Some(k);
    }
    if exists i :: 0 <= i < |lines| && KeyOf(lines[i]) == Some(k) {
      var i :| 0 <= i < |lines| && KeyOf(lines[i]) == Some(k);
      assert KindKey(ks[i]) == Some(k);
    }
  }

  /** A value keeps every `=` after the first. */
  lemma ValueKeepsLaterEquals()
    ensures Classify("K=a=b") == Entry("K", "a=b")
  {
    assert LeadingSpaces("K=a=b") == 0 && StripRight("K=a=b") == "K=a=b";
    assert "K=a=b"[1..] == "=a=b";
    assert SplitAtFirst("=a=b", '=') == Some(([], "a=b"));
    assert ['K'] + [] == "K";
    assert SplitAtFirst("K=a=b", '=') == Some(("K", "a=b"));
  }

  /** Spaces around the `=` stay in the key and in the value. */
  lemma SpacesAroundEqualsKept()
    ensures Classify("K = 1") == Entry("K ", " 1")
  {
    assert LeadingSpaces("K = 1") == 0 && StripRight("K = 1") == "K = 1";
    assert "K = 1"[1..] == " = 1" && " = 1"[1..] == "= 1";
    assert SplitAtFirst("= 1", '=') == Some(([], " 1"));
    assert [' '] + [] == " " && ['K'] + " " == "K ";
    assert SplitAtFirst(" = 1", '=') == Some((" ", " 1"));
    assert SplitAtFirst("K = 1", '=') == Some(("K ", " 1"));
  }

  /**
   * The comment test looks at the raw line: `#K=1` is skipped, but an
   * indented ` #K` is not, and having no `=` it stops the parse.
   */
  lemma CommentTestUsesRawLine()
    ensures Classify("#K=1") == Skipped
    ensures Classify(" #K") == Malformed
  {
    assert LeadingSpaces("#K=1") == 0 && StripRight("#K=1") == "#K=1";
    assert " #K"[1..] == "#K";
    assert LeadingSpaces(" #K") == 1 && StripRight("#K") == "#K";
  }
}
