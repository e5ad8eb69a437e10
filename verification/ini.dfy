/**
 * `parseINIString` (security/lambda.js): the INI reader behind the
 * password service. The text is cut into lines at runs of CR and LF; each
 * line is tried as a comment, then as `key = value`, then as a `[section]`
 * header, and the recognised ones fill a two-level object. The three
 * regular expressions are written out as the matches they accept.
 */
module Ini {
  import opened Wrappers

  // ------------------------------------------------------------ characters

  predicate IsNewline(c: char) { c == '\r' || c == '\n' }

  /** The characters JavaScript's `.` refuses besides CR and LF: the line and paragraph separators. */
  predicate IsSeparator(c: char) { c == '\U{2028}' || c == '\U{2029}' }

  /** JavaScript's `\s`. */
  predicate IsSpace(c: char)
  {
    c == '\t' || c == '\n' || c == '\U{000B}' || c == '\U{000C}' || c == '\r' || c == ' '
    || c == '\U{00A0}' || c == '\U{1680}' || ('\U{2000}' <= c <= '\U{200A}') || c == '\U{2028}' || c == '\U{2029}'
    || c == '\U{202F}' || c == '\U{205F}' || c == '\U{3000}' || c == '\U{FEFF}'
  }

  predicate AllSpace(s: string) { forall i :: 0 <= i < |s| ==> IsSpace(s[i]) }

  /** What a greedy `^\s*` leaves. */
  function StripLeft(s: string): (r: string)
    ensures |r| <= |s| && r == s[|s| - |r|..]
    ensures r == [] || !IsSpace(r[0])
    ensures AllSpace(s[..|s| - |r|])
  {
    if s == [] || !IsSpace(s[0]) then
      assert s[..0] == [];
      s
    else
      var r := StripLeft(s[1..]);
      var n := |s| - |r|;
      assert s[1..][n - 1..] == s[n..];
      assert AllSpace(s[..n]) by {
        assert forall i :: 1 <= i < n ==> s[..n][i] == s[1..][..n - 1][i - 1];
      }
      r
  }

  /** What a trailing `\s*$` leaves. */
  function StripRight(s: string): (r: string)
    ensures |r| <= |s| && r == s[..|r|]
    ensures r == [] || !IsSpace(r[|r| - 1])
    ensures AllSpace(s[|r|..])
  {
    if s == [] || !IsSpace(s[|s| - 1]) then
      assert s[|s|..] == [];
      s
    else
      var r := StripRight(s[..|s| - 1]);
      assert s[..|s| - 1][..|r|] == s[..|r|];
      assert AllSpace(s[|r|..]) by {
        assert forall i :: |r| <= i < |s| - 1 ==> s[i] == s[..|s| - 1][|r|..][i - |r|];
      }
      r
  }

  function Strip(s: string): string { StripRight(StripLeft(s)) }

  /** Trimming the front keeps a tail of `s`: a character missing from `s` is missing from the result. */
  lemma {:induction false} StripLeftWithout(s: string, c: char)
    requires c !in s
    ensures c !in StripLeft(s)
  {
    var t := StripLeft(s);
    assert t == s[|s| - |t|..];
  }

  /** Trimming keeps a run of `s`: a character missing from `s` is missing from the result. */
  lemma {:induction false} StripWithout(s: string, c: char)
    requires c !in s
    ensures c !in Strip(s)
  {
    var t := StripLeft(s);
    StripLeftWithout(s, c);
    assert Strip(s) == t[..|Strip(s)|];
  }

  /** A string that is not all spaces keeps something when trimmed. */
  lemma {:induction false} StripNotEmpty(s: string)
    requires !AllSpace(s)
    ensures Strip(s) != []
  {
    var t := StripLeft(s);
    assert t != [] && !IsSpace(t[0]);
  }

  /** The first position of `c` in `s`. */
  function IndexOf(s: string, c: char): (r: Option<nat>)
    ensures r.Some? ==> r.value < |s| && s[r.value] == c && c !in s[..r.value]
    ensures r.None? <==> c !in s
  {
    if s == [] then None
    else if s[0] == c then Some(0)
    else
      match IndexOf(s[1..], c)
      case None => None
      case Some(i) =>
        assert s[..i + 1] == [s[0]] + s[1..][..i];
        Some(i + 1)
  }

  lemma {:induction false} IndexOfAt(s: string, c: char, i: nat)
    requires i < |s| && s[i] == c && forall k :: 0 <= k < i ==> s[k] != c
    ensures IndexOf(s, c) == Some(i)
  {
    if i > 0 {
      assert s[0] != c;
      IndexOfAt(s[1..], c, i - 1);
    }
  }

  lemma {:induction false} StripLeftKeeps(s: string)
    requires s != [] && !IsSpace(s[0])
    ensures StripLeft(s) == s
  {
  }

  // ------------------------------------------------------------ the lines

  /** The position just past the run of CR and LF that starts at `i`. */
  function RunEnd(s: string, i: nat): (j: nat)
    requires i <= |s|
    ensures i <= j <= |s| && (j == |s| || !IsNewline(s[j]))
    ensures forall k :: i <= k < j ==> IsNewline(s[k])
    decreases |s| - i
  {
    if i < |s| && IsNewline(s[i]) then RunEnd(s, i + 1) else i
  }

  /** The first CR or LF. */
  function FirstNewline(s: string): (r: Option<nat>)
    ensures r.Some? ==> r.value < |s| && IsNewline(s[r.value])
    ensures r.Some? ==> forall k :: 0 <= k < r.value ==> !IsNewline(s[k])
    ensures r.None? ==> forall k :: 0 <= k < |s| ==> !IsNewline(s[k])
  {
    if s == [] then None
    else if IsNewline(s[0]) then Some(0)
    else
      match FirstNewline(s[1..])
      case None => None
      case Some(i) => Some(i + 1)
  }

  predicate NoNewline(s: string) { forall k :: 0 <= k < |s| ==> !IsNewline(s[k]) }

  /** `data.split(/[\r\n]+/)`: the pieces between runs of CR and LF. */
  function SplitLines(s: string): (ls: seq<string>)
    ensures |ls| >= 1
    ensures forall i :: 0 <= i < |ls| ==> NoNewline(ls[i])
    decreases |s|
  {
    match FirstNewline(s)
    case None => [s]
    case Some(i) =>
      var j := RunEnd(s, i);
      [s[..i]] + SplitLines(s[j..])
  }

  /**
   * Runs of line breaks collapse, so a piece is empty only at the very
   * start or the very end of the text.
   */
  lemma {:induction false} EmptyLinesOnlyAtEnds(s: string, k: nat)
    requires 0 < k < |SplitLines(s)| - 1
    ensures SplitLines(s)[k] != []
    decreases |s|
  {
    match FirstNewline(s)
    case None =>
    case Some(i) =>
      var j := RunEnd(s, i);
      var rest := SplitLines(s[j..]);
      assert SplitLines(s) == [s[..i]] + rest;
      if k == 1 {
        var t := s[j..];
        match FirstNewline(t)
        case None =>
        case Some(i2) =>
          assert t[0] == s[j] && !IsNewline(t[0]);
          assert rest[0] == t[..i2] && i2 > 0;
      } else {
        EmptyLinesOnlyAtEnds(s[j..], k - 1);
      }
  }

  /** Lines joined by single line feeds. */
  function JoinLines(ls: seq<string>): string
    requires |ls| >= 1
  {
    if |ls| == 1 then ls[0] else ls[0] + "\n" + JoinLines(ls[1..])
  }

  /**
   * Lines without breaks, empty only at the ends, come back from their
   * text joined by line feeds.
   */
  lemma {:induction false} SplitJoinLines(ls: seq<string>)
    requires |ls| >= 1
    requires forall i :: 0 <= i < |ls| ==> NoNewline(ls[i])
    requires forall i :: 0 < i < |ls| - 1 ==> ls[i] != []
    ensures SplitLines(JoinLines(ls)) == ls
    decreases |ls|
  {
    var s := JoinLines(ls);
    if |ls| == 1 {
      assert FirstNewline(s).None?;
    } else {
      var rest := JoinLines(ls[1..]);
      var i := |ls[0]|;
      assert s == ls[0] + "\n" + rest;
      assert FirstNewline(s) == Some(i) by {
        assert s[i] == '\n';
        assert forall k :: 0 <= k < i ==> s[k] == ls[0][k];
        FirstNewlineAt(s, i);
      }
      assert RunEnd(s, i) == i + 1 by {
        if |ls| > 2 {
          assert ls[1..][0] == ls[1] && ls[1] != [];
          assert rest == ls[1] + "\n" + JoinLines(ls[2..]);
          assert rest[0] == ls[1][0];
          assert !IsNewline(s[i + 1]);
        } else {
          assert rest == ls[1];
          if ls[1] != [] {
            assert s[i + 1] == ls[1][0];
          }
        }
        assert i + 1 == |s| || !IsNewline(s[i + 1]);
        assert RunEnd(s, i + 1) == i + 1;
      }
      assert s[..i] == ls[0] && s[i + 1..] == rest;
      assert SplitLines(rest) == ls[1..] by {
        assert forall k :: 0 <= k < |ls[1..]| ==> ls[1..][k] == ls[k + 1];
        SplitJoinLines(ls[1..]);
      }
      assert SplitLines(s) == [ls[0]] + SplitLines(rest);
    }
  }

  lemma {:induction false} FirstNewlineAt(s: string, i: nat)
    requires i < |s| && IsNewline(s[i]) && forall k :: 0 <= k < i ==> !IsNewline(s[k])
    ensures FirstNewline(s) == Some(i)
  {
    if i > 0 {
      assert !IsNewline(s[0]);
      FirstNewlineAt(s[1..], i - 1);
    }
  }

  // ------------------------------------------------------ line recognition

  predicate NoSeparator(s: string) { forall k :: 0 <= k < |s| ==> !IsSeparator(s[k]) }

  /** `/^\s*;.*$/`: optional spaces, a semicolon, then anything `.` accepts. */
  predicate IsComment(line: string)
  {
    var t := StripLeft(line);
    t != [] && t[0] == ';' && NoSeparator(t[1..])
  }

  /**
   * `/^\s*([^=]+?)\s*=\s*(.*?)\s*$/`: the key is what precedes the first
   * `=`, trimmed; when that is only spaces, the lazy group still takes one
   * character, the last of them. The value is what follows, trimmed, and
   * must hold no line or paragraph separator.
   */
  function MatchParam(line: string): (r: Option<(string, string)>)
    ensures r.Some? ==> '=' in line && r.value.0 != [] && '=' !in r.value.0
  {
    match IndexOf(line, '=')
    case None => None
    case Some(i) =>
      var pre := line[..i];
      var value := Strip(line[i + 1..]);
      if pre == [] || !NoSeparator(value) then None
      else
        var key := if AllSpace(pre) then [pre[|pre| - 1]] else Strip(pre);
        assert key != [] && '=' !in key by {
          if AllSpace(pre) {
            assert pre[|pre| - 1] in pre;
          } else {
            StripNotEmpty(pre);
            StripWithout(pre, '=');
          }
        }
        Some((key, value))
  }

  /**
   * `/^\s*\[\s*([^\]]*)\s*\]\s*$/`: a bracket after optional spaces, the
   * first closing bracket, then only spaces. The name is what the brackets
   * hold without its leading spaces; its trailing spaces stay.
   */
  function MatchSection(line: string): (r: Option<string>)
    ensures r.Some? ==> ']' !in r.value
  {
    var t := StripLeft(line);
    if t == [] || t[0] != '[' then None
    else
      match IndexOf(t[1..], ']')
      case None => None
      case Some(j) =>
        if AllSpace(t[1..][j + 1..]) then
          var name := StripLeft(t[1..][..j]);
          assert ']' !in name by { StripLeftWithout(t[1..][..j], ']'); }
          Some(name)
        else None
  }

  /** How a line is taken, the tests in the order the reader makes them. */
  datatype Line = Comment | Param(key: string, value: string) | Header(name: string) | Empty | Ignored

  function Classify(line: string): (l: Line)
    ensures l.Param? ==> MatchParam(line) == Some((l.key, l.value))
    ensures l.Header? ==> MatchParam(line).None? && MatchSection(line) == Some(l.name)
    ensures l.Empty? <==> line == []
  {
    if line == [] then Empty
    else if IsComment(line) then Comment
    else
      match MatchParam(line)
      case Some(kv) => Param(kv.0, kv.1)
      case None =>
        match MatchSection(line)
        case Some(n) => Header(n)
        case None => Ignored
  }

  /** A key and value that print and read back as `key=value`. */
  predicate PlainKey(k: string)
  {
    k != [] && '=' !in k && !IsSpace(k[0]) && !IsSpace(k[|k| - 1]) && k[0] != ';'
  }

  predicate PlainValue(v: string)
  {
    NoSeparator(v) && (v == [] || (!IsSpace(v[0]) && !IsSpace(v[|v| - 1])))
  }

  lemma {:induction false} StripPlain(s: string)
    requires s == [] || (!IsSpace(s[0]) && !IsSpace(s[|s| - 1]))
    ensures Strip(s) == s
  {
  }

  lemma {:induction false} SplitAtEquals(k: string, v: string)
    requires '=' !in k
    ensures var line := k + "=" + v;
      IndexOf(line, '=') == Some(|k|) && line[..|k|] == k && line[|k| + 1..] == v
  {
    var line := k + "=" + v;
    forall j | 0 <= j < |k| ensures line[j] != '=' {
      assert line[j] == k[j];
    }
    IndexOfAt(line, '=', |k|);
    assert line[..|k|] == k;
    assert line[|k| + 1..] == v;
  }

  lemma {:induction false} ParamMatch(k: string, v: string)
    requires PlainKey(k) && PlainValue(v)
    ensures MatchParam(k + "=" + v) == Some((k, v))
  {
    SplitAtEquals(k, v);
    StripPlain(v);
    StripPlain(k);
    assert !AllSpace(k) by { assert !IsSpace(k[0]); }
  }

  /** A line that starts with neither a space nor a semicolon is no comment. */
  lemma {:induction false} NotComment(line: string)
    requires line != [] && !IsSpace(line[0]) && line[0] != ';'
    ensures !IsComment(line)
  {
    StripLeftKeeps(line);
  }

  lemma {:induction false} ClassifyParam(line: string, k: string, v: string)
    requires line != [] && !IsComment(line) && MatchParam(line) == Some((k, v))
    ensures Classify(line) == Param(k, v)
  {
  }

  lemma {:induction false} ClassifyHeader(line: string, n: string)
    requires line != [] && !IsComment(line) && MatchParam(line).None? && MatchSection(line) == Some(n)
    ensures Classify(line) == Header(n)
  {
  }

  /** `key=value` is read back as that key and value. */
  lemma {:induction false} ParamRoundTrip(k: string, v: string)
    requires PlainKey(k) && PlainValue(v)
    ensures Classify(k + "=" + v) == Param(k, v)
  {
    var line := k + "=" + v;
    ParamMatch(k, v);
    assert line[0] == k[0];
    NotComment(line);
    ClassifyParam(line, k, v);
  }

  lemma {:induction false} HeaderMatch(n: string)
    requires ']' !in n && (n == [] || !IsSpace(n[0]))
    ensures MatchSection("[" + n + "]") == Some(n)
  {
    BracketsMatch(n);
  }

  lemma {:induction false} HeaderIsNoParam(n: string)
    requires '=' !in n
    ensures MatchParam("[" + n + "]").None?
  {
    var line := "[" + n + "]";
    forall j | 0 <= j < |line| ensures line[j] != '=' {
      if 0 < j < |line| - 1 { assert line[j] == n[j - 1]; }
    }
    assert IndexOf(line, '=').None?;
  }

  /** `[name]` is read back as a header for that name. */
  lemma {:induction false} HeaderRoundTrip(n: string)
    requires ']' !in n && '=' !in n && (n == [] || !IsSpace(n[0]))
    ensures Classify("[" + n + "]") == Header(n)
  {
    var line := "[" + n + "]";
    assert MatchParam(line).None? by { HeaderIsNoParam(n); }
    assert MatchSection(line) == Some(n) by { HeaderMatch(n); }
    assert !IsComment(line) by { NotComment(line); }
    ClassifyHeader(line, n);
  }

  /**
   * The parameter test comes first: a bracketed line holding `=` is a
   * parameter whose key keeps the opening bracket, though it also has the
   * shape of a header.
   */
  lemma {:induction false} BracketedAssignmentIsParam(a: string, b: string)
    requires PlainKey("[" + a) && ']' !in a
    requires PlainValue(b + "]") && ']' !in b
    ensures Classify("[" + a + "=" + b + "]") == Param("[" + a, b + "]")
    ensures MatchSection("[" + a + "=" + b + "]") == Some(StripLeft(a + "=" + b))
  {
    var line := "[" + a + "=" + b + "]";
    assert line == ("[" + a) + "=" + (b + "]") by {
      AssignmentPieces(a, b);
    }
    assert Classify(line) == Param("[" + a, b + "]") by {
      ParamRoundTrip("[" + a, b + "]");
    }
    BracketedSection(a, b);
  }

  lemma {:induction false} BracketedSection(a: string, b: string)
    requires ']' !in a && ']' !in b
    ensures MatchSection("[" + a + "=" + b + "]") == Some(StripLeft(a + "=" + b))
  {
    var inner := a + "=" + b;
    AssignmentPieces(a, b);
    BracketsMatch(inner);
  }

  lemma {:induction false} AssignmentPieces(a: string, b: string)
    requires ']' !in a && ']' !in b
    ensures "[" + a + "=" + b + "]" == ("[" + a) + "=" + (b + "]")
    ensures "[" + a + "=" + b + "]" == "[" + (a + "=" + b) + "]"
    ensures ']' !in a + "=" + b
  {
    var inner := a + "=" + b;
    forall j | 0 <= j < |inner| ensures inner[j] != ']' {
      if j < |a| { assert inner[j] == a[j]; }
      else if j > |a| { assert inner[j] == b[j - |a| - 1]; }
    }
  }

  /** Between the brackets the name runs to the first closing bracket, less its leading spaces. */
  lemma {:induction false} BracketsMatch(inner: string)
    requires ']' !in inner
    ensures MatchSection("[" + inner + "]") == Some(StripLeft(inner))
  {
    var line := "[" + inner + "]";
    assert StripLeft(line) == line by { StripLeftKeeps(line); }
    var t := line[1..];
    assert t == inner + "]";
    assert IndexOf(t, ']') == Some(|inner|) by {
      forall j | 0 <= j < |inner| ensures t[j] != ']' {
        assert t[j] == inner[j];
      }
      IndexOfAt(t, ']', |inner|);
    }
    assert t[..|inner|] == inner;
    assert AllSpace(t[|inner| + 1..]) by { assert t[|inner| + 1..] == []; }
  }

  // ------------------------------------------------------------ the reader

  /** A value of the result: a top-level string, or a section's object. */
  datatype Entry = Text(text: string) | Section(fields: map<string, string>)

  /**
   * The reader's state: the result object and the current section. The
   * empty name stands for `null`: both are false to `if (section)`, and a
   * section named "" behaves as no section.
   */
  datatype Reader = Reader(value: map<string, Entry>, section: string)

  /** The current section, when there is one, names an object. */
  predicate Inv(r: Reader)
  {
    r.section != [] ==> r.section in r.value && r.value[r.section].Section?
  }

  /** A line that can add `k` to the result: a header named `k`, or a parameter with key `k`. */
  predicate Introduces(line: string, k: string)
  {
    (Classify(line).Header? && Classify(line).name == k) || (Classify(line).Param? && Classify(line).key == k)
  }

  /** Some line of `ls` introduces `k`. */
  predicate IntroducedIn(ls: seq<string>, k: string)
  {
    exists i :: 0 <= i < |ls| && Introduces(ls[i], k)
  }

  /** The name of every header line of `ls` is a key of `m`. */
  predicate HeadersKept(ls: seq<string>, m: map<string, Entry>)
  {
    forall i :: 0 <= i < |ls| && Classify(ls[i]).Header? ==> Classify(ls[i]).name in m
  }

  /** One line of the `forEach` callback. */
  function Step(r: Reader, line: string): (r': Reader)
    requires Inv(r)
    ensures Inv(r')
    ensures r.value.Keys <= r'.value.Keys
    ensures forall k :: k in r'.value && k !in r.value ==> Introduces(line, k)
    ensures Classify(line).Header? ==> Classify(line).name in r'.value
  {
    match Classify(line)
    case Comment => r
    case Ignored => r
    case Param(k, v) =>
      if r.section != [] then
        var fields := r.value[r.section].fields;
        r.(value := r.value[r.section := Section(fields[k := v])])
      else r.(value := r.value[k := Text(v)])
    case Header(n) => Reader(r.value[n := Section(map[])], n)
    case Empty => if r.section != [] then r.(section := []) else r
  }

  /** A header installs a fresh empty object, replacing an earlier one, and makes it current. */
  lemma {:induction false} HeaderStartsFreshSection(r: Reader, n: string)
    requires Inv(r) && ']' !in n && '=' !in n && (n == [] || !IsSpace(n[0]))
    ensures Step(r, "[" + n + "]") == Reader(r.value[n := Section(map[])], n)
  {
    HeaderRoundTrip(n);
  }

  /**
   * A parameter goes into the current section, or to the top level
   * outside one; nothing else changes.
   */
  lemma {:induction false} ParamStored(r: Reader, k: string, v: string)
    requires Inv(r) && PlainKey(k) && PlainValue(v)
    ensures var r' := Step(r, k + "=" + v);
      && r'.section == r.section
      && (r.section != [] ==> r'.value == r.value[r.section := Section(r.value[r.section].fields[k := v])])
      && (r.section == [] ==> r'.value == r.value[k := Text(v)])
  {
    ParamRoundTrip(k, v);
  }

  /**
   * The lines in order. No key is ever removed; a new key comes from a line
   * that introduces it; every header's name ends up a key.
   */
  function Fold(r: Reader, ls: seq<string>): (r': Reader)
    requires Inv(r)
    ensures Inv(r')
    ensures r.value.Keys <= r'.value.Keys
    ensures forall k :: k in r'.value && k !in r.value ==> IntroducedIn(ls, k)
    ensures HeadersKept(ls, r'.value)
    decreases |ls|
  {
    if ls == [] then r
    else
      var r1 := Step(r, ls[0]);
      var r' := Fold(r1, ls[1..]);
      assert forall k :: k in r'.value && k !in r.value ==> IntroducedIn(ls, k) by {
        forall k | k in r'.value && k !in r.value
          ensures IntroducedIn(ls, k)
        {
          if k in r1.value {
            assert Introduces(ls[0], k);
          } else {
            assert IntroducedIn(ls[1..], k);
            var j :| 0 <= j < |ls[1..]| && Introduces(ls[1..][j], k);
            assert ls[j + 1] == ls[1..][j];
          }
        }
      }
      assert HeadersKept(ls, r'.value) by {
        forall i | 0 <= i < |ls| && Classify(ls[i]).Header?
          ensures Classify(ls[i]).name in r'.value
        {
          if i > 0 {
            assert ls[i] == ls[1..][i - 1];
            assert HeadersKept(ls[1..], r'.value);
          }
        }
      }
      r'
  }

  /**
   * `parseINIString(data)`: every key of the result is the name of a
   * header line or the key of a parameter line, and every header line's
   * name is a key.
   */
  function ParseIniString(data: string): (value: map<string, Entry>)
    ensures forall k :: k in value ==> IntroducedIn(SplitLines(data), k)
    ensures HeadersKept(SplitLines(data), value)
  {
    var ls := SplitLines(data);
    var r := Fold(Reader(map[], []), ls);
    r.value
  }

  lemma {:induction false} FoldTwo(r: Reader, x: string, y: string)
    requires Inv(r)
    ensures Fold(r, [x, y]) == Step(Step(r, x), y)
  {
    var r1 := Step(r, x);
    assert [x, y][1..] == [y];
    assert Fold(r, [x, y]) == Fold(r1, [y]);
    assert [y][1..] == [];
    assert Fold(r1, [y]) == Fold(Step(r1, y), []);
  }

  lemma {:induction false} NoNewlineInPieces(n: string, k: string, v: string)
    requires NoNewline(n) && NoNewline(k) && NoNewline(v)
    ensures NoNewline("[" + n + "]") && NoNewline(k + "=" + v)
    ensures "[" + n + "]\n" + k + "=" + v == JoinLines(["[" + n + "]", k + "=" + v])
  {
    var l1 := "[" + n + "]";
    var l2 := k + "=" + v;
    forall i | 0 <= i < |l1| ensures !IsNewline(l1[i]) {
      if 0 < i < |l1| - 1 { assert l1[i] == n[i - 1]; }
    }
    forall i | 0 <= i < |l2| ensures !IsNewline(l2[i]) {
      if i < |k| { assert l2[i] == k[i]; }
      else if i > |k| { assert l2[i] == v[i - |k| - 1]; }
    }
    var ls := [l1, l2];
    assert JoinLines(ls[1..]) == l2;
  }

  /** A one-section document is read as that section holding that parameter. */
  lemma {:induction false} SectionWithParam(n: string, k: string, v: string)
    requires n != [] && ']' !in n && '=' !in n && !IsSpace(n[0]) && NoNewline(n)
    requires PlainKey(k) && PlainValue(v) && NoNewline(k) && NoNewline(v)
    ensures ParseIniString("[" + n + "]\n" + k + "=" + v) == map[n := Section(map[k := v])]
  {
    var l1 := "[" + n + "]";
    var l2 := k + "=" + v;
    var ls := [l1, l2];
    assert SplitLines("[" + n + "]\n" + k + "=" + v) == ls by {
      NoNewlineInPieces(n, k, v);
      SplitJoinLines(ls);
    }
    var r0 := Reader(map[], []);
    var r1 := Step(r0, l1);
    assert r1 == Reader(map[n := Section(map[])], n) by { HeaderStartsFreshSection(r0, n); }
    var r2 := Step(r1, l2);
    assert r2 == Reader(map[n := Section(map[k := v])], n) by { ParamStored(r1, k, v); }
    FoldTwo(r0, l1, l2);
  }
}
