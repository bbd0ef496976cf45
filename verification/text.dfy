/** The `java.lang.String` operations the extractor relies on, over `seq<char>`.

  Case-insensitive comparison folds ASCII letters only; every identifier the
  extractor compares this way (artifact ids, scopes, types, profile ids) is ASCII.
*/
module Text {

  function LowerChar(c: char): char {
    if 'A' <= c <= 'Z' then (c as int + 32) as char else c
  }

  function Lower(s: string): (r: string)
    ensures |r| == |s|
    ensures forall i :: 0 <= i < |s| ==> r[i] == LowerChar(s[i])
  {
    seq(|s|, i requires 0 <= i < |s| => LowerChar(s[i]))
  }

  /** `a.equalsIgnoreCase(b)` */
  predicate EqualsIgnoreCase(a: string, b: string) {
    Lower(a) == Lower(b)
  }

  predicate StartsWith(s: string, prefix: string) {
    |prefix| <= |s| && s[..|prefix|] == prefix
  }

  predicate EndsWith(s: string, suffix: string) {
    |suffix| <= |s| && s[|s| - |suffix|..] == suffix
  }

  /** `s.contains(t)`: some suffix of `s` starts with `t`. */
  predicate Contains(s: string, t: string)
    decreases |s|
  {
    StartsWith(s, t) || (|s| > 0 && Contains(s[1..], t))
  }

  lemma {:induction false} ContainsAt(s: string, i: nat, t: string)
    requires i + |t| <= |s| && s[i..i + |t|] == t
    ensures Contains(s, t)
    decreases i
  {
    if i > 0 {
      assert s[1..][i - 1..i - 1 + |t|] == s[i..i + |t|];
      ContainsAt(s[1..], i - 1, t);
    }
  }

  /** Appending text never removes an occurrence. */
  /** A text contains every piece it is built from. */
  lemma ContainsMiddle(a: string, b: string, c: string)
    ensures Contains(a + b + c, b)
  {
    var s := a + b + c;
    assert s[|a|..|a| + |b|] == b;
    ContainsAt(s, |a|, b);
  }

  /** Appending three pieces at once is appending them in turn. */
  lemma AppendThree(h: string, a: string, b: string, c: string)
    ensures h + (a + b + c) == h + a + b + c
  {
  }

  lemma EndsWithAppend(a: string, b: string)
    ensures EndsWith(a + b, b)
  {
    assert (a + b)[|a|..] == b;
  }

  lemma {:induction false} ContainsAppend(s: string, u: string, t: string)
    ensures Contains(s, t) ==> Contains(s + u, t)
    decreases |s|
  {
    if s != [] {
      assert (s + u)[..|s|] == s;
      assert StartsWith(s, t) ==> (s + u)[..|t|] == s[..|t|];
      assert (s + u)[1..] == s[1..] + u;
      ContainsAppend(s[1..], u, t);
    }
  }

  /** Prepending text never removes an occurrence. */
  lemma {:induction false} ContainsPrepend(u: string, s: string, t: string)
    ensures Contains(s, t) ==> Contains(u + s, t)
    decreases |u|
  {
    if u == [] {
      assert u + s == s;
    } else {
      assert (u + s)[1..] == u[1..] + s;
      ContainsPrepend(u[1..], s, t);
    }
  }

  /** The characters `String.trim()` removes: every code unit up to U+0020. */
  predicate IsTrimSpace(c: char) {
    c <= ' '
  }

  function TrimStart(s: string): (r: string)
    ensures |r| <= |s| && r == s[|s| - |r|..]
    ensures r == [] || !IsTrimSpace(r[0])
    decreases |s|
  {
    if |s| > 0 && IsTrimSpace(s[0]) then TrimStart(s[1..]) else s
  }

  function TrimEnd(s: string): (r: string)
    ensures |r| <= |s| && r == s[..|r|]
    ensures r == [] || !IsTrimSpace(r[|r| - 1])
    decreases |s|
  {
    if |s| > 0 && IsTrimSpace(s[|s| - 1]) then TrimEnd(s[..|s| - 1]) else s
  }

  predicate IsTrimmed(s: string) {
    s == [] || (!IsTrimSpace(s[0]) && !IsTrimSpace(s[|s| - 1]))
  }

  /** `s.trim()` */
  function Trim(s: string): (r: string)
    ensures IsTrimmed(r)
    ensures IsTrimmed(s) ==> r == s
  {
    var t := TrimStart(s);
    var r := TrimEnd(t);
    assert r != [] ==> r[0] == t[0];
    r
  }

  /** `Character.isWhitespace(c)`, the test behind `String.isBlank()`. */
  predicate IsWhitespace(c: char) {
    var n := c as int;
    n == 0x20 || (0x09 <= n <= 0x0D) || (0x1C <= n <= 0x1F)
    || n == 0x1680 || (0x2000 <= n <= 0x2006) || (0x2008 <= n <= 0x200A)
    || n == 0x2028 || n == 0x2029 || n == 0x205F || n == 0x3000
  }

  /** `s.isBlank()` */
  predicate IsBlank(s: string) {
    forall i :: 0 <= i < |s| ==> IsWhitespace(s[i])
  }

  predicate IsLineTerminator(c: char) {
    c == '\n' || c == '\r'
  }

  predicate NoLineTerminator(s: string) {
    forall i :: 0 <= i < |s| ==> !IsLineTerminator(s[i])
  }

  lemma NoLineTerminatorConcat(a: string, b: string)
    requires NoLineTerminator(a) && NoLineTerminator(b)
    ensures NoLineTerminator(a + b)
  {
    forall i | 0 <= i < |a + b| ensures !IsLineTerminator((a + b)[i]) {
      if i < |a| { assert (a + b)[i] == a[i]; } else { assert (a + b)[i] == b[i - |a|]; }
    }
  }

  /** Length of the first line of `s`, excluding its terminator. */
  function LineLength(s: string): (k: nat)
    ensures k <= |s|
    ensures k < |s| ==> IsLineTerminator(s[k])
    ensures forall i :: 0 <= i < k ==> !IsLineTerminator(s[i])
    decreases |s|
  {
    if s == [] || IsLineTerminator(s[0]) then 0 else 1 + LineLength(s[1..])
  }

  /** `s.lines()`: lines end at "\n", "\r" or "\r\n"; a final line is kept only when non-empty. */
  function Lines(s: string): (r: seq<string>)
    ensures forall i :: 0 <= i < |r| ==> NoLineTerminator(r[i])
    decreases |s|
  {
    if s == [] then []
    else
      var k := LineLength(s);
      if k == |s| then [s]
      else
        var next := if s[k] == '\r' && k + 1 < |s| && s[k + 1] == '\n' then k + 2 else k + 1;
        [s[..k]] + Lines(s[next..])
  }

  /** `String.join(sep, xs)` */
  function Join(xs: seq<string>, sep: string): string
    decreases |xs|
  {
    if xs == [] then ""
    else if |xs| == 1 then xs[0]
    else xs[0] + sep + Join(xs[1..], sep)
  }

  lemma LineLengthOfLine(x: string, rest: string)
    requires NoLineTerminator(x)
    requires rest == [] || IsLineTerminator(rest[0])
    ensures LineLength(x + rest) == |x|
  {
    var s := x + rest;
    assert forall i :: 0 <= i < |x| ==> s[i] == x[i];
    assert rest != [] ==> s[|x|] == rest[0];
  }

  lemma LinesOfLastLine(x: string)
    requires NoLineTerminator(x)
    ensures Lines(x) == if x == "" then [] else [x]
  {
    if x != "" {
      LineLengthOfLine(x, "");
      assert x + "" == x;
    }
  }

  lemma LinesOfLine(x: string, j: string)
    requires NoLineTerminator(x)
    ensures Lines(x + "\n" + j) == [x] + Lines(j)
  {
    var s := x + "\n" + j;
    assert s == x + ("\n" + j);
    LineLengthOfLine(x, "\n" + j);
    assert s[|x|] == '\n';
    assert s[..|x|] == x;
    assert s[|x| + 1..] == j;
  }

  /** The lines read back from joined lines: a final empty line vanishes. */
  function JoinedLines(xs: seq<string>): seq<string> {
    if xs != [] && xs[|xs| - 1] == "" then xs[..|xs| - 1] else xs
  }

  lemma JoinedLinesCons(xs: seq<string>)
    requires |xs| >= 2
    ensures JoinedLines(xs) == [xs[0]] + JoinedLines(xs[1..])
  {
    var tail := xs[1..];
    assert tail[|tail| - 1] == xs[|xs| - 1];
    if xs[|xs| - 1] == "" {
      assert [xs[0]] + tail[..|tail| - 1] == xs[..|xs| - 1];
    } else {
      assert [xs[0]] + tail == xs;
    }
  }

  /** Reading back joined lines gives the lines again, except that a final empty line vanishes. */
  lemma {:induction false} LinesOfJoin(xs: seq<string>)
    requires forall i :: 0 <= i < |xs| ==> NoLineTerminator(xs[i])
    ensures Lines(Join(xs, "\n")) == JoinedLines(xs)
    decreases |xs|
  {
    if xs == [] {
    } else if |xs| == 1 {
      LinesOfLastLine(xs[0]);
      assert xs == [xs[0]];
    } else {
      var tail := xs[1..];
      assert forall i :: 0 <= i < |tail| ==> NoLineTerminator(tail[i]) by {
        forall i | 0 <= i < |tail| ensures NoLineTerminator(tail[i]) {
          assert tail[i] == xs[i + 1];
        }
      }
      LinesOfLine(xs[0], Join(tail, "\n"));
      LinesOfJoin(tail);
      JoinedLinesCons(xs);
    }
  }

  /** `content.lines().map(String::trim)` collected into a set. */
  function TrimmedLines(s: string): set<string> {
    set l | l in Lines(s) :: Trim(l)
  }

  /** `content.lines().map(String::trim).filter(l -> !l.isEmpty())` collected into a set. */
  function NonEmptyTrimmedLines(s: string): set<string> {
    set l | l in Lines(s) && Trim(l) != "" :: Trim(l)
  }

  predicate IsLineValue(x: string) {
    x != "" && NoLineTerminator(x) && IsTrimmed(x)
  }

  lemma TrimmedValues(ls: seq<string>)
    requires forall i :: 0 <= i < |ls| ==> IsLineValue(ls[i])
    ensures (set l | l in ls && Trim(l) != "" :: Trim(l)) == set x | x in ls
    ensures (set l | l in ls :: Trim(l)) == set x | x in ls
  {
    forall l | l in ls ensures Trim(l) == l && l != "" {
      var i :| 0 <= i < |ls| && ls[i] == l;
    }
  }

  /** Writing values one per line and reading the non-empty trimmed lines back is lossless. */
  lemma NonEmptyTrimmedLinesOfJoin(xs: seq<string>)
    requires forall i :: 0 <= i < |xs| ==> IsLineValue(xs[i])
    ensures NonEmptyTrimmedLines(Join(xs, "\n")) == set x | x in xs
    ensures TrimmedLines(Join(xs, "\n")) == set x | x in xs
  {
    LinesOfJoin(xs);
    assert Lines(Join(xs, "\n")) == xs;
    TrimmedValues(xs);
  }

  /** Every segment of `s` between occurrences of `c`, empty ones included. */
  function SplitOn(s: string, c: char): (r: seq<string>)
    ensures |r| >= 1
    decreases |s|
  {
    if s == [] then [""]
    else if s[0] == c then [""] + SplitOn(s[1..], c)
    else
      var rest := SplitOn(s[1..], c);
      [[s[0]] + rest[0]] + rest[1..]
  }

  lemma {:induction false} SplitOnWithout(a: string, c: char)
    requires c !in a
    ensures SplitOn(a, c) == [a]
    decreases |a|
  {
    if a != [] {
      SplitOnWithout(a[1..], c);
      assert [a[0]] + a[1..] == a;
    }
  }

  lemma {:induction false} SplitOnPair(a: string, c: char, b: string)
    requires c !in a
    ensures SplitOn(a + [c] + b, c) == [a] + SplitOn(b, c)
    decreases |a|
  {
    if a == [] {
      assert ([c] + b)[1..] == b;
    } else {
      assert (a + [c] + b)[1..] == a[1..] + [c] + b;
      SplitOnPair(a[1..], c, b);
      assert [a[0]] + a[1..] == a;
    }
  }

  function DropTrailingEmpty(xs: seq<string>): seq<string>
    decreases |xs|
  {
    if xs != [] && xs[|xs| - 1] == "" then DropTrailingEmpty(xs[..|xs| - 1]) else xs
  }

  /** `s.split(String.valueOf(c))` for a separator that is not a regex metacharacter:
      no match gives `[s]`, otherwise trailing empty segments are dropped. */
  function JavaSplit(s: string, c: char): seq<string> {
    if c !in s then [s] else DropTrailingEmpty(SplitOn(s, c))
  }

  /** A `key;value` line splits back into its key and value. */
  lemma JavaSplitPair(a: string, c: char, b: string)
    requires c !in a && c !in b && b != ""
    ensures JavaSplit(a + [c] + b, c) == [a, b]
  {
    var s := a + [c] + b;
    assert s[|a|] == c;
    SplitOnPair(a, c, b);
    SplitOnWithout(b, c);
  }

  /** `s.indexOf(c)`, -1 when absent. */
  function IndexOfChar(s: string, c: char): (r: int)
    ensures -1 <= r < |s|
    ensures r == -1 <==> c !in s
    ensures r >= 0 ==> s[r] == c && c !in s[..r]
    decreases |s|
  {
    if s == [] then -1
    else if s[0] == c then 0
    else
      var k := IndexOfChar(s[1..], c);
      assert c in s[1..] ==> c in s;
      assert c in s && s[0] != c ==> c in s[1..];
      if k == -1 then -1
      else
        assert s[..k + 1] == [s[0]] + s[1..][..k];
        k + 1
  }

  /** `s.lastIndexOf(c)`, -1 when absent. */
  function LastIndexOfChar(s: string, c: char): (r: int)
    ensures -1 <= r < |s|
    ensures r >= 0 ==> s[r] == c
    ensures forall j :: r < j < |s| ==> s[j] != c
    decreases |s|
  {
    if s == [] then -1
    else if s[|s| - 1] == c then |s| - 1
    else
      var init := s[..|s| - 1];
      var r := LastIndexOfChar(init, c);
      assert forall j :: 0 <= j < |init| ==> init[j] == s[j];
      r
  }

  function Repeat(s: string, n: nat): string {
    if n == 0 then "" else s + Repeat(s, n - 1)
  }

  function CountChar(s: string, c: char): nat {
    if s == [] then 0 else (if s[0] == c then 1 else 0) + CountChar(s[1..], c)
  }

  lemma {:induction false} CountCharAppend(a: string, b: string, c: char)
    ensures CountChar(a + b, c) == CountChar(a, c) + CountChar(b, c)
    decreases |a|
  {
    if a != [] {
      assert (a + b)[1..] == a[1..] + b;
      assert (a + b)[0] == a[0];
      CountCharAppend(a[1..], b, c);
      assert CountChar(a + b, c) == (if a[0] == c then 1 else 0) + CountChar(a[1..] + b, c);
    } else {
      assert a + b == b;
    }
  }

  /** `s.replace(pattern, replacement)`: occurrences are replaced left to right without overlap. */
  function ReplaceAll(s: string, pattern: string, replacement: string): string
    requires pattern != []
    decreases |s|
  {
    if s == [] then []
    else if StartsWith(s, pattern) then replacement + ReplaceAll(s[|pattern|..], pattern, replacement)
    else [s[0]] + ReplaceAll(s[1..], pattern, replacement)
  }

  /** Text without the pattern comes through a replacement untouched. */
  lemma {:induction false} ReplaceAllAbsent(s: string, pattern: string, replacement: string)
    requires pattern != [] && !Contains(s, pattern)
    ensures ReplaceAll(s, pattern, replacement) == s
    decreases |s|
  {
    if s != [] {
      ReplaceAllAbsent(s[1..], pattern, replacement);
      assert [s[0]] + s[1..] == s;
    }
  }

  lemma LineLengthOfPrefix(a: string, b: string)
    requires LineLength(a) < |a|
    ensures LineLength(a + b) == LineLength(a)
  {
    var s, k, m := a + b, LineLength(a), LineLength(a + b);
    assert forall i :: 0 <= i < |a| ==> s[i] == a[i];
  }

  /** Where the second line starts, after the terminator of the first. */
  function NextLineStart(s: string): (n: nat)
    requires LineLength(s) < |s|
    ensures LineLength(s) < n <= |s|
  {
    var k := LineLength(s);
    if s[k] == '\r' && k + 1 < |s| && s[k + 1] == '\n' then k + 2 else k + 1
  }

  lemma LinesUnfold(s: string)
    requires LineLength(s) < |s|
    ensures Lines(s) == [s[..LineLength(s)]] + Lines(s[NextLineStart(s)..])
  {
  }

  /** The first line of `a + b` is that of `a` when `a` holds a terminator that
      cannot merge with `b`. */
  lemma LinesOfConcatStep(a: string, b: string)
    requires LineLength(a) < |a| && (LineLength(a) + 1 < |a| || a[LineLength(a)] == '\n')
    ensures Lines(a + b) == [a[..LineLength(a)]] + Lines(a[NextLineStart(a)..] + b)
  {
    var k := LineLength(a);
    LineLengthOfPrefix(a, b);
    assert a[k] == (a + b)[k];
    assert NextLineStart(a) == NextLineStart(a + b) by {
      if k + 1 < |a| { assert a[k + 1] == (a + b)[k + 1]; }
    }
    var next := NextLineStart(a);
    assert (a + b)[..k] == a[..k];
    assert (a + b)[next..] == a[next..] + b;
    LinesUnfold(a + b);
  }

  lemma TerminatedStep(a: string)
    requires a != [] && a[|a| - 1] == '\n'
    ensures LineLength(a) < |a|
    ensures LineLength(a) + 1 < |a| || a[LineLength(a)] == '\n'
    ensures var rest := a[NextLineStart(a)..]; rest == [] || rest[|rest| - 1] == '\n'
  {
    assert IsLineTerminator(a[|a| - 1]);
  }

  /** `x` consed onto both sides of `r + b == rb`. */
  lemma ConsAppend<T>(x: T, whole: seq<T>, a: seq<T>, b: seq<T>, r: seq<T>, rb: seq<T>)
    requires whole == [x] + rb && a == [x] + r && rb == r + b
    ensures whole == a + b
  {
  }

  /** One line of `a` peeled off: the rest of `a` splits independently of
      `b` (by induction), hence so does `a`. */
  lemma {:induction false} LinesAppendStep(a: string, b: string)
    requires a != [] && a[|a| - 1] == '\n'
    ensures Lines(a + b) == Lines(a) + Lines(b)
    decreases |a|, 0
  {
    TerminatedStep(a);
    var rest := a[NextLineStart(a)..];
    LinesAppend(rest, b);
    LinesOfConcatStep(a, b);
    LinesUnfold(a);
    ConsAppend(a[..LineLength(a)], Lines(a + b), Lines(a), Lines(b), Lines(rest), Lines(rest + b));
  }

  lemma PrependEmpty<T>(whole: seq<T>, e: seq<T>, b: seq<T>)
    requires whole == b && e == []
    ensures whole == e + b
  {
  }

  lemma LinesAppendEmpty(b: string)
    ensures Lines([] + b) == Lines([]) + Lines(b)
  {
    var e: string := [];
    assert e + b == b;
    assert Lines(e) == [];
    PrependEmpty(Lines(e + b), Lines(e), Lines(b));
  }

  /** Text that ends with a line feed splits into lines independently of what follows it. */
  lemma {:induction false} LinesAppend(a: string, b: string)
    requires a == [] || a[|a| - 1] == '\n'
    ensures Lines(a + b) == Lines(a) + Lines(b)
    decreases |a|, 1
  {
    if a == [] {
      LinesAppendEmpty(b);
    } else {
      LinesAppendStep(a, b);
    }
  }

  /** Appending a line and a line feed to such text adds exactly that line. */
  lemma AppendedLine(a: string, line: string)
    requires a == [] || a[|a| - 1] == '\n'
    requires NoLineTerminator(line)
    ensures Lines(a + line + "\n") == Lines(a) + [line]
  {
    LinesAppend(a, line + "\n");
    LinesOfLine(line, "");
    assert line + "\n" + "" == line + "\n";
    assert a + line + "\n" == a + (line + "\n");
  }
}
