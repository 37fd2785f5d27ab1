/** String helpers with the meaning Python's `str` methods have on ASCII text:
    `strip`, `isdigit`, `upper`, `in` (substring), `endswith`, `' '.join`,
    `str(n)` for a natural number, and the splitting of a file into lines
    done by `readlines`. */
module Text {

  /** `str.isspace` restricted to ASCII: space, \t \n \v \f \r and the four
      separator controls \x1c..\x1f. */
  predicate IsSpace(c: char) {
    c == ' ' || ('\t' <= c <= '\r') || ('\U{1C}' <= c <= '\U{1F}')
  }

  predicate IsDigit(c: char) { '0' <= c <= '9' }

  predicate IsUpperLetter(c: char) { 'A' <= c <= 'Z' }

  /** `str.isdigit` on ASCII: non-empty and made only of digits. */
  predicate IsDigits(s: string) {
    |s| > 0 && forall i :: 0 <= i < |s| ==> IsDigit(s[i])
  }

  /** A string `strip` leaves alone: empty, or neither end is whitespace. */
  predicate IsTrimmed(s: string) {
    s == [] || (!IsSpace(s[0]) && !IsSpace(s[|s| - 1]))
  }

  /** `str.lstrip()`: the suffix left after the leading whitespace run. */
  function TrimStart(s: string): (r: string)
    ensures |r| <= |s| && r == s[|s| - |r|..]
    ensures r == [] || !IsSpace(r[0])
  {
    if |s| > 0 && IsSpace(s[0]) then TrimStart(s[1..]) else s
  }

  /** What `lstrip` removes is whitespace. */
  lemma {:induction false} TrimStartRemovesSpace(s: string)
    ensures forall i :: 0 <= i < |s| - |TrimStart(s)| ==> IsSpace(s[i])
  {
    if |s| > 0 && IsSpace(s[0]) {
      TrimStartRemovesSpace(s[1..]);
    }
  }

  /** `str.rstrip()`: the prefix left after the trailing whitespace run. */
  function TrimEnd(s: string): (r: string)
    ensures |r| <= |s| && r == s[..|r|]
    ensures r == [] || !IsSpace(r[|r| - 1])
  {
    if |s| > 0 && IsSpace(s[|s| - 1]) then TrimEnd(s[..|s| - 1]) else s
  }

  /** What `rstrip` removes is whitespace. */
  lemma {:induction false} TrimEndRemovesSpace(s: string)
    ensures forall i :: |TrimEnd(s)| <= i < |s| ==> IsSpace(s[i])
  {
    if |s| > 0 && IsSpace(s[|s| - 1]) {
      TrimEndRemovesSpace(s[..|s| - 1]);
    }
  }

  /** `str.strip()`. */
  function Strip(s: string): (r: string)
    ensures IsTrimmed(r)
  {
    TrimEnd(TrimStart(s))
  }

  /** Stripping removes only whitespace from the two ends: what is left is a
      contiguous slice of `s` and everything outside it is whitespace. */
  lemma {:induction false} StripSlice(s: string) returns (lo: nat)
    ensures lo + |Strip(s)| <= |s| && Strip(s) == s[lo..lo + |Strip(s)|]
    ensures forall i :: 0 <= i < lo ==> IsSpace(s[i])
    ensures forall i :: lo + |Strip(s)| <= i < |s| ==> IsSpace(s[i])
  {
    var t := TrimStart(s);
    lo := |s| - |t|;
    var r := TrimEnd(t);
    assert Strip(s) == r;
    TrimStartRemovesSpace(s);
    TrimEndRemovesSpace(t);
    SliceOfSuffix(s, lo, |r|);
    forall i | lo + |r| <= i < |s|
      ensures IsSpace(s[i])
    {
      assert s[i] == t[i - lo];
    }
  }

  lemma {:induction false} SliceOfSuffix(s: string, lo: nat, n: nat)
    requires lo + n <= |s|
    ensures s[lo..][..n] == s[lo..lo + n]
  {
  }

  /** Stripping adds no line break. */
  lemma {:induction false} StripNoBreak(s: string)
    requires '\n' !in s
    ensures '\n' !in Strip(s)
  {
    var lo := StripSlice(s);
    var r := Strip(s);
    assert forall i :: 0 <= i < |r| ==> r[i] == s[lo + i];
  }

  /** A trimmed string is a fixed point of `strip`. */
  lemma {:induction false} StripTrimmed(s: string)
    requires IsTrimmed(s)
    ensures Strip(s) == s
  {
  }

  /** A string that starts with a non-space `prefix` keeps that prefix when
      stripped, provided the prefix ends with a non-space too. */
  lemma {:induction false} StripKeepsPrefix(s: string, n: nat)
    requires 0 < n <= |s| && !IsSpace(s[0]) && !IsSpace(s[n - 1])
    ensures n <= |Strip(s)| && Strip(s)[..n] == s[..n]
  {
    assert TrimStart(s) == s;
    TrimEndRemovesSpace(s);
  }

  function UpperChar(c: char): char {
    if 'a' <= c <= 'z' then (c as int - 'a' as int + 'A' as int) as char else c
  }

  /** `str.upper()` on ASCII. */
  function Upper(s: string): (r: string)
    ensures |r| == |s|
    ensures forall i :: 0 <= i < |s| ==> r[i] == UpperChar(s[i])
  {
    seq(|s|, i requires 0 <= i < |s| => UpperChar(s[i]))
  }

  predicate MatchesAt(s: string, pat: string, i: nat) {
    i + |pat| <= |s| && s[i..i + |pat|] == pat
  }

  /** Python's `pat in s`. */
  predicate Contains(s: string, pat: string) {
    exists i: nat :: i <= |s| && MatchesAt(s, pat, i)
  }

  predicate StartsWith(s: string, pre: string) {
    |pre| <= |s| && s[..|pre|] == pre
  }

  /** `str.endswith`. */
  predicate EndsWith(s: string, suf: string) {
    |suf| <= |s| && s[|s| - |suf|..] == suf
  }

  lemma {:induction false} EndsWithAppend(a: string, b: string, suf: string)
    requires EndsWith(b, suf)
    ensures EndsWith(a + b, suf)
  {
    assert (a + b)[|a + b| - |suf|..] == b[|b| - |suf|..];
  }

  /** `' '.join(parts)`. */
  function JoinSpace(parts: seq<string>): (r: string)
    ensures |parts| > 0 ==> StartsWith(r, parts[0]) && EndsWith(r, parts[|parts| - 1])
  {
    if |parts| == 0 then ""
    else if |parts| == 1 then parts[0]
    else
      var rest := JoinSpace(parts[1..]);
      var r := parts[0] + " " + rest;
      assert r[..|parts[0]|] == parts[0];
      assert r[|r| - |rest|..] == rest;
      EndsWithAppend(parts[0] + " ", rest, parts[|parts| - 1]);
      r
  }

  /** Joining two non-empty runs one after the other puts one space between
      their joins. */
  lemma {:induction false} JoinSpaceAppend(a: seq<string>, b: seq<string>)
    requires a != [] && b != []
    ensures JoinSpace(a + b) == JoinSpace(a) + " " + JoinSpace(b)
    decreases |a|
  {
    assert (a + b)[0] == a[0];
    assert (a + b)[1..] == a[1..] + b;
    if |a| > 1 {
      JoinSpaceAppend(a[1..], b);
    }
  }

  /** Joining non-empty trimmed words with single spaces gives a non-empty
      trimmed string. */
  lemma {:induction false} JoinSpaceTrimmed(parts: seq<string>)
    requires |parts| > 0
    requires forall i :: 0 <= i < |parts| ==> parts[i] != "" && IsTrimmed(parts[i])
    ensures JoinSpace(parts) != "" && IsTrimmed(JoinSpace(parts))
    ensures JoinSpace(parts)[0] == parts[0][0]
    ensures JoinSpace(parts)[|JoinSpace(parts)| - 1] == parts[|parts| - 1][|parts[|parts| - 1]| - 1]
  {
    if |parts| > 1 {
      JoinSpaceTrimmed(parts[1..]);
    }
  }

  /** Joining a single word gives the word. */
  lemma {:induction false} JoinSpaceSingle(w: string)
    ensures JoinSpace([w]) == w
  {
  }

  function DigitChar(d: nat): char
    requires d < 10
  {
    ('0' as int + d) as char
  }

  /** `str(n)` for a natural number: its decimal digits, without leading
      zeros. */
  function NatToString(n: nat): (r: string)
    ensures IsDigits(r)
    ensures n < 10 ==> |r| == 1
    ensures n >= 10 ==> r[0] != '0'
    ensures DigitsValue(r) == n
  {
    if n < 10 then
      assert [DigitChar(n)][..0] == [];
      [DigitChar(n)]
    else
      var r := NatToString(n / 10) + [DigitChar(n % 10)];
      assert r[..|r| - 1] == NatToString(n / 10);
      r
  }

  /** The number a string of decimal digits denotes, read left to right. */
  function DigitsValue(s: string): int {
    if s == [] then 0 else 10 * DigitsValue(s[..|s| - 1]) + (s[|s| - 1] as int - '0' as int)
  }

  /** The smaller of two numbers. */
  function Min(a: nat, b: nat): nat { if a < b then a else b }

  /** Index of the first `c` in `s`, or `|s|` when there is none. */
  function IndexOf(s: string, c: char): (k: nat)
    ensures k <= |s|
    ensures k < |s| ==> s[k] == c
    ensures forall i :: 0 <= i < k ==> s[i] != c
  {
    if s == [] then 0 else if s[0] == c then 0 else 1 + IndexOf(s[1..], c)
  }

  /** The lines `readlines` returns, each without its line terminator: the
      pieces between '\n' characters, with no empty piece after a final
      '\n'. */
  function SplitLines(s: string): (lines: seq<string>)
    ensures forall i :: 0 <= i < |lines| ==> '\n' !in lines[i]
    decreases |s|
  {
    if s == [] then []
    else
      var k := IndexOf(s, '\n');
      if k == |s| then [s] else [s[..k]] + SplitLines(s[k + 1..])
  }

  /** Writes each line followed by '\n', as a sequence of `write(line + '\n')`
      calls does. */
  function Render(lines: seq<string>): string {
    if lines == [] then "" else lines[0] + "\n" + Render(lines[1..])
  }

  lemma {:induction false} RenderAppend(a: seq<string>, b: seq<string>)
    ensures Render(a + b) == Render(a) + Render(b)
  {
    if a != [] {
      assert (a + b)[1..] == a[1..] + b;
      RenderAppend(a[1..], b);
    } else {
      assert a + b == b;
    }
  }

  /** Writing back the lines `readlines` returned gives the content again,
      with a line break added after a last line that had none. */
  lemma {:induction false} RenderSplit(s: string)
    ensures Render(SplitLines(s)) == if s == [] || s[|s| - 1] == '\n' then s else s + "\n"
    decreases |s|
  {
    if s != [] {
      var k := IndexOf(s, '\n');
      if k == |s| {
        RenderOne(s, []);
      } else {
        var t := s[k + 1..];
        RenderOne(s[..k], SplitLines(t));
        RenderSplit(t);
        BreakJoin(s, k);
      }
    }
  }

  lemma {:induction false} RenderOne(line: string, rest: seq<string>)
    ensures Render([line] + rest) == line + "\n" + Render(rest)
  {
    assert ([line] + rest)[1..] == rest;
  }

  /** Cutting a string at a line break and gluing it back. */
  lemma {:induction false} BreakJoin(s: string, k: nat)
    requires k < |s| && s[k] == '\n'
    ensures s == s[..k] + "\n" + s[k + 1..]
    ensures s[k + 1..] == [] ==> s[|s| - 1] == '\n'
    ensures s[k + 1..] != [] ==> s[|s| - 1] == s[k + 1..][|s[k + 1..]| - 1]
  {
  }

  /** Reading back what `Render` wrote gives the same lines, as long as no
      line holds a line break of its own. */
  lemma {:induction false} SplitRender(lines: seq<string>)
    requires forall i :: 0 <= i < |lines| ==> '\n' !in lines[i]
    ensures SplitLines(Render(lines)) == lines
  {
    if lines != [] {
      var s := Render(lines);
      var a := lines[0];
      assert lines == [a] + lines[1..];
      RenderOne(a, lines[1..]);
      assert s[|a|] == '\n';
      assert forall i :: 0 <= i < |a| ==> s[i] == a[i];
      var k := IndexOf(s, '\n');
      assert k == |a|;
      assert s[..k] == a;
      assert s[k + 1..] == Render(lines[1..]);
      SplitRender(lines[1..]);
    }
  }
}
