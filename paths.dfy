/** The output-name derivation of `process_vtt` (main.py), over the POSIX
    path functions it uses: `os.path.basename`, `os.path.splitext`,
    `os.path.dirname` and `os.path.join`, and the substitution
    `re.sub(r'-[A-Z]{2}$', '', name)`. */
module Paths {
  import opened Text

  /** `str.rfind(c)`: the last index of `c`, or -1. */
  function LastIndexOf(s: string, c: char): (k: int)
    ensures -1 <= k < |s|
    ensures k >= 0 ==> s[k] == c
    ensures forall i :: k < i < |s| ==> s[i] != c
  {
    if s == [] then -1
    else if s[|s| - 1] == c then |s| - 1
    else LastIndexOf(s[..|s| - 1], c)
  }

  /** `os.path.basename`: what follows the last '/'. */
  function Basename(p: string): (r: string)
    ensures |r| <= |p| && r == p[|p| - |r|..]
    ensures '/' !in r
    ensures |r| < |p| ==> p[|p| - |r| - 1] == '/'
  {
    AfterLastSlash(p);
    p[LastIndexOf(p, '/') + 1..]
  }

  lemma {:induction false} AfterLastSlash(p: string)
    ensures '/' !in p[LastIndexOf(p, '/') + 1..]
  {
    var k := LastIndexOf(p, '/');
    var b := p[k + 1..];
    forall i | 0 <= i < |b|
      ensures b[i] != '/'
    {
      assert b[i] == p[k + 1 + i];
    }
  }

  predicate AllSlashes(s: string) {
    forall i :: 0 <= i < |s| ==> s[i] == '/'
  }

  /** `s.rstrip('/')`. */
  function TrimSlashes(s: string): (r: string)
    ensures |r| <= |s| && r == s[..|r|]
    ensures r == [] || r[|r| - 1] != '/'
    ensures forall i :: |r| <= i < |s| ==> s[i] == '/'
  {
    if s != [] && s[|s| - 1] == '/' then TrimSlashes(s[..|s| - 1]) else s
  }

  /** `os.path.dirname`: everything up to the last '/', with trailing slashes
      removed unless it is made of slashes only. */
  function Dirname(p: string): (r: string)
    ensures |r| <= LastIndexOf(p, '/') + 1 && r == p[..|r|]
    ensures forall i :: |r| <= i <= LastIndexOf(p, '/') ==> p[i] == '/'
    ensures r == [] <==> LastIndexOf(p, '/') == -1
    ensures r == [] || AllSlashes(r) || r[|r| - 1] != '/'
    ensures (forall i :: 0 <= i <= LastIndexOf(p, '/') ==> p[i] == '/') ==> |r| == LastIndexOf(p, '/') + 1
  {
    var head := p[..LastIndexOf(p, '/') + 1];
    if head != [] && !AllSlashes(head) then TrimSlashes(head) else head
  }

  /** `os.path.join(a, b)` for two components. */
  function Join(a: string, b: string): (r: string)
    ensures EndsWith(r, b)
    ensures StartsWith(b, "/") ==> r == b
    ensures !StartsWith(b, "/") ==> StartsWith(r, a) && |a| + |b| <= |r| <= |a| + |b| + 1
    ensures !StartsWith(b, "/") ==> (|r| == |a| + |b| + 1 <==> a != [] && a[|a| - 1] != '/')
    ensures |r| == |a| + |b| + 1 ==> r[|a|] == '/'
  {
    if StartsWith(b, "/") then b
    else if a == [] || a[|a| - 1] == '/' then a + b
    else a + "/" + b
  }

  /** `os.path.splitext(name)[0]`: drops the part from the last '.' on, when
      that '.' comes after the last '/' and some character other than '.'
      lies between them (so ".vtt" or "..vtt" keep their dots). */
  function DropExtension(name: string): (r: string)
    ensures |r| <= |name| && r == name[..|r|]
    ensures r != name ==> name[|r|] == '.' && forall i :: |r| < i < |name| ==> name[i] != '.' && name[i] != '/'
    ensures r != name ==> exists j :: LastIndexOf(name, '/') < j < |r| && name[j] != '.'
    ensures (exists j, d :: LastIndexOf(name, '/') < j < d < |name| && name[j] != '.' && name[d] == '.') ==> r != name
  {
    var sep := LastIndexOf(name, '/');
    var dot := LastIndexOf(name, '.');
    if dot > sep && exists j :: sep + 1 <= j < dot && name[j] != '.' then name[..dot] else name
  }

  /** "-" followed by two ASCII capitals: what `-[A-Z]{2}` matches. */
  predicate IsLanguageTag(s: string) {
    |s| == 3 && s[0] == '-' && IsUpperLetter(s[1]) && IsUpperLetter(s[2])
  }

  /** `re.sub(r'-[A-Z]{2}$', '', name)`: `$` matches at the end of the string
      and also just before a final '\n'. */
  function DropLanguageTag(name: string): (r: string)
    ensures r == name || |r| + 3 == |name|
    ensures r != name && r == name[..|r|] ==> IsLanguageTag(name[|r|..])
    ensures r != name && r != name[..|r|] ==>
      name[|name| - 1] == '\n' && r == name[..|r| - 1] + "\n" && IsLanguageTag(name[|r| - 1..|name| - 1])
    ensures '\n' !in name ==> (r != name <==> |name| >= 3 && IsLanguageTag(name[|name| - 3..]))
  {
    if |name| >= 3 && IsLanguageTag(name[|name| - 3..]) then name[..|name| - 3]
    else if |name| >= 4 && name[|name| - 1] == '\n' && IsLanguageTag(name[|name| - 4..|name| - 1]) then
      name[..|name| - 4] + "\n"
    else name
  }

  /** Name of the translated file: the source's base name without extension
      and without a trailing language tag, then "-", the upper-cased target
      and ".vtt". */
  function OutputName(filePath: string, target: string): (r: string)
    ensures EndsWith(r, "-" + Upper(target) + ".vtt")
    ensures '/' !in target ==> '/' !in r
  {
    var stem := DropLanguageTag(DropExtension(Basename(filePath)));
    StemNoSlash(Basename(filePath));
    Suffixed(stem, target);
    stem + "-" + Upper(target) + ".vtt"
  }

  lemma {:induction false} Suffixed(stem: string, target: string)
    requires '/' !in stem
    ensures EndsWith(stem + "-" + Upper(target) + ".vtt", "-" + Upper(target) + ".vtt")
    ensures '/' !in target ==> '/' !in stem + "-" + Upper(target) + ".vtt"
  {
    var u := Upper(target);
    var suffix := "-" + u + ".vtt";
    assert stem + "-" + u + ".vtt" == stem + suffix;
    assert (stem + suffix)[|stem|..] == suffix;
    if '/' !in target {
      assert forall i :: 0 <= i < |u| ==> u[i] != '/' by {
        forall i | 0 <= i < |u| ensures u[i] != '/' { assert u[i] == UpperChar(target[i]); }
      }
      assert '/' !in u;
    }
  }

  /** The translated file goes into the source file's directory. */
  function OutputPath(filePath: string, target: string): (r: string)
    ensures '/' !in target ==> Dirname(r) == Dirname(filePath) && Basename(r) == OutputName(filePath, target)
  {
    JoinedBeside(filePath, target);
    Join(Dirname(filePath), OutputName(filePath, target))
  }

  lemma {:induction false} JoinedBeside(filePath: string, target: string)
    ensures '/' !in target ==>
      var r := Join(Dirname(filePath), OutputName(filePath, target));
      Dirname(r) == Dirname(filePath) && Basename(r) == OutputName(filePath, target)
  {
    if '/' !in target {
      var d, n := Dirname(filePath), OutputName(filePath, target);
      assert '/' !in n;
      assert d == [] || AllSlashes(d) || d[|d| - 1] != '/';
      JoinParts(d, n);
    }
  }

  // ----- properties -----

  lemma {:induction false} NoSlashLast(s: string)
    requires '/' !in s
    ensures LastIndexOf(s, '/') == -1
  {
  }

  /** A language code of two ASCII letters becomes a language tag. */
  predicate IsTwoLetterCode(code: string) {
    |code| == 2 && forall i :: 0 <= i < 2 ==> ('a' <= code[i] <= 'z' || 'A' <= code[i] <= 'Z')
  }

  lemma {:induction false} UpperTag(code: string)
    requires IsTwoLetterCode(code)
    ensures IsLanguageTag("-" + Upper(code))
  {
  }

  /** The extension and a trailing language tag are removed once each: the
      stem of "<stem>-XY.vtt" is "<stem>". */
  lemma {:induction false} StemOfTaggedName(stem: string, tag: string)
    requires IsLanguageTag(tag) && '/' !in stem
    ensures DropLanguageTag(DropExtension(stem + tag + ".vtt")) == stem
  {
    var name := stem + tag + ".vtt";
    NoSlashLast(name);
    var dot := |stem| + 3;
    assert name[dot] == '.';
    assert forall i :: dot < i < |name| ==> name[i] != '.';
    assert LastIndexOf(name, '.') == dot;
    assert name[|stem|] == '-';
    assert DropExtension(name) == stem + tag;
    assert (stem + tag)[|stem|..] == tag;
  }

  lemma {:induction false} StemNoSlash(base: string)
    requires '/' !in base
    ensures '/' !in DropLanguageTag(DropExtension(base))
  {
    NoSlashLast(base);
    var e := DropExtension(base);
    assert forall i :: 0 <= i < |e| ==> e[i] in base;
  }

  lemma {:induction false} LastSlashAfter(a: string, b: string)
    requires '/' !in b
    ensures LastIndexOf(a + b, '/') == LastIndexOf(a, '/')
    decreases |b|
  {
    if b != [] {
      assert (a + b)[..|a + b| - 1] == a + b[..|b| - 1];
      LastSlashAfter(a, b[..|b| - 1]);
    } else {
      assert a + b == a;
    }
  }

  lemma {:induction false} NotRooted(name: string)
    requires '/' !in name
    ensures !StartsWith(name, "/")
  {
    assert name == [] || name[0] != '/';
  }

  lemma {:induction false} JoinUnderSlashes(d: string, name: string)
    requires '/' !in name && d != [] && d[|d| - 1] == '/' && AllSlashes(d)
    ensures Dirname(d + name) == d && Basename(d + name) == name
  {
    var p := d + name;
    LastSlashAfter(d, name);
    assert LastIndexOf(d, '/') == |d| - 1;
    assert p[..|d|] == d;
    assert p[|d|..] == name;
  }

  lemma {:induction false} JoinUnderDirectory(d: string, name: string)
    requires '/' !in name && d != [] && d[|d| - 1] != '/'
    ensures Dirname(d + "/" + name) == d && Basename(d + "/" + name) == name
  {
    var h := d + "/";
    var p := h + name;
    LastSlashAfter(h, name);
    assert LastIndexOf(h, '/') == |d|;
    assert p[..|d| + 1] == h;
    assert p[|d| + 1..] == name;
    assert !AllSlashes(h) by { assert h[|d| - 1] != '/'; }
    assert h[..|d|] == d;
    assert TrimSlashes(h) == TrimSlashes(d);
  }

  lemma {:induction false} JoinParts(d: string, name: string)
    requires '/' !in name
    requires d == [] || AllSlashes(d) || d[|d| - 1] != '/'
    ensures Dirname(Join(d, name)) == d && Basename(Join(d, name)) == name
  {
    NotRooted(name);
    NoSlashLast(name);
    if d == [] {
      assert Join(d, name) == name;
    } else if d[|d| - 1] == '/' {
      assert Join(d, name) == d + name;
      JoinUnderSlashes(d, name);
    } else {
      assert Join(d, name) == d + "/" + name;
      JoinUnderDirectory(d, name);
    }
  }

  /** The stem of an output name is the stem of its source's base name. */
  lemma {:induction false} OutputStem(filePath: string, first: string)
    requires IsTwoLetterCode(first)
    ensures DropLanguageTag(DropExtension(OutputName(filePath, first)))
         == DropLanguageTag(DropExtension(Basename(filePath)))
  {
    var stem := DropLanguageTag(DropExtension(Basename(filePath)));
    StemNoSlash(Basename(filePath));
    UpperTag(first);
    var u := Upper(first);
    var tag := "-" + u;
    assert OutputName(filePath, first) == stem + "-" + u + ".vtt";
    TagAssoc(stem, u);
    StemOfTaggedName(stem, tag);
  }

  lemma {:induction false} TagAssoc(stem: string, u: string)
    ensures stem + "-" + u + ".vtt" == stem + ("-" + u) + ".vtt"
  {
  }

  /** Re-deriving the name of a translation from an earlier translation's
      path gives the same file as deriving it from the source: the language
      tag the first derivation added is the one the second removes. */
  lemma {:induction false} OutputNameRederived(filePath: string, first: string, second: string)
    requires IsTwoLetterCode(first) && '/' !in second
    ensures OutputPath(OutputPath(filePath, first), second) == OutputPath(filePath, second)
  {
    var q := OutputPath(filePath, first);
    assert '/' !in first;
    OutputStem(filePath, first);
    assert OutputName(q, second) == OutputName(filePath, second);
  }
}
