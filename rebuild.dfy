/** The writer at the end of `process_vtt` (main.py): "WEBVTT", a blank line,
    then for each (timestamp, text) pair of `zip(timestamps, translated)` a
    cue number counting from 1, the timestamp, the text and a blank line. */
module Rebuild {
  import opened Text
  import opened Cues

  /** The four lines of one cue: its number, its timing, its text and a
      blank line. */
  function Cue(number: string, timing: string, text: string): seq<string> {
    [number, timing, text, ""]
  }

  /** The lines of the cues numbered from `first` on, one cue per pair of
      `zip(timestamps, texts)` (the shorter list decides). */
  function CueLines(timestamps: seq<string>, texts: seq<string>, first: nat): seq<string>
    decreases |timestamps|
  {
    if timestamps == [] || texts == [] then []
    else Cue(NatToString(first), timestamps[0], texts[0]) + CueLines(timestamps[1..], texts[1..], first + 1)
  }

  /** Everything the writer puts into the translated file. */
  function CaptionFile(timestamps: seq<string>, texts: seq<string>): string {
    Render(["WEBVTT", ""] + CueLines(timestamps, texts, 1))
  }

  /** The writer loop: `index` counts cues from 1 and each iteration writes
      four lines. */
  method WriteCaptions(timestamps: seq<string>, texts: seq<string>) returns (content: string)
    ensures content == CaptionFile(timestamps, texts)
  {
    var n := Min(|timestamps|, |texts|);
    CueLinesZip(timestamps, texts, 1);
    content := "WEBVTT\n\n";
    assert timestamps[..0] == [] && ["WEBVTT", ""] + [] == ["WEBVTT", ""];
    RenderHeader();
    var index := 1;
    var i := 0;
    while i < n
      invariant 0 <= i <= n && index == i + 1
      invariant content == Render(["WEBVTT", ""] + CueLines(timestamps[..i], texts[..i], 1))
    {
      WriteStep(timestamps, texts, i);
      content := content + NatToString(index) + "\n";
      content := content + timestamps[i] + "\n";
      content := content + texts[i] + "\n\n";
      index := index + 1;
      i := i + 1;
    }
  }

  /** One iteration of the writer adds the four lines of cue `i + 1`. */
  lemma {:induction false} WriteStep(timestamps: seq<string>, texts: seq<string>, i: nat)
    requires i < |timestamps| && i < |texts|
    ensures Render(["WEBVTT", ""] + CueLines(timestamps[..i + 1], texts[..i + 1], 1)) ==
      Render(["WEBVTT", ""] + CueLines(timestamps[..i], texts[..i], 1))
        + NatToString(i + 1) + "\n" + timestamps[i] + "\n" + texts[i] + "\n\n"
  {
    var before := ["WEBVTT", ""] + CueLines(timestamps[..i], texts[..i], 1);
    var cue := Cue(NatToString(i + 1), timestamps[i], texts[i]);
    CueLinesSnoc(timestamps, texts, 1, i);
    assert before + cue == ["WEBVTT", ""] + CueLines(timestamps[..i + 1], texts[..i + 1], 1);
    RenderAppend(before, cue);
    RenderCue(NatToString(i + 1), timestamps[i], texts[i]);
  }

  lemma {:induction false} RenderHeader()
    ensures Render(["WEBVTT", ""]) == "WEBVTT\n\n"
  {
    assert ["WEBVTT", ""][1..] == [""];
    assert Render([""]) == "\n";
  }

  lemma {:induction false} RenderCons(line: string, rest: seq<string>)
    ensures Render([line] + rest) == line + "\n" + Render(rest)
  {
    assert ([line] + rest)[0] == line && ([line] + rest)[1..] == rest;
  }

  lemma {:induction false} RenderCue(number: string, timestamp: string, text: string)
    ensures Render(Cue(number, timestamp, text)) == number + "\n" + timestamp + "\n" + text + "\n\n"
  {
    RenderCons("", []);
    RenderCons(text, [""]);
    RenderCons(timestamp, [text, ""]);
    RenderCons(number, [timestamp, text, ""]);
    assert Cue(number, timestamp, text) == [number] + [timestamp, text, ""];
    assert [timestamp, text, ""] == [timestamp] + [text, ""];
    assert [text, ""] == [text] + [""];
    assert [""] == [""] + [];
  }

  /** Independent description of the written text, as the four `write`
      calls per cue spell it: the number, the timestamp, the text, each ended
      by a line break, and a blank line. */
  function CuesText(timestamps: seq<string>, texts: seq<string>, first: nat): string
    decreases |timestamps|
  {
    if timestamps == [] || texts == [] then ""
    else
      var cue := NatToString(first) + "\n" + timestamps[0] + "\n" + texts[0] + "\n\n";
      cue + CuesText(timestamps[1..], texts[1..], first + 1)
  }

  /** The file is "WEBVTT", a blank line, then cue after cue numbered from 1. */
  lemma {:induction false} CaptionFileText(timestamps: seq<string>, texts: seq<string>)
    ensures CaptionFile(timestamps, texts) == "WEBVTT\n\n" + CuesText(timestamps, texts, 1)
  {
    RenderAppend(["WEBVTT", ""], CueLines(timestamps, texts, 1));
    RenderHeader();
    CueLinesText(timestamps, texts, 1);
  }

  lemma {:induction false} CueLinesText(timestamps: seq<string>, texts: seq<string>, first: nat)
    ensures Render(CueLines(timestamps, texts, first)) == CuesText(timestamps, texts, first)
    decreases |timestamps|
  {
    if timestamps != [] && texts != [] {
      var cue := Cue(NatToString(first), timestamps[0], texts[0]);
      RenderAppend(cue, CueLines(timestamps[1..], texts[1..], first + 1));
      RenderCue(NatToString(first), timestamps[0], texts[0]);
      CueLinesText(timestamps[1..], texts[1..], first + 1);
    }
  }

  /** Only the first `min(|timestamps|, |texts|)` pairs are written. */
  lemma {:induction false} CueLinesZip(timestamps: seq<string>, texts: seq<string>, first: nat)
    ensures var n := Min(|timestamps|, |texts|);
      CueLines(timestamps, texts, first) == CueLines(timestamps[..n], texts[..n], first)
    decreases |timestamps|
  {
    var n := Min(|timestamps|, |texts|);
    if n > 0 {
      assert timestamps[..n][1..] == timestamps[1..][..n - 1];
      assert texts[..n][1..] == texts[1..][..n - 1];
      CueLinesZip(timestamps[1..], texts[1..], first + 1);
    }
  }

  /** Writing one more pair appends one cue numbered after the others. */
  lemma {:induction false} CueLinesSnoc(timestamps: seq<string>, texts: seq<string>, first: nat, i: nat)
    requires i < |timestamps| && i < |texts|
    ensures CueLines(timestamps[..i + 1], texts[..i + 1], first)
         == CueLines(timestamps[..i], texts[..i], first) + Cue(NatToString(first + i), timestamps[i], texts[i])
  {
    assert timestamps[..i + 1] == timestamps[..i] + [timestamps[i]];
    assert texts[..i + 1] == texts[..i] + [texts[i]];
    CueLinesAppend(timestamps[..i], texts[..i], [timestamps[i]], [texts[i]], first);
    CueLinesSingle(timestamps[i], texts[i], first + i);
  }

  /** Writing two runs of pairs one after the other: the second run's
      numbering continues after the first. */
  lemma {:induction false} CueLinesAppend(a: seq<string>, x: seq<string>, b: seq<string>, y: seq<string>, first: nat)
    requires |a| == |x|
    ensures CueLines(a + b, x + y, first) == CueLines(a, x, first) + CueLines(b, y, first + |a|)
    decreases |a|
  {
    if a == [] {
      assert a + b == b && x + y == y;
    } else if b == [] || y == [] {
      CueLinesEmptyTail(a, x, b, y, first);
    } else {
      CueLinesAppend(a[1..], x[1..], b, y, first + 1);
      CueLinesAppendStep(a, x, b, y, first);
    }
  }

  lemma {:induction false} CueLinesAppendStep(a: seq<string>, x: seq<string>, b: seq<string>, y: seq<string>, first: nat)
    requires |a| == |x| && a != [] && b != [] && y != []
    requires CueLines(a[1..] + b, x[1..] + y, first + 1)
      == CueLines(a[1..], x[1..], first + 1) + CueLines(b, y, first + |a|)
    ensures CueLines(a + b, x + y, first) == CueLines(a, x, first) + CueLines(b, y, first + |a|)
  {
    var cue := Cue(NatToString(first), a[0], x[0]);
    var p, q := CueLines(a[1..], x[1..], first + 1), CueLines(b, y, first + |a|);
    assert CueLines(a, x, first) == cue + p by {
      CueLinesCons(a, x, first);
    }
    assert CueLines(a + b, x + y, first) == cue + (p + q) by {
      CueLinesCons(a + b, x + y, first);
      HeadTailAppend(a, b);
      HeadTailAppend(x, y);
    }
    AppendAssoc(cue, p, q);
  }

  lemma {:induction false} HeadTailAppend(a: seq<string>, b: seq<string>)
    requires a != []
    ensures (a + b)[0] == a[0] && (a + b)[1..] == a[1..] + b
  {
  }

  lemma {:induction false} AppendAssoc(a: seq<string>, b: seq<string>, c: seq<string>)
    ensures a + (b + c) == (a + b) + c
  {
  }

  lemma {:induction false} CueLinesEmptyTail(a: seq<string>, x: seq<string>, b: seq<string>, y: seq<string>, first: nat)
    requires |a| == |x| && (b == [] || y == [])
    ensures CueLines(a + b, x + y, first) == CueLines(a, x, first) + CueLines(b, y, first + |a|)
  {
    CueLinesZip(a + b, x + y, first);
    assert (a + b)[..|a|] == a && (x + y)[..|a|] == x;
    CueLinesZip(a, x, first);
  }

  lemma {:induction false} CueLinesSingle(t: string, x: string, n: nat)
    ensures CueLines([t], [x], n) == Cue(NatToString(n), t, x)
  {
    CueLinesCons([t], [x], n);
    assert [t][1..] == [] && CueLines([], [], n + 1) == [];
  }

  // ----- reading the written file back -----

  /** A timestamp as `process_vtt` records it: a stripped line that begins
      with a timing range. */
  predicate IsCueTiming(t: string) {
    IsTimingLine(t) && IsTrimmed(t) && '\n' !in t
  }

  /** A text the reader keeps as one segment of its own: one stripped,
      non-empty line that is not a cue number and does not begin with a
      timing range. */
  predicate IsCueText(x: string) {
    x != "" && IsTrimmed(x) && '\n' !in x && !IsDigits(x) && !IsTimingLine(x)
  }

  /** The tokens a well-formed sequence of cues produces. */
  function Interleave(timestamps: seq<string>, texts: seq<string>): seq<Token>
    requires |timestamps| == |texts|
  {
    if timestamps == [] then []
    else [Timing(timestamps[0]), Words(texts[0])] + Interleave(timestamps[1..], texts[1..])
  }

  lemma {:induction false} TokensAppend(a: seq<string>, b: seq<string>)
    ensures Tokens(a + b, false) == Tokens(a, false) + Tokens(b, false)
    decreases |a|
  {
    if a == [] {
      assert a + b == b;
    } else {
      assert (a + b)[0] == a[0] && (a + b)[1..] == a[1..] + b;
      assert !SkipAfter(a[0], false);
      TokensAppend(a[1..], b);
    }
  }

  lemma {:induction false} TimingNotDigits(s: string)
    requires IsTimingLine(s)
    ensures !IsDigits(s)
  {
    assert s[2] == ':';
  }

  lemma {:induction false} NumberTokens(n: string)
    requires IsDigits(n)
    ensures LineTokens(n, false) == []
  {
    assert !IsSpace(n[0]) && !IsSpace(n[|n| - 1]);
    StripTrimmed(n);
  }

  lemma {:induction false} TimingTokens(t: string)
    requires IsCueTiming(t)
    ensures LineTokens(t, false) == [Timing(t)]
  {
    StripTrimmed(t);
    TimingNotDigits(t);
  }

  lemma {:induction false} TextTokens(x: string)
    requires IsCueText(x)
    ensures LineTokens(x, false) == [Words(x)]
  {
    StripTrimmed(x);
  }

  lemma {:induction false} BlankTokens()
    ensures LineTokens("", false) == []
  {
    assert Strip("") == "";
  }

  lemma {:induction false} SingleLineTokens(line: string)
    ensures Tokens([line], false) == LineTokens(line, false)
  {
    TokensCons(line, [], false);
    assert [line] + [] == [line];
  }

  lemma {:induction false} TokensAppend4(a: seq<string>, b: seq<string>, c: seq<string>, d: seq<string>)
    ensures Tokens(a + b + c + d, false) == Tokens(a, false) + Tokens(b, false) + Tokens(c, false) + Tokens(d, false)
  {
    TokensAppend(a + b + c, d);
    TokensAppend(a + b, c);
    TokensAppend(a, b);
  }

  lemma {:induction false} CueTokensSplit(n: string, t: string, x: string)
    ensures Tokens(Cue(n, t, x), false)
         == Tokens([n], false) + Tokens([t], false) + Tokens([x], false) + Tokens([""], false)
  {
    CueParts(n, t, x);
    TokensAppend4([n], [t], [x], [""]);
  }

  lemma {:induction false} CueParts(n: string, t: string, x: string)
    ensures Cue(n, t, x) == [n] + [t] + [x] + [""]
  {
  }

  /** One written cue reads back as its timing and its text. */
  lemma {:induction false} CueTokens(n: string, t: string, x: string)
    requires IsDigits(n) && IsCueTiming(t) && IsCueText(x)
    ensures Tokens(Cue(n, t, x), false) == [Timing(t), Words(x)]
  {
    CueTokensSplit(n, t, x);
    SingleLineTokens(n);
    SingleLineTokens(t);
    SingleLineTokens(x);
    SingleLineTokens("");
    NumberTokens(n);
    TimingTokens(t);
    TextTokens(x);
    BlankTokens();
    SumOfTwo(Timing(t), Words(x));
  }

  lemma {:induction false} SumOfTwo(a: Token, b: Token)
    ensures [] + [a] + [b] + [] == [a, b]
  {
  }

  /** The header line and the blank line after it contribute nothing. */
  lemma {:induction false} HeaderTokens(cues: seq<string>)
    ensures Tokens(["WEBVTT", ""] + cues, true) == Tokens(cues, false)
  {
    StripTrimmed("WEBVTT");
    assert LineTokens("WEBVTT", true) == [] && !SkipAfter("WEBVTT", true);
    TokensCons("WEBVTT", [""] + cues, true);
    BlankTokens();
    TokensCons("", cues, false);
    assert ["WEBVTT", ""] + cues == ["WEBVTT"] + ([""] + cues);
  }

  lemma {:induction false} CueLinesTokens(timestamps: seq<string>, texts: seq<string>, first: nat)
    requires |timestamps| == |texts|
    requires forall i :: 0 <= i < |timestamps| ==> IsCueTiming(timestamps[i]) && IsCueText(texts[i])
    ensures Tokens(CueLines(timestamps, texts, first), false) == Interleave(timestamps, texts)
    decreases |timestamps|
  {
    if timestamps != [] {
      var ts, xs := timestamps[1..], texts[1..];
      forall i | 0 <= i < |ts|
        ensures IsCueTiming(ts[i]) && IsCueText(xs[i])
      {
        assert ts[i] == timestamps[i + 1] && xs[i] == texts[i + 1];
      }
      var cue := Cue(NatToString(first), timestamps[0], texts[0]);
      var rest := CueLines(ts, xs, first + 1);
      calc {
        Tokens(CueLines(timestamps, texts, first), false);
        == { CueLinesCons(timestamps, texts, first); }
        Tokens(cue + rest, false);
        == { TokensAppend(cue, rest); }
        Tokens(cue, false) + Tokens(rest, false);
        == { CueTokens(NatToString(first), timestamps[0], texts[0]); CueLinesTokens(ts, xs, first + 1); }
        [Timing(timestamps[0]), Words(texts[0])] + Interleave(ts, xs);
        == { InterleaveCons(timestamps, texts); }
        Interleave(timestamps, texts);
      }
    }
  }

  lemma {:induction false} CueLinesCons(timestamps: seq<string>, texts: seq<string>, first: nat)
    requires timestamps != [] && texts != []
    ensures CueLines(timestamps, texts, first)
      == Cue(NatToString(first), timestamps[0], texts[0]) + CueLines(timestamps[1..], texts[1..], first + 1)
  {
  }

  lemma {:induction false} InterleaveCons(timestamps: seq<string>, texts: seq<string>)
    requires |timestamps| == |texts| && timestamps != []
    ensures Interleave(timestamps, texts)
      == [Timing(timestamps[0]), Words(texts[0])] + Interleave(timestamps[1..], texts[1..])
  {
  }

  /** The buffering turns the interleaved tokens back into the two lists,
      with one pending text `x` carried in the buffer. */
  lemma {:induction false} GroupInterleavePending(x: string, ts: seq<string>, ss: seq<string>, timestamps: seq<string>, texts: seq<string>)
    requires |timestamps| == |texts|
    ensures GroupFrom([x], ts, ss, Interleave(timestamps, texts)) == Captions(ts + timestamps, ss + [x] + texts)
    decreases |timestamps|
  {
    JoinSpaceSingle(x);
    if timestamps == [] {
      assert ts + timestamps == ts && ss + [x] + texts == ss + [x];
    } else {
      var toks := Interleave(timestamps, texts);
      var rest := Interleave(timestamps[1..], texts[1..]);
      assert toks[1..] == [Words(texts[0])] + rest;
      assert ([Words(texts[0])] + rest)[1..] == rest;
      assert Flush([x], ss) == ss + [x];
      assert GroupFrom([x], ts, ss, toks) == GroupFrom([], ts + [timestamps[0]], ss + [x], toks[1..]);
      assert [] + [texts[0]] == [texts[0]];
      assert GroupFrom([], ts + [timestamps[0]], ss + [x], toks[1..]) == GroupFrom([texts[0]], ts + [timestamps[0]], ss + [x], rest);
      GroupInterleavePending(texts[0], ts + [timestamps[0]], ss + [x], timestamps[1..], texts[1..]);
      assert ts + [timestamps[0]] + timestamps[1..] == ts + timestamps;
      assert ss + [x] + [texts[0]] + texts[1..] == ss + [x] + texts;
    }
  }

  lemma {:induction false} GroupInterleave(timestamps: seq<string>, texts: seq<string>)
    requires |timestamps| == |texts|
    ensures GroupFrom([], [], [], Interleave(timestamps, texts)) == Captions(timestamps, texts)
  {
    if timestamps != [] {
      var toks := Interleave(timestamps, texts);
      var rest := Interleave(timestamps[1..], texts[1..]);
      assert toks[1..] == [Words(texts[0])] + rest;
      assert ([Words(texts[0])] + rest)[1..] == rest;
      assert Flush([], []) == [];
      assert GroupFrom([], [], [], toks) == GroupFrom([], [] + [timestamps[0]], [], toks[1..]);
      assert [] + [timestamps[0]] == [timestamps[0]] && [] + [texts[0]] == [texts[0]];
      assert GroupFrom([], [timestamps[0]], [], toks[1..]) == GroupFrom([texts[0]], [timestamps[0]], [], rest);
      GroupInterleavePending(texts[0], [timestamps[0]], [], timestamps[1..], texts[1..]);
      assert [timestamps[0]] + timestamps[1..] == timestamps;
      assert [] + [texts[0]] + texts[1..] == texts;
    }
  }

  /** Reading back a file the writer produced from equally many timestamps
      and texts gives those timestamps and texts, when each timestamp is as
      the reader records it and each text is one line the reader keeps. */
  lemma {:induction false} CaptionFileRoundTrip(timestamps: seq<string>, texts: seq<string>)
    requires |timestamps| == |texts|
    requires forall i :: 0 <= i < |timestamps| ==> IsCueTiming(timestamps[i]) && IsCueText(texts[i])
    ensures Parse(SplitLines(CaptionFile(timestamps, texts))) == Captions(timestamps, texts)
  {
    var cues := CueLines(timestamps, texts, 1);
    var lines := ["WEBVTT", ""] + cues;
    CueLinesNoBreak(timestamps, texts, 1);
    assert forall i :: 0 <= i < |lines| ==> '\n' !in lines[i] by {
      assert forall i :: 2 <= i < |lines| ==> lines[i] == cues[i - 2];
    }
    SplitRender(lines);
    HeaderTokens(cues);
    CueLinesTokens(timestamps, texts, 1);
    GroupInterleave(timestamps, texts);
  }

  lemma {:induction false} CueLinesNoBreak(timestamps: seq<string>, texts: seq<string>, first: nat)
    requires forall i :: 0 <= i < |timestamps| ==> '\n' !in timestamps[i]
    requires forall i :: 0 <= i < |texts| ==> '\n' !in texts[i]
    ensures forall i :: 0 <= i < |CueLines(timestamps, texts, first)| ==> '\n' !in CueLines(timestamps, texts, first)[i]
    decreases |timestamps|
  {
    if timestamps != [] && texts != [] {
      CueLinesNoBreak(timestamps[1..], texts[1..], first + 1);
      var d := NatToString(first);
      assert forall j :: 0 <= j < |d| ==> d[j] != '\n';
    }
  }

}
