/** Cue extraction: the line loop of `process_vtt` (main.py) that turns the
    lines of a WebVTT caption file into the list of timing lines and the list
    of text segments.

    The loop keeps a `skip_header` flag, a buffer of text lines and the two
    output lists. The first line that strips to `WEBVTT` is skipped; lines
    that strip to digits only (cue numbers) are skipped; a line that BEGINS
    with `HH:MM:SS.mmm --> HH:MM:SS.mmm` closes the buffered text as one
    segment and records its stripped form as a timestamp; any other
    non-blank line is buffered, stripped. At the end the buffer is flushed.

    The specification is written in two layers: `Tokens` classifies lines
    (and carries the header flag); `GroupFrom` does the buffering. */
module Cues {
  import opened Text

  /** `\d{2}:\d{2}:\d{2}\.\d{3}` at position `k` of `s`. */
  predicate ClockAt(s: string, k: nat) {
    k + 12 <= |s| &&
    IsDigit(s[k]) && IsDigit(s[k + 1]) && s[k + 2] == ':' &&
    IsDigit(s[k + 3]) && IsDigit(s[k + 4]) && s[k + 5] == ':' &&
    IsDigit(s[k + 6]) && IsDigit(s[k + 7]) && s[k + 8] == '.' &&
    IsDigit(s[k + 9]) && IsDigit(s[k + 10]) && IsDigit(s[k + 11])
  }

  /** Length of a timing range "HH:MM:SS.mmm --> HH:MM:SS.mmm". */
  const TimingWidth: nat := 29

  /** `re.match(r'\d{2}:\d{2}:\d{2}\.\d{3} --> \d{2}:\d{2}:\d{2}\.\d{3}', line)`:
      the raw line begins with a timing range (anything may follow). */
  predicate IsTimingLine(line: string) {
    |line| >= TimingWidth && ClockAt(line, 0) &&
    line[12] == ' ' && line[13] == '-' && line[14] == '-' && line[15] == '>' && line[16] == ' ' &&
    ClockAt(line, 17)
  }

  /** `re.match` anchors the pattern at the start only: whether a line is a
      timing line is decided by its first `TimingWidth` characters. */
  lemma {:induction false} TimingLinePrefix(line: string)
    ensures IsTimingLine(line) <==> |line| >= TimingWidth && IsTimingLine(line[..TimingWidth])
  {
    if |line| >= TimingWidth {
      var head := line[..TimingWidth];
      assert forall k :: 0 <= k < TimingWidth ==> head[k] == line[k];
    }
  }

  /** A line that contributes something: a timing range or buffered text. */
  datatype Token = Timing(range: string) | Words(text: string)

  /** The two lists `process_vtt` builds. */
  datatype Captions = Captions(timestamps: seq<string>, segments: seq<string>)

  /** What one line contributes given the state of the header flag: nothing
      for the header, a cue number or a blank line, its stripped form as a
      timing when the raw line begins with a timing range, its stripped form
      as text otherwise. */
  function LineTokens(line: string, skipHeader: bool): seq<Token> {
    var s := Strip(line);
    if (skipHeader && s == "WEBVTT") || IsDigits(s) then []
    else if IsTimingLine(line) then [Timing(s)]
    else if s != "" then [Words(s)]
    else []
  }

  /** The header flag after a line: cleared by the first line that strips to
      `WEBVTT`. */
  function SkipAfter(line: string, skipHeader: bool): bool {
    skipHeader && Strip(line) != "WEBVTT"
  }

  /** What the lines contribute, in order, given the state of the header
      flag when the first of them is reached. */
  function Tokens(lines: seq<string>, skipHeader: bool): seq<Token>
    decreases |lines|
  {
    if lines == [] then []
    else LineTokens(lines[0], skipHeader) + Tokens(lines[1..], SkipAfter(lines[0], skipHeader))
  }

  lemma {:induction false} TokensCons(line: string, rest: seq<string>, skipHeader: bool)
    ensures Tokens([line] + rest, skipHeader) == LineTokens(line, skipHeader) + Tokens(rest, SkipAfter(line, skipHeader))
  {
    assert ([line] + rest)[0] == line && ([line] + rest)[1..] == rest;
  }

  lemma {:induction false} GroupTiming(buffer: seq<string>, timestamps: seq<string>, segments: seq<string>, r: string, rest: seq<Token>)
    ensures GroupFrom(buffer, timestamps, segments, [Timing(r)] + rest)
         == GroupFrom([], timestamps + [r], Flush(buffer, segments), rest)
  {
    assert ([Timing(r)] + rest)[0] == Timing(r) && ([Timing(r)] + rest)[1..] == rest;
  }

  lemma {:induction false} GroupWords(buffer: seq<string>, timestamps: seq<string>, segments: seq<string>, w: string, rest: seq<Token>)
    ensures GroupFrom(buffer, timestamps, segments, [Words(w)] + rest)
         == GroupFrom(buffer + [w], timestamps, segments, rest)
  {
    assert ([Words(w)] + rest)[0] == Words(w) && ([Words(w)] + rest)[1..] == rest;
  }

  /** `if text_buffer: text_segments.append(' '.join(text_buffer))`. */
  function Flush(buffer: seq<string>, segments: seq<string>): seq<string> {
    if buffer != [] then segments + [JoinSpace(buffer)] else segments
  }

  /** The buffering of text between timing lines, from a given state on. */
  function GroupFrom(buffer: seq<string>, timestamps: seq<string>, segments: seq<string>, toks: seq<Token>): Captions
    decreases |toks|
  {
    if toks == [] then Captions(timestamps, Flush(buffer, segments))
    else match toks[0]
      case Timing(r) => GroupFrom([], timestamps + [r], Flush(buffer, segments), toks[1..])
      case Words(w) => GroupFrom(buffer + [w], timestamps, segments, toks[1..])
  }

  /** The two lists extracted from a caption file given as its lines. */
  function Parse(lines: seq<string>): Captions {
    GroupFrom([], [], [], Tokens(lines, true))
  }

  /** The line loop as the source writes it. */
  method ParseCaptions(lines: seq<string>) returns (timestamps: seq<string>, segments: seq<string>)
    ensures Captions(timestamps, segments) == Parse(lines)
  {
    timestamps, segments := [], [];
    var buffer: seq<string> := [];
    var skipHeader := true;
    var i := 0;
    while i < |lines|
      invariant 0 <= i <= |lines|
      invariant GroupFrom(buffer, timestamps, segments, Tokens(lines[i..], skipHeader)) == Parse(lines)
    {
      var line := lines[i];
      ParseStep(lines, i, buffer, timestamps, segments, skipHeader);
      i := i + 1;
      var s := Strip(line);
      if skipHeader && s == "WEBVTT" {
        skipHeader := false;
        continue;
      }
      if IsDigits(s) {
        continue;
      }
      if IsTimingLine(line) {
        if buffer != [] {
          segments := segments + [JoinSpace(buffer)];
          buffer := [];
        }
        timestamps := timestamps + [s];
      } else if s != "" {
        buffer := buffer + [s];
      }
    }
    if buffer != [] {
      segments := segments + [JoinSpace(buffer)];
    }
  }

  /** One iteration of the line loop, in terms of the specification. */
  lemma {:induction false} ParseStep(lines: seq<string>, i: nat, buffer: seq<string>, timestamps: seq<string>, segments: seq<string>, skipHeader: bool)
    requires i < |lines|
    ensures var line, s := lines[i], Strip(lines[i]);
      var rest := Tokens(lines[i + 1..], SkipAfter(line, skipHeader));
      GroupFrom(buffer, timestamps, segments, Tokens(lines[i..], skipHeader)) ==
        if (skipHeader && s == "WEBVTT") || IsDigits(s) then GroupFrom(buffer, timestamps, segments, rest)
        else if IsTimingLine(line) then GroupFrom([], timestamps + [s], Flush(buffer, segments), rest)
        else if s != "" then GroupFrom(buffer + [s], timestamps, segments, rest)
        else GroupFrom(buffer, timestamps, segments, rest)
  {
    var line := lines[i];
    assert lines[i..] == [line] + lines[i + 1..];
    TokensCons(line, lines[i + 1..], skipHeader);
    GroupLine(buffer, timestamps, segments, line, skipHeader, Tokens(lines[i + 1..], SkipAfter(line, skipHeader)));
  }

  /** Grouping what one line contributes, followed by `rest`. */
  lemma {:induction false} GroupLine(buffer: seq<string>, timestamps: seq<string>, segments: seq<string>, line: string, skipHeader: bool, rest: seq<Token>)
    ensures var s := Strip(line);
      GroupFrom(buffer, timestamps, segments, LineTokens(line, skipHeader) + rest) ==
        if (skipHeader && s == "WEBVTT") || IsDigits(s) then GroupFrom(buffer, timestamps, segments, rest)
        else if IsTimingLine(line) then GroupFrom([], timestamps + [s], Flush(buffer, segments), rest)
        else if s != "" then GroupFrom(buffer + [s], timestamps, segments, rest)
        else GroupFrom(buffer, timestamps, segments, rest)
  {
    var s := Strip(line);
    if (skipHeader && s == "WEBVTT") || IsDigits(s) {
      assert [] + rest == rest;
    } else if IsTimingLine(line) {
      GroupTiming(buffer, timestamps, segments, s, rest);
    } else if s != "" {
      GroupWords(buffer, timestamps, segments, s, rest);
    } else {
      assert [] + rest == rest;
    }
  }

  // ----- timestamps -----

  /** Independent description of the timestamps: the stripped form of every
      line that begins with a timing range, in file order. */
  function TimingLines(lines: seq<string>): seq<string> {
    if lines == [] then []
    else (if IsTimingLine(lines[0]) then [Strip(lines[0])] else []) + TimingLines(lines[1..])
  }

  function Timings(toks: seq<Token>): seq<string> {
    if toks == [] then []
    else (if toks[0].Timing? then [toks[0].range] else []) + Timings(toks[1..])
  }

  /** A timing line keeps its 29-character timing when stripped, so it is
      neither the header nor a cue number. */
  lemma {:induction false} TimingLineStripped(line: string)
    requires IsTimingLine(line)
    ensures IsTimingLine(Strip(line)) && Strip(line) != "WEBVTT" && !IsDigits(Strip(line))
  {
    assert !IsSpace(line[0]) && !IsSpace(line[TimingWidth - 1]);
    StripKeepsPrefix(line, TimingWidth);
    var s := Strip(line);
    assert s[2] == line[2] == ':';
    assert s[0] == line[0];
  }

  lemma {:induction false} TimingsAppend(a: seq<Token>, b: seq<Token>)
    ensures Timings(a + b) == Timings(a) + Timings(b)
    decreases |a|
  {
    if a == [] {
      assert a + b == b;
    } else {
      assert (a + b)[0] == a[0] && (a + b)[1..] == a[1..] + b;
      TimingsAppend(a[1..], b);
    }
  }

  lemma {:induction false} LineTimings(line: string, skipHeader: bool)
    ensures Timings(LineTokens(line, skipHeader)) == if IsTimingLine(line) then [Strip(line)] else []
  {
    if IsTimingLine(line) {
      TimingLineStripped(line);
    }
  }

  lemma {:induction false} TokensTimings(lines: seq<string>, skipHeader: bool)
    ensures Timings(Tokens(lines, skipHeader)) == TimingLines(lines)
    decreases |lines|
  {
    if lines != [] {
      var h := SkipAfter(lines[0], skipHeader);
      TokensTimings(lines[1..], h);
      TimingsAppend(LineTokens(lines[0], skipHeader), Tokens(lines[1..], h));
      LineTimings(lines[0], skipHeader);
    }
  }

  lemma {:induction false} GroupTimings(buffer: seq<string>, ts: seq<string>, segs: seq<string>, toks: seq<Token>)
    ensures GroupFrom(buffer, ts, segs, toks).timestamps == ts + Timings(toks)
    decreases |toks|
  {
    if toks != [] {
      match toks[0]
      case Timing(r) =>
        GroupTimings([], ts + [r], Flush(buffer, segs), toks[1..]);
      case Words(w) =>
        GroupTimings(buffer + [w], ts, segs, toks[1..]);
    }
  }

  /** The timestamps are, in file order, the stripped lines that begin with a
      timing range; the header, cue numbers and text add none. */
  lemma {:induction false} ParseTimestamps(lines: seq<string>)
    ensures Parse(lines).timestamps == TimingLines(lines)
  {
    GroupTimings([], [], [], Tokens(lines, true));
    TokensTimings(lines, true);
  }

  /** Each timestamp is itself a trimmed timing line, and has no line break
      when the lines have none. */
  lemma {:induction false} TimingLinesShape(lines: seq<string>)
    ensures forall t :: t in TimingLines(lines) ==> IsTimingLine(t) && IsTrimmed(t)
    ensures (forall i :: 0 <= i < |lines| ==> '\n' !in lines[i]) ==>
      forall t :: t in TimingLines(lines) ==> '\n' !in t
  {
    TimingLinesTrimmed(lines);
    if forall i :: 0 <= i < |lines| ==> '\n' !in lines[i] {
      TimingLinesNoBreak(lines);
    }
  }

  lemma {:induction false} TimingLinesTrimmed(lines: seq<string>)
    ensures forall t :: t in TimingLines(lines) ==> IsTimingLine(t) && IsTrimmed(t)
    decreases |lines|
  {
    if lines != [] {
      TimingLinesTrimmed(lines[1..]);
      if IsTimingLine(lines[0]) {
        TimingHead(lines[0]);
        assert TimingLines(lines) == [Strip(lines[0])] + TimingLines(lines[1..]);
      } else {
        assert TimingLines(lines) == TimingLines(lines[1..]);
      }
    }
  }

  lemma {:induction false} TimingLinesNoBreak(lines: seq<string>)
    requires forall i :: 0 <= i < |lines| ==> '\n' !in lines[i]
    ensures forall t :: t in TimingLines(lines) ==> '\n' !in t
    decreases |lines|
  {
    if lines != [] {
      assert '\n' !in lines[0];
      assert forall i :: 0 <= i < |lines[1..]| ==> '\n' !in lines[1..][i];
      TimingLinesNoBreak(lines[1..]);
      if IsTimingLine(lines[0]) {
        TimingHead(lines[0]);
        assert TimingLines(lines) == [Strip(lines[0])] + TimingLines(lines[1..]);
      } else {
        assert TimingLines(lines) == TimingLines(lines[1..]);
      }
    }
  }

  lemma {:induction false} TimingHead(line: string)
    requires IsTimingLine(line)
    ensures IsTimingLine(Strip(line))
    ensures '\n' !in line ==> '\n' !in Strip(line)
  {
    TimingLineStripped(line);
    if '\n' !in line {
      StripNoBreak(line);
    }
  }

  // ----- segments -----

  predicate WordLike(w: string) { w != "" && IsTrimmed(w) }

  /** Every text token carries a non-empty, stripped text. */
  predicate TextsWordLike(toks: seq<Token>) {
    forall k :: 0 <= k < |toks| && toks[k].Words? ==> WordLike(toks[k].text)
  }

  lemma {:induction false} TextsWordLikeAppend(a: seq<Token>, b: seq<Token>)
    requires TextsWordLike(a) && TextsWordLike(b)
    ensures TextsWordLike(a + b)
  {
    assert forall k :: |a| <= k < |a + b| ==> (a + b)[k] == b[k - |a|];
  }

  lemma {:induction false} LineWords(line: string, skipHeader: bool)
    ensures TextsWordLike(LineTokens(line, skipHeader))
  {
    var s := Strip(line);
    var toks := LineTokens(line, skipHeader);
    assert toks == [] || toks == [Timing(s)] || (toks == [Words(s)] && WordLike(s));
  }

  lemma {:induction false} TokensWords(lines: seq<string>, skipHeader: bool)
    ensures TextsWordLike(Tokens(lines, skipHeader))
    decreases |lines|
  {
    if lines != [] {
      var h := SkipAfter(lines[0], skipHeader);
      TokensWords(lines[1..], h);
      LineWords(lines[0], skipHeader);
      TextsWordLikeAppend(LineTokens(lines[0], skipHeader), Tokens(lines[1..], h));
    }
  }

  lemma {:induction false} GroupSegments(buffer: seq<string>, ts: seq<string>, segs: seq<string>, toks: seq<Token>)
    requires forall k :: 0 <= k < |buffer| ==> WordLike(buffer[k])
    requires forall k :: 0 <= k < |segs| ==> WordLike(segs[k])
    requires TextsWordLike(toks)
    ensures forall k :: 0 <= k < |GroupFrom(buffer, ts, segs, toks).segments| ==>
      WordLike(GroupFrom(buffer, ts, segs, toks).segments[k])
    decreases |toks|
  {
    if buffer != [] {
      JoinSpaceTrimmed(buffer);
    }
    if toks != [] {
      match toks[0]
      case Timing(r) =>
        GroupSegments([], ts + [r], Flush(buffer, segs), toks[1..]);
      case Words(w) =>
        GroupSegments(buffer + [w], ts, segs, toks[1..]);
    }
  }

  /** No segment is empty, and none starts or ends with whitespace.
      `ParseSegments` says what each segment holds. */
  lemma {:induction false} ParseSegmentsNonEmpty(lines: seq<string>)
    ensures forall k :: 0 <= k < |Parse(lines).segments| ==>
      Parse(lines).segments[k] != "" && IsTrimmed(Parse(lines).segments[k])
  {
    TokensWords(lines, true);
    GroupSegments([], [], [], Tokens(lines, true));
  }

  // ----- what the segments hold -----

  /** The text lines of the tokens, in order. */
  function Texts(toks: seq<Token>): seq<string> {
    if toks == [] then []
    else (if toks[0].Words? then [toks[0].text] else []) + Texts(toks[1..])
  }

  /** The text lines grouped by the timing lines that separate them: the
      group before the first timing line, then one group after each timing
      line (empty when the timing line has no text after it). */
  function Chunks(toks: seq<Token>): (r: seq<seq<string>>)
    ensures |r| == |Timings(toks)| + 1
    decreases |toks|
  {
    if toks == [] then [[]]
    else
      var c := Chunks(toks[1..]);
      match toks[0]
      case Timing(_) => [[]] + c
      case Words(w) => [[w] + c[0]] + c[1..]
  }

  function Concat(chunks: seq<seq<string>>): seq<string> {
    if chunks == [] then [] else chunks[0] + Concat(chunks[1..])
  }

  /** `' '.join` of every non-empty group, in order. */
  function Joined(chunks: seq<seq<string>>): seq<string> {
    if chunks == [] then []
    else (if chunks[0] == [] then [] else [JoinSpace(chunks[0])]) + Joined(chunks[1..])
  }

  lemma {:induction false} ConcatCons(x: seq<string>, rest: seq<seq<string>>)
    ensures Concat([x] + rest) == x + Concat(rest)
  {
    assert ([x] + rest)[0] == x && ([x] + rest)[1..] == rest;
  }

  lemma {:induction false} JoinedCons(x: seq<string>, rest: seq<seq<string>>)
    ensures Joined([x] + rest) == (if x == [] then [] else [JoinSpace(x)]) + Joined(rest)
  {
    assert ([x] + rest)[0] == x && ([x] + rest)[1..] == rest;
  }

  /** The groups hold every text line once, in file order. */
  lemma {:induction false} ChunksTexts(toks: seq<Token>)
    ensures Concat(Chunks(toks)) == Texts(toks)
    decreases |toks|
  {
    if toks == [] {
      assert Concat([[]]) == [] + Concat([]);
    } else {
      var c := Chunks(toks[1..]);
      ChunksTexts(toks[1..]);
      match toks[0]
      case Timing(_) =>
        ConcatCons([], c);
      case Words(w) =>
        ConcatCons([w] + c[0], c[1..]);
        assert c == [c[0]] + c[1..];
        ConcatCons(c[0], c[1..]);
    }
  }

  /** The buffering, from any state, flushes the buffer together with the
      first group, then every later non-empty group. */
  lemma {:induction false} GroupChunks(buffer: seq<string>, ts: seq<string>, segs: seq<string>, toks: seq<Token>)
    ensures GroupFrom(buffer, ts, segs, toks).segments
         == segs + Joined([buffer + Chunks(toks)[0]] + Chunks(toks)[1..])
    decreases |toks|
  {
    var c := Chunks(toks);
    if toks == [] {
      FlushLast(buffer, segs);
    } else {
      var d := Chunks(toks[1..]);
      match toks[0]
      case Timing(r) =>
        GroupChunks([], ts + [r], Flush(buffer, segs), toks[1..]);
        FlushBeforeGroups(buffer, segs, d);
      case Words(w) =>
        GroupChunks(buffer + [w], ts, segs, toks[1..]);
        BufferIntoGroup(buffer, w, d);
    }
  }

  /** At the end, the buffer is the only group left. */
  lemma {:induction false} FlushLast(buffer: seq<string>, segs: seq<string>)
    ensures Flush(buffer, segs) == segs + Joined([buffer + [[]][0]] + [[]][1..])
  {
    var e: seq<seq<string>> := [[]];
    assert e[0] == [] && e[1..] == [];
    assert buffer + e[0] == buffer;
    assert [buffer + e[0]] + e[1..] == [buffer] + [];
    JoinedCons(buffer, []);
  }

  /** A timing line: the buffer becomes a group of its own, and the groups
      after the timing line start from an empty buffer. */
  lemma {:induction false} FlushBeforeGroups(buffer: seq<string>, segs: seq<string>, d: seq<seq<string>>)
    requires |d| >= 1
    ensures Flush(buffer, segs) + Joined([[] + d[0]] + d[1..])
         == segs + Joined([buffer + ([[]] + d)[0]] + ([[]] + d)[1..])
  {
    SplitFirst([], d);
    Rejoin(d);
    assert buffer + ([[]] + d)[0] == buffer;
    JoinedCons(buffer, d);
  }

  /** A text line: it joins the buffer at the head of the first group. */
  lemma {:induction false} BufferIntoGroup(buffer: seq<string>, w: string, d: seq<seq<string>>)
    requires |d| >= 1
    ensures [buffer + [w] + d[0]] + d[1..]
         == [buffer + ([[w] + d[0]] + d[1..])[0]] + ([[w] + d[0]] + d[1..])[1..]
  {
    SplitFirst([w] + d[0], d[1..]);
    assert buffer + ([w] + d[0]) == buffer + [w] + d[0];
  }

  lemma {:induction false} SplitFirst(x: seq<string>, rest: seq<seq<string>>)
    ensures ([x] + rest)[0] == x && ([x] + rest)[1..] == rest
  {
  }

  lemma {:induction false} Rejoin(d: seq<seq<string>>)
    requires |d| >= 1
    ensures [[] + d[0]] + d[1..] == d
  {
    assert [] + d[0] == d[0];
  }

  /** Segment `k` is the single-space join of the `k`-th non-empty group of
      consecutive text lines; groups are separated by timing lines. */
  lemma {:induction false} ParseSegments(lines: seq<string>)
    ensures Parse(lines).segments == Joined(Chunks(Tokens(lines, true)))
  {
    var c := Chunks(Tokens(lines, true));
    GroupChunks([], [], [], Tokens(lines, true));
    Rejoin(c);
  }

  /** Only empty groups join to no segment at all. */
  lemma {:induction false} JoinedEmpty(chunks: seq<seq<string>>)
    ensures Joined(chunks) == [] <==> Concat(chunks) == []
    decreases |chunks|
  {
    if chunks != [] {
      JoinedEmpty(chunks[1..]);
    }
  }

  /** Joining the joins of the groups joins all their lines. */
  lemma {:induction false} JoinedText(chunks: seq<seq<string>>)
    ensures JoinSpace(Joined(chunks)) == JoinSpace(Concat(chunks))
    decreases |chunks|
  {
    if chunks != [] {
      var x, rest := chunks[0], chunks[1..];
      assert chunks == [x] + rest;
      ConcatCons(x, rest);
      JoinedCons(x, rest);
      JoinedText(rest);
      JoinedEmpty(rest);
      if x == [] {
        assert Concat(chunks) == [] + Concat(rest) == Concat(rest);
        assert Joined(chunks) == [] + Joined(rest) == Joined(rest);
      } else {
        var y := JoinSpace(x);
        if Joined(rest) == [] {
          assert Concat(chunks) == x;
          assert Joined(chunks) == [y];
        } else {
          calc {
            JoinSpace(Joined(chunks));
            JoinSpace([y] + Joined(rest));
            { JoinSpaceAppend([y], Joined(rest)); JoinSpaceSingle(y); }
            y + " " + JoinSpace(Joined(rest));
            y + " " + JoinSpace(Concat(rest));
            { JoinSpaceAppend(x, Concat(rest)); }
            JoinSpace(x + Concat(rest));
          }
        }
      }
    }
  }

  /** The segments, joined with spaces, read exactly like all text lines of
      the file joined with spaces: no text is lost, added or reordered. */
  lemma {:induction false} ParseText(lines: seq<string>)
    ensures JoinSpace(Parse(lines).segments) == JoinSpace(Texts(Tokens(lines, true)))
  {
    ParseSegments(lines);
    ChunksTexts(Tokens(lines, true));
    JoinedText(Chunks(Tokens(lines, true)));
  }

  // ----- how many segments -----

  /** Number of text runs: `Words` tokens not preceded by another `Words`
      (`prevWords` says whether the token before the first one was text). */
  function RunStarts(toks: seq<Token>, prevWords: bool): nat {
    if toks == [] then 0
    else if toks[0].Words? then (if prevWords then 0 else 1) + RunStarts(toks[1..], true)
    else RunStarts(toks[1..], false)
  }

  /** 1 when text comes before the first timing line. */
  function Leading(toks: seq<Token>): nat {
    if toks != [] && toks[0].Words? then 1 else 0
  }

  /** Number of timing lines with no text after them (followed directly by
      another timing line, or by the end of the file). */
  function Barren(toks: seq<Token>): nat {
    if toks == [] then 0
    else (if toks[0].Timing? && (|toks| == 1 || toks[1].Timing?) then 1 else 0) + Barren(toks[1..])
  }

  lemma {:induction false} GroupCount(buffer: seq<string>, ts: seq<string>, segs: seq<string>, toks: seq<Token>)
    ensures |GroupFrom(buffer, ts, segs, toks).segments| ==
      |segs| + (if buffer != [] then 1 else 0) + RunStarts(toks, buffer != [])
    decreases |toks|
  {
    if toks != [] {
      match toks[0]
      case Timing(r) =>
        GroupCount([], ts + [r], Flush(buffer, segs), toks[1..]);
      case Words(w) =>
        GroupCount(buffer + [w], ts, segs, toks[1..]);
    }
  }

  lemma {:induction false} TokenBalance(toks: seq<Token>)
    ensures RunStarts(toks, false) + Barren(toks) == |Timings(toks)| + Leading(toks)
  {
    if toks != [] {
      TokenBalance(toks[1..]);
    }
  }

  /** Segment count: one per timing line that has text after it, plus one for
      text before the first timing line. Hence there are at most
      `|timestamps| + 1` segments, exactly `|timestamps|` when no text comes
      first and every timing line has text, and fewer than `|timestamps|`
      when no text comes first and some timing line has none. */
  lemma {:induction false} SegmentCount(lines: seq<string>)
    ensures |Parse(lines).segments| + Barren(Tokens(lines, true)) ==
      |Parse(lines).timestamps| + Leading(Tokens(lines, true))
    ensures |Parse(lines).segments| <= |Parse(lines).timestamps| + 1
  {
    var toks := Tokens(lines, true);
    GroupCount([], [], [], toks);
    GroupTimings([], [], [], toks);
    TokenBalance(toks);
  }
}
