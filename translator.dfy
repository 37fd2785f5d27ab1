/** The segment translators `translate_text_v2` and `translate_text_v3`
    (main.py) with the translation service replaced by an oracle.

    The oracle answers the n-th request of a run (n counted from 0 over the
    whole run, retries included) for a given segment with a translation, a
    rate-limit error (`ResourceExhausted`) or some other error. `time.sleep`
    is recorded as the list of delays asked for.

    Per segment, at most `MaxRetries` requests are made. A rate-limit error
    at attempts 0..7 sleeps `retry_delay` and doubles it; at attempt 8 it
    sleeps 120; at attempt 9 it is re-raised. `retry_delay` is set to 1 once,
    before the segment loop, so the delays keep doubling from one segment to
    the next. */
module Translator {
  import opened Text

  datatype Outcome = Ok(text: string) | RateLimit | Other

  /** The translation service: request number and segment to answer. */
  type Provider = (nat, string) -> Outcome

  const MaxRetries: nat := 10
  const LongDelay: nat := 120
  const Blank: string := "[BLANK_AUDIO]"
  const ErrorMark: string := "[ERROR]"

  /** The exceptions that escape a translator. */
  datatype Exception =
    | ResourceExhausted  // the tenth rate-limit error of one segment, re-raised
    | NameError          // `glossary_config` printed while unbound (v3 only)

  /** Requests made so far, the current `retry_delay`, the sleeps so far. */
  datatype Backoff = Backoff(calls: nat, delay: nat, sleeps: seq<nat>)

  const Start := Backoff(0, 1, [])

  /** How the retry loop of one segment ends. */
  datatype Attempt = Answered(text: string) | Failed | Exhausted

  datatype Retry = Retry(attempt: Attempt, backoff: Backoff)

  /** What a translator returns, or the exception it raises. */
  datatype Run =
    | Returned(output: seq<string>, backoff: Backoff)
    | Raised(exception: Exception, backoff: Backoff)

  /** The retry loop of one segment, from attempt number `attempt` on. */
  function RetryFrom(provider: Provider, segment: string, attempt: nat, b: Backoff): Retry
    requires attempt < MaxRetries
    decreases MaxRetries - attempt
  {
    var b' := b.(calls := b.calls + 1);
    match provider(b.calls, segment)
    case Ok(t) => Retry(Answered(t), b')
    case Other => Retry(Failed, b')
    case RateLimit =>
      if attempt < MaxRetries - 2 then
        RetryFrom(provider, segment, attempt + 1, b'.(delay := b.delay * 2, sleeps := b.sleeps + [b.delay]))
      else if attempt < MaxRetries - 1 then
        RetryFrom(provider, segment, attempt + 1, b'.(sleeps := b.sleeps + [LongDelay]))
      else Retry(Exhausted, b')
  }

  /** The text appended for a translation: the translation, or the blank
      sentinel when it is empty. */
  function Rendered(t: string): string {
    if t != "" then t else Blank
  }

  /** `translate_text_v2` from a given state on. */
  function V2From(provider: Provider, segments: seq<string>, out: seq<string>, b: Backoff): Run
    decreases |segments|
  {
    if segments == [] then Returned(out, b)
    else
      var r := RetryFrom(provider, segments[0], 0, b);
      match r.attempt
      case Exhausted => Raised(ResourceExhausted, r.backoff)
      case Answered(t) => V2From(provider, segments[1..], out + [Rendered(t)], r.backoff)
      case Failed => V2From(provider, segments[1..], out + [Blank], r.backoff)
  }

  function TranslateV2(provider: Provider, segments: seq<string>): Run {
    V2From(provider, segments, [], Start)
  }

  /** The targets for which `translate_text_v3` sets up a glossary. */
  predicate HasGlossary(target: string) {
    target == "es" || target == "it"
  }

  /** `translate_text_v3` from a given state on. For a target without a
      glossary, the error handler's `print` names the unbound
      `glossary_config`, so a non-rate-limit error escapes as `NameError`. */
  function V3From(provider: Provider, glossary: bool, segments: seq<string>, out: seq<string>, b: Backoff): Run
    decreases |segments|
  {
    if segments == [] then Returned(out, b)
    else
      var r := RetryFrom(provider, segments[0], 0, b);
      match r.attempt
      case Exhausted => Raised(ResourceExhausted, r.backoff)
      case Answered(t) => V3From(provider, glossary, segments[1..], out + [Rendered(t)], r.backoff)
      case Failed =>
        if glossary then V3From(provider, glossary, segments[1..], out + [ErrorMark, Blank], r.backoff)
        else Raised(NameError, r.backoff)
  }

  function TranslateV3(target: string, provider: Provider, segments: seq<string>): Run {
    V3From(provider, HasGlossary(target), segments, [], Start)
  }

  /** The `for attempt in range(max_retries)` loop shared by both
      translators: request, and on a rate-limit error sleep and retry. */
  method Request(provider: Provider, segment: string, b: Backoff) returns (a: Attempt, b': Backoff)
    ensures Retry(a, b') == RetryFrom(provider, segment, 0, b)
  {
    var attempt := 0;
    b' := b;
    while true
      invariant attempt < MaxRetries
      invariant RetryFrom(provider, segment, attempt, b') == RetryFrom(provider, segment, 0, b)
      decreases MaxRetries - attempt
    {
      var outcome := provider(b'.calls, segment);
      b' := b'.(calls := b'.calls + 1);
      match outcome {
        case Ok(t) =>
          return Answered(t), b';
        case Other =>
          return Failed, b';
        case RateLimit =>
          if attempt < MaxRetries - 2 {
            b' := b'.(sleeps := b'.sleeps + [b'.delay]);
            b' := b'.(delay := b'.delay * 2);
          } else if attempt < MaxRetries - 1 {
            b' := b'.(sleeps := b'.sleeps + [LongDelay]);
          } else {
            return Exhausted, b';
          }
      }
      attempt := attempt + 1;
    }
  }

  /** `translate_text_v2`: one entry per segment, the blank sentinel for an
      empty translation or any non-rate-limit error. */
  method TranslateTextV2(provider: Provider, segments: seq<string>) returns (run: Run)
    ensures run == TranslateV2(provider, segments)
  {
    var out: seq<string> := [];
    var b := Start;
    var i := 0;
    while i < |segments|
      invariant 0 <= i <= |segments|
      invariant V2From(provider, segments[i..], out, b) == TranslateV2(provider, segments)
    {
      assert segments[i..][0] == segments[i] && segments[i..][1..] == segments[i + 1..];
      var a;
      a, b := Request(provider, segments[i], b);
      match a {
        case Exhausted => return Raised(ResourceExhausted, b);
        case Answered(t) =>
          if t != "" { out := out + [t]; } else { out := out + [Blank]; }
        case Failed =>
          out := out + [Blank];
      }
      i := i + 1;
    }
    return Returned(out, b);
  }

  /** `translate_text_v3`: the blank sentinel for an empty translation; for a
      non-rate-limit error, `[ERROR]` then the blank sentinel when the target
      has a glossary, `NameError` otherwise. */
  method TranslateTextV3(target: string, provider: Provider, segments: seq<string>) returns (run: Run)
    ensures run == TranslateV3(target, provider, segments)
  {
    var glossary := target == "es" || target == "it";
    var out: seq<string> := [];
    var b := Start;
    var i := 0;
    while i < |segments|
      invariant 0 <= i <= |segments|
      invariant glossary == HasGlossary(target)
      invariant V3From(provider, glossary, segments[i..], out, b) == TranslateV3(target, provider, segments)
    {
      V3Step(provider, glossary, segments, i, out, b);
      var a;
      ghost var old_out := out;
      a, b := Request(provider, segments[i], b);
      match a {
        case Exhausted => return Raised(ResourceExhausted, b);
        case Failed =>
          if !glossary {
            return Raised(NameError, b);
          }
          out := out + [ErrorMark];
          out := out + [Blank];
          assert out == old_out + [ErrorMark, Blank];
        case Answered(t) =>
          if t != "" { out := out + [t]; } else { out := out + [Blank]; }
      }
      i := i + 1;
    }
    return Returned(out, b);
  }

  /** `V3From` on `segments[i..]`, unfolded once. */
  lemma {:induction false} V3Step(provider: Provider, glossary: bool, segments: seq<string>, i: nat, out: seq<string>, b: Backoff)
    requires i < |segments|
    ensures var r := RetryFrom(provider, segments[i], 0, b);
      V3From(provider, glossary, segments[i..], out, b) ==
        match r.attempt
        case Exhausted => Raised(ResourceExhausted, r.backoff)
        case Answered(t) => V3From(provider, glossary, segments[i + 1..], out + [Rendered(t)], r.backoff)
        case Failed =>
          if glossary then V3From(provider, glossary, segments[i + 1..], out + [ErrorMark, Blank], r.backoff)
          else Raised(NameError, r.backoff)
  {
    assert segments[i..][0] == segments[i] && segments[i..][1..] == segments[i + 1..];
  }

  // ----- the retry schedule -----

  /** Per segment: between 1 and `MaxRetries` requests, one sleep before each
      request but the first, and an exhausted segment used all its attempts,
      the last sleep being the long one. Earlier sleeps are kept. */
  lemma {:induction false} RetryBounds(provider: Provider, segment: string, attempt: nat, b: Backoff)
    requires attempt < MaxRetries
    ensures var r := RetryFrom(provider, segment, attempt, b).backoff;
      && b.calls + 1 <= r.calls <= b.calls + MaxRetries - attempt
      && |r.sleeps| == |b.sleeps| + (r.calls - b.calls - 1)
      && r.sleeps[..|b.sleeps|] == b.sleeps
    ensures RetryFrom(provider, segment, attempt, b).attempt.Exhausted? ==>
      var r := RetryFrom(provider, segment, attempt, b).backoff;
      && r.calls == b.calls + MaxRetries - attempt
      && (attempt < MaxRetries - 1 ==> r.sleeps[|r.sleeps| - 1] == LongDelay)
  {
    RetryGrowth(provider, segment, attempt, b);
    RetryExhausted(provider, segment, attempt, b);
  }

  /** The state after a rate-limited request that is not the last attempt:
      the delay is slept and doubled, or, before the last attempt, the long
      fixed delay is slept. */
  function Slept(b: Backoff, attempt: nat): Backoff {
    if attempt < MaxRetries - 2 then b.(calls := b.calls + 1, delay := b.delay * 2, sleeps := b.sleeps + [b.delay])
    else b.(calls := b.calls + 1, sleeps := b.sleeps + [LongDelay])
  }

  lemma {:induction false} RetryRateLimited(provider: Provider, segment: string, attempt: nat, b: Backoff)
    requires attempt < MaxRetries - 1 && provider(b.calls, segment) == RateLimit
    ensures RetryFrom(provider, segment, attempt, b) == RetryFrom(provider, segment, attempt + 1, Slept(b, attempt))
  {
  }

  lemma {:induction false} RetryGrowth(provider: Provider, segment: string, attempt: nat, b: Backoff)
    requires attempt < MaxRetries
    ensures var r := RetryFrom(provider, segment, attempt, b).backoff;
      && b.calls + 1 <= r.calls <= b.calls + MaxRetries - attempt
      && |r.sleeps| == |b.sleeps| + (r.calls - b.calls - 1)
      && r.sleeps[..|b.sleeps|] == b.sleeps
    decreases MaxRetries - attempt
  {
    if provider(b.calls, segment) == RateLimit && attempt < MaxRetries - 1 {
      var next := Slept(b, attempt);
      RetryRateLimited(provider, segment, attempt, b);
      RetryGrowth(provider, segment, attempt + 1, next);
      var r := RetryFrom(provider, segment, attempt + 1, next).backoff;
      PrefixOfPrefix(r.sleeps, next.sleeps, b.sleeps);
    }
  }

  lemma {:induction false} PrefixOfPrefix(s: seq<nat>, t: seq<nat>, u: seq<nat>)
    requires |t| <= |s| && s[..|t|] == t && |u| <= |t| && t[..|u|] == u
    ensures s[..|u|] == u
  {
    assert s[..|u|] == s[..|t|][..|u|];
  }

  lemma {:induction false} RetryExhausted(provider: Provider, segment: string, attempt: nat, b: Backoff)
    requires attempt < MaxRetries
    ensures RetryFrom(provider, segment, attempt, b).attempt.Exhausted? ==>
      var r := RetryFrom(provider, segment, attempt, b).backoff;
      && r.calls == b.calls + MaxRetries - attempt
      && (attempt < MaxRetries - 1 ==> |r.sleeps| > |b.sleeps| && r.sleeps[|r.sleeps| - 1] == LongDelay)
    decreases MaxRetries - attempt
  {
    if attempt == MaxRetries - 1 {
      RetryLast(provider, segment, b);
    } else if provider(b.calls, segment) == RateLimit {
      var next := Slept(b, attempt);
      RetryRateLimited(provider, segment, attempt, b);
      if attempt == MaxRetries - 2 {
        RetryLast(provider, segment, next);
        assert next.sleeps[|next.sleeps| - 1] == LongDelay;
      } else {
        RetryExhausted(provider, segment, attempt + 1, next);
      }
    }
  }

  /** The last attempt is exhausted only by a rate limit, after which
      nothing more is slept. */
  lemma {:induction false} RetryLast(provider: Provider, segment: string, b: Backoff)
    ensures RetryFrom(provider, segment, MaxRetries - 1, b).attempt.Exhausted? ==>
      RetryFrom(provider, segment, MaxRetries - 1, b).backoff == b.(calls := b.calls + 1)
  {
  }

  function Pow2(n: nat): nat {
    if n == 0 then 1 else 2 * Pow2(n - 1)
  }

  /** 1, 2, 4, ..., 2^(n-1). */
  function Powers(n: nat): seq<nat> {
    if n == 0 then [] else Powers(n - 1) + [Pow2(n - 1)]
  }

  /** The sleeps other than the long fixed one. */
  function Short(sleeps: seq<nat>): seq<nat> {
    if sleeps == [] then []
    else Short(sleeps[..|sleeps| - 1]) + (if sleeps[|sleeps| - 1] != LongDelay then [sleeps[|sleeps| - 1]] else [])
  }

  lemma {:induction false} Pow2Gap(n: nat)
    ensures Pow2(n) <= 64 || Pow2(n) >= 128
    ensures n <= 6 ==> Pow2(n) <= 64
    ensures n >= 7 ==> Pow2(n) >= 128
  {
    if n > 0 {
      Pow2Gap(n - 1);
    }
  }

  /** The exponential delays of a run so far are exactly 1, 2, 4, ... and the
      current `retry_delay` is the next power of two. */
  predicate Doubling(b: Backoff) {
    Short(b.sleeps) == Powers(|Short(b.sleeps)|) && b.delay == Pow2(|Short(b.sleeps)|)
  }

  lemma {:induction false} RetryDoubling(provider: Provider, segment: string, attempt: nat, b: Backoff)
    requires attempt < MaxRetries && Doubling(b)
    ensures Doubling(RetryFrom(provider, segment, attempt, b).backoff)
    decreases MaxRetries - attempt
  {
    if provider(b.calls, segment) == RateLimit && attempt < MaxRetries - 1 {
      RetryRateLimited(provider, segment, attempt, b);
      if attempt < MaxRetries - 2 {
        DoublingSleep(b.(calls := b.calls + 1));
      } else {
        DoublingLongSleep(b.(calls := b.calls + 1));
      }
      RetryDoubling(provider, segment, attempt + 1, Slept(b, attempt));
    }
  }

  /** Sleeping the current delay and doubling it keeps the schedule. */
  lemma {:induction false} DoublingSleep(b: Backoff)
    requires Doubling(b)
    ensures Doubling(b.(delay := b.delay * 2, sleeps := b.sleeps + [b.delay]))
  {
    var n := |Short(b.sleeps)|;
    var next := b.(delay := b.delay * 2, sleeps := b.sleeps + [b.delay]);
    Pow2Gap(n);
    assert next.sleeps[..|next.sleeps| - 1] == b.sleeps;
    assert Short(next.sleeps) == Powers(n) + [Pow2(n)];
  }

  /** The long fixed sleep is not part of the doubling schedule. */
  lemma {:induction false} DoublingLongSleep(b: Backoff)
    requires Doubling(b)
    ensures Doubling(b.(sleeps := b.sleeps + [LongDelay]))
  {
    var next := b.(sleeps := b.sleeps + [LongDelay]);
    assert next.sleeps[..|next.sleeps| - 1] == b.sleeps;
  }

  /** A segment rate-limited on its first `k` requests and answered with `t`
      afterwards, started at attempt `a` with the delays so far those of the
      first `a` attempts. */
  lemma {:induction false} RateLimitedThen(provider: Provider, segment: string, k: nat, t: string, a: nat)
    requires a < MaxRetries && a <= k
    requires forall c: nat :: c < k ==> provider(c, segment) == RateLimit
    requires forall c: nat :: c >= k ==> provider(c, segment) == Ok(t)
    ensures RetryFrom(provider, segment, a, Backoff(a, Pow2(Min(a, 8)), Schedule(a))) ==
      if k < MaxRetries then Retry(Answered(t), Backoff(k + 1, Pow2(Min(k, 8)), Schedule(k)))
      else Retry(Exhausted, Backoff(MaxRetries, Pow2(8), Schedule(9)))
    decreases MaxRetries - a
  {
    var b := Backoff(a, Pow2(Min(a, 8)), Schedule(a));
    if a < k {
      assert provider(a, segment) == RateLimit;
      if a < MaxRetries - 1 {
        RetryRateLimited(provider, segment, a, b);
        SleptSchedule(a);
        RateLimitedThen(provider, segment, k, t, a + 1);
      } else {
        assert RetryFrom(provider, segment, a, b) == Retry(Exhausted, b.(calls := a + 1));
      }
    } else {
      assert provider(a, segment) == Ok(t);
      assert RetryFrom(provider, segment, a, b) == Retry(Answered(t), b.(calls := a + 1));
    }
  }

  /** A rate-limited attempt of a segment that started a run moves the
      schedule on by one. */
  lemma {:induction false} SleptSchedule(a: nat)
    requires a < MaxRetries - 1
    ensures Slept(Backoff(a, Pow2(Min(a, 8)), Schedule(a)), a) == Backoff(a + 1, Pow2(Min(a + 1, 8)), Schedule(a + 1))
  {
    if a < 8 {
      assert Schedule(a + 1) == Powers(a) + [Pow2(a)];
    }
  }

  /** The sleeps of the first `k` attempts of a segment that starts a run:
      1, 2, ..., 128 and then 120. */
  function Schedule(k: nat): seq<nat>
    requires k <= 9
  {
    Powers(Min(k, 8)) + (if k == 9 then [LongDelay] else [])
  }

  /** Backoff of a one-segment run: with `k` rate-limit errors before a
      translation, `k < 10` succeeds after sleeping 1, 2, 4, ... (120 as the
      ninth); from `k = 10` on the error is re-raised after ten requests. */
  lemma {:induction false} BackoffScenario(provider: Provider, segment: string, k: nat, t: string)
    requires t != ""
    requires forall c: nat :: c < k ==> provider(c, segment) == RateLimit
    requires forall c: nat :: c >= k ==> provider(c, segment) == Ok(t)
    ensures k < MaxRetries ==>
      TranslateV2(provider, [segment]) == Returned([t], Backoff(k + 1, Pow2(Min(k, 8)), Schedule(k)))
    ensures k >= MaxRetries ==>
      TranslateV2(provider, [segment]) == Raised(ResourceExhausted, Backoff(MaxRetries, Pow2(8), Schedule(9)))
  {
    assert Start == Backoff(0, Pow2(Min(0, 8)), Schedule(0));
    RateLimitedThen(provider, segment, k, t, 0);
    assert [segment][1..] == [];
    var r := RetryFrom(provider, segment, 0, Start);
    if k < MaxRetries {
      assert V2From(provider, [segment], [], Start) == V2From(provider, [], [Rendered(t)], r.backoff);
    }
  }

  // ----- whole runs -----

  /** `translate_text_v2` either raises `ResourceExhausted` or returns one
      non-empty entry per segment; it makes at most ten requests per segment,
      sleeps once before every request that is not a segment's first, and
      its exponential delays over the whole run are 1, 2, 4, ... : never
      reset between segments. */
  lemma {:induction false} V2Run(provider: Provider, segments: seq<string>, out: seq<string>, b: Backoff)
    requires Doubling(b)
    ensures var run := V2From(provider, segments, out, b);
      && Doubling(run.backoff)
      && b.calls <= run.backoff.calls <= b.calls + MaxRetries * |segments|
      && (run.Returned? ==>
        && |run.output| == |out| + |segments|
        && run.output[..|out|] == out
        && (forall k :: |out| <= k < |run.output| ==> run.output[k] != "")
        && |run.backoff.sleeps| == |b.sleeps| + run.backoff.calls - b.calls - |segments|)
  {
    V2Budget(provider, segments, out, b);
    V2Output(provider, segments, out, b);
  }

  /** The entry v2 appends for a segment that was not exhausted. */
  function V2Text(a: Attempt): string {
    if a.Answered? then Rendered(a.text) else Blank
  }

  lemma {:induction false} V2Step(provider: Provider, segments: seq<string>, out: seq<string>, b: Backoff)
    requires segments != []
    ensures var r := RetryFrom(provider, segments[0], 0, b);
      V2From(provider, segments, out, b) ==
        if r.attempt.Exhausted? then Raised(ResourceExhausted, r.backoff)
        else V2From(provider, segments[1..], out + [V2Text(r.attempt)], r.backoff)
  {
  }

  lemma {:induction false} V2Budget(provider: Provider, segments: seq<string>, out: seq<string>, b: Backoff)
    requires Doubling(b)
    ensures var run := V2From(provider, segments, out, b);
      && Doubling(run.backoff)
      && b.calls <= run.backoff.calls <= b.calls + MaxRetries * |segments|
      && (run.Returned? ==> |run.backoff.sleeps| == |b.sleeps| + run.backoff.calls - b.calls - |segments|)
    decreases |segments|
  {
    if segments != [] {
      var r := RetryFrom(provider, segments[0], 0, b);
      RetryBounds(provider, segments[0], 0, b);
      RetryDoubling(provider, segments[0], 0, b);
      V2Step(provider, segments, out, b);
      if !r.attempt.Exhausted? {
        V2Budget(provider, segments[1..], out + [V2Text(r.attempt)], r.backoff);
      }
    }
  }

  lemma {:induction false} V2Output(provider: Provider, segments: seq<string>, out: seq<string>, b: Backoff)
    ensures var run := V2From(provider, segments, out, b);
      run.Returned? ==>
        && |run.output| == |out| + |segments|
        && run.output[..|out|] == out
        && (forall k :: |out| <= k < |run.output| ==> run.output[k] != "")
    decreases |segments|
  {
    if segments != [] {
      var r := RetryFrom(provider, segments[0], 0, b);
      V2Step(provider, segments, out, b);
      if !r.attempt.Exhausted? {
        var out' := out + [V2Text(r.attempt)];
        V2Output(provider, segments[1..], out', r.backoff);
        var run := V2From(provider, segments, out, b);
        if run.Returned? {
          assert run.output[..|out|] == run.output[..|out'|][..|out|];
          assert run.output[|out|] == out'[|out|];
        }
      }
    }
  }

  lemma {:induction false} TranslateV2Aligned(provider: Provider, segments: seq<string>)
    ensures var run := TranslateV2(provider, segments);
      && Short(run.backoff.sleeps) == Powers(|Short(run.backoff.sleeps)|)
      && run.backoff.calls <= MaxRetries * |segments|
      && (run.Returned? ==>
        && |run.output| == |segments|
        && (forall k :: 0 <= k < |run.output| ==> run.output[k] != "")
        && |run.backoff.sleeps| == run.backoff.calls - |segments|)
  {
    V2Run(provider, segments, [], Start);
  }

  // ----- runs without rate limiting -----

  /** No request for `segments`, numbered from `c` on, is rate-limited: each
      segment then costs exactly one request. */
  predicate Unlimited(provider: Provider, segments: seq<string>, c: nat)
    decreases |segments|
  {
    segments == [] || (provider(c, segments[0]) != RateLimit && Unlimited(provider, segments[1..], c + 1))
  }

  lemma {:induction false} UnlimitedFromAll(provider: Provider, segments: seq<string>, c: nat)
    requires forall i :: 0 <= i < |segments| ==> provider(c + i, segments[i]) != RateLimit
    ensures Unlimited(provider, segments, c)
    decreases |segments|
  {
    if segments != [] {
      assert provider(c + 0, segments[0]) != RateLimit;
      forall i | 0 <= i < |segments[1..]|
        ensures provider(c + 1 + i, segments[1..][i]) != RateLimit
      {
        assert provider(c + (i + 1), segments[i + 1]) != RateLimit;
      }
      UnlimitedFromAll(provider, segments[1..], c + 1);
    }
  }

  /** A first request that is not rate-limited settles the segment. */
  lemma {:induction false} FirstAttempt(provider: Provider, segment: string, b: Backoff)
    requires provider(b.calls, segment) != RateLimit
    ensures RetryFrom(provider, segment, 0, b) ==
      Retry(if provider(b.calls, segment).Ok? then Answered(provider(b.calls, segment).text) else Failed,
            b.(calls := b.calls + 1))
  {
  }

  /** What v2 appends for one answer when rate limiting does not occur. */
  function V2Entry(o: Outcome): string {
    if o.Ok? then Rendered(o.text) else Blank
  }

  /** Reference output of v2 without rate limiting, segment by segment. */
  function V2Expected(provider: Provider, segments: seq<string>, c: nat): seq<string> {
    if segments == [] then [] else [V2Entry(provider(c, segments[0]))] + V2Expected(provider, segments[1..], c + 1)
  }

  /** Sentinel substitution: without rate limiting, v2 makes one request per
      segment, never sleeps, and appends the reference entries. */
  lemma {:induction false} V2WithoutRateLimit(provider: Provider, segments: seq<string>, out: seq<string>, b: Backoff)
    requires Unlimited(provider, segments, b.calls)
    ensures V2From(provider, segments, out, b) ==
      Returned(out + V2Expected(provider, segments, b.calls), b.(calls := b.calls + |segments|))
    decreases |segments|
  {
    if segments != [] {
      var b' := b.(calls := b.calls + 1);
      FirstAttempt(provider, segments[0], b);
      var out' := out + [V2Entry(provider(b.calls, segments[0]))];
      V2WithoutRateLimit(provider, segments[1..], out', b');
      assert out + V2Expected(provider, segments, b.calls) == out' + V2Expected(provider, segments[1..], b'.calls);
    }
  }

  /** Entry i of the reference output is the translation of segment i, or
      the blank sentinel when that request failed or came back empty. */
  lemma {:induction false} V2ExpectedAt(provider: Provider, segments: seq<string>, c: nat, i: nat)
    requires i < |segments|
    ensures |V2Expected(provider, segments, c)| == |segments|
    ensures V2Expected(provider, segments, c)[i] == V2Entry(provider(c + i, segments[i]))
    decreases i
  {
    V2ExpectedLength(provider, segments, c);
    if i > 0 {
      V2ExpectedAt(provider, segments[1..], c + 1, i - 1);
      assert segments[1..][i - 1] == segments[i];
    }
  }

  lemma {:induction false} V2ExpectedLength(provider: Provider, segments: seq<string>, c: nat)
    ensures |V2Expected(provider, segments, c)| == |segments|
    decreases |segments|
  {
    if segments != [] {
      V2ExpectedLength(provider, segments[1..], c + 1);
    }
  }

  /** `translate_text_v3` on a target without a glossary: when it returns,
      it returned one entry per segment; with a glossary, at least one. */
  lemma {:induction false} V3Run(provider: Provider, glossary: bool, segments: seq<string>, out: seq<string>, b: Backoff)
    requires Doubling(b)
    ensures var run := V3From(provider, glossary, segments, out, b);
      && Doubling(run.backoff)
      && b.calls <= run.backoff.calls <= b.calls + MaxRetries * |segments|
      && (run.Returned? ==>
        && |run.output| >= |out| + |segments|
        && run.output[..|out|] == out
        && (!glossary ==> |run.output| == |out| + |segments|))
    decreases |segments|
  {
    if segments != [] {
      var r := RetryFrom(provider, segments[0], 0, b);
      RetryBounds(provider, segments[0], 0, b);
      RetryDoubling(provider, segments[0], 0, b);
      var run := V3From(provider, glossary, segments, out, b);
      match r.attempt
      case Exhausted =>
      case Answered(t) =>
        var out' := out + [Rendered(t)];
        V3Run(provider, glossary, segments[1..], out', r.backoff);
        assert run.Returned? ==> run.output[..|out|] == run.output[..|out'|][..|out|];
      case Failed =>
        if glossary {
          var out' := out + [ErrorMark, Blank];
          V3Run(provider, glossary, segments[1..], out', r.backoff);
          assert run.Returned? ==> run.output[..|out|] == run.output[..|out'|][..|out|];
        }
    }
  }

  /** What v3 appends for one answer when rate limiting does not occur and
      the target has a glossary. */
  function V3Entries(o: Outcome): seq<string> {
    if o.Ok? then [Rendered(o.text)] else [ErrorMark, Blank]
  }

  /** Reference output of v3 without rate limiting, segment by segment. */
  function V3Expected(provider: Provider, segments: seq<string>, c: nat): seq<string> {
    if segments == [] then [] else V3Entries(provider(c, segments[0])) + V3Expected(provider, segments[1..], c + 1)
  }

  /** Without rate limiting, v3 with a glossary returns, for each failed
      request, both `[ERROR]` and the blank sentinel. */
  lemma {:induction false} V3GlossaryWithoutRateLimit(provider: Provider, segments: seq<string>, out: seq<string>, b: Backoff)
    requires Unlimited(provider, segments, b.calls)
    ensures V3From(provider, true, segments, out, b) ==
      Returned(out + V3Expected(provider, segments, b.calls), b.(calls := b.calls + |segments|))
    decreases |segments|
  {
    if segments != [] {
      var b' := b.(calls := b.calls + 1);
      FirstAttempt(provider, segments[0], b);
      var out' := out + V3Entries(provider(b.calls, segments[0]));
      V3GlossaryWithoutRateLimit(provider, segments[1..], out', b');
      assert out + V3Expected(provider, segments, b.calls) == out' + V3Expected(provider, segments[1..], b'.calls);
    }
  }

  /** Number of requests, among those made for `segments` from call number
      `c` on, that did not come back with a translation. */
  function Failures(provider: Provider, segments: seq<string>, c: nat): nat {
    if segments == [] then 0
    else (if provider(c, segments[0]).Ok? then 0 else 1) + Failures(provider, segments[1..], c + 1)
  }

  /** Each failed request adds one entry beyond the one per segment, and
      there is such a failure exactly when some request was not answered. */
  lemma {:induction false} V3ExpectedLength(provider: Provider, segments: seq<string>, c: nat)
    ensures |V3Expected(provider, segments, c)| == |segments| + Failures(provider, segments, c)
    ensures Failures(provider, segments, c) > 0 <==>
      exists i :: 0 <= i < |segments| && !provider(c + i, segments[i]).Ok?
  {
    V3ExpectedCount(provider, segments, c);
    if Failures(provider, segments, c) > 0 {
      FailureWitness(provider, segments, c);
    }
    if exists i :: 0 <= i < |segments| && !provider(c + i, segments[i]).Ok? {
      var i :| 0 <= i < |segments| && !provider(c + i, segments[i]).Ok?;
      FailureCounted(provider, segments, c, i);
    }
  }

  lemma {:induction false} V3ExpectedCount(provider: Provider, segments: seq<string>, c: nat)
    ensures |V3Expected(provider, segments, c)| == |segments| + Failures(provider, segments, c)
    decreases |segments|
  {
    if segments != [] {
      V3ExpectedCount(provider, segments[1..], c + 1);
    }
  }

  lemma {:induction false} FailureWitness(provider: Provider, segments: seq<string>, c: nat)
    requires Failures(provider, segments, c) > 0
    ensures exists i :: 0 <= i < |segments| && !provider(c + i, segments[i]).Ok?
    decreases |segments|
  {
    if provider(c, segments[0]).Ok? {
      FailureWitness(provider, segments[1..], c + 1);
      var i :| 0 <= i < |segments[1..]| && !provider(c + 1 + i, segments[1..][i]).Ok?;
      assert !provider(c + (i + 1), segments[i + 1]).Ok?;
    } else {
      assert !provider(c + 0, segments[0]).Ok?;
    }
  }

  lemma {:induction false} FailureCounted(provider: Provider, segments: seq<string>, c: nat, i: nat)
    requires i < |segments| && !provider(c + i, segments[i]).Ok?
    ensures Failures(provider, segments, c) > 0
    decreases i
  {
    if i > 0 {
      assert segments[1..][i - 1] == segments[i];
      FailureCounted(provider, segments[1..], c + 1, i - 1);
    }
  }

  /** Without rate limiting and without a glossary, v3 raises `NameError`
      exactly when some request fails; when none fails it returns what v2
      returns. */
  lemma {:induction false} V3PlainWithoutRateLimit(provider: Provider, segments: seq<string>, out: seq<string>, b: Backoff)
    requires Unlimited(provider, segments, b.calls)
    ensures V3From(provider, false, segments, out, b).Raised? <==> Failures(provider, segments, b.calls) > 0
    ensures V3From(provider, false, segments, out, b).Raised? ==>
      V3From(provider, false, segments, out, b).exception == NameError
    ensures V3From(provider, false, segments, out, b).Returned? ==>
      V3From(provider, false, segments, out, b) == V2From(provider, segments, out, b)
    decreases |segments|
  {
    if segments != [] {
      var o := provider(b.calls, segments[0]);
      FirstAttempt(provider, segments[0], b);
      if o.Ok? {
        V3PlainWithoutRateLimit(provider, segments[1..], out + [V2Entry(o)], b.(calls := b.calls + 1));
      }
    }
  }

  /** For a target without a glossary, when every request is answered, v3
      returns the reference output of v2: entry i is the translation of
      segment i, or the blank sentinel when it came back empty. */
  lemma {:induction false} PlainAllAnswered(target: string, provider: Provider, segments: seq<string>)
    requires !HasGlossary(target)
    requires forall i :: 0 <= i < |segments| ==> provider(i, segments[i]).Ok?
    ensures TranslateV3(target, provider, segments) ==
      Returned(V2Expected(provider, segments, 0), Start.(calls := |segments|))
  {
    assert forall i :: 0 <= i < |segments| ==> provider(0 + i, segments[i]).Ok?;
    AllAnswered(provider, segments, 0);
    PlainUnlimited(provider, segments, [], Start);
    assert [] + V2Expected(provider, segments, 0) == V2Expected(provider, segments, 0);
  }

  /** Without rate limiting and without failures, v3 without a glossary
      returns the reference output of v2. */
  lemma {:induction false} PlainUnlimited(provider: Provider, segments: seq<string>, out: seq<string>, b: Backoff)
    requires Unlimited(provider, segments, b.calls) && Failures(provider, segments, b.calls) == 0
    ensures V3From(provider, false, segments, out, b) ==
      Returned(out + V2Expected(provider, segments, b.calls), b.(calls := b.calls + |segments|))
    decreases |segments|
  {
    if segments != [] {
      var b' := b.(calls := b.calls + 1);
      FirstAttempt(provider, segments[0], b);
      var out' := out + [V2Entry(provider(b.calls, segments[0]))];
      PlainUnlimited(provider, segments[1..], out', b');
      assert out + V2Expected(provider, segments, b.calls) == out' + V2Expected(provider, segments[1..], b'.calls);
    }
  }

  lemma {:induction false} AllAnswered(provider: Provider, segments: seq<string>, c: nat)
    requires forall i :: 0 <= i < |segments| ==> provider(c + i, segments[i]).Ok?
    ensures Unlimited(provider, segments, c) && Failures(provider, segments, c) == 0
    decreases |segments|
  {
    if segments != [] {
      assert provider(c + 0, segments[0]).Ok?;
      forall i | 0 <= i < |segments[1..]|
        ensures provider(c + 1 + i, segments[1..][i]).Ok?
      {
        assert provider(c + (i + 1), segments[i + 1]).Ok?;
      }
      AllAnswered(provider, segments[1..], c + 1);
    }
  }

  /** For a target with a glossary and without rate limiting, one failed
      request makes v3 return more entries than there are segments. */
  lemma {:induction false} GlossaryFailureLonger(target: string, provider: Provider, segments: seq<string>)
    requires HasGlossary(target)
    requires forall i :: 0 <= i < |segments| ==> provider(i, segments[i]) != RateLimit
    requires exists i :: 0 <= i < |segments| && provider(i, segments[i]) == Other
    ensures TranslateV3(target, provider, segments).Returned?
    ensures |TranslateV3(target, provider, segments).output| > |segments|
  {
    UnlimitedFromAll(provider, segments, 0);
    V3GlossaryWithoutRateLimit(provider, segments, [], Start);
    V3ExpectedCount(provider, segments, 0);
    var i :| 0 <= i < |segments| && provider(i, segments[i]) == Other;
    assert !provider(0 + i, segments[i]).Ok?;
    FailureCounted(provider, segments, 0, i);
  }

  /** The delays keep doubling from one segment to the next: two segments,
      each rate-limited once, sleep 1 and then 2. */
  lemma {:induction false} DelayNotReset(provider: Provider, s1: string, s2: string)
    requires provider(0, s1) == RateLimit && provider(1, s1) == Ok("a")
    requires provider(2, s2) == RateLimit && provider(3, s2) == Ok("b")
    ensures TranslateV2(provider, [s1, s2]) == Returned(["a", "b"], Backoff(4, 4, [1, 2]))
  {
    assert [s1, s2][1..] == [s2];
    assert [s2][1..] == [];
    var r1 := RetryFrom(provider, s1, 0, Start);
    assert r1 == RetryFrom(provider, s1, 1, Backoff(1, 2, [1]));
    assert r1 == Retry(Answered("a"), Backoff(2, 2, [1]));
    var r2 := RetryFrom(provider, s2, 0, r1.backoff);
    assert r2 == RetryFrom(provider, s2, 1, Backoff(3, 4, [1, 2]));
    assert r2 == Retry(Answered("b"), Backoff(4, 4, [1, 2]));
    assert Rendered("a") == "a" && Rendered("b") == "b";
    assert [] + ["a"] == ["a"] && ["a"] + ["b"] == ["a", "b"];
    assert TranslateV2(provider, [s1, s2]) == V2From(provider, [s2], ["a"], r1.backoff);
    assert V2From(provider, [s2], ["a"], r1.backoff) == V2From(provider, [], ["a", "b"], r2.backoff);
  }
}
