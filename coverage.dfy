/** The coverage scan of `get_missing_languages` (main.py): which of the
    expected target languages have no caption file in a directory yet.

    An entry of the directory listing "has" a language when it contains
    "-" followed by the upper-cased code anywhere in its name. Each entry is
    checked against the expected languages in order and removes, from a copy
    of the expected list, only the FIRST language it matches. Because the
    inner loop walks the original list and not the shrinking copy, a second
    entry that first-matches an already removed language makes
    `list.remove` raise `ValueError`. */
module Coverage {
  import opened Text

  datatype ScanResult =
    | Found(missing: seq<string>)
      /** `list.remove(lang)` raised: `lang` was no longer in the copy. */
    | ValueError(lang: string)

  /** `f"-{lang.upper()}" in entry`. */
  predicate Mentions(entry: string, lang: string) {
    Contains(entry, "-" + Upper(lang))
  }

  /** Position of the first expected language the entry mentions, or `|langs|`
      when it mentions none: the language the inner `for ... break` loop
      picks. */
  function FirstMatch(entry: string, langs: seq<string>): (k: nat)
    ensures k <= |langs|
  {
    if langs == [] then 0
    else if Mentions(entry, langs[0]) then 0
    else 1 + FirstMatch(entry, langs[1..])
  }

  /** The picked language is mentioned and none before it is. */
  lemma {:induction false} FirstMatchSpec(entry: string, langs: seq<string>)
    ensures FirstMatch(entry, langs) < |langs| ==> Mentions(entry, langs[FirstMatch(entry, langs)])
    ensures forall j :: 0 <= j < FirstMatch(entry, langs) ==> !Mentions(entry, langs[j])
    decreases |langs|
  {
    if langs != [] && !Mentions(entry, langs[0]) {
      FirstMatchSpec(entry, langs[1..]);
      forall j | 0 < j < FirstMatch(entry, langs)
        ensures !Mentions(entry, langs[j])
      {
        assert langs[j] == langs[1..][j - 1];
      }
    }
  }

  /** `list.remove(x)`: drops the first occurrence of `x`. */
  function RemoveFirst(xs: seq<string>, x: string): (r: seq<string>)
    requires x in xs
    ensures multiset(r) == multiset(xs) - multiset{x}
  {
    assert xs == [xs[0]] + xs[1..];
    if xs[0] == x then xs[1..] else [xs[0]] + RemoveFirst(xs[1..], x)
  }

  /** What the nested loops do from a given state of the copy `missing` on,
      for the entries not yet looked at. */
  function Scan(missing: seq<string>, entries: seq<string>, langs: seq<string>): ScanResult
    decreases |entries|
  {
    if entries == [] then Found(missing)
    else
      var k := FirstMatch(entries[0], langs);
      if k == |langs| then Scan(missing, entries[1..], langs)
      else if langs[k] in missing then Scan(RemoveFirst(missing, langs[k]), entries[1..], langs)
      else ValueError(langs[k])
  }

  /** `get_missing_languages` applied to a directory listing. */
  function MissingLanguages(entries: seq<string>, langs: seq<string>): ScanResult {
    Scan(langs, entries, langs)
  }

  /** The languages the entries first-match, one per matching entry, in
      listing order. */
  function Matched(entries: seq<string>, langs: seq<string>): seq<string> {
    if entries == [] then []
    else
      var k := FirstMatch(entries[0], langs);
      (if k < |langs| then [langs[k]] else []) + Matched(entries[1..], langs)
  }

  /** Reference definition of the result: `xs` in its own order, with the
      first `m[v]` occurrences of every value `v` dropped. */
  function DropFirsts(xs: seq<string>, m: multiset<string>): seq<string> {
    if xs == [] then []
    else if xs[0] in m then DropFirsts(xs[1..], m - multiset{xs[0]})
    else [xs[0]] + DropFirsts(xs[1..], m)
  }

  /** The scan as the source writes it: a copy of the expected list, nested
      loops over the listing and the expected list, `remove` and `break`. */
  method GetMissingLanguages(entries: seq<string>, langs: seq<string>) returns (r: ScanResult)
    ensures r == MissingLanguages(entries, langs)
  {
    var missing := langs;
    var i := 0;
    while i < |entries|
      invariant 0 <= i <= |entries|
      invariant Scan(missing, entries[i..], langs) == MissingLanguages(entries, langs)
    {
      var entry := entries[i];
      ghost var first := FirstMatch(entry, langs);
      FirstMatchSpec(entry, langs);
      ScanStep(missing, entries, langs, i);
      var j := 0;
      while j < |langs|
        invariant 0 <= j <= first
        invariant forall k :: 0 <= k < j ==> !Mentions(entry, langs[k])
      {
        if Mentions(entry, langs[j]) {
          assert j == first;
          if langs[j] !in missing {
            return ValueError(langs[j]);
          }
          missing := RemoveFirst(missing, langs[j]);
          break;
        }
        j := j + 1;
      }
      i := i + 1;
    }
    return Found(missing);
  }

  lemma {:induction false} ScanStep(missing: seq<string>, entries: seq<string>, langs: seq<string>, i: nat)
    requires i < |entries|
    ensures var k := FirstMatch(entries[i], langs);
      Scan(missing, entries[i..], langs) ==
        if k == |langs| then Scan(missing, entries[i + 1..], langs)
        else if langs[k] in missing then Scan(RemoveFirst(missing, langs[k]), entries[i + 1..], langs)
        else ValueError(langs[k])
  {
    assert entries[i..][0] == entries[i] && entries[i..][1..] == entries[i + 1..];
  }

  // ----- properties -----

  /** Every first-matched language is one of the expected ones. */
  lemma {:induction false} MatchedInLangs(entries: seq<string>, langs: seq<string>)
    ensures forall x :: x in Matched(entries, langs) ==> x in langs
  {
    if entries != [] {
      MatchedInLangs(entries[1..], langs);
    }
  }

  lemma {:induction false} MatchedAppend(a: seq<string>, b: seq<string>, langs: seq<string>)
    ensures Matched(a + b, langs) == Matched(a, langs) + Matched(b, langs)
  {
    if a == [] {
      assert a + b == b;
    } else {
      assert (a + b)[1..] == a[1..] + b;
      MatchedAppend(a[1..], b, langs);
    }
  }

  /** Removing one occurrence first and then the first occurrences of `m` is
      the same as dropping the first occurrences of `m` plus that value. */
  lemma {:induction false} DropFirstsRemove(xs: seq<string>, x: string, m: multiset<string>)
    requires x in xs
    ensures DropFirsts(RemoveFirst(xs, x), m) == DropFirsts(xs, m + multiset{x})
  {
    if xs[0] != x {
      DropFirstsRemove(xs[1..], x, m - multiset{xs[0]});
      DropFirstsRemove(xs[1..], x, m);
      if xs[0] in m {
        assert m - multiset{xs[0]} + multiset{x} == m + multiset{x} - multiset{xs[0]};
      }
    } else {
      assert m + multiset{x} - multiset{x} == m;
    }
  }

  /** The result keeps the expected languages minus exactly the first-matched
      ones, counted with multiplicity. */
  lemma {:induction false} DropFirstsMultiset(xs: seq<string>, m: multiset<string>)
    requires m <= multiset(xs)
    ensures multiset(DropFirsts(xs, m)) == multiset(xs) - m
  {
    if xs != [] {
      assert xs == [xs[0]] + xs[1..];
      if xs[0] in m {
        DropFirstsMultiset(xs[1..], m - multiset{xs[0]});
      } else {
        assert m <= multiset(xs[1..]);
        DropFirstsMultiset(xs[1..], m);
      }
    }
  }

  /** Characterisation of the scan from any state: it succeeds exactly when no
      language is first-matched more often than it occurs in the copy, and
      then returns the copy with those first occurrences dropped. */
  lemma {:induction false} ScanSpec(missing: seq<string>, entries: seq<string>, langs: seq<string>)
    ensures Scan(missing, entries, langs).Found? <==> multiset(Matched(entries, langs)) <= multiset(missing)
    ensures Scan(missing, entries, langs).Found? ==>
      Scan(missing, entries, langs).missing == DropFirsts(missing, multiset(Matched(entries, langs)))
    decreases |entries|
  {
    if entries == [] {
      DropFirstsEmpty(missing);
    } else {
      var k := FirstMatch(entries[0], langs);
      var rest := multiset(Matched(entries[1..], langs));
      MatchedCons(entries, langs);
      if k == |langs| {
        ScanSpec(missing, entries[1..], langs);
      } else {
        var l := langs[k];
        if l in missing {
          ScanSpec(RemoveFirst(missing, l), entries[1..], langs);
          DropFirstsRemove(missing, l, rest);
          SubMultisetRemove(rest, multiset(missing), l);
        } else {
          assert multiset(missing)[l] == 0;
        }
      }
    }
  }

  lemma {:induction false} MatchedCons(entries: seq<string>, langs: seq<string>)
    requires entries != []
    ensures FirstMatch(entries[0], langs) == |langs| ==>
      multiset(Matched(entries, langs)) == multiset(Matched(entries[1..], langs))
    ensures FirstMatch(entries[0], langs) < |langs| ==>
      multiset(Matched(entries, langs)) == multiset(Matched(entries[1..], langs)) + multiset{langs[FirstMatch(entries[0], langs)]}
  {
    var k := FirstMatch(entries[0], langs);
    if k == |langs| {
      assert Matched(entries, langs) == [] + Matched(entries[1..], langs);
    }
  }

  lemma {:induction false} SubMultisetRemove(a: multiset<string>, b: multiset<string>, l: string)
    requires l in b
    ensures a + multiset{l} <= b <==> a <= b - multiset{l}
  {
  }

  lemma {:induction false} DropFirstsEmpty(xs: seq<string>)
    ensures DropFirsts(xs, multiset{}) == xs
  {
    if xs != [] {
      DropFirstsEmpty(xs[1..]);
    }
  }

  /** `get_missing_languages` returns the expected list, in its own order,
      minus one occurrence per entry that first-matches a language; it raises
      `ValueError` exactly when some language is first-matched by more entries
      than it occurs in the expected list. */
  lemma {:induction false} MissingLanguagesSpec(entries: seq<string>, langs: seq<string>)
    ensures MissingLanguages(entries, langs).Found? <==> multiset(Matched(entries, langs)) <= multiset(langs)
    ensures MissingLanguages(entries, langs).Found? ==>
      && MissingLanguages(entries, langs).missing == DropFirsts(langs, multiset(Matched(entries, langs)))
      && multiset(MissingLanguages(entries, langs).missing) == multiset(langs) - multiset(Matched(entries, langs))
  {
    ScanSpec(langs, entries, langs);
    if multiset(Matched(entries, langs)) <= multiset(langs) {
      DropFirstsMultiset(langs, multiset(Matched(entries, langs)));
    }
  }

  /** A language loses an occurrence only if some entry of the listing
      mentions it. */
  lemma {:induction false} RemovedOnlyIfMentioned(entries: seq<string>, langs: seq<string>, x: string)
    requires MissingLanguages(entries, langs).Found?
    requires multiset(MissingLanguages(entries, langs).missing)[x] < multiset(langs)[x]
    ensures exists i :: 0 <= i < |entries| && Mentions(entries[i], x)
  {
    MissingLanguagesSpec(entries, langs);
    assert x in Matched(entries, langs);
    MatchedWitness(entries, langs, x);
  }

  lemma {:induction false} MatchedWitness(entries: seq<string>, langs: seq<string>, x: string)
    requires x in Matched(entries, langs)
    ensures exists i :: 0 <= i < |entries| && Mentions(entries[i], x)
  {
    var k := FirstMatch(entries[0], langs);
    if k < |langs| && langs[k] == x {
      FirstMatchSpec(entries[0], langs);
      assert Mentions(entries[0], x);
    } else {
      MatchedWitness(entries[1..], langs, x);
      var i :| 0 <= i < |entries[1..]| && Mentions(entries[1..][i], x);
      assert Mentions(entries[i + 1], x);
    }
  }

  /** The hidden failure: with distinct expected languages, two different
      entries that first-match the same language make the scan raise
      `ValueError` instead of returning. */
  lemma {:induction false} DuplicateFirstMatchRaises(entries: seq<string>, langs: seq<string>, i: nat, j: nat)
    requires forall a, b :: 0 <= a < b < |langs| ==> langs[a] != langs[b]
    requires i < j < |entries|
    requires FirstMatch(entries[i], langs) < |langs|
    requires FirstMatch(entries[j], langs) == FirstMatch(entries[i], langs)
    ensures MissingLanguages(entries, langs).ValueError?
  {
    var l := langs[FirstMatch(entries[i], langs)];
    TwoMatches(entries, langs, i, j);
    DistinctCount(langs, l);
    MissingLanguagesSpec(entries, langs);
    assert !(multiset(Matched(entries, langs)) <= multiset(langs)) by {
      assert multiset(Matched(entries, langs))[l] > multiset(langs)[l];
    }
  }

  lemma {:induction false} TwoMatches(entries: seq<string>, langs: seq<string>, i: nat, j: nat)
    requires i < j < |entries|
    requires FirstMatch(entries[i], langs) < |langs|
    requires FirstMatch(entries[j], langs) == FirstMatch(entries[i], langs)
    ensures multiset(Matched(entries, langs))[langs[FirstMatch(entries[i], langs)]] >= 2
  {
    var l := langs[FirstMatch(entries[i], langs)];
    var tail := entries[i + 1..];
    var k := j - i - 1;
    assert tail[k] == entries[j];
    MatchedCount(entries, langs, i, l);
    MatchedCount(tail, langs, k, l);
  }

  /** An entry that first-matches a language adds one to its count. */
  lemma {:induction false} MatchedCount(entries: seq<string>, langs: seq<string>, i: nat, l: string)
    requires i < |entries| && FirstMatch(entries[i], langs) < |langs|
    requires langs[FirstMatch(entries[i], langs)] == l
    ensures multiset(Matched(entries, langs))[l] >= 1 + multiset(Matched(entries[i + 1..], langs))[l]
  {
    MatchedSplit(entries, langs, i);
    MatchedSingle(entries[i], langs);
    var before, after := Matched(entries[..i], langs), Matched(entries[i + 1..], langs);
    assert multiset(before + [l] + after) == multiset(before) + multiset([l]) + multiset(after);
  }

  lemma {:induction false} MatchedSingle(e: string, langs: seq<string>)
    ensures FirstMatch(e, langs) < |langs| ==> Matched([e], langs) == [langs[FirstMatch(e, langs)]]
  {
    assert [e][1..] == [];
  }

  lemma {:induction false} MatchedSplit(entries: seq<string>, langs: seq<string>, i: nat)
    requires i < |entries|
    ensures Matched(entries, langs) ==
      Matched(entries[..i], langs) + Matched([entries[i]], langs) + Matched(entries[i + 1..], langs)
  {
    assert entries == entries[..i] + [entries[i]] + entries[i + 1..];
    MatchedAppend(entries[..i] + [entries[i]], entries[i + 1..], langs);
    MatchedAppend(entries[..i], [entries[i]], langs);
  }

  lemma {:induction false} DistinctCount(xs: seq<string>, x: string)
    requires forall a, b :: 0 <= a < b < |xs| ==> xs[a] != xs[b]
    ensures multiset(xs)[x] <= 1
  {
    if xs != [] {
      assert xs == [xs[0]] + xs[1..];
      DistinctCount(xs[1..], x);
      if xs[0] == x {
        assert x !in xs[1..];
      }
    }
  }

  /** Whether the scan raises, and what it returns when it does not, do not
      depend on how the listing orders two parts of the directory (for
      instance its sub-directories and its files). */
  lemma {:induction false} ListingOrderIrrelevant(a: seq<string>, b: seq<string>, langs: seq<string>)
    ensures MissingLanguages(a + b, langs).Found? == MissingLanguages(b + a, langs).Found?
    ensures MissingLanguages(a + b, langs).Found? ==> MissingLanguages(a + b, langs) == MissingLanguages(b + a, langs)
  {
    MatchedAppend(a, b, langs);
    MatchedAppend(b, a, langs);
    assert multiset(Matched(a + b, langs)) == multiset(Matched(b + a, langs));
    MissingLanguagesSpec(a + b, langs);
    MissingLanguagesSpec(b + a, langs);
  }

  /** A pattern starting with '-' can only occur where the text has a '-'. */
  lemma {:induction false} DashAnchored(s: string, pat: string, p: nat)
    requires |pat| > 0 && pat[0] == '-'
    requires forall i :: 0 <= i < |s| && i != p ==> s[i] != '-'
    requires !MatchesAt(s, pat, p)
    ensures !Contains(s, pat)
  {
  }

  lemma {:induction false} EnglishMentionsNeither()
    ensures FirstMatch("lesson-EN.vtt", ["fr", "it"]) == 2
  {
    var en := "lesson-EN.vtt";
    assert "-" + Upper("fr") == "-FR";
    assert "-" + Upper("it") == "-IT";
    assert en[6..9][1] == 'E';
    DashAnchored(en, "-FR", 6);
    DashAnchored(en, "-IT", 6);
    assert ["fr", "it"][1..] == ["it"];
  }

  lemma {:induction false} FrenchMentionsFrench()
    ensures FirstMatch("lesson-FR.vtt", ["fr", "it"]) == 0
  {
    assert "-" + Upper("fr") == "-FR";
    assert MatchesAt("lesson-FR.vtt", "-FR", 6);
  }

  /** A directory holding `lesson-EN.vtt` and `lesson-FR.vtt`, with French and
      Italian expected, still misses Italian only. */
  lemma {:induction false} ExampleFrenchPresent()
    ensures MissingLanguages(["lesson-EN.vtt", "lesson-FR.vtt"], ["fr", "it"]) == Found(["it"])
  {
    var entries := ["lesson-EN.vtt", "lesson-FR.vtt"];
    EnglishMentionsNeither();
    FrenchMentionsFrench();
    assert RemoveFirst(["fr", "it"], "fr") == ["it"];
    assert entries[1..] == ["lesson-FR.vtt"] && entries[1..][1..] == [];
  }
}
