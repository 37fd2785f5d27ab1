/** The per-job work of `process_vtt` (main.py) — parse, translate with
    `translate_text_v3`, check the count, derive the output name, write — and
    the enumeration of `tasks` and the batch of `multi_process_batch_translate_vtt_folder`,
    run one job after the other. */
module Pipeline {
  import opened Text
  import opened Coverage
  import opened Cues
  import opened Translator
  import opened Paths
  import opened Rebuild

  /** One job: the English caption file and a language to translate it into. */
  datatype Task = Task(file: string, lang: string)

  /** How one `process_vtt` call ends. */
  datatype JobOutcome =
    | Written(path: string, content: string)  // the translated file
    | Mismatch(message: string)               // appended to the error list, no file
    | Crashed(exception: Exception)           // escaped from the translator

  /** The error message of the count check, with the stray `f` the source
      puts before each number. */
  function MismatchMessage(file: string, lang: string, got: nat, want: nat): (r: string)
    ensures var head := "File: " + file + ", Lang: " + lang + " - Segment count mismatch f";
      var g, w := |NatToString(got)|, |NatToString(want)|;
      && |r| == |head| + g + 2 + w
      && StartsWith(r, head)
      && IsDigits(r[|head|..|head| + g]) && DigitsValue(r[|head|..|head| + g]) == got
      && r[|head| + g..|head| + g + 2] == " f"
      && IsDigits(r[|r| - w..]) && DigitsValue(r[|r| - w..]) == want
  {
    var head := "File: " + file + ", Lang: " + lang + " - Segment count mismatch f";
    var g, w := NatToString(got), NatToString(want);
    CountsAfter(head, g, w);
    head + g + " f" + w
  }

  /** Where the pieces of a mismatch message sit. */
  lemma {:induction false} CountsAfter(head: string, g: string, w: string)
    ensures var r := head + g + " f" + w;
      && |r| == |head| + |g| + 2 + |w|
      && r[..|head|] == head
      && r[|head|..|head| + |g|] == g
      && r[|head| + |g|..|head| + |g| + 2] == " f"
      && r[|r| - |w|..] == w
  {
    var r := head + g + " f" + w;
    assert r[|head|..|head| + |g|] == g;
    assert r[|head| + |g|..|head| + |g| + 2] == " f";
  }

  /** What one job produces from the source file's content and the
      translation service's answers. */
  function Process(task: Task, content: string, provider: Provider): JobOutcome {
    var captions := Parse(SplitLines(content));
    match TranslateV3(task.lang, provider, captions.segments)
    case Raised(e, _) => Crashed(e)
    case Returned(translated, _) =>
      if |translated| != |captions.timestamps| then
        Mismatch(MismatchMessage(task.file, task.lang, |translated|, |captions.timestamps|))
      else
        Written(OutputPath(task.file, task.lang), CaptionFile(captions.timestamps, translated))
  }

  /** `process_vtt`, step by step. */
  method ProcessVtt(task: Task, content: string, provider: Provider) returns (outcome: JobOutcome)
    ensures outcome == Process(task, content, provider)
  {
    var lines := SplitLines(content);
    var timestamps, segments := ParseCaptions(lines);
    var run := TranslateTextV3(task.lang, provider, segments);
    if run.Raised? {
      return Crashed(run.exception);
    }
    var translated := run.output;
    if |translated| != |timestamps| {
      return Mismatch(MismatchMessage(task.file, task.lang, |translated|, |timestamps|));
    }
    var path := OutputPath(task.file, task.lang);
    var written := WriteCaptions(timestamps, translated);
    outcome := Written(path, written);
  }

  // ----- what a written file is -----

  lemma {:induction false} OutputNameMentions(file: string, lang: string)
    ensures Mentions(OutputName(file, lang), lang)
  {
    var stem := DropLanguageTag(DropExtension(Basename(file)));
    var name := OutputName(file, lang);
    var tag := "-" + Upper(lang);
    assert name == stem + tag + ".vtt";
    assert name[|stem|..|stem| + |tag|] == tag;
    assert MatchesAt(name, tag, |stem|);
  }

  /** Every timestamp the reader records can be written back as a cue. */
  lemma {:induction false} ParsedTimings(content: string)
    ensures forall i :: 0 <= i < |Parse(SplitLines(content)).timestamps| ==>
      IsCueTiming(Parse(SplitLines(content)).timestamps[i])
  {
    var lines := SplitLines(content);
    ParseTimestamps(lines);
    TimingLinesShape(lines);
    var ts := Parse(lines).timestamps;
    assert forall i :: 0 <= i < |ts| ==> ts[i] in TimingLines(lines);
  }

  /** A written file lies beside its source, under a name that ends with the
      upper-cased language and that the coverage scan counts as that
      language; and reading it back yields the source's timestamps with the
      translations, when every translation is one line the reader keeps. */
  lemma {:induction false} WrittenFile(task: Task, content: string, provider: Provider)
    requires Process(task, content, provider).Written?
    requires '/' !in task.lang
    ensures var path := Process(task, content, provider).path;
      && Dirname(path) == Dirname(task.file)
      && Basename(path) == OutputName(task.file, task.lang)
      && EndsWith(path, "-" + Upper(task.lang) + ".vtt")
      && Mentions(Basename(path), task.lang)
    ensures var captions := Parse(SplitLines(content));
      var run := TranslateV3(task.lang, provider, captions.segments);
      && run.Returned?
      && |run.output| == |captions.timestamps|
      && ((forall i :: 0 <= i < |run.output| ==> IsCueText(run.output[i])) ==>
          Parse(SplitLines(Process(task, content, provider).content)) == Captions(captions.timestamps, run.output))
  {
    var captions := Parse(SplitLines(content));
    var run := TranslateV3(task.lang, provider, captions.segments);
    assert run.Returned? && |run.output| == |captions.timestamps|;
    assert Process(task, content, provider)
      == Written(OutputPath(task.file, task.lang), CaptionFile(captions.timestamps, run.output));
    WrittenPath(task);
    if forall i :: 0 <= i < |run.output| ==> IsCueText(run.output[i]) {
      ParsedTimings(content);
      CaptionFileRoundTrip(captions.timestamps, run.output);
    }
  }

  /** Where the translated file goes, and how its name reads. */
  lemma {:induction false} WrittenPath(task: Task)
    requires '/' !in task.lang
    ensures var path := OutputPath(task.file, task.lang);
      && Dirname(path) == Dirname(task.file)
      && Basename(path) == OutputName(task.file, task.lang)
      && EndsWith(path, "-" + Upper(task.lang) + ".vtt")
      && Mentions(Basename(path), task.lang)
  {
    var path := OutputPath(task.file, task.lang);
    EndsWithBasename(path, "-" + Upper(task.lang) + ".vtt");
    OutputNameMentions(task.file, task.lang);
  }

  lemma {:induction false} EndsWithBasename(p: string, suf: string)
    requires EndsWith(Basename(p), suf)
    ensures EndsWith(p, suf)
  {
    var b := Basename(p);
    assert p[|p| - |suf|..] == b[|b| - |suf|..];
  }

  // ----- when a file is written -----

  /** The count check compares with the timestamps, not with the segments:
      for a language without a glossary, a file in which some timing line has
      no text after it (and no text comes before the first one) never gets a
      translation, whatever the service answers. */
  lemma {:induction false} SilentCueBlocksFile(task: Task, content: string, provider: Provider)
    requires !HasGlossary(task.lang)
    requires var toks := Tokens(SplitLines(content), true); Leading(toks) == 0 && Barren(toks) > 0
    ensures !Process(task, content, provider).Written?
  {
    var lines := SplitLines(content);
    SegmentCount(lines);
    var captions := Parse(lines);
    StartDoubling();
    V3Run(provider, false, captions.segments, [], Start);
  }

  /** For a language without a glossary, a file in which every timing line
      has text and no text comes before the first one is written when every
      request is answered: cue i carries the translation of segment i, or the
      blank sentinel when it came back empty. */
  lemma {:induction false} CompleteFileWritten(task: Task, content: string, provider: Provider)
    requires !HasGlossary(task.lang)
    requires var toks := Tokens(SplitLines(content), true); Leading(toks) == 0 && Barren(toks) == 0
    requires var segments := Parse(SplitLines(content)).segments;
      forall i :: 0 <= i < |segments| ==> provider(i, segments[i]).Ok?
    ensures var captions := Parse(SplitLines(content));
      Process(task, content, provider) == Written(OutputPath(task.file, task.lang),
        CaptionFile(captions.timestamps, V2Expected(provider, captions.segments, 0)))
  {
    var lines := SplitLines(content);
    var captions := Parse(lines);
    SegmentCount(lines);
    assert |captions.segments| == |captions.timestamps|;
    PlainAllAnswered(task.lang, provider, captions.segments);
    var translated := V2Expected(provider, captions.segments, 0);
    V2ExpectedLength(provider, captions.segments, 0);
    assert TranslateV3(task.lang, provider, captions.segments) == Returned(translated, Start.(calls := |captions.segments|));
    assert |translated| == |captions.timestamps|;
  }

  /** For a language with a glossary, a failed request adds the `[ERROR]`
      entry besides the sentinel, so a file with one segment per timing line
      gets no translation as soon as one request fails. */
  lemma {:induction false} GlossaryFailureBlocksFile(task: Task, content: string, provider: Provider)
    requires HasGlossary(task.lang)
    requires var toks := Tokens(SplitLines(content), true); Leading(toks) == 0 && Barren(toks) == 0
    requires var segments := Parse(SplitLines(content)).segments;
      && (forall i :: 0 <= i < |segments| ==> provider(i, segments[i]) != RateLimit)
      && (exists i :: 0 <= i < |segments| && provider(i, segments[i]) == Other)
    ensures Process(task, content, provider).Mismatch?
  {
    var lines := SplitLines(content);
    var captions := Parse(lines);
    SegmentCount(lines);
    assert |captions.segments| == |captions.timestamps|;
    GlossaryFailureLonger(task.lang, provider, captions.segments);
    var run := TranslateV3(task.lang, provider, captions.segments);
    assert run.Returned? && |run.output| != |captions.timestamps|;
  }

  lemma {:induction false} StartDoubling()
    ensures Doubling(Start)
  {
    assert Start.sleeps == [];
  }

  // ----- task enumeration -----

  /** One step of `os.walk`: a directory, its subdirectories and its files. */
  datatype Folder = Folder(root: string, dirs: seq<string>, files: seq<string>)

  datatype Option<T> = None | Some(value: T)

  /** The `tasks` list, or the `ValueError` of a coverage scan, which stops the
      enumeration before any job runs. */
  datatype Plan = Planned(tasks: seq<Task>) | ScanFailed(lang: string)

  const EnglishSuffix: string := "-EN.vtt"

  /** Index of the first file ending with "-EN.vtt", or `|files|`. */
  function EnglishIndex(files: seq<string>): (k: nat)
    ensures k <= |files|
    ensures k < |files| ==> EndsWith(files[k], EnglishSuffix)
    ensures forall i :: 0 <= i < k ==> !EndsWith(files[i], EnglishSuffix)
  {
    if files == [] then 0
    else if EndsWith(files[0], EnglishSuffix) then 0
    else 1 + EnglishIndex(files[1..])
  }

  /** `os.listdir(root)`: the subdirectories and the files. */
  function Listing(f: Folder): (r: seq<string>)
    ensures multiset(r) == multiset(f.dirs) + multiset(f.files)
  {
    f.dirs + f.files
  }

  function JobsFor(file: string, langs: seq<string>): seq<Task>
    ensures |JobsFor(file, langs)| == |langs|
  {
    seq(|langs|, i requires 0 <= i < |langs| => Task(file, langs[i]))
  }

  /** The enumeration from a given folder of the walk on. */
  function PlanFrom(walk: seq<Folder>, langs: seq<string>, tasks: seq<Task>): Plan
    decreases |walk|
  {
    if walk == [] then Planned(tasks)
    else
      var f := walk[0];
      var k := EnglishIndex(f.files);
      if k == |f.files| then PlanFrom(walk[1..], langs, tasks)
      else match MissingLanguages(Listing(f), langs)
        case ValueError(l) => ScanFailed(l)
        case Found(missing) => PlanFrom(walk[1..], langs, tasks + JobsFor(Join(f.root, f.files[k]), missing))
  }

  function PlanTasks(walk: seq<Folder>, langs: seq<string>): Plan {
    PlanFrom(walk, langs, [])
  }

  /** `PlanFrom` on `walk[i..]`, unfolded once. */
  lemma {:induction false} PlanStep(walk: seq<Folder>, langs: seq<string>, tasks: seq<Task>, i: nat)
    requires i < |walk|
    ensures var f := walk[i]; var k := EnglishIndex(f.files);
      PlanFrom(walk[i..], langs, tasks) ==
        if k == |f.files| then PlanFrom(walk[i + 1..], langs, tasks)
        else match MissingLanguages(Listing(f), langs)
          case ValueError(l) => ScanFailed(l)
          case Found(missing) => PlanFrom(walk[i + 1..], langs, tasks + JobsFor(Join(f.root, f.files[k]), missing))
  {
    assert walk[i..][0] == walk[i] && walk[i..][1..] == walk[i + 1..];
  }

  /** Appending the jobs of one file one language at a time. */
  lemma {:induction false} JobsForSnoc(file: string, missing: seq<string>, n: nat)
    requires n < |missing|
    ensures JobsFor(file, missing[..n + 1]) == JobsFor(file, missing[..n]) + [Task(file, missing[n])]
  {
  }

  /** The loop of `multi_process_batch_translate_vtt_folder` that fills
      `tasks`. */
  method BuildTasks(walk: seq<Folder>, langs: seq<string>) returns (plan: Plan)
    ensures plan == PlanTasks(walk, langs)
  {
    var tasks: seq<Task> := [];
    var i := 0;
    while i < |walk|
      invariant 0 <= i <= |walk|
      invariant PlanFrom(walk[i..], langs, tasks) == PlanTasks(walk, langs)
    {
      var f := walk[i];
      PlanStep(walk, langs, tasks, i);
      var english: Option<string> := None;
      var j := 0;
      while j < |f.files|
        invariant 0 <= j <= |f.files|
        invariant english == None
        invariant forall n :: 0 <= n < j ==> !EndsWith(f.files[n], EnglishSuffix)
      {
        if EndsWith(f.files[j], EnglishSuffix) {
          english := Some(Join(f.root, f.files[j]));
          break;
        }
        j := j + 1;
      }
      if english.Some? {
        assert EnglishIndex(f.files) == j && english.value == Join(f.root, f.files[j]);
        var scan := GetMissingLanguages(Listing(f), langs);
        if scan.ValueError? {
          return ScanFailed(scan.lang);
        }
        var missing := scan.missing;
        ghost var before := tasks;
        var n := 0;
        while n < |missing|
          invariant 0 <= n <= |missing|
          invariant tasks == before + JobsFor(english.value, missing[..n])
        {
          JobsForSnoc(english.value, missing, n);
          tasks := tasks + [Task(english.value, missing[n])];
          n := n + 1;
        }
        assert missing[..n] == missing;
      }
      i := i + 1;
    }
    plan := Planned(tasks);
  }

  /** Every task translates an English caption file into one of the expected
      languages. */
  lemma {:induction false} PlanSound(walk: seq<Folder>, langs: seq<string>, tasks: seq<Task>)
    requires forall t :: t in tasks ==> EndsWith(t.file, EnglishSuffix) && t.lang in langs
    ensures PlanFrom(walk, langs, tasks).Planned? ==>
      forall t :: t in PlanFrom(walk, langs, tasks).tasks ==> EndsWith(t.file, EnglishSuffix) && t.lang in langs
    decreases |walk|
  {
    if walk != [] {
      var f := walk[0];
      var k := EnglishIndex(f.files);
      if k == |f.files| {
        PlanSound(walk[1..], langs, tasks);
      } else {
        var scan := MissingLanguages(Listing(f), langs);
        if scan.Found? {
          var file := Join(f.root, f.files[k]);
          JoinEndsWith(f.root, f.files[k]);
          MissingLanguagesSpec(Listing(f), langs);
          var jobs := JobsFor(file, scan.missing);
          forall t | t in jobs
            ensures EndsWith(t.file, EnglishSuffix) && t.lang in langs
          {
            var n :| 0 <= n < |jobs| && jobs[n] == t;
            assert t.lang in multiset(scan.missing);
          }
          PlanSound(walk[1..], langs, tasks + jobs);
        }
      }
    }
  }

  lemma {:induction false} JoinEndsWith(root: string, file: string)
    requires EndsWith(file, EnglishSuffix)
    ensures EndsWith(Join(root, file), EnglishSuffix)
  {
    if !StartsWith(file, "/") {
      if root == [] || root[|root| - 1] == '/' {
        EndsWithAppend(root, file, EnglishSuffix);
      } else {
        assert Join(root, file) == (root + "/") + file;
        EndsWithAppend(root + "/", file, EnglishSuffix);
      }
    }
  }

  /** The enumeration keeps what it has and adds, for a folder with an
      English file whose scan succeeds, one task per missing language. */
  lemma {:induction false} PlanKeeps(walk: seq<Folder>, langs: seq<string>, tasks: seq<Task>, i: nat)
    requires PlanFrom(walk, langs, tasks).Planned?
    requires i < |walk| && EnglishIndex(walk[i].files) < |walk[i].files|
    ensures MissingLanguages(Listing(walk[i]), langs).Found?
    ensures forall x :: x in MissingLanguages(Listing(walk[i]), langs).missing ==>
      Task(Join(walk[i].root, walk[i].files[EnglishIndex(walk[i].files)]), x) in PlanFrom(walk, langs, tasks).tasks
    decreases |walk|
  {
    var f := walk[0];
    var k := EnglishIndex(f.files);
    if k == |f.files| {
      PlanKeeps(walk[1..], langs, tasks, i - 1);
    } else {
      var missing := MissingLanguages(Listing(f), langs).missing;
      var acc := tasks + JobsFor(Join(f.root, f.files[k]), missing);
      PlanGrows(walk[1..], langs, acc);
      if i == 0 {
        forall x | x in missing
          ensures Task(Join(f.root, f.files[k]), x) in PlanFrom(walk, langs, tasks).tasks
        {
          var n :| 0 <= n < |missing| && missing[n] == x;
          assert acc[|tasks| + n] == Task(Join(f.root, f.files[k]), x);
        }
      } else {
        PlanKeeps(walk[1..], langs, acc, i - 1);
      }
    }
  }

  lemma {:induction false} PlanGrows(walk: seq<Folder>, langs: seq<string>, tasks: seq<Task>)
    requires PlanFrom(walk, langs, tasks).Planned?
    ensures forall t :: t in tasks ==> t in PlanFrom(walk, langs, tasks).tasks
    decreases |walk|
  {
    if walk != [] {
      var f := walk[0];
      var k := EnglishIndex(f.files);
      if k == |f.files| {
        PlanGrows(walk[1..], langs, tasks);
      } else {
        var missing := MissingLanguages(Listing(f), langs).missing;
        PlanGrows(walk[1..], langs, tasks + JobsFor(Join(f.root, f.files[k]), missing));
      }
    }
  }

  /** Completeness: in a folder with an English file, an expected language
      that no entry of the listing mentions gets a task for that file. */
  lemma {:induction false} UnmentionedLanguagePlanned(walk: seq<Folder>, langs: seq<string>, i: nat, x: string)
    requires PlanTasks(walk, langs).Planned?
    requires i < |walk| && EnglishIndex(walk[i].files) < |walk[i].files|
    requires x in langs
    requires forall e :: e in Listing(walk[i]) ==> !Mentions(e, x)
    ensures Task(Join(walk[i].root, walk[i].files[EnglishIndex(walk[i].files)]), x) in PlanTasks(walk, langs).tasks
  {
    var listing := Listing(walk[i]);
    PlanKeeps(walk, langs, [], i);
    var missing := MissingLanguages(listing, langs).missing;
    MissingLanguagesSpec(listing, langs);
    if multiset(missing)[x] < multiset(langs)[x] {
      RemovedOnlyIfMentioned(listing, langs, x);
      assert false;
    }
    assert x in multiset(langs);
    assert x in multiset(missing);
  }

  // ----- the batch -----

  /** What the batch leaves behind: the job count, the error list, the files
      written and the exceptions raised by jobs. */
  datatype Report = Report(total: nat, errors: seq<string>, written: seq<(string, string)>, crashes: seq<Exception>)

  /** `total_docs - len(error_list)`. */
  function TranslatedDocs(r: Report): int {
    r.total - |r.errors|
  }

  function Record(r: Report, outcome: JobOutcome): Report {
    match outcome
    case Written(path, content) => r.(written := r.written + [(path, content)])
    case Mismatch(message) => r.(errors := r.errors + [message])
    case Crashed(e) => r.(crashes := r.crashes + [e])
  }

  /** The jobs from a given one on, each reading its source through `read`
      and talking to the service through its own `providers(task)`. */
  function BatchFrom(tasks: seq<Task>, read: string -> string, providers: Task -> Provider, r: Report): Report
    decreases |tasks|
  {
    if tasks == [] then r
    else BatchFrom(tasks[1..], read, providers, Record(r, Process(tasks[0], read(tasks[0].file), providers(tasks[0]))))
  }

  function Batch(tasks: seq<Task>, read: string -> string, providers: Task -> Provider): Report {
    BatchFrom(tasks, read, providers, Report(|tasks|, [], [], []))
  }

  /** The jobs, one after the other. */
  method RunBatch(tasks: seq<Task>, read: string -> string, providers: Task -> Provider) returns (r: Report)
    ensures r == Batch(tasks, read, providers)
  {
    r := Report(|tasks|, [], [], []);
    var i := 0;
    while i < |tasks|
      invariant 0 <= i <= |tasks|
      invariant BatchFrom(tasks[i..], read, providers, r) == Batch(tasks, read, providers)
    {
      assert tasks[i..][0] == tasks[i] && tasks[i..][1..] == tasks[i + 1..];
      var outcome := ProcessVtt(tasks[i], read(tasks[i].file), providers(tasks[i]));
      r := Record(r, outcome);
      i := i + 1;
    }
  }

  lemma {:induction false} BatchFromCounts(tasks: seq<Task>, read: string -> string, providers: Task -> Provider, r: Report)
    ensures var r' := BatchFrom(tasks, read, providers, r);
      && r'.total == r.total
      && |r'.written| + |r'.errors| + |r'.crashes| == |r.written| + |r.errors| + |r.crashes| + |tasks|
    decreases |tasks|
  {
    if tasks != [] {
      var o := Process(tasks[0], read(tasks[0].file), providers(tasks[0]));
      BatchFromCounts(tasks[1..], read, providers, Record(r, o));
    }
  }

  /** Every job ends in exactly one of the three ways, so the reported number
      of translated documents counts the written files plus the jobs that
      raised; when no job raised, it is the number of files written. */
  lemma {:induction false} BatchCounts(tasks: seq<Task>, read: string -> string, providers: Task -> Provider)
    ensures var r := Batch(tasks, read, providers);
      && r.total == |tasks|
      && |r.written| + |r.errors| + |r.crashes| == |tasks|
      && TranslatedDocs(r) == |r.written| + |r.crashes|
      && (r.crashes == [] ==> TranslatedDocs(r) == |r.written|)
  {
    BatchFromCounts(tasks, read, providers, Report(|tasks|, [], [], []));
  }
}
