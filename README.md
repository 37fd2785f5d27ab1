# vtt-translator caption pipeline, modelled in Dafny

This project models the core of `main.py` in the vtt-translator repository. That script looks for English WebVTT caption files in a folder tree and works out which expected languages have no translation yet. It then translates every missing language with a cloud translation service and writes each translated caption file next to its source.

The model has seven modules, one per step of the script.

| file | module | what it models |
|---|---|---|
| `text.dfy` | `Text` | The Python string operations the script relies on, on ASCII text: `strip`, `isdigit`, `upper`, `in`, `endswith`, `' '.join`, `str(n)`, `readlines` and line-by-line writing. |
| `coverage.dfy` | `Coverage` | `get_missing_languages`: the nested loops over a directory listing that remove, from a copy of the expected languages, the first language each entry mentions. |
| `cues.dfy` | `Cues` | The line loop of `process_vtt`, which collects the timestamps and the text segments (the text lines between two timing lines, joined by spaces). |
| `translator.dfy` | `Translator` | `translate_text_v2` and `translate_text_v3`: the per-segment retry loop with exponential backoff, and the sentinel entries. |
| `paths.dfy` | `Paths` | The output-name derivation: `basename`, `splitext`, the language-tag substitution, `dirname` and `join`. |
| `rebuild.dfy` | `Rebuild` | The writer at the end of `process_vtt`, and reading a written file back. |
| `pipeline.dfy` | `Pipeline` | `process_vtt` as a whole (parse, translate, count check, name, write), the `tasks` list that `multi_process_batch_translate_vtt_folder` builds, and the batch of jobs. |

The imperative parts keep their loops as Dafny methods: the scan, the parser loop, the retry loop, the two translators, the writer, the loop that builds `tasks`, and the batch. Each method is proved equal to a recursive specification function. The properties are proved as lemmas about those functions.

The translation service is an oracle `Provider = (nat, string) -> Outcome`. It maps the number of the request within the run (retries included) and the segment to one of three outcomes:
- `Ok(text)`;
- `RateLimit`, which stands for `ResourceExhausted`;
- `Other`, for any other error.

`time.sleep` is modelled as a list of the delays asked for.

Some behaviour of the source is modelled as written, and lemmas exhibit it:
- Two directory entries that first-match the same language make `get_missing_languages` raise `ValueError` (`Coverage.DuplicateFirstMatchRaises`).
- `retry_delay` keeps doubling from one segment to the next (`Translator.DelayNotReset`).
- For a target without a glossary, a non-rate-limit error escapes v3 as `NameError`, because the error handler prints the unbound `glossary_config` (`Translator.V3PlainWithoutRateLimit`).
- The count check compares the translations against the timestamps, not the segments, so a file is written only when the two counts happen to agree.
  - Without a glossary, a file with no text before its first timing line and some timing line with no text after it is never written (`Pipeline.SilentCueBlocksFile`).
  - With a glossary, a file whose timing lines all have text, with none before the first, is rejected as soon as one request fails (`Pipeline.GlossaryFailureBlocksFile`).
  - The counts can also agree by accident. Text before the first timing line makes up for a timing line without text (`Cues.SegmentCount`), and with a glossary each failed request adds an extra `[ERROR]` entry. Such a file is written, with its texts out of step with its cues.

## Model

| member | source | states |
|---|---|---|
| Text.TrimStart | main.py:166 | The left-stripped string is a suffix of its input and does not start with whitespace. |
| Text.TrimStartRemovesSpace | main.py:166 | Everything `lstrip` removes is whitespace. |
| Text.TrimEnd | main.py:166 | The right-stripped string is a prefix of its input and does not end with whitespace. |
| Text.TrimEndRemovesSpace | main.py:166 | Everything `rstrip` removes is whitespace. |
| Text.Strip | main.py:166 | A stripped line is trimmed: empty, or neither end is whitespace. |
| Text.StripSlice | main.py:166 | A stripped line is a contiguous slice of the line, and everything outside the slice is whitespace. |
| Text.StripNoBreak | main.py:178 | Stripping a line with no line break gives a string with none. |
| Text.StripTrimmed | main.py:180 | Stripping an already trimmed string changes nothing. |
| Text.StripKeepsPrefix | main.py:174-178 | A prefix whose two ends are not whitespace survives stripping. |
| Text.Upper | main.py:21 | `upper()` keeps the length and maps each character through ASCII upper-casing. |
| Text.EndsWithAppend | main.py:250 | A suffix of `b` is a suffix of `a + b`. |
| Text.JoinSpace | main.py:176 | `' '.join` of one or more parts starts with the first part and ends with the last. |
| Text.JoinSpaceAppend | main.py:176 | Joining two non-empty runs of parts one after the other gives their two joins with one space between. |
| Text.JoinSpaceTrimmed | main.py:176 | Joining one or more non-empty trimmed lines with single spaces gives a non-empty trimmed string that starts with the first line's first character and ends with the last line's last character. |
| Text.NatToString | main.py:213 | `str(index)` is a non-empty string of digits, one digit below 10, and has no leading zero otherwise. Read back as a decimal numeral, it denotes `index`. |
| Text.IndexOf | main.py:158 | The position found holds the character, and no earlier position does. |
| Text.SplitLines | main.py:158 | No line that `readlines` returns (terminator removed) holds a line break. |
| Text.RenderSplit | main.py:158 | Writing back the lines `readlines` returns, each followed by a line break, gives the content again, with a line break added at the end when the content lacked a final one. So no character is lost or moved. |
| Text.RenderAppend | main.py:211-215 | Writing two runs of lines one after the other writes their concatenation. |
| Text.SplitRender | main.py:158 | Reading back lines written one per line gives the same lines, when none holds a line break. |
| Coverage.FirstMatch | main.py:20-23 | The inner loop picks a position within the expected list, or none. |
| Coverage.FirstMatchSpec | main.py:20-23 | The picked language is mentioned by the entry (`-` + upper-cased code), and no earlier expected language is. |
| Coverage.RemoveFirst | main.py:22 | `list.remove` takes away exactly one occurrence of the value. |
| Coverage.GetMissingLanguages | main.py:14-24 | The nested loops with `remove` and `break` return exactly what the scan specification `MissingLanguages` returns, including the `ValueError` case. |
| Coverage.ScanStep | main.py:19-23 | One entry of the outer loop either leaves the copy alone, removes the first-matched language, or raises `ValueError` when that language is already gone. |
| Coverage.MatchedInLangs | main.py:20-21 | Every language an entry first-matches is an expected language. |
| Coverage.MatchedAppend | main.py:19 | The first-matched languages of two listings one after the other are those of the first followed by those of the second. |
| Coverage.DropFirstsRemove | main.py:22 | Removing one occurrence and then the first occurrences of a multiset equals removing the first occurrences of the multiset plus that value. |
| Coverage.DropFirstsMultiset | main.py:18-24 | Dropping the first occurrences of a sub-multiset leaves exactly the difference of the multisets. |
| Coverage.ScanSpec | main.py:18-24 | From any state of the copy, the scan succeeds if and only if the first-matched languages, counted with multiplicity, fit inside the copy. It then returns the copy in its own order with those first occurrences dropped. |
| Coverage.MatchedCons | main.py:19-23 | The first-matched languages of a listing are the first entry's (if any) followed by the rest's. |
| Coverage.DropFirstsEmpty | main.py:18 | Dropping nothing keeps the list. |
| Coverage.MissingLanguagesSpec | main.py:14-24 | `get_missing_languages` succeeds if and only if no language is first-matched more often than it is expected. It then returns the expected list in its original order, minus the first occurrences of the first-matched languages, so that its multiset is the expected one minus the matched one. |
| Coverage.RemovedOnlyIfMentioned | main.py:19-23 | A language loses an occurrence only if some entry of the listing mentions it. |
| Coverage.MatchedWitness | main.py:19-23 | A first-matched language is mentioned by some entry. |
| Coverage.DuplicateFirstMatchRaises | main.py:19-22 | With distinct expected languages, two entries that first-match the same language make the scan raise `ValueError` instead of returning. |
| Coverage.TwoMatches | main.py:19-23 | Two entries that first-match the same language make its matched count at least two. |
| Coverage.MatchedCount | main.py:19-23 | An entry that first-matches a language adds one to that language's matched count. |
| Coverage.MatchedSingle | main.py:20-23 | A single entry that matches contributes exactly its first-matched language. |
| Coverage.MatchedSplit | main.py:19 | The matched languages of a listing split around any entry. |
| Coverage.DistinctCount | main.py:18 | In a list without duplicates every value occurs at most once. |
| Pipeline.Listing | main.py:17 | The listing `os.listdir` returns holds every sub-directory name and every file name of the folder, each once. |
| Coverage.ListingOrderIrrelevant | main.py:17 | Swapping the sub-directory names and the file names of a listing changes neither whether the scan raises nor what it returns. |
| Coverage.DashAnchored | main.py:21 | A pattern that starts with `-` occurs only where the entry has a `-`. |
| Coverage.EnglishMentionsNeither | main.py:21 | `lesson-EN.vtt` mentions neither French nor Italian. |
| Coverage.FrenchMentionsFrench | main.py:21 | `lesson-FR.vtt` first-matches French. |
| Coverage.ExampleFrenchPresent | main.py:14-24 | A folder holding `lesson-EN.vtt` and `lesson-FR.vtt`, with French and Italian expected, is missing Italian only. |
| Cues.TokensCons | main.py:165 | What the lines contribute is what the first line contributes, followed by what the others contribute with the updated header flag. |
| Cues.GroupTiming | main.py:174-178 | A timing line flushes the buffer into a segment, empties it and records the timestamp. |
| Cues.GroupWords | main.py:179-180 | A text line is added to the buffer. |
| Cues.TimingLinePrefix | main.py:174 | `re.match` anchors the timing pattern at the start of the raw line only: a line is a timing line exactly when it has at least 29 characters and its first 29 form `HH:MM:SS.mmm --> HH:MM:SS.mmm`. Whatever follows is ignored. |
| Cues.ParseCaptions | main.py:160-183 | The line loop, with its header flag, buffer and flush at the end, returns exactly the timestamps and segments of the specification `Parse`. |
| Cues.ParseStep | main.py:165-180 | One iteration of the line loop, in the source's branch order: header, cue number, timing line, text, blank. |
| Cues.GroupLine | main.py:166-180 | Grouping what one line contributes follows the same four branches. |
| Cues.TimingLineStripped | main.py:166-178 | A line that begins with a timing range is neither the header nor a cue number once stripped, and still begins with a timing range. |
| Cues.TimingsAppend | main.py:178 | The timings of two token runs concatenate. |
| Cues.LineTimings | main.py:174-178 | A line contributes a timestamp, its stripped form, exactly when it begins with a timing range. |
| Cues.TokensTimings | main.py:165-178 | The timings among the tokens are the stripped timing lines, in file order. |
| Cues.GroupTimings | main.py:174-178 | The buffering appends exactly the timings to the timestamps. |
| Cues.ParseTimestamps | main.py:160-183 | The timestamps are, in file order, the stripped form of every line that begins with a timing range. The header, cue numbers, blank lines and text add none. |
| Cues.TimingLinesShape | main.py:174-178 | Every timestamp is trimmed and begins with a timing range, and it has no line break when the lines have none. |
| Cues.TimingHead | main.py:178 | Stripping a timing line keeps the timing range and adds no line break. |
| Cues.TextsWordLikeAppend | main.py:180 | Runs of tokens whose texts are all non-empty and trimmed concatenate into such a run. |
| Cues.LineWords | main.py:179-180 | A line contributes text only in its stripped, non-empty form. |
| Cues.TokensWords | main.py:165-180 | Every text token of a file is non-empty and trimmed. |
| Cues.GroupSegments | main.py:175-183 | Buffering non-empty trimmed texts yields only non-empty trimmed segments. |
| Cues.ParseSegmentsNonEmpty | main.py:160-183 | No segment is empty, and none starts or ends with whitespace. |
| Cues.Chunks | main.py:165-180 | The text lines grouped by the timing lines that separate them: one group before the first timing line, then one group after each timing line. |
| Cues.ChunksTexts | main.py:179-180 | The groups, one after the other, hold exactly the text lines of the file, in order. |
| Cues.GroupChunks | main.py:174-183 | From any state of the buffer, the buffering appends the join of the buffer with the first group, then the join of every later non-empty group. |
| Cues.ParseSegments | main.py:160-183 | Segment k is the single-space join of the k-th non-empty group of consecutive text lines, the groups being separated by timing lines. |
| Cues.JoinedText | main.py:176 | Joining the joins of the groups with spaces joins all their lines with spaces. |
| Cues.ParseText | main.py:160-183 | The segments joined with spaces read exactly like all the text lines of the file joined with spaces: no text is lost, added or reordered. |
| Cues.GroupCount | main.py:175-183 | The number of segments is the number of runs of consecutive text lines. |
| Cues.TokenBalance | main.py:165-183 | Text runs plus timing lines with no text after them equal timing lines plus one when text comes first. |
| Cues.SegmentCount | main.py:160-183 | segments + timing lines without text = timestamps + (1 if text precedes the first timing line). So there are at most timestamps + 1 segments, and exactly one per timestamp when no text comes first and every timing line has text. |
| Translator.Request | main.py:46-59 | The `for attempt in range(max_retries)` loop ends as the specification `RetryFrom` says, with the same requests and sleeps. |
| Translator.TranslateTextV2 | main.py:31-68 | The v2 segment loop returns or raises exactly as the specification `TranslateV2` says. |
| Translator.TranslateTextV3 | main.py:75-147 | The v3 segment loop, with its glossary flag, returns or raises exactly as the specification `TranslateV3` says. |
| Translator.V3Step | main.py:99-145 | One segment of v3: `ResourceExhausted`, the translation or blank sentinel, `[ERROR]` then the blank sentinel with a glossary, `NameError` without one. |
| Translator.RetryBounds | main.py:46-59 | A segment costs between 1 and 10 requests, with one sleep before every request but the first, and earlier sleeps are kept. An exhausted segment used all ten attempts, and its last sleep was the long one. |
| Translator.RetryRateLimited | main.py:52-57 | A rate-limited attempt that is not the last sleeps, then tries again. |
| Translator.RetryGrowth | main.py:46-59 | The call and sleep counts of one segment, and the sleeps kept. |
| Translator.RetryExhausted | main.py:53-59 | Running out of attempts means ten requests, with the 120-second sleep last. |
| Translator.RetryLast | main.py:58-59 | The last attempt re-raises without sleeping. |
| Translator.Pow2Gap | main.py:55 | No doubled delay lies between 64 and 128, so none equals the long 120-second sleep. |
| Translator.RetryDoubling | main.py:41-57 | The delays other than the long one stay 1, 2, 4, … in order, and `retry_delay` is the next power of two. |
| Translator.DoublingSleep | main.py:54-55 | Sleeping `retry_delay` and doubling it extends that schedule. |
| Translator.DoublingLongSleep | main.py:57 | The 120-second sleep leaves that schedule unchanged. |
| Translator.RateLimitedThen | main.py:46-59 | A segment that is rate-limited k times and then answered is answered after k + 1 requests with the scheduled sleeps, or exhausted when k ≥ 10. |
| Translator.SleptSchedule | main.py:53-57 | Each rate-limited attempt moves the schedule 1, 2, …, 128, 120 on by one. |
| Translator.BackoffScenario | main.py:41-66 | For one segment with k rate limits before an answer: if k < 10, the answer after sleeping 1, 2, 4, … (120 as the ninth sleep); if k ≥ 10, `ResourceExhausted` after ten requests. |
| Translator.V2Run | main.py:39-68 | v2 keeps the doubling schedule and makes at most 10 requests per segment. When it returns, it has appended one non-empty entry per segment, and it slept once per request beyond a segment's first. |
| Translator.V2Step | main.py:43-66 | One segment of v2: `ResourceExhausted`, or one entry appended. |
| Translator.V2Budget | main.py:41-59 | The request and sleep counts over a whole v2 run. |
| Translator.V2Output | main.py:60-66 | When v2 returns, it kept what was there and appended one non-empty entry per segment. |
| Translator.TranslateV2Aligned | main.py:31-68 | From the initial state, v2 sleeps 1, 2, 4, … with no reset between segments, makes at most ten requests per segment, and returns one non-empty entry per segment. |
| Translator.UnlimitedFromAll | main.py:49-52 | When request c + i, the first one for segment i, is never rate-limited, the run is free of rate limits in the sense the lemmas below require. |
| Translator.FirstAttempt | main.py:48-62 | A segment that is not rate-limited is settled by its first request, without sleeping. |
| Translator.V2WithoutRateLimit | main.py:43-66 | Without rate limiting, v2 makes one request per segment, never sleeps, and appends the reference entries: the translation, or the blank sentinel for an empty translation or an error. |
| Translator.V2ExpectedAt | main.py:60-66 | Entry i of that reference output belongs to segment i. |
| Translator.V2ExpectedLength | main.py:63-66 | The reference output has one entry per segment. |
| Translator.V3Run | main.py:99-145 | v3 keeps the doubling schedule and makes at most ten requests per segment. When it returns, it has one entry per segment without a glossary and at least one per segment with one. |
| Translator.V3GlossaryWithoutRateLimit | main.py:136-145 | Without rate limiting and with a glossary, v3 appends the translation or blank sentinel for each answered request, and `[ERROR]` plus the blank sentinel for each failed one. |
| Translator.V3ExpectedLength | main.py:138-145 | That output has one extra entry per failed request, and a failure happens exactly when some request is not answered. |
| Translator.V3ExpectedCount | main.py:138-145 | The length of that output counts the failures. |
| Translator.FailureWitness | main.py:136 | A positive failure count names a failed request. |
| Translator.FailureCounted | main.py:136 | A failed request makes the failure count positive. |
| Translator.V3PlainWithoutRateLimit | main.py:136-139 | Without rate limiting and without a glossary, v3 raises if and only if some request fails, and what it raises is `NameError`. When it returns, it returns what v2 returns. |
| Translator.PlainAllAnswered | main.py:75-147 | Without a glossary, when every request is answered, v3 returns the reference output of v2 after one request per segment. |
| Translator.PlainUnlimited | main.py:99-145 | The same from any state, for runs without rate limits or failures. |
| Translator.AllAnswered | main.py:103-127 | Every request answered means no rate limit and no failure. |
| Translator.GlossaryFailureLonger | main.py:136-145 | With a glossary and no rate limiting, one failed request makes v3 return more entries than there are segments. |
| Translator.DelayNotReset | main.py:96-131 | Two segments, each rate-limited once, sleep 1 and then 2: the delay carries over. |
| Paths.LastIndexOf | main.py:202 | The position found holds the character, and no later position does. |
| Paths.TrimSlashes | main.py:208 | `rstrip('/')` returns a prefix of its input that does not end with `/`, and everything it removed is `/`. |
| Paths.Basename | main.py:202 | `os.path.basename` is the part of the path after its last `/`: a suffix with no `/`, preceded by a `/` when it is not the whole path. |
| Paths.Dirname | main.py:208 | `os.path.dirname` is a prefix of the path up to its last `/`. Only `/` lies between its end and that last `/`. It is empty exactly when the path has no `/`, and it does not end with `/` unless it is all slashes. When everything up to the last `/` is slashes, it is all of them (`//x` gives `//`). |
| Paths.Join | main.py:208 | `os.path.join` of two parts ends with the second. An absolute second part replaces the first. Otherwise the result starts with the first part, and one `/` is inserted exactly when the first part is non-empty and does not end with `/`. |
| Paths.DropExtension | main.py:203 | `os.path.splitext(...)[0]` is a prefix of the name. What it cuts off starts with a `.` and holds no other `.` and no `/`. Something other than `.` comes before that dot within the last path component. It cuts something whenever the last component has a `.` after a non-dot character. |
| Paths.DropLanguageTag | main.py:204 | `re.sub(r'-[A-Z]{2}$', '', ...)` either keeps the name or removes exactly one `-XY` tag. The tag is at the very end, or just before a final line break, which it keeps. For a name without line breaks it removes a tag exactly when the name ends with one. |
| Paths.OutputName | main.py:202-205 | The translated file's name ends with `-`, the upper-cased target and `.vtt`, and holds no `/` when the target holds none. |
| Paths.OutputPath | main.py:208 | For a target without `/`, the translated file's directory is the source file's directory and its base name is the output name. |
| Paths.UpperTag | main.py:204-205 | A two-letter code becomes a tag that the substitution removes. |
| Paths.StemOfTaggedName | main.py:203-204 | The stem of `<stem>-XY.vtt` is `<stem>`: the extension and one trailing language tag are removed. |
| Paths.StemNoSlash | main.py:203-204 | The stem of a base name holds no `/`. |
| Paths.LastSlashAfter | main.py:208 | Appending a name without `/` leaves the last `/` where it was. |
| Paths.JoinParts | main.py:208 | `dirname` and `basename` take apart what `join` put together. |
| Paths.OutputStem | main.py:202-205 | The stem of an output name is the stem of its source's base name. |
| Paths.OutputNameRederived | main.py:202-208 | Deriving a translation's path from an earlier translation's path gives the same file as deriving it from the source. |
| Rebuild.WriteCaptions | main.py:209-216 | The writer loop writes exactly the specification `CaptionFile`. |
| Rebuild.WriteStep | main.py:212-216 | Each iteration adds the number, the timestamp and the text of one cue, then a blank line. |
| Rebuild.CaptionFileText | main.py:211-215 | The file is `WEBVTT`, a blank line, then for i = 1, 2, … the number i, timestamp i and text i, each on its own line, and a blank line. |
| Rebuild.CueLinesText | main.py:212-215 | The cues written one line at a time spell the four writes per cue. |
| Rebuild.RenderHeader | main.py:211 | The header is `WEBVTT` and a blank line. |
| Rebuild.RenderCue | main.py:213-215 | One cue is written as its number, timestamp and text, each ended by a line break, and a blank line. |
| Rebuild.CueLinesZip | main.py:212 | Only the first `min(len(timestamps), len(texts))` pairs are written. |
| Rebuild.CueLinesAppend | main.py:212-216 | Writing two runs of pairs one after the other writes the cues of the first, then those of the second, numbered on from where the first stopped. |
| Rebuild.CueLinesSnoc | main.py:212-216 | Writing one more pair appends one cue, numbered after the others. |
| Rebuild.TokensAppend | main.py:165 | Past the header, what two runs of lines contribute concatenates. |
| Rebuild.TimingNotDigits | main.py:170-174 | A timing line is not a cue number. |
| Rebuild.NumberTokens | main.py:170-171 | A cue number contributes nothing when read back. |
| Rebuild.TimingTokens | main.py:174-178 | A written timestamp is read back as that timestamp. |
| Rebuild.TextTokens | main.py:179-180 | A written text is read back as that text. |
| Rebuild.BlankTokens | main.py:179 | The blank line contributes nothing. |
| Rebuild.CueTokens | main.py:165-180 | A written cue reads back as its timing followed by its text. |
| Rebuild.HeaderTokens | main.py:166-168 | The header line and the blank line after it contribute nothing. |
| Rebuild.CueLinesTokens | main.py:165-180 | The written cues read back as timing, text, timing, text, … |
| Rebuild.GroupInterleavePending | main.py:175-183 | The buffering turns alternating timings and texts back into the two lists. |
| Rebuild.GroupInterleave | main.py:175-183 | Alternating timings and texts group into exactly those timestamps and texts. |
| Rebuild.CaptionFileRoundTrip | main.py:160-216 | Reading back a written file gives the timestamps and texts it was written from. This holds when there are equally many of each, every timestamp is a trimmed line that begins with a timing range, and every text is one trimmed non-empty line that is neither all digits nor begins with a timing range. |
| Rebuild.CueLinesNoBreak | main.py:212-215 | The written lines hold no line break when the timestamps and texts hold none. |
| Pipeline.MismatchMessage | main.py:192 | The mismatch message starts with the file, the language and `Segment count mismatch f`. Then come the number of translations and the number of timestamps, both in decimal, separated by ` f`. |
| Pipeline.ProcessVtt | main.py:153-216 | `process_vtt` step by step (read, parse, translate, count check, name, write) ends exactly as the specification `Process` says: written, mismatch message, or exception. |
| Pipeline.OutputNameMentions | main.py:202-205 | The output name mentions the target language the way the coverage scan looks for it. |
| Pipeline.ParsedTimings | main.py:174-178 | Every recorded timestamp can be written back as a cue. |
| Pipeline.WrittenFile | main.py:188-216 | A written file lies beside its source, under a name that ends with `-`, the upper-cased language and `.vtt`, and that the coverage scan counts as that language. It has one entry per timestamp, and it reads back to the source's timestamps and the translations when every translation is one line the reader keeps. |
| Pipeline.WrittenPath | main.py:202-208 | The translated file lies beside its source, under the output name; the path ends with `-`, the upper-cased language and `.vtt`, and the base name mentions the language the way the coverage scan looks for it. |
| Pipeline.EndsWithBasename | main.py:205-208 | A suffix of the base name is a suffix of the path. |
| Pipeline.SilentCueBlocksFile | main.py:188-195 | Without a glossary, a file in which some timing line has no text after it, and no text comes first, is never written, whatever the service answers. |
| Pipeline.CompleteFileWritten | main.py:153-216 | Without a glossary, a file whose timing lines all have text, with no text first, is written when every request is answered. Cue i carries the translation of segment i, or the blank sentinel when the translation was empty. |
| Pipeline.GlossaryFailureBlocksFile | main.py:188-195 | With a glossary and no rate limiting, one failed request is enough for the count check to reject such a file. |
| Pipeline.StartDoubling | main.py:96 | The initial `retry_delay` of 1 starts the doubling schedule. |
| Pipeline.EnglishIndex | main.py:249-252 | The file picked is the first one ending with `-EN.vtt`, or none. |
| Pipeline.JobsFor | main.py:258-259 | One task per missing language. |
| Pipeline.PlanStep | main.py:246-259 | One folder of the walk: skipped without an English file; otherwise the scan's `ValueError` stops the enumeration, or its missing languages add tasks. |
| Pipeline.JobsForSnoc | main.py:258-259 | Appending one job per language, one at a time, builds the same list. |
| Pipeline.BuildTasks | main.py:246-259 | The loop that builds `tasks`, with its `break` and inner append loop, returns exactly the specification `PlanTasks`. |
| Pipeline.PlanSound | main.py:246-259 | Every task translates a file whose name ends with `-EN.vtt` into an expected language. |
| Pipeline.JoinEndsWith | main.py:251 | Joining a root to a name ending with `-EN.vtt` keeps that ending. |
| Pipeline.PlanKeeps | main.py:255-259 | For a folder with an English file, every language its scan finds missing gets a task for that file. |
| Pipeline.PlanGrows | main.py:258-259 | Tasks already planned stay planned. |
| Pipeline.UnmentionedLanguagePlanned | main.py:246-259 | In a folder with an English file, an expected language that no entry of the listing mentions gets a task for that file. |
| Pipeline.RunBatch | main.py:261-266 | The jobs, run one after the other, produce exactly the specification `Batch`. |
| Pipeline.BatchFromCounts | main.py:262 | Each job adds exactly one written file, error message or exception. |
| Pipeline.BatchCounts | main.py:261-266 | `total_docs` is the number of tasks, and every job ends exactly one way. `translated_docs` is the number of files written plus the jobs that raised, and it equals the files written when none raised. |

## Left out

- The Google Cloud clients, the glossary path and the request dictionaries are left out; they are foreign calls. The service is an oracle, and v3 is taken to return one translation per one-segment request.
- `time.sleep` is recorded as a list of delays; no time passes.
- `multiprocessing.Pool` is left out: the jobs run one after the other, and all append to one error list. In the source each worker process gets its own copy of `error_list`, so the parent's list stays empty and `translated_docs` always equals `total_docs`.
- A job that raises is not modelled the source's way. In the source, `starmap` still runs the other jobs, then raises the worker's exception in the parent, so the lines after it (main.py:266-269: `translated_docs` and the printing of the errors) never run. The model instead records the exception (`Crashed`) and goes on to finish the batch. So once a job has raised, the `TranslatedDocs` value that `BatchCounts` describes has no counterpart in the source.
- File and directory I/O (`open`, `readlines`, `os.walk`, `os.listdir`, the writes) is left out. Contents are given as strings or as functions of the path, the tree as a sequence of `(root, dirs, files)`, and a written file as a `(path, content)` pair.
- `readlines` is taken to split on `'\n'` only; the universal-newline translation of `'\r'` and `'\r\n'` is not modelled.
- `batch_translate_vtt_folder` is left out: it calls `process_vtt` with a path and a language list instead of its two arguments, so it cannot run.
- The `try`/`except` around the count check at main.py:190-199 is left out, because nothing in it can raise.
- `print` output, `main`, the hard-coded language list and the project configuration are left out.
- `upload_glossary.py` is not part of this model: it is HTTP and cloud-storage glue with no local logic.
- Text is ASCII: the Unicode meanings of `str.isdigit`, `\d`, `str.isspace` and `upper()` are not modelled. The `bytes`-to-`str` decoding of a segment does not arise, because segments are strings.
