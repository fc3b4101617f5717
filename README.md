# Transcript post-processing: segment consolidation and checkpointed translation

This project models the two deterministic engines of an Arabic/English
interview transcriber. Both sit between unreliable model calls and the
final document.

- **Speaker-segment consolidation** (`Diarize`, from the nested helpers of
  `diarize_audio`). Raw diarization intervals `{start, end, speaker}` go
  through five stages:
  1. Sort by start, then resolve overlaps in one forward scan that looks
     only at the last emitted segment.
  2. Relabel speakers as moderator `"M"` and respondents `"R"` (or `"R"+id`).
  3. Absorb segments shorter than 0.6 s into the segment before them.
  4. Close gaps of more than 0.6 s and at most 3.0 s.
  5. Merge consecutive same-speaker segments at most 1.0 s apart.

  Each stage is a specification function plus a method with the source's
  loop; the method is proved equal to the function. Overlap resolution,
  absorption and the same-speaker merge are left folds over the list, each
  step looking only at the last emitted segment. Relabelling (`Roles`) and
  gap closing (`CloseGaps`) are sequence comprehensions, one element per
  input segment. `Consolidate` runs the stages in the source's order. Times are
  exact `real`s.
- **Chunked, checkpointed translation driver** (`Translate`, from
  `backend/translate_ar.py`):
  - `ChunkTurns` groups `(speaker, text)` turns into chunks that close at
    the first turn where the running word count reaches 300.
  - Each chunk is rendered as `sp: txt` lines and handed to an injected
    generator that returns text or fails.
  - `ParseReply` parses the reply back into turns. It passes the lines
    through the repetition guard, splits on the first `:` and appends
    continuation lines.
  - A checkpoint `{final_turns, context_summary, last_chunk}` is written
    after every chunk, and once more before a failure propagates.
  - A resumed job restores the checkpoint and skips the chunks it covers.
  - `Validate` compares the word counts of input and output.

  The driver is the class `Translator`. Its field `saved` is the checkpoint
  store. Its ghost field `calls` records every dialogue sent to the
  generator.
- **Python string built-ins** (`Text`): `len(s.split())`, `strip`,
  `splitlines` for `'\n'`, and `"\n".join`. `IndexOf` finds the first
  `':'`, which stands for both the test `":" in line` and the split
  `line.split(":", 1)`. They are defined on ASCII
  whitespace, and the model proves the facts the driver needs about them.

Files:
- `wrappers.dfy`: `Option`.
- `seqs.dfy`: small generic sequence facts.
- `text.dfy`: the string built-ins.
- `diarize.dfy`: segment consolidation.
- `translate.dfy`: chunking, rendering, parsing, validation and the driver.

## Model

| member | source | states |
|---|---|---|
| Text.WordCount | backend/translate_ar.py:41 | `len(text.split())`, counted at each character that starts a word; `Text.WordCountConcat` and `Text.StripKeepsWords` describe it |
| Text.WordCountConcat | backend/translate_ar.py:41-43 | the words of a concatenation are the words of both parts, less one when a word straddles the join |
| Text.WordCountJoin | backend/translate_ar.py:165-168 | joining two texts with one space adds their word counts exactly |
| Text.AllSpaceHasNoWords | backend/translate_ar.py:41 | a text of whitespace only has no words |
| Text.TrimLeftDropsSpace | backend/translate_ar.py:162 | `lstrip` returns a suffix of its input, drops only whitespace and starts with none |
| Text.TrimRightDropsSpace | backend/translate_ar.py:162 | `rstrip` returns a prefix of its input, drops only whitespace and ends with none |
| Text.Strip | backend/translate_ar.py:162 | `str.strip()` on ASCII whitespace; `Text.StripKeepsWords` describes it |
| Text.StripKeepsWords | backend/translate_ar.py:162 | `strip` keeps every word and leaves no whitespace at either end |
| Text.IndexOf | backend/translate_ar.py:160-161 | the result is absent exactly when the character does not occur, else it is its first position |
| Text.SplitLines | backend/translate_ar.py:151 | no line holds a break, and there are no lines exactly when the text is empty |
| Text.SplitLinesRejoin | backend/translate_ar.py:151 | the lines joined by `'\n'` give the text back, up to one final break |
| Text.JoinThenSplit | backend/translate_ar.py:151 | splitting lines that were joined by `'\n'` returns them, when none holds a break and the last is non-empty |
| Text.RejoinCons | backend/translate_ar.py:151 | putting a line and a break in front of a rejoined text rejoins the longer list of lines |
| Text.JoinCons | backend/translate_ar.py:134 | a join of a non-empty tail is its head, the separator and the join of the tail |
| Diarize.InsertByStart | backend/diarize.py:46 | insertion adds exactly the new segment to the multiset of segments |
| Diarize.InsertAfterEqual | backend/diarize.py:46 | inserting into a sorted list puts the new segment after every segment with the same start |
| Diarize.InsertKeepsSorted | backend/diarize.py:46 | inserting into a list sorted by start keeps it sorted |
| Diarize.SortByStart | backend/diarize.py:46 | `sorted(segments, key=start)`; `Diarize.SortByStartSorts` and `Diarize.SortByStartStable` describe it |
| Diarize.SortByStartSorts | backend/diarize.py:46 | the sort yields a list sorted by start that is a permutation of its input |
| Diarize.SortByStartStable | backend/diarize.py:46 | the sort is stable: for every start time, the segments that start then keep their input order |
| Diarize.WithStartAppend | backend/diarize.py:46 | the segments with a given start of a concatenation are those of both parts |
| Diarize.ResolveStep | backend/diarize.py:50-74 | one scan step's three cases; `Diarize.ResolveStepShape`, `Diarize.NestedCase` and `Diarize.PartialCase` describe it |
| Diarize.ResolveStepShape | backend/diarize.py:50-74 | a step adds one or two segments, rewrites at most the last emitted one, and ends at the further of the two ends |
| Diarize.ResolveScan | backend/diarize.py:49-76 | the forward scan; `Diarize.ResolveLength`, `Diarize.ResolveWithinInput` and `Diarize.ResolveReachesFurthest` describe it |
| Diarize.ResolveInto | backend/diarize.py:50-74 | one scan step, with the last emitted segment overwritten in place, is the step function `ResolveStep` |
| Diarize.ResolveOverlaps | backend/diarize.py:45-76 | the method's loop computes the forward scan over the sorted input |
| Diarize.ResolveScanStep | backend/diarize.py:49 | the scan of one more segment is one step on the scan so far |
| Diarize.ResolveLength | backend/diarize.py:49-76 | an empty input gives an empty output; `n ≥ 1` inputs give between `n` and `2n−1` segments |
| Diarize.ResolveKeepsChained | backend/diarize.py:56-58 | a list in which no segment starts before its predecessor ends is returned unchanged |
| Diarize.ResolveSortedChained | backend/diarize.py:46-58 | when the sorted input is chained, the scan returns the sorted input itself |
| Diarize.NestedCase | backend/diarize.py:61-68 | a nested segment: "before" exists only if it starts later, "after" only if it ends earlier, both keep the outer speaker |
| Diarize.PartialCase | backend/diarize.py:71-74 | a partial overlap truncates the last segment only if the new one starts later, and appends the new one unchanged |
| Diarize.NestedExample | backend/diarize.py:61-68 | the two documented nested examples come out split into three pieces |
| Diarize.ResolveNotOrdered | backend/diarize.py:54-74 | counterexample: the output can hold a segment that starts before the end of an earlier one |
| Diarize.StepWithin | backend/diarize.py:56-74 | every piece one step adds lies inside the new segment or inside the last segment's holder |
| Diarize.ResolveWithinInput | backend/diarize.py:45-76 | for sorted, well-formed input, every output piece lies inside some input segment of the same speaker |
| Diarize.WithinExtend | backend/diarize.py:54-74 | containment in the input survives one step of the scan |
| Diarize.ResolveReachesFurthest | backend/diarize.py:45-76 | the last output segment ends at the furthest end of the input |
| Diarize.Roles | backend/diarize.py:81-86 | relabelling keeps the number of segments |
| Diarize.AssignRoles | backend/diarize.py:81-86 | the in-place relabelling loop computes `Roles` |
| Diarize.RolesShape | backend/diarize.py:81-86 | times are kept; `"M"` exactly for the first segment's id; others `"R"`, or `"R"+id` with the flag |
| Diarize.RolesCollapsed | backend/diarize.py:86 | without the flag every label is `"M"` or `"R"` |
| Diarize.IdOfRoleInverts | backend/diarize.py:84 | with the flag, a role label determines the original id |
| Diarize.RolesDistinguish | backend/diarize.py:84 | with the flag, two segments share a label exactly when they shared an id |
| Diarize.AbsorbShort | backend/diarize.py:94-103 | a short segment extends the last merged one to its end, whatever its speaker; a long one is appended; `Diarize.AbsorbShortHeads` describes it |
| Diarize.MergeShort | backend/diarize.py:90-104 | the output is never longer than the input and is empty exactly when the input is |
| Diarize.MergeShortEnds | backend/diarize.py:91-104 | the first segment's start and label are kept, and the output ends where the input ends |
| Diarize.MergeShortStep | backend/diarize.py:94-103 | absorbing one more segment is one step on the result so far |
| Diarize.MergeShortSegments | backend/diarize.py:90-104 | the loop, which extends the last merged segment in place, computes `MergeShort` |
| Diarize.HeadsAppend | backend/diarize.py:90-104 | the (start, label) heads of a concatenation are the heads of both parts |
| Diarize.HeadsSnoc | backend/diarize.py:103 | appending a segment appends its head |
| Diarize.HeadsIgnoreEnd | backend/diarize.py:99-101 | changing the last segment's end changes no head |
| Diarize.AbsorbShortHeads | backend/diarize.py:96-103 | a short segment adds no head and a long one adds its own |
| Diarize.LongOnlySnoc | backend/diarize.py:97-103 | the long segments of a list grow by the last segment exactly when it is long |
| Diarize.MergeShortHeads | backend/diarize.py:90-104 | the output's heads are the first segment's and then those of exactly the segments of at least 0.6 s, in order: short ones never keep their own label |
| Diarize.MergeShortLabels | backend/diarize.py:90-104 | absorption introduces no new speaker label |
| Diarize.ShortAbsorbed | backend/diarize.py:96-103 | a short middle segment is absorbed into the one before it, whatever its speaker |
| Diarize.CloseGaps | backend/diarize.py:109-117 | gap closing keeps the number of segments |
| Diarize.CloseGapsInPlace | backend/diarize.py:109-117 | the loop that extends the previous segment in place computes `CloseGaps` |
| Diarize.CloseGapsKeeps | backend/diarize.py:109-117 | starts and speakers are kept, ends only grow, and the last segment is unchanged |
| Diarize.CloseGapsEnds | backend/diarize.py:112-116 | segment `i−1` ends at segment `i`'s start exactly when their gap is above 0.6 and at most 3.0 |
| Diarize.CloseGapsLeavesNone | backend/diarize.py:112-116 | no closable gap remains after the pass |
| Diarize.CloseGapsIdempotent | backend/diarize.py:109-117 | closing gaps twice changes nothing more |
| Diarize.CloseGapsLabels | backend/diarize.py:109-117 | gap closing introduces no new speaker label |
| Diarize.Coalesce | backend/diarize.py:123-129 | a same-speaker segment within the tolerance extends the last merged end to the max; `Diarize.CoalesceSeparated` describes it |
| Diarize.MergeAdjacent | backend/diarize.py:120-130 | the output is never longer, is empty exactly when the input is, and keeps the first start and label |
| Diarize.CoalesceSeparated | backend/diarize.py:125-129 | one merge step keeps all neighbours separated |
| Diarize.MergeAdjacentSeparated | backend/diarize.py:120-130 | consecutive output segments differ in speaker or are more than the tolerance apart |
| Diarize.MergeAdjacentStep | backend/diarize.py:124-129 | merging one more segment is one step on the result so far |
| Diarize.MergeAdjacentSegments | backend/diarize.py:120-130 | the loop that rewrites the last merged end with `max` computes `MergeAdjacent` |
| Diarize.MergeAdjacentKeepsSeparated | backend/diarize.py:120-130 | an already separated list is returned unchanged |
| Diarize.MergeAdjacentIdempotent | backend/diarize.py:120-130 | merging twice gives the same as merging once |
| Diarize.MergeAdjacentLabels | backend/diarize.py:120-130 | merging introduces no new speaker label |
| Diarize.Consolidate | backend/diarize.py:45-132 | the five stages in order; empty exactly for empty input; neighbours separated; without the flag only `"M"`/`"R"` labels |
| Diarize.TouchingMerge | backend/diarize.py:109-130 | two touching segments of one speaker become one segment spanning both |
| Diarize.ShortAbsorbThenMerge | backend/diarize.py:90-130 | a short foreign segment between two of one speaker is absorbed, and the rest merges into one segment |
| Diarize.GapCloseExample | backend/diarize.py:109-130 | `[(0,2,M),(3,5,M)]` has its 1 s gap closed and then merges into `[(0,5,M)]` |
| Translate.SumWordsAgree | backend/translate_ar.py:43 | word counts of the first `n` turns depend only on those turns |
| Translate.TotalWordsSnoc | backend/translate_ar.py:43 | adding a turn adds its word count |
| Translate.FlattenSnoc | backend/translate_ar.py:45 | appending a chunk appends its turns |
| Translate.FlattenCons | backend/translate_ar.py:45 | the turns of chunks are the first chunk then the rest |
| Translate.FlattenLength | backend/translate_ar.py:39-49 | non-empty chunks hold at least one turn each |
| Translate.ClosedEach | backend/translate_ar.py:44-46 | every closed chunk is full |
| Translate.ClosedIsChunking | backend/translate_ar.py:47-49 | closed chunks plus a trailing partial chunk, flushed only if non-empty, are a chunking |
| Translate.GrowOpen | backend/translate_ar.py:42-43 | adding a turn to an open chunk keeps its proper prefixes below the limit and adds its word count |
| Translate.CloseChunk | backend/translate_ar.py:44-46 | a chunk that reaches the limit joins the closed chunks |
| Translate.ChunkStep | backend/translate_ar.py:40-46 | one turn of the loop keeps the order of the turns and closes the chunk exactly when it reaches the limit |
| Translate.ChunkTurns | backend/translate_ar.py:37-49 | chunks are the turns in order, non-empty, all but the last reach the limit, no proper prefix reaches it |
| Translate.FirstCut | backend/translate_ar.py:40-46 | the first chunk's length lies between its lower bound and the number of turns |
| Translate.FirstCutIs | backend/translate_ar.py:40-46 | the first length at which the running count reaches the limit is the first chunk's length |
| Translate.FirstChunkLength | backend/translate_ar.py:40-46 | every chunking's first chunk is the turns up to where the running count first reaches the limit |
| Translate.ChunkingTail | backend/translate_ar.py:46 | after the first chunk, the rest is a chunking of the remaining turns |
| Translate.ChunkingUnique | backend/translate_ar.py:37-49 | there is only one chunking of given turns, so `ChunkTurns`'s contract determines its output |
| Translate.EmptyHasNoChunks | backend/translate_ar.py:47 | no turns give no chunks |
| Translate.TwoTurnsOneChunk | backend/translate_ar.py:43-46 | a turn below the limit followed by one that reaches it form one chunk, and no other chunking exists |
| Translate.Dialogue | backend/translate_ar.py:134 | the chunk's turns rendered `sp: txt` and joined by `'\n'`; `Translate.DialogueJoin` and `Translate.DialogueLines` describe it |
| Translate.DialogueJoin | backend/translate_ar.py:134 | the dialogue is the rendered `sp: txt` lines joined by `'\n'` |
| Translate.RenderTurnOneLine | backend/translate_ar.py:134 | a rendered turn is non-empty and has no break when its parts have none |
| Translate.DialogueLines | backend/translate_ar.py:134 | splitting a dialogue gives back one rendered line per turn, in order |
| Translate.Kept | backend/translate_ar.py:150-158 | the lines the repetition guard lets through; `Translate.KeptRun` and `Translate.KeptAfterChange` describe it |
| Translate.Header | backend/translate_ar.py:160-162 | the stripped text before and after the first `':'`; `Translate.BuildTurnsSpeakers` describes it |
| Translate.AddLine | backend/translate_ar.py:160-168 | the line rule; `Translate.AddLineSpeakers` and `Translate.BuildTurnsWords` describe it |
| Translate.Parse | backend/translate_ar.py:149-168 | the reply's lines through the guard, built into turns; `Translate.ParseReply` computes it |
| Translate.RunLengthSkipped | backend/translate_ar.py:152-155 | a line is skipped exactly when it ends a run of at least four identical lines |
| Translate.KeptIdentity | backend/translate_ar.py:150-158 | without four identical lines in a row, the guard keeps every line |
| Translate.KeptSnoc | backend/translate_ar.py:150-158 | the kept lines grow by a new line exactly when it is not skipped |
| Translate.KeptRun | backend/translate_ar.py:150-158 | of a run of `n` identical lines, exactly the first `min(n, 3)` are kept |
| Translate.KeptAfterChange | backend/translate_ar.py:156-157 | a line different from the one before it is always kept (the counter resets) |
| Translate.GuardStep | backend/translate_ar.py:150-158 | one line through the guard: kept unless skipped, and the run grows exactly on a repeat |
| Translate.BuildTurnsSnoc | backend/translate_ar.py:160-168 | building turns handles the lines one at a time |
| Translate.GuardNext | backend/translate_ar.py:152-158 | the `last_line`/`repeat_count` update skips exactly the lines `Skipped` names |
| Translate.ApplyLine | backend/translate_ar.py:160-168 | the in-place update of the latest turn matches the line rule `AddLine` |
| Translate.ParseReply | backend/translate_ar.py:149-168 | the parsing loop yields the guarded lines built into turns |
| Translate.SpeakersSnoc | backend/translate_ar.py:162 | appending a turn appends its speaker |
| Translate.AddLineSpeakers | backend/translate_ar.py:160-168 | a labelled line adds one turn with its speaker; any other line adds none and keeps every speaker |
| Translate.BuildTurnsSpeakers | backend/translate_ar.py:160-168 | exactly one turn per labelled line, carrying that line's stripped label, in order |
| Translate.BuildTurnsWords | backend/translate_ar.py:160-168 | the turns hold every word after a label and every word of a continuation line once a turn is open |
| Translate.CoveragePercent | backend/translate_ar.py:84 | `(output / input) * 100`; `Translate.CoverageIsIntegerTest` describes its comparison with 90 |
| Translate.CoverageIsIntegerTest | backend/translate_ar.py:84-87 | `coverage < 90` holds exactly when `output * 100 < 90 * input` |
| Translate.RealCoverage | backend/translate_ar.py:84-87 | the percentage comparison can be cleared of its division |
| Translate.ScaleLess | backend/translate_ar.py:84-87 | a positive factor keeps a strict comparison |
| Translate.Validate | backend/translate_ar.py:71-90 | word and turn counts of both sides; a zero input gets no coverage; low coverage exactly when `output*100 < 90*input` |
| Translate.Restore | backend/translate_ar.py:124-129 | the resume logic with the `dict.get` defaults `[]`, `""` and `0`; `Translate.ResumeSkips` describes it |
| Translate.SliceFrom | backend/translate_ar.py:133 | `chunks[start:]` is a suffix, and is exactly `chunks[start..]` for a start within range |
| Translate.RunFrom | backend/translate_ar.py:133-179 | the loop's observable result; `Translate.RunAllSucceed`, `Translate.RunFailsAt` and `Translate.RunSendsPrefix` describe it |
| Translate.TranslatedAllCons | backend/translate_ar.py:170 | the turns of a list of chunks are the first chunk's then the rest's |
| Translate.AllSucceedEach | backend/translate_ar.py:133-137 | success on a list of chunks is success on each chunk |
| Translate.AllSucceedSnoc | backend/translate_ar.py:133-137 | success on one more chunk is success so far and on that chunk |
| Translate.RunFromOk | backend/translate_ar.py:170-179 | a successful chunk extends the turns, writes its checkpoint and goes on with the next index |
| Translate.RunFromFail | backend/translate_ar.py:136-146 | a failed chunk writes the checkpoint of the chunk before and raises after one call |
| Translate.RunAllSucceed | backend/translate_ar.py:133-179 | when every chunk succeeds: no raise, turns grow by each chunk's parse, every dialogue sent once in order, last checkpoint at the last index |
| Translate.RunAllSucceedTurns | backend/translate_ar.py:170 | when every chunk succeeds, the turns grow by exactly each chunk's parsed turns |
| Translate.RunAllSucceedCalls | backend/translate_ar.py:134-137 | when every chunk succeeds, each dialogue is sent once, in order |
| Translate.RunAllSucceedSaved | backend/translate_ar.py:173-179 | when every chunk succeeds, the checkpoint holds the final turns and the last chunk's index |
| Translate.RunAllSucceedPrefix | backend/translate_ar.py:133-179 | the all-success result, stated for the loop's prefix bookkeeping |
| Translate.RunFailsAt | backend/translate_ar.py:136-146 | at the first failing chunk `j`: raised, the turns of chunks before `j`, calls up to `j`, checkpoint index just before `j` |
| Translate.RunFailsAtTurns | backend/translate_ar.py:136-146 | at the first failure, the turns are those of the chunks before it |
| Translate.RunFailsAtSaved | backend/translate_ar.py:140-145 | at the first failure, the checkpoint holds those turns with `last_chunk = idx − 1` |
| Translate.RunFailsAtCalls | backend/translate_ar.py:137 | at the first failure, the dialogues up to and including the failing one were sent |
| Translate.RunFailsAtPrefix | backend/translate_ar.py:136-146 | the first-failure result, stated for the loop's prefix bookkeeping |
| Translate.RunKeepsSummary | backend/translate_ar.py:173-179 | every checkpoint a run writes carries the summary it started with |
| Translate.RunSendsPrefix | backend/translate_ar.py:133-170 | a run sends the dialogues of a prefix of its chunks, in order, and only adds turns after those it started with |
| Translate.ResumeSkips | backend/translate_ar.py:124-133 | a resumed run starts from the saved turns at `last_chunk + 1` (1 for a missing key), and its `i`-th call is chunk `last_chunk + 1 + i` |
| Translate.ResumeAfterFailure | backend/translate_ar.py:124-146 | after a fresh run fails at chunk `j`, resuming restores the turns before `j` and starts at `j` |
| Translate.TranslatedAllSnoc | backend/translate_ar.py:170 | translating one more chunk appends its turns |
| Translate.TranslatedAllSplit | backend/translate_ar.py:170 | the turns of the chunks split at any index |
| Translate.TranslatedAllAgree | backend/translate_ar.py:137 | generators that agree on the chunks' dialogues yield the same turns |
| Translate.ResumedRun | backend/translate_ar.py:124-179 | a resumed run over chunks that all succeed sends only chunks `j` onward and appends their turns to the saved ones |
| Translate.WholeRun | backend/translate_ar.py:133-179 | an uninterrupted run yields the turns before `j` followed by the turns from `j` on |
| Translate.ResumeMatchesUninterrupted | backend/translate_ar.py:124-179 | fail at `j` then resume gives the same turns as one uninterrupted run and sends only chunks `j` onward |
| Translate.SucceedStep | backend/translate_ar.py:148-170 | one successful chunk extends the loop's success prefix and its turns |
| Translate.RunChunks | backend/translate_ar.py:133-179 | the module-level loop computes the run function: raised flag, final turns, checkpoint and calls |
| Translate.Translator.constructor | backend/translate_ar.py:124 | the store starts with the record at the progress path and no calls |
| Translate.Translator.Translate | backend/translate_ar.py:94-193 | the chunks are the chunking of the turns; the store, the calls and the outcome are those of the run from the restored start; a completed run returns its turns and the validation report |

## Left out

- Diarization input and audio conversion (backend/diarize.py:11-42): the pyannote pipeline and the track extraction are foreign calls. `Consolidate` starts from the raw segment list.
- The `speakers` parameter of `diarize_audio` only goes to the pyannote call.
- `llm_translate` (backend/translate_ar.py:51-69): the prompt, the HuggingFace pipeline and its response unpacking. The generator is a function parameter returning `Ok(text)` or `Fail`.
- The pickle file and `os.path.exists`: the checkpoint store is the `saved: Option<Progress>` field. A loaded record may lack any key, so every key is an `Option`.
- Translate.Translator.Translate: the source rewrites the progress file after every chunk. The method hands the loop's last record to the field once the loop ends. That is the same final content, but the intermediate writes are not modelled.
- DOCX output (`delete_paragraph`, `add_turn`, `Document`, `doc.save`) and every `print`: formatting and reporting only.
- `validate_translation` only prints its findings. `Validate` returns them as a `Report` value instead.
- Whisper transcription (backend/transcribe_en.py, backend/transcribe_ar.py), the web layer (backend/app.py), the model singletons (backend/__init__.py) and the UI (src/App.jsx) are not part of this model.
- Floating point: segment times and the coverage percentage are exact reals, so rounding is not modelled.
- Unicode: whitespace is the ASCII set that `str.isspace` accepts, and `splitlines` breaks only at `'\n'`. Other Unicode spaces and line terminators are not modelled.
- In-place mutation of shared dicts: segments and turns are values. Overlap resolution, absorption, gap closing and the same-speaker merge update only the last emitted record. The role loop rewrites each record once, after reading the anchor id from the first record. No record appears twice in a list. So no aliasing effect is lost.
- `context_summary` is never computed by the source. It is `""` on a fresh run and the saved value on resume, and every checkpoint writes back the value the run started with. The model carries that value unchanged through the run and proves that every checkpoint keeps it.
- The response parser is a parameter of `RunFrom` and `RunChunks`, and `Translate` passes `Parse`. `ParseReply` is the parsing loop, proved to compute `Parse`.
- Diarize.InsertByStart: its own contract states only the multiset. That it goes after every segment with an equal start is `Diarize.InsertAfterEqual`.
- Diarize.SortByStartSorts: stability on equal starts is not stated here; `Diarize.SortByStartStable` proves it. `sorted` is modelled as an insertion sort on values, not a timsort.

## Notes on the source

- Overlap resolution compares each segment only with the last emitted one. The code names its result `non_overlapping_segments` (backend/diarize.py:78), so a non-overlapping timeline with non-decreasing starts is the evident intent. The code does not deliver it. `Diarize.ResolveNotOrdered` shows `(0,10,A),(3,8,B),(4,5,C)` producing `(8,10,A)` followed by `(4,5,C)`. What the model proves instead:
  - Every piece lies inside an input segment of its speaker.
  - The last end is the furthest input end.
  - Lengths stay between `n` and `2n−1`.
  - A chained input comes back unchanged.
- The code does not reject malformed segments (`end <= start`). The stages carry no such precondition; well-formedness appears only as a lemma hypothesis.
- `merge_short_segments` has two identical branches for same and different speakers. A short segment always extends the previous one, which keeps its label.
