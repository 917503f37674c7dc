# DS4 on Spark: verified model of the evaluator and its operator scripts

The `ds4_eval.c` benchmark evaluator asks a language model questions, limits how long it
may think, grades the answers, and writes a trace that can be graded again later. The API
runner does the same over a request queue, with a second implementation of the graders
and a parser for the evaluator's C case table. A few operator scripts hold small
algorithms that these runs depend on: closing over a process tree, editing a managed
block of a configuration file, reading Prometheus series, searching a batch size, routing
on a line of nodes, accounting for hard links, mixing request shapes.

This project models that logic in Dafny and proves what it is for. Code that works step
by step (pointer walks, growing buffers, arrays filled in place, objects with state) is
kept as methods and classes; each is proved equal to a function of its input or old
state, and the results below are lemmas about those functions: laws said of the text, the
samples, the replies or the keys themselves. `dafny verify dfyconfig.toml` checks
everything.

## How the system is represented

- **Text.** A C string is a sequence of characters without its terminating NUL, and a
  pointer into it is an index. Python strings are sequences of characters. Sizes that the
  code reads back with `strtoull` or `strtol` saturate as they do in C.
- **Trace** (`Trace`, `TraceReader`, `TraceRoundTrip`, `TraceMetadata`, `TraceDamaged`,
  `Regrade`, `RegradeNoOp`, `RegradeDamaged`). A trace is metadata lines and counted
  blocks. The reader walks it by line and by declared length, so an output that itself
  contains case headers or end markers is not misread. What the framing needs is stated
  on the metadata only; prompts and outputs are arbitrary.
- **Graders** (`Answers`, `AnswerMeaning`, `LineSpec`, `PyGrader`, `PyAnswerMeaning`,
  `SpecItems`, `SpecWindow`, and the `...Agreement` modules). `Answers` and `LineSpec` are
  the evaluator's extractors, `PyGrader` the runner's on ASCII text. The agreement modules
  compare the two on outputs that end with a compliant `Answer:` line; the `...Meaning`
  modules cover every output.
- **Generation** (`StreamFilter`, `StreamMeaning`, `Generation`, `GenerationEnds`,
  `AnswerReserve`). The tokenizer, the sampler, the rank of the close token, decode
  failures and the user are arbitrary functions.
- **Scheduler.** Keyboard input is an arbitrary finite sequence of snapshots; how often a
  run looks at it, and how the run ends, is arbitrary. A run is a sequence of rounds, each
  with the inputs read before and during it.
- **Runner** (`Initializer`, `PrintedEntry`, `InitializerRoundTrip`, `InitializerFields`,
  `InitializerEscapes`, `LiveGrading`, `LiveExactlyOnce`, `LiveStops`). Poll replies, and
  the collect reply to each event, are arbitrary.
- **Scripts** (`ProcessClosure`, `ManagedBlock`, `PrometheusLabels`, `PrometheusForeign`,
  `Calibration`, `FabricRoutes`, `LayoutStats`, `RoundRobin`). Process tables, directory
  walks and probe outcomes are inputs.

Where a property is not true of the code on all inputs, the lemma states exactly when it
holds, and the other direction is proved as well:

- the graders read an integer alike exactly when up to 152 digits make a number of fewer
  than 32, or more than 152 digits start with zeros only as far as the runner sees (159);
- they read a line specification alike exactly when the compact form of its first 152
  characters is shorter than 32 and none of the next seven is a digit; they judge it
  alike for all keys exactly while it names lines below 256;
- thinking is always closed in time exactly when the close tokens fit both the hard limit
  and the generation limit;
- a printed case table is read back exactly when its cases are ASCII text, are numbered in
  order and have no empty choice: the runner decodes UTF-8 bytes as Latin-1;
- live polling records no id twice, whatever the polls and the accuracy threshold, exactly
  when collecting a request always echoes its id;
- the runner's backfilled totals equal those of grading the collect exactly when the
  collect has one row for every id;
- installing a managed block for the first time is already a fixed point only for an empty
  file (the second application always is one);
- label values survive exactly when they hold no line feed, and survive in a whole series
  line exactly when they hold no white space at all, since the line is cut at its first
  blank before the labels are parsed;
- the batch-size search finds the largest passing size of a monotone oracle exactly when
  some power of two within the maximum fails, or the largest of them is the maximum, or
  the size after it fails: the sizes between it and the maximum are never probed;
- control routes deliver between two nodes exactly when the flags let the tables serve the
  pair and no rank between them is missing;
- a link of the node line takes the fabric's own subnet exactly from 51 nodes on.

## Model

| member | source | states |
|---|---|---|
| CText.StrToUllOfDec | v2/fixtures/ds4_eval/ds4_eval.c:2900-2906 | the decimal length the writer prints is the length the reader gets, and it stops right after the digits |
| CText.BoundedStrstr | v2/fixtures/ds4_eval/ds4_eval.c:2860-2869 | the pointer walk finds the first occurrence that lies within the bounds |
| Trace.TraceFile.WriteBlock | v2/fixtures/ds4_eval/ds4_eval.c:2403-2414 | what one counted block adds to the file, with the line feed the writer supplies only when the text lacks one |
| Trace.TraceFile.WriteCase | v2/fixtures/ds4_eval/ds4_eval.c:2480-2559 | what one case adds to the file, field by field, choices, error and close lines only where they apply |
| TraceReader.SkipCountedBlock | v2/fixtures/ds4_eval/ds4_eval.c:2880-2917 | the walk over a counted block equals its specification, including every malformed count |
| TraceReader.FindNextCase | v2/fixtures/ds4_eval/ds4_eval.c:2919-2940 | the scan for the next case header, jumping counted blocks |
| TraceReader.FindBlockBegin | v2/fixtures/ds4_eval/ds4_eval.c:2942-2963 | the scan for a block of a given name, jumping the others |
| TraceReader.GetLineField | v2/fixtures/ds4_eval/ds4_eval.c:2965-2981 | the first line with the key, its value cut to the caller's buffer |
| TraceReader.CopyModelOutput | v2/fixtures/ds4_eval/ds4_eval.c:2995-3030 | the copied output, by count or by end marker |
| TraceRoundTrip.BlockSkipped | v2/fixtures/ds4_eval/ds4_eval.c:2880-2917 | a written block is jumped exactly, whatever text it holds |
| TraceRoundTrip.OutputCounted | v2/fixtures/ds4_eval/ds4_eval.c:2995-3020 | counted output is read back character for character |
| TraceRoundTrip.CaseRead | v2/fixtures/ds4_eval/ds4_eval.c:2919-3030 | a written case is found where it starts, the next search resumes behind it, and its output is returned unchanged |
| TraceRoundTrip.TraceRoundTrips | v2/fixtures/ds4_eval/ds4_eval.c:2403-3030 | for every sequence of written cases the scan finds exactly the written boundaries in order and each output comes back unchanged |
| TraceMetadata.MetadataRead | v2/fixtures/ds4_eval/ds4_eval.c:2498-2543 | every metadata line of a written case, by its position in the written order, gives back its own field under its own key |
| TraceMetadata.ChoiceRead | v2/fixtures/ds4_eval/ds4_eval.c:2546-2553 | every choice is read back under its letter |
| TraceMetadata.HeaderNumbers | v2/fixtures/ds4_eval/ds4_eval.c:2498-2516 | the header line holds the number of the case and of all cases, readable with strtoull |
| TraceMetadata.BlocksHold | v2/fixtures/ds4_eval/ds4_eval.c:2554-2557 | after the metadata the system prompt, the question and the output stand in their blocks, each end marker on a line of its own, and the walk steps from one to the next |
| TraceDamaged.SkippedIff | v2/fixtures/ds4_eval/ds4_eval.c:2880-2917 | a line that declares a length is jumped if and only if its label has 1 to 96 characters and its end marker follows within the text, with or without one line feed |
| TraceDamaged.NotCounted | v2/fixtures/ds4_eval/ds4_eval.c:2900-2906 | a line without a number after "bytes=" is no block, even when a number stands on the next line |
| TraceDamaged.OutputIff | v2/fixtures/ds4_eval/ds4_eval.c:2995-3030 | a counted output is returned if and only if its end marker follows the declared number of characters, and then it is those characters |
| TraceDamaged.OutputNotCounted | v2/fixtures/ds4_eval/ds4_eval.c:3004-3010 | an output line that says "bytes=" without a number gives no output |
| TraceDamaged.DelimitedOutput | v2/fixtures/ds4_eval/ds4_eval.c:3016-3020 | without a byte count the output ends at the first line that starts with the end marker; without one there is none |
| Regrade.RegradeOne | v2/fixtures/ds4_eval/ds4_eval.c:3050-3092 | how one case moves the totals: parse error, unknown id, changed verdict, new verdict |
| Regrade.RegradeTraceFile | v2/fixtures/ds4_eval/ds4_eval.c:3032-3108 | the whole pass and its exit code |
| RegradeNoOp.RegradeRejudges | v2/fixtures/ds4_eval/ds4_eval.c:3032-3108 | for arbitrary recorded verdicts and answers, and records the table does not know, the totals of a written trace are the numbers of records unknown, accepted, rejected, and accepted or rejected otherwise than recorded |
| RegradeNoOp.CaseAnswerShape | v2/fixtures/ds4_eval/ds4_eval.c:2793-2804 | every extracted answer is short, one line, and free of characters that could disturb the trace |
| RegradeNoOp.UniqueKeysKnown | v2/fixtures/ds4_eval/ds4_eval.c:2983-2993 | in a table without duplicate keys every case is found under its own key |
| RegradeNoOp.FirstEntry | v2/fixtures/ds4_eval/ds4_eval.c:2983-2993 | the entry found is the first one with the source and the id; none is found only when none has them |
| RegradeNoOp.RegradeIsNoOp | v2/fixtures/ds4_eval/ds4_eval.c:3032-3108 | on the trace of a run nothing changes: no unknown case, no parse error, no changed verdict, and the run's own totals |
| RegradeDamaged.TotalsBalance | v2/fixtures/ds4_eval/ds4_eval.c:3032-3108 | for any file whatever, the total is the number of case headers found, each counted once as passed, failed, unknown or parse error, and only graded cases can have changed |
| RegradeDamaged.LineFieldIs | v2/fixtures/ds4_eval/ds4_eval.c:2872-2981 | over any lines a field is that of the first line with the key, less trailing carriage returns, cut to the buffer; without such a line there is none |
| RegradeDamaged.HeadlessCase | v2/fixtures/ds4_eval/ds4_eval.c:3050-3081 | a file cut off within its metadata counts one case: unknown if and only if it names a source and an id that no entry has, else a parse error |
| Answers.FindLastAnswerMarker | v2/fixtures/ds4_eval/ds4_eval.c:2579-2595 | the scan returns the last "answer:" marker, else the first "answer" |
| Answers.FindAnswerLetter | v2/fixtures/ds4_eval/ds4_eval.c:2597-2626 | the letter extractor with its window and its fallback |
| Answers.FindIntegerAnswer | v2/fixtures/ds4_eval/ds4_eval.c:2655-2683 | the integer extractor with its window and its last-run fallback |
| Answers.FindCompsecAnswer | v2/fixtures/ds4_eval/ds4_eval.c:2725-2741 | the line-specification extractor |
| Answers.GradeCase | v2/fixtures/ds4_eval/ds4_eval.c:2793-2816 | extraction and comparison by kind of case |
| AnswerMeaning.VisibleIs | v2/fixtures/ds4_eval/ds4_eval.c:2657-2660 | what follows the first close tag is visible, else everything |
| AnswerMeaning.MarkerIs | v2/fixtures/ds4_eval/ds4_eval.c:2579-2595 | said of characters: the marker is the last "answer" on its own before a colon, else the first "answer" anywhere, else none |
| AnswerMeaning.LetterIs | v2/fixtures/ds4_eval/ds4_eval.c:2597-2626 | for any output: the first letter of a choice standing alone within 96 characters of the marker, else the last one in the visible text, else a question mark |
| AnswerMeaning.IntegerIs | v2/fixtures/ds4_eval/ds4_eval.c:2655-2683 | for any output: the first digits within 160 characters of the marker, else the last run of digits in the visible text, else a question mark |
| AnswerMeaning.NormalizedIs | v2/fixtures/ds4_eval/ds4_eval.c:2628-2638 | normalising keeps the number and leaves no leading zero, cut to the buffer |
| AnswerMeaning.SpecFallback | v2/fixtures/ds4_eval/ds4_eval.c:2725-2741 | without a digit on the line of the marker the answer is the integer answer |
| LineSpec.NormalizeInto | v2/fixtures/ds4_eval/ds4_eval.c:2685-2723 | for a buffer of any size, the normaliser writes within it what the specification function gives, terminated |
| LineSpec.ParseLineSpec | v2/fixtures/ds4_eval/ds4_eval.c:2743-2771 | the array holds true exactly at the lines of the specification, and the result says whether there is one |
| LineSpec.CompsecAnswerMatches | v2/fixtures/ds4_eval/ds4_eval.c:2773-2791 | the comparison of the two arrays |
| SpecItems.ItemsCopied | v2/fixtures/ds4_eval/ds4_eval.c:2700-2720 | scanning numbers and ranges with any blanks copies the compact specification, cut to the buffer, with at most a dangling dash behind it |
| SpecWindow.CutItems | v2/fixtures/ds4_eval/ds4_eval.c:2732-2736 | any prefix of a written specification is a written specification, its last item possibly shortened, and a rest without digits |
| SpecWindow.CompactCount | v2/scripts/ds4_eval_api_runner.py:589-596 | compacting keeps every digit |
| PyGrader.ParseLineSpec | v2/scripts/ds4_eval_api_runner.py:599-609 | the runner's set of lines, ranges in either order |
| PyAnswerMeaning.LastColonMarkerIs | v2/scripts/ds4_eval_api_runner.py:488-492 | the runner's marker is the last "answer" as a word of its own before a colon |
| PyAnswerMeaning.ValueIs | v2/scripts/ds4_eval_api_runner.py:495-500 | the value is what follows the first colon, up to the limit and the first line break |
| PyAnswerMeaning.RunnerLetterIs | v2/scripts/ds4_eval_api_runner.py:533-540 | for any text: the first letter of a choice standing alone in the value; without one the runner goes on |
| PyAnswerMeaning.RunnerIntegerIs | v2/scripts/ds4_eval_api_runner.py:576-582 | for any text: the number of the first digits in the value; without any the runner goes on |
| AnswerAgreement.LetterLineDecides | v2/scripts/ds4_eval_api_runner.py:533-544 | after any text, a last line "Answer: L" gives that letter in both graders |
| AnswerAgreement.IntegerLineDecides | v2/fixtures/ds4_eval/ds4_eval.c:2628-2683 | after any text, a last line "Answer: digits" of any length: the runner gives the number of the first 159 digits, the evaluator that of the first 152, cut to 31 |
| AnswerAgreement.IntegerLineAgrees | v2/scripts/ds4_eval_api_runner.py:547-586 | both give the same answer if and only if up to 152 digits make a number of fewer than 32, or the first 159 of more are all zero |
| AnswerAgreement.SpecLineDecides | v2/fixtures/ds4_eval/ds4_eval.c:2685-2741 | after any text, a last line with a comma-separated specification whose first number starts within the window: the runner gives the compact form of the first 159 characters; the evaluator gives that of the first 152 if and only if it is shorter than 32, and otherwise a prefix of it |
| AnswerAgreement.SpecLineAgrees | v2/scripts/ds4_eval_api_runner.py:589-596 | both give the same specification if and only if the compact form of the first 152 characters is shorter than 32 and none of the next seven is a digit |
| SpecAgreement.LinesMarked | v2/fixtures/ds4_eval/ds4_eval.c:2743-2771 | the array marks exactly the lines the specification means, below its length, with saturating numbers |
| SpecAgreement.LinesCollected | v2/scripts/ds4_eval_api_runner.py:599-609 | the runner's set is exactly the lines the specification means |
| SpecAgreement.ArrayIsInclusion | v2/fixtures/ds4_eval/ds4_eval.c:2773-2791 | the array comparison is true exactly when the answer names a line below 256 and all its lines below 256 are expected |
| SpecAgreement.GradersAgree | v2/scripts/ds4_eval_api_runner.py:618-622 | for answers below 256 both graders give the same verdict |
| SpecAgreement.AgreeForAllKeysIff | v2/scripts/ds4_eval_api_runner.py:618-622 | both graders agree on an answer for every key if and only if all its lines are below 256 |
| VerdictAgreement.LetterVerdict | v2/scripts/ds4_eval_api_runner.py:612-617 | same extracted letter and same verdict for a multiple-choice case |
| VerdictAgreement.IntegerVerdict | v2/scripts/ds4_eval_api_runner.py:623-628 | same extracted number and same verdict for an integer case |
| VerdictAgreement.SpecVerdict | v2/scripts/ds4_eval_api_runner.py:618-622 | same specification and same verdict for a line-localisation case |
| StreamFilter.EvalStream.AppendTokenText | v2/fixtures/ds4_eval/ds4_eval.c:2042-2089 | one token moves the stream state as the filter function says; pending text is a proper prefix of a tag and the two buffers stay equally long |
| StreamFilter.FilterSplit | v2/fixtures/ds4_eval/ds4_eval.c:2042-2089 | filtering a text is filtering its start, then the held-back part followed by the rest |
| StreamFilter.ChunkingIrrelevant | v2/fixtures/ds4_eval/ds4_eval.c:2042-2089 | any cut of a text into tokens shows the same characters and styles and ends in the same mode as one finishing call |
| StreamMeaning.FilterMeans | v2/fixtures/ds4_eval/ds4_eval.c:2042-2089 | a text read as characters and tags is shown as its characters with a line feed for every close tag, in the style of the mode each is in, and ends in the mode of its last tag |
| StreamMeaning.ThinkBlockShown | v2/fixtures/ds4_eval/ds4_eval.c:2042-2089 | "<think>", thoughts, "</think>" and an answer show the thoughts in the thinking style, a line feed, and the answer plain |
| StreamMeaning.HeldBack | v2/fixtures/ds4_eval/ds4_eval.c:2058-2076 | the beginning of a tag at the end of the text is held back, and the finishing call shows it |
| StreamMeaning.OnlyTagsHeldBack | v2/fixtures/ds4_eval/ds4_eval.c:2058-2076 | nothing but the proper beginning of a tag is ever held back |
| Generation.Controller | v2/fixtures/ds4_eval/ds4_eval.c:3497-3523 | the choice of token, close kind, rank and next forced position: a close starts with the first close token exactly at the hard limit, or within the soft limit when it is a single likely token; otherwise forcing goes on or the sampler chooses |
| Generation.RunOneCase | v2/fixtures/ds4_eval/ds4_eval.c:3428-3567 | the generation loop equals its step function iterated |
| Generation.RunWithinContext | v2/fixtures/ds4_eval/ds4_eval.c:3328-3567 | prompt and generated tokens never exceed the context; at most one close is recorded, soft only between the limits, hard only within the hard limit |
| GenerationEnds.SamplerDecides | v2/fixtures/ds4_eval/ds4_eval.c:3430-3567 | from any state, while no token is forced, the loop says the sampled text up to the first interruption, end-of-sequence sample or decode failure and ends there for that reason, or spends its budget when there is none |
| GenerationEnds.RunEnds | v2/fixtures/ds4_eval/ds4_eval.c:3430-3567 | a run without thinking ends at the first end-of-sequence sample, failure or interruption with the samples before it as its text; it spends its budget exactly when there is none |
| GenerationEnds.ThinkingRunEnds | v2/fixtures/ds4_eval/ds4_eval.c:3430-3567 | a thinking run that stops before the controller steps in ends the same way |
| GenerationEnds.ForcedStep | v2/fixtures/ds4_eval/ds4_eval.c:3509-3538 | a step at which a close token is due says that token, and stops only for the user or a failure |
| GenerationEnds.NaturalClose | v2/fixtures/ds4_eval/ds4_eval.c:3557-3566 | when the samples complete a close tag thinking ends there and the close is recorded as natural, with its token and what was left |
| GenerationEnds.SoftClose | v2/fixtures/ds4_eval/ds4_eval.c:3517-3537 | within the soft limit a single likely close token is taken at once and recorded with its rank |
| GenerationEnds.SkippedOrSpent | v2/fixtures/ds4_eval/ds4_eval.c:3310-3333 | a case is skipped if and only if there is no room for a token, and a spent budget is the smaller bound |
| AnswerReserve.ReserveKept | v2/fixtures/ds4_eval/ds4_eval.c:3502-3529 | when the close tokens fit, a run that spends its budget ends outside thinking, whatever is sampled |
| AnswerReserve.ReserveIff | v2/fixtures/ds4_eval/ds4_eval.c:3502-3529 | it does so for every sampler if and only if the close tokens fit the hard limit and the generation limit |
| AnswerReserve.LoopAfter | v2/fixtures/ds4_eval/ds4_eval.c:3428-3567 | the state after n iterations, the loop going on from there |
| AnswerReserve.ForcedAtHardLimit | v2/fixtures/ds4_eval/ds4_eval.c:3513-3522 | without an earlier close, forcing starts with exactly H tokens left, spells the tag, ends thinking with its k-th token and leaves H - k |
| Scheduler.RequestsOtherCase | v2/fixtures/ds4_eval/ds4_eval.c:1854-1883 | typed selections stay within the table and never request the running case; pausing is toggled, and lifted by quitting |
| Scheduler.KeysSelect | v2/fixtures/ds4_eval/ds4_eval.c:1854-1883 | the arrows move the highlight from the active case within the table, and enter requests the highlighted case unless it is running |
| Scheduler.EvalUi.ConsumeInput | v2/fixtures/ds4_eval/ds4_eval.c:1840-1884 | one snapshot of the keyboard moves the selection, the request, the pause and the quit flag |
| Scheduler.EvalUi.WaitIfPaused | v2/fixtures/ds4_eval/ds4_eval.c:3258-3272 | the wait ends when the pause is lifted, and does not end only when nothing more is typed |
| Scheduler.NextPendingCase | v2/fixtures/ds4_eval/ds4_eval.c:3620-3627 | the first pending case from the start on, cyclically; -1 only when none is pending |
| Scheduler.EvalUi.RunOneCase | v2/fixtures/ds4_eval/ds4_eval.c:3290-3618 | a run changes only its own case's status; the choice found afterwards is what was typed during it; it fails only when prompt, prefill or decoding fails, and runs to its end only when nothing was asked for and everything typed was looked at |
| Scheduler.EvalUi.Generate | v2/fixtures/ds4_eval/ds4_eval.c:3431-3496 | a quit or a request found at a look is obeyed before the next token; with pauses, more input is read after it only when the program was already paused before it |
| Scheduler.EvalUi.RunActive | v2/fixtures/ds4_eval/ds4_eval.c:3353-3618 | without pauses a run is ended by the first look after the prompt that finds a quit or a request, and by nothing else but a failure |
| Scheduler.EvalUi.RunNext | v2/fixtures/ds4_eval/ds4_eval.c:3752-3786 | one round: between runs one look is made and more only while paused; a quit ends the loop, a request is the case run, else the expected case; a request made during the run is the case that comes next, else the case is settled and the next pending one follows |
| Scheduler.RunCases | v2/fixtures/ds4_eval/ds4_eval.c:3750-3787 | for every finite input the case loop ends or waits in a pause left on; the inputs read are split over rounds in which every request is obeyed: the run after a request is the requested case, every other run the next pending one; unless it waits, quits or fails every case is passed, failed or skipped; without a selection or a quit the cases run in index order, each once |
| Initializer.FindMatchingBrace | v2/scripts/ds4_eval_api_runner.py:85-107 | the brace scan that skips string literals and escapes |
| Initializer.SplitCaseEntries | v2/scripts/ds4_eval_api_runner.py:110-120 | the entries between the outermost inner braces |
| Initializer.ReadFields | v2/scripts/ds4_eval_api_runner.py:132-175 | the designated fields of an entry, choices padded by index and empty ones dropped at the end |
| Initializer.ReadEvalCases | v2/scripts/ds4_eval_api_runner.py:178-204 | the case list of a source text, and when parsing fails |
| InitializerRoundTrip.EntryRead | v2/scripts/ds4_eval_api_runner.py:123-175 | a printed entry gives back its case with its non-empty choices, whatever braces, quotes, commas or dots its strings hold, each string as its UTF-8 bytes taken for Latin-1 |
| InitializerRoundTrip.TableRead | v2/scripts/ds4_eval_api_runner.py:178-204 | parsing a printed table of any cases reports exactly these, numbered, as read |
| InitializerRoundTrip.TableRoundTrips | v2/scripts/ds4_eval_api_runner.py:85-204 | the parser inverts the printer if and only if cases are ASCII text, numbered in order and have no empty choice |
| InitializerFields.EntryMeans | v2/scripts/ds4_eval_api_runner.py:132-175 | for any printed fields in any order, repeated or with gaps: every name and every choice has the value assigned last, unassigned choices are empty, trailing empty ones are dropped; a choice without an index is refused |
| InitializerFields.FieldNeedsName | v2/scripts/ds4_eval_api_runner.py:135-140 | only a dot and a C identifier are read as a field |
| InitializerFields.CasesKeepIndex | v2/scripts/ds4_eval_api_runner.py:186-204 | the cases come exactly from the entries with a source, an id, a question and an answer, in order, each with the index of its entry; the list fails exactly when an entry does |
| InitializerEscapes.LetterEscape | v2/scripts/ds4_eval_api_runner.py:123-130 | the one-character escapes of C stand for their characters |
| InitializerEscapes.BackslashKept | v2/scripts/ds4_eval_api_runner.py:123-130 | a backslash before any other character stays; a trailing one fails |
| InitializerEscapes.NumericEscapeRead | v2/scripts/ds4_eval_api_runner.py:123-130 | a code point of two, four or eight hexadecimal digits in either case is that character, and fails when it is none |
| InitializerEscapes.NumericBroken | v2/scripts/ds4_eval_api_runner.py:123-130 | too few hexadecimal digits fail |
| InitializerEscapes.OctalEscapeRead | v2/scripts/ds4_eval_api_runner.py:123-130 | one to three octal digits are the character of that number |
| InitializerEscapes.BytesAreUtf8 | v2/scripts/ds4_eval_api_runner.py:123-130 | a character outside ASCII comes out as its UTF-8 bytes, section 3 of RFC 3629, each a character of its own |
| LiveGrading.LiveState.AppendAnswer | v2/scripts/ds4_eval_api_runner.py:1077-1096 | the new state of the bookkeeping, with the running totals attached to the record |
| LiveGrading.LiveState.HandlePollEvents | v2/scripts/ds4_eval_api_runner.py:1032-1046 | which events record an answer, and the stop on low accuracy |
| LiveGrading.LiveState.PollLiveAnswers | v2/scripts/ds4_eval_api_runner.py:1008-1074 | polling until nothing is pending, the batch has ended or the time is up |
| LiveGrading.LiveState.BackfillAnswers | v2/scripts/ds4_eval_api_runner.py:1099-1118 | the totals recomputed and the missing rows appended in collect order |
| LiveGrading.GradeRows | v2/scripts/ds4_eval_api_runner.py:640-676 | total, passed and tokens over all rows of a collect |
| LiveStops.HandleEvents | v2/scripts/ds4_eval_api_runner.py:1032-1046 | events are handled up to the first record whose counts are too low, or all of them |
| LiveStops.PollStops | v2/scripts/ds4_eval_api_runner.py:1008-1074 | the first poll that stops the run fixes the outcome and the state: nothing pending, low accuracy at its record, the end of the batch with nothing left pending, the timeout; without a stop polling goes on |
| LiveStops.LaterPollsIgnored | v2/scripts/ds4_eval_api_runner.py:1008-1074 | after a stop the outcome is the same for every continuation of the polls |
| LiveStops.AbortExactly | v2/scripts/ds4_eval_api_runner.py:1044-1046 | a run is aborted if and only if the counts of its last record are too low, and no earlier record had such counts |
| LiveStops.BeforeAnswers | v2/scripts/ds4_eval_api_runner.py:1032-1046 | what has been recorded while nothing stops the run is exactly the requests that the polls end |
| LiveStops.CollectGraded | v2/scripts/ds4_eval_api_runner.py:640-676 | grading a collect counts the rows, those approved of under their id (or "None" when it is missing) and their tokens |
| LiveExactlyOnce.CountersAreFolds | v2/scripts/ds4_eval_api_runner.py:1077-1118 | for arbitrary replies the counters, and the totals on every record, equal the fold over the answers up to it, while polling and after backfill |
| LiveExactlyOnce.PolledOnce | v2/scripts/ds4_eval_api_runner.py:1008-1046 | however events repeat, reorder or come from other batches, no request is recorded twice and only requests are; unless the batch ended first the others are still pending, and polling is done just when all are recorded |
| LiveExactlyOnce.StrayRepeats | v2/scripts/ds4_eval_api_runner.py:1034-1045 | when one record does not stop the run, two events for a request whose reply carries another id record that id twice |
| LiveExactlyOnce.NoRepeatIff | v2/scripts/ds4_eval_api_runner.py:1032-1046 | no id is recorded twice, for any polls and any accuracy threshold, if and only if collecting a request always echoes its id |
| LiveExactlyOnce.BackfilledOnce | v2/scripts/ds4_eval_api_runner.py:1099-1108 | whatever the collect holds, backfill repeats no id and adds exactly the missing ones |
| LiveExactlyOnce.OneRowEachIs | v2/scripts/ds4_eval_api_runner.py:1316-1324 | collecting by id keeps every row if and only if all rows have ids and no two share one |
| LiveExactlyOnce.BackfillMatchesCollect | v2/scripts/ds4_eval_api_runner.py:902-925 | when the terminal results of the requests do not change, after any polling the backfilled answers cover each id of the collect once, and the totals equal those of grading the collect if and only if it has one row for every id |
| ProcessClosure.GrowTargets | v2/scripts/ds4_stop_coordinator_api.py:74-81 | the changed-flag loop ends and yields exactly the pids reachable through parent links, cycles included |
| ProcessClosure.CoordinatorTargets | v2/scripts/ds4_stop_coordinator_api.py:70-82 | exactly the reachable processes, each once, highest pid first, each with its last row of the table |
| ProcessClosure.CoordinatorIs | v2/scripts/ds4_stop_coordinator_api.py:85-92 | a command is a coordinator exactly when it is neither the stop nor the relaunch script and runs the API module with -m as a word of its own, or the coordinator script from the scripts directory |
| ProcessClosure.SelfListedOnlyBelowTarget | v2/scripts/ds4_stop_coordinator_api.py:71-73 | the script lists itself if and only if its own parent is a target |
| ProcessClosure.BuildChildren | v2/scripts/ds4_pipeline_lifecycle.py:415-419 | the children of every pid in table order |
| ProcessClosure.CollectTree | v2/scripts/ds4_pipeline_lifecycle.py:424-428 | the stack loop ends and lists exactly the reachable pids, none twice, every one a root or after a parent of its own |
| ProcessClosure.BothClosures | v2/scripts/ds4_pipeline_lifecycle.py:424-428 | from the same roots and table both routines name the same processes |
| ManagedBlock.ReplaceManagedBlock | scripts/ds4_install_spark_ssh_failover.py:99-111 | the replacement with its loop over line breaks equals its specification |
| ManagedBlock.ReplaceKeepsAround | scripts/ds4_install_spark_ssh_failover.py:107-111 | text before the pair is kept exactly, text after it less its leading line breaks |
| ManagedBlock.LastReplacementWins | scripts/ds4_install_spark_ssh_failover.py:99-111 | a managed file stays managed, and of two replacements only the last shows |
| ManagedBlock.Idempotent | scripts/ds4_install_spark_ssh_failover.py:99-111 | replacing twice with one block is replacing once |
| ManagedBlock.RunIsLast | scripts/ds4_install_spark_ssh_failover.py:99-111 | any run of replacements ends as if only the last had been made |
| ManagedBlock.FirstInstall | scripts/ds4_install_spark_ssh_failover.py:104-106 | in an unmarked file the block goes first and the file then holds one pair; the second application is a fixed point, the first one if and only if the file was empty |
| ManagedBlock.Refusals | scripts/ds4_install_spark_ssh_failover.py:100-108 | replacement succeeds if and only if the file is unmarked or holds one pair in order; a lone pair in the wrong order is a ValueError |
| ManagedBlock.GeneratedIsGood | scripts/ds4_install_spark_ssh_failover.py:53-96 | the generated block meets what these results need if and only if no line between the markers holds a marker |
| PrometheusLabels.ParsePrometheusLabels | v2/scripts/ds4_api_queue_benchmark.py:561-593 | the scan ends on every input and yields the labels of its specification |
| PrometheusLabels.PrintedReads | v2/scripts/ds4_api_queue_benchmark.py:550-593 | a printed series gives its metric name less a vllm: prefix, and each value with line feeds turned into n |
| PrometheusForeign.BareHead | v2/scripts/ds4_api_queue_benchmark.py:550-558 | a head without braces is the metric name less a vllm: prefix, with no labels |
| PrometheusForeign.PrefixDropped | v2/scripts/ds4_api_queue_benchmark.py:550-558 | the prefix is dropped once and the labels are those between the braces |
| PrometheusForeign.EntriesRead | v2/scripts/ds4_api_queue_benchmark.py:561-593 | blanks around names are stripped; nameless entries and entries without a quoted value are passed over and nothing after them is lost |
| PrometheusForeign.UnclosedReads | v2/scripts/ds4_api_queue_benchmark.py:575-590 | a value without its closing quote extends to the end |
| PrometheusLabels.HeadRoundTrips | v2/scripts/ds4_api_queue_benchmark.py:550-593 | name and labels come back if and only if no value holds a line feed |
| PrometheusLabels.SeriesLineRoundTrips | v2/scripts/ds4_api_queue_benchmark.py:517-525 | in a whole series line they come back if and only if no value holds white space |
| Calibration.CalibrateShape | v2/scripts/ds4_spark_batch_shape_calibrate.py:92-119 | every probe outcome is honest and no size is probed twice; after a failure the size above the best is a recorded failure and the number of probes is exact; without one the best is the last power of two; the logarithmic bound |
| Calibration.CalibrateMonotone | v2/scripts/ds4_spark_batch_shape_calibrate.py:92-119 | for a monotone oracle the result is the largest passing size if and only if a power of two within the maximum fails, or the largest such power is the maximum, or the size after it fails |
| Calibration.MissesThree | v2/scripts/ds4_spark_batch_shape_calibrate.py:98-107 | with a maximum of three and every size passing the search returns two |
| FabricRoutes.BuildSpecs | v2/scripts/ds4_check_spark_fabric_routes.py:156-182 | the nested loops build the specs of the wanted pairs of any node list in order, with the addresses and names of both ends |
| FabricRoutes.SpecFields | v2/scripts/ds4_check_spark_fabric_routes.py:156-182 | every spec carries the names and addresses of its two nodes, and exactly the pairs the flags ask for have one |
| FabricRoutes.HopOnLink | scripts/ds4_install_ring_control_iface_local.sh:114-125 | the gateway of a route is an address of the neighbour towards the target, on the link its device is wired to |
| FabricRoutes.FollowsLine | v2/scripts/ds4_check_spark_fabric_routes.py:146-182 | every path along which each gateway is on the wire of its device is the line from source to target, hence the distance in hops and no node twice |
| FabricRoutes.DeliveredIff | v2/scripts/ds4_check_spark_fabric_routes.py:156-182 | a packet arrives if and only if the flags let the tables serve the pair and no rank between its ends is missing, for all four combinations of the flags |
| FabricRoutes.LinkSubnets | v2/scripts/ds4_check_spark_fabric_routes.py:146-153 | both directions of a link share a subnet, different links do not |
| FabricRoutes.FabricClash | v2/scripts/ds4_check_spark_fabric_routes.py:92-93 | some link takes the fabric's subnet if and only if there are at least 51 nodes |
| LayoutStats.InventoryStats | scripts/ds4_layout_inventory.py:35-90 | a file counts once, a missing path nothing; of a directory the raw totals of the first walk, and the first entries of the second walk whose inode the first one saw |
| LayoutStats.CleanupStats | scripts/ds4_layout_cleanup.py:31-56 | a file counts once, a missing path nothing; of a directory the totals over the first entry of every inode |
| LayoutStats.SumAccount | scripts/ds4_layout_inventory.py:50-68 | counting every name gives 512 bytes for each block and one file for each regular entry |
| LayoutStats.FirstsAccount | scripts/ds4_layout_cleanup.py:40-56 | counting every inode once gives the blocks of its first name and as many files as there are inodes |
| LayoutStats.AccountsAgree | scripts/ds4_layout_inventory.py:69-90 | in whatever order names are listed, on an unchanged tree the two-pass and the one-pass totals are equal |
| LayoutStats.UniqueAtMostRaw | scripts/ds4_layout_inventory.py:50-90 | counting inodes once never exceeds counting names |
| LayoutStats.PlanThenCheck | scripts/ds4_layout_manifest.py:53-63 | what the planner pins for a file or a directory passes the size and count check while nothing changes, and does not exceed the raw totals |
| LayoutStats.CheckEntry | scripts/ds4_layout_cleanup.py:127-133 | the check reports a size or a count error exactly when that number differs |
| RoundRobin.GenerateGrouped | v2/scripts/ds4_api_queue_benchmark.py:335-341 | shape after shape, indices consecutive |
| RoundRobin.GenerateRoundRobin | v2/scripts/ds4_api_queue_benchmark.py:344-354 | the loop over remaining counts ends and emits whole rounds, indices consecutive |
| RoundRobin.SameShapes | v2/scripts/ds4_api_queue_benchmark.py:329-354 | every shape comes max(1, count) times, and both orders emit the same multiset |
| RoundRobin.PrefixFair | v2/scripts/ds4_api_queue_benchmark.py:344-354 | at every prefix, of two shapes not yet exhausted the earlier one is level or one ahead |

## Left out

- NUL bytes inside an output: C strings end there, so the trace and the graders only ever see what precedes one.
- Terminal drawing, colours, the run clock, elapsed times, token rates and rounded accuracies.
- The model engine, its tokenizer and its sampler: arbitrary functions here. Tokens that decode to text with NUL bytes are not modelled.
- Scheduler.RunCases: a run's token loop is represented by the number of keyboard looks it makes; the loop itself is `Generation.RunOneCase`. A pause that is never lifted keeps the program waiting forever; the model ends there with the outcome Waiting.
- Loose fallbacks of the runner's graders (phrase patterns, last letter, last integer): the two graders differ there by design, so agreement is stated for compliant last lines only.
- AnswerAgreement.SpecLineDecides: a specification that starts with 152 blanks or more is not covered, because no number is then in the evaluator's window and both graders fall back to other parts of the text.
- AnswerAgreement.SpecLineAgrees: the same.
- Line specifications separated by blanks only, and non-ASCII text in the graders.
- Initializer.ReadFields: named escapes and escapes of surrogate code points are reported as failures, although the runner decodes them.
- Initializer.ReadEvalCases: the same.
- Answer keys that Python's `int` accepts with signs, blanks or underscores.
- File reading and writing, newline translation, HTTP, ssh, `ps`, `ss` and `stat`: their results are inputs. `v2/src` is not part of this model.
- The wait between polls, progress output and cancel requests of the runner; a timeout is one of its recorded outcomes.
- LayoutStats.CheckEntry: mounts, open files and the path rules of the check are not modelled.
- FabricRoutes.DeliveredIff: only the built routes forward packets, and each node owns the ends of its links that its rank gives it.
- ManagedBlock.GeneratedIsGood: the lines written for each node are arbitrary text; how they are put together from the profile is not modelled.
- Telemetry summaries, utility scores, the dashboard and configuration audits: they copy, round or look up values that this model does not represent.
