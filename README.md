# quentale filter fuzzer — a Dafny model

The fuzzer searches for a combination of image filters that makes OCR read
a scanned image best. Each pass of its endless loop does four things:

- It draws a filter count below nine. It draws that many catalogue indices, skipping (not redrawing) an index already taken in this pass.
- For each new filter it samples the parameters. It appends `name` and `!param` to a comma-separated label, and applies the filter to a fresh copy of the input image.
- It skips the pass when the label is already in the set `om`. Otherwise it records the label, reads the filtered image with OCR and scores the text. The score is the reference text's byte length when OCR read nothing. Otherwise it is the bytes of the diff's `Delete` spans.
- It prints `score;label` and lowers `best` when the score beats it.

The model is split by concern:

- `text.dfy` (`Text`): joining and splitting on a separator, Go's `%d`, and Go's `len` as a UTF-8 byte count.
- `random.dfy` (`Random`): the generator as a fixed stream of draws.
- `filters.dfy` (`Filters`): the catalogue, the parameter sampling and a symbolic image. The specification `Parametrize` picks the entry by its index; the imperative `SwitchFilter` switches on the name as the code does and is proved to agree with it.
- `labels.dfy` (`Labels`): the label and reading it back.
- `sampler.dfy` (`Sampler`): the preprocessing loop, as a specification function `Sampled` and as the imperative `Sample` proved equal to it.
- `scoring.dfy` (`Scoring`): the error count and its loop.
- `fuzzer.dfy` (`Fuzz`): the loop. A pure `Pass` specifies one pass over the state it carries. The class `Fuzzer` has the fields `seen` (`om`), `best`, the generator position and the printed lines. Its methods `Step` and `Run` are proved equal to `Pass` and to a bounded run of it.

Two consequences of the code are easy to miss:

- The diff is computed from the OCR text to the reference (fuzz/main.go:175). A `Delete` span is therefore text the OCR produced that the reference lacks. Extra text is what costs, and a missing character costs nothing: "Hello Wrld" read for "Hello World" scores 0 (`Scoring.MissingCharacterIsFree`).
- Float parameters enter the label through `%f`, six decimals (fuzz/main.go:121, 130, 143). Two combinations with the same filters in the same order, the same radii and the same `%f` texts therefore share a label, whatever their float values, and the second is skipped as a duplicate (`Labels.LabelsCollide`).

## Model

| member | source | states |
|---|---|---|
| Random.Intn | fuzz/main.go:102 | `rand.Intn(n)` yields a value in [0, n) |
| Filters.Names | fuzz/main.go:82-92 | the `filters` catalogue: its nine names in the order their indices are drawn |
| Filters.Parametrize | fuzz/main.go:118-144 | the filter sampled for catalogue entry `id` carries that entry's name and its parameter count (2 for sharpen; 1 for blend, blur, contrast; 0 otherwise) and consumes one draw per parameter; on a well-formed generator, radii are in [1,4] and floats in [0,1) |
| Filters.Transform | fuzz/main.go:118-145 | what one selected filter does to `t`: the library call of its `case` with its sampled parameters (`Fade`, `Box` blur, `Linear` contrast, `Auto` gamma, `Maximal` greyscale, `Pixelate` at 2x1 fitted, `Sharpen`), and nothing for channel and levels |
| Filters.Apply | fuzz/main.go:98-147 | the image a pass hands to OCR: `t` starts as the input and each selected filter, in the order taken, is applied to the previous result |
| Filters.ApplyConcat | fuzz/main.go:122-144 | rebinding `t` filter by filter composes: applying a longer combination applies its extra filters to the shorter one's result |
| Labels.Label | fuzz/main.go:103-143 | the label a pass builds: each selected filter's name followed by `!param` per parameter, the entries joined by `,` |
| Labels.LabelEmpty | fuzz/main.go:103-116 | the label is empty exactly when no filter was selected |
| Labels.LabelExtend | fuzz/main.go:112-144 | appending `,name` (or `name` to an empty label) and then `!param` per parameter yields the label of the combination with the new filter appended |
| Labels.LabelAvoidsSemicolon | fuzz/main.go:103-143 | the label of filters with well-formed parameters holds no `;`, the separator of the printed line |
| Labels.LabelRoundTrip | fuzz/main.go:111-144 | reading a label back at `,` and `!` returns each selected filter's name and parameter texts in order |
| Labels.TokenVisible | fuzz/main.go:118-144 | two filters give the same label entry exactly when they are the same filter with equal integer parameters and equal `%f` texts |
| Labels.LabelsCollide | fuzz/main.go:149-152 | two combinations hit the same `om` key exactly when they agree filter by filter on name, integer parameters and float texts |
| Sampler.Requested | fuzz/main.go:102 | the filter count a pass asks for: one `rand.Intn(len(filters))` draw, below 9 |
| Sampler.PickStep | fuzz/main.go:106-146 | one pass of the inner loop: draw an index; if it is already in `fm`, only the draw is recorded; otherwise the index is taken and its filter sampled from the following draws |
| Sampler.Sampled | fuzz/main.go:101-147 | the whole preprocessing block: the requested count of inner-loop passes from the draw after the count |
| Sampler.Picks | fuzz/main.go:105-147 | `n` passes of the inner `for i` loop from a given draw, starting with no index taken, no filter and an empty label |
| Sampler.PicksCounts | fuzz/main.go:105-110 | after `n` passes of the inner loop: `n` indices drawn, at most `n` filters taken, and one draw consumed per index and per parameter |
| Sampler.PicksOrder | fuzz/main.go:105-116 | the inner loop takes each catalogue index at most once and exactly the indices drawn. Each filter carries its index's catalogue name, and the filters stand in the order their indices were first drawn |
| Sampler.PicksWellFormed | fuzz/main.go:118-144 | every selected filter has its parameters in the sampled ranges |
| Sampler.NamesDistinct | fuzz/main.go:82-92 | the nine catalogue names are pairwise distinct |
| Sampler.SampledShape | fuzz/main.go:101-116 | the requested count is below 9 and may be 0. There are at most that many selected filters, no name repeats, indices are taken in first-draw order, a zero count gives the empty label, and the generator position advances by 1 + count + parameters |
| Sampler.SwitchFilter | fuzz/main.go:118-145 | the `switch` on the filter name yields the filter `Parametrize` samples for that entry, appends `!param` per parameter, and applies that filter to `t` |
| Sampler.TakeFilter | fuzz/main.go:111-145 | a new filter extends the label and the image to those of the combination with the filter appended |
| Sampler.SamplePass | fuzz/main.go:106-146 | one pass of the inner loop performs one step of the specification: skip a repeated index, otherwise mark it in `fm` and take the filter |
| Sampler.Sample | fuzz/main.go:101-147 | the preprocessing block selects exactly the specified combination, of at most the requested count and with distinct names. The label it builds is that combination's label, and the image is the input with those filters applied in order |
| Scoring.ErrorCount | fuzz/main.go:170-182 | the score of one OCR text: the reference's byte length when the text is empty, else the byte lengths of the diff's `Delete` spans summed |
| Scoring.CountErrors | fuzz/main.go:170-182 | the counting loop returns the reference's byte length on empty OCR text, else the sum of the `Delete` spans' byte lengths |
| Scoring.SourceBytes | fuzz/main.go:175-181 | every byte of the diff's source text lies in a `Delete` or an `Equal` span |
| Scoring.TargetBytes | fuzz/main.go:175-181 | every byte of the diff's target text lies in an `Insert` or an `Equal` span |
| Scoring.ScoreBounds | fuzz/main.go:175-181 | for a diff from the OCR text to the reference, the score is at most the OCR text's length and at least its excess over the reference's length |
| Scoring.EmptyTextScoresReference | fuzz/main.go:172-175 | a diff from empty text deletes nothing, and the empty-text rule scores the full reference length instead |
| Scoring.MissingCharacterIsFree | fuzz/main.go:175-181 | "Hello Wrld" read for "Hello World" has a diff scoring 0 |
| Scoring.ExtraCharacterCosts | fuzz/main.go:175-181 | "Hello World" read for "Hello Wrld" scores at least 1 under every diff |
| Scoring.PerfectReadScoresZero | fuzz/main.go:175-181 | a read equal to the reference, the empty one included, has an all-`Equal` diff scoring 0 |
| Text.ByteLength | fuzz/main.go:173 | Go's `len` of a string: the sum of the UTF-8 widths (1 to 4 bytes) of its characters |
| Text.Decimal | fuzz/main.go:125 | Go's `%d` of a non-negative integer: a non-empty run of decimal digits, a single digit exactly below 10 |
| Text.ByteLengthBounds | fuzz/main.go:173 | Go's `len` of a string is between its character count and four times that, and 0 only for the empty string |
| Text.ByteLengthConcat | fuzz/main.go:179 | byte lengths add up over concatenation |
| Text.DecimalRoundTrip | fuzz/main.go:125 | the `%d` rendering of a radius reads back as the same number |
| Text.DecimalInjective | fuzz/main.go:141 | distinct radii render to distinct `%d` texts |
| Fuzz.LineText | fuzz/main.go:188 | the printed `%d;%s\n` line: the score's digits, `;`, the label and a newline |
| Fuzz.BestOfIsMinimum | fuzz/main.go:184-186 | `best` is the least printed score, or `MaxInt64` before any |
| Fuzz.FlaggedAreRecords | fuzz/main.go:184-192 | a green line scores strictly below every earlier line; ties are not flagged |
| Fuzz.BestIsFlagged | fuzz/main.go:184-189 | once `best` is below `MaxInt64`, some green line carries exactly that score |
| Fuzz.LineRoundTrip | fuzz/main.go:188 | a `%d;%s` line whose label holds no `;` splits back at `;` into the score's digits and the label, and the digits read back as the score |
| Fuzz.Pass | fuzz/main.go:98-192 | one loop body: sample a combination; skip it if its label is in `om`; else add the label to `om`, crash if OCR fails, otherwise score the text, print the line (green when the score is below `best`) and lower `best` to the minimum |
| Fuzz.StartKeepsInvariant | fuzz/main.go:81-93 | the initial state (`best = MaxInt64`, empty `om`, nothing printed) satisfies the loop invariant |
| Fuzz.PrintKeepsInvariant | fuzz/main.go:184-192 | printing a line with an unseen label, flagged as the code flags it, keeps `best` the minimum, the flags exact and the labels distinct |
| Fuzz.PassKeepsInvariant | fuzz/main.go:98-192 | one pass keeps the invariant: `best` is the least printed score, the green lines are exactly the new bests, no label is printed twice, and every printed label is in `om` |
| Fuzz.PassMonotone | fuzz/main.go:149-192 | a pass never raises `best` or removes a label from `om`. It prints only the line it reports and advances the generator by what the sampling consumed |
| Fuzz.PassDuplicate | fuzz/main.go:149-151 | a pass is skipped exactly when its label is in `om`. A skipped pass leaves `om`, `best` and the output unchanged |
| Fuzz.PassReportsNewLabel | fuzz/main.go:149-186 | a reported label was not in `om` before the pass and is in it after, and the line is green exactly when its score is below the old `best` |
| Fuzz.ReportedLineRoundTrip | fuzz/main.go:184-192 | under a generator whose floats have the `%f` shape, every line a pass prints splits back at `;` into the score's digits and the label, and the digits read back as the score |
| Fuzz.Iterate | fuzz/main.go:97-193 | up to `n` applications of a pass from a state, collecting each outcome and ending after the first crash |
| Fuzz.Passes | fuzz/main.go:97-193 | the loop run for up to `n` passes of `Pass` from a state, ending after the first crash |
| Fuzz.IterateKeepsInvariant | fuzz/main.go:97-193 | a pass that keeps the invariant keeps it over any bounded run |
| Fuzz.IterateMonotone | fuzz/main.go:97-193 | over a run `best` never rises and `om` only grows. The output is the reported lines in order |
| Fuzz.IterateStopsAtCrash | fuzz/main.go:97-193 | a run makes at most the allowed passes, and only its last pass may be a crash |
| Fuzz.PassesKeepInvariant | fuzz/main.go:97-193 | the loop itself, run for at most `n` passes, keeps the invariant and the monotonicity above and stops at the first crash |
| Fuzz.Fuzzer.constructor | fuzz/main.go:81-93 | the fuzzer starts at `best = MaxInt64` with an empty `om`, no output and the generator at its first draw |
| Fuzz.Fuzzer.Step | fuzz/main.go:98-192 | one pass of the loop body updates `om`, `best`, the output and the generator exactly as `Pass` specifies, and keeps the invariant |
| Fuzz.IterateAdvance | fuzz/main.go:97-193 | after one pass, what remains of a run is nothing when the pass crashed, and otherwise the run of one pass fewer from the state the pass left |
| Fuzz.Fuzzer.RunPass | fuzz/main.go:97-193 | one turn of the run loop leaves what remains of the specified run |
| Fuzz.Fuzzer.Run | fuzz/main.go:97-193 | a bounded run updates the state and returns the outcomes exactly as `Passes` specifies |
| Fuzz.RepeatedLabel | fuzz/main.go:149-151 | with a generator whose every draw is zero, no filter is requested. For a three-byte reference and an empty read, the first pass prints `3;` in green, and the second pass is a duplicate that prints nothing |

## Left out

- Command-line parsing, help output, opening and decoding the image and reading the reference file (fuzz/main.go:44-79) are I/O. The decoded image and the reference text are constructor parameters.
- Seeding the generator from the clock (fuzz/main.go:95) is left out. The generator is a parameter: a stream of draws, of which `Intn(n)` reads the integer reduced modulo `n` and `Float64` reads a value in [0, 1) with its `%f` text. Go's own reduction algorithm and the numeric link between a float and its six-decimal text are not modelled; only the text's shape (digits and a point) is.
- The pixel filters of the image library are foreign calls. The image is symbolic: the input with the list of library calls and arguments applied to it.
- The OCR engine (fuzz/main.go:155-167) is a function from image to text. Failure of `LangUse` or `Out` is a `None` result, which makes the pass end in a crash (the process panics) and ends `Run`.
- Texts are modelled as valid UTF-8, that is, as sequences of Unicode scalar values. The program keeps the reference file's raw bytes (`string(by)`, fuzz/main.go:79), and `len(perfect)` (line 173) counts them. The diff library works on runes, so it returns each invalid byte as U+FFFD, which `len(d.Text)` (line 179) counts as 3 bytes. For such input the library's output is not a diff of the raw text, so the `IsDiffOf` premise of the score lemmas fails. The model cannot represent invalid bytes and does not cover this case.
- The diff library (fuzz/main.go:175) is a function parameter. The score lemmas rely only on its output being a diff from the OCR text to the reference (`IsDiffOf`); the algorithm and its line-mode speed-up are not modelled.
- Terminal colouring (fuzz/main.go:187-189) is the `newBest` flag on a printed line.
- The unbounded `for {}` loop is modelled as `Run(steps)`, which makes at most `steps` passes.
- Integer width: scores are unbounded naturals. Go's `int` could overflow only past 2^63 bytes of text, which is not modelled.
