# Strudel generation and DOCX-to-Markdown rendering, in Dafny

This project models two text generators from the repository's tools.

**The Strudel code generator** in `tools/youtube_to_strudel.py` turns an audio analysis into a live-coding pattern:

- the quantiser `_quantize_notes` snaps pitched notes to a 1/8-second grid and drops a note that repeats the last one kept;
- `_midi_to_note` names MIDI numbers, so 60 is `c4`;
- the tempo fallback and the key/mode heuristic of `analyze_tempo` and `analyze_key` are modelled from the values the signal library returns;
- `StrudelGenerator` writes the header comment, the `setcpm` call, the drum stanza, the bass stanza and the melody stanza, and joins them with blank lines.

The drum stanza is the largest part. `hits_to_pattern` folds the hit times of the first bars (at most four) onto a 16-step bar and marks a step when enough hits fall on it. `simplify_pattern` groups the bar into four beat tokens. The kick, snare and hihat voices are then chosen by what the patterns contain.

**The Markdown renderer** in `tools/docx_to_md.py` works over an abstract document of runs, paragraphs and tables:

- `runs_to_markdown` handles whitespace normalisation and bold/italic markers;
- `paragraph_to_markdown` renders headings, list items with their indent, and plain text;
- `table_to_markdown` pads short rows and adds a `---` separator;
- `convert` keeps the non-empty blocks, separates them with blank lines, strips the result and ends it with one line break.

Files:

- `options.dfy`: the `Option` type.
- `pynum.dfy`: the Python number semantics the code relies on: `round` rounds half to even, float `%` is floored, and `int()` truncates.
- `text.dfy`: strings, including join and split, `strip`, decimal formatting and parsing, and counting.
- `runs.dfy`: removal of consecutive duplicates, with a look-behind loop and a run-collapsing reference definition proved equal.
- `notes.dfy`: note names.
- `quantize.dfy`: the quantiser.
- `estimates.dfy`: the tempo and key decisions.
- `drums.dfy`: the drum stanza, plus worked examples.
- `strudel.dfy`: the header, the settings, the bass and melody stanzas, and `generate`.
- `markdown.dfy`: the DOCX renderer.

Times and durations are exact reals, not binary floats.

Where the code's documented design and the code differ, the model follows the code:

- **Voting threshold.** A step is marked when its count reaches `max(1, num_bars // 2)`, not ceil(N/2). The count is of hits, not of distinct bars. `bar_num` is computed but never used (`tools/youtube_to_strudel.py:318`).
- **Missing key.** When the key was never analysed, the generator falls back to `C minor`, because the mode defaults to `'minor'` (`:253`).
- **Fallback kick.** The fallback kick line appears only when no voice is emitted at all. A hihat pattern with 1 to 7 hits still gives a `struct` voice, so it suppresses the fallback (`:379-389`).
- **Tempo of zero.** The tempo is `round(tempo)`, which can be 0 (`Estimates.TempoCanRoundToZero`). The stanzas that divide by the tempo therefore need it positive; the predicate `Strudel.Generable` states exactly that.
- **First-note fallback.** When no note starts in the first two bars, the bass and melody fall back to the first eight notes (`:407-408`, `:444-445`).

## Model

| member | source | states |
|---|---|---|
| PyNum.RoundHalfEven | tools/youtube_to_strudel.py:223 | Python's `round` is the integer within 1/2 of its argument, and the even one on a tie |
| PyNum.FloorMod | tools/youtube_to_strudel.py:319 | float `%` by a positive modulus lies in [0, m) and differs from the argument by a whole multiple of m |
| PyNum.FloorModUnique | tools/youtube_to_strudel.py:319 | float `%` is the one remainder in [0, m) that leaves a whole multiple of m: `(k·m + r) % m == r` |
| PyNum.FloorModPeriodic | tools/youtube_to_strudel.py:319 | float `%` does not change when the argument moves by whole multiples of the modulus |
| Estimates.ResolveTempo | tools/youtube_to_strudel.py:76-80 | the bpm is within 1/2 of the scalar tempo or of the first element of an array tempo, the even neighbour on a tie (120.5 gives 120), and 120 for an empty array |
| Estimates.WholeTempoKept | tools/youtube_to_strudel.py:78-80 | a whole-number tempo, scalar or first array element, is kept unchanged |
| Estimates.TempoCanRoundToZero | tools/youtube_to_strudel.py:80 | a tempo of 0.5 rounds to a bpm of 0, so a positive bpm is not guaranteed |
| Estimates.TempoPositive | tools/youtube_to_strudel.py:76-80 | a tempo reading above 1/2 gives a positive bpm |
| Estimates.ArgMax | tools/youtube_to_strudel.py:92 | `argmax` picks a maximal bin, and the first of several equal maxima |
| Estimates.DecideKey | tools/youtube_to_strudel.py:92-101 | the root is the first strongest chroma bin; the mode is minor exactly when the bin 3 semitones above the root is strictly stronger than the bin 4 above, so ties give major |
| Estimates.FlatProfileIsCMajor | tools/youtube_to_strudel.py:92-101 | an all-equal (for example all-zero) profile gives C major |
| Estimates.StrongestBinIsRoot | tools/youtube_to_strudel.py:92-93 | a strictly strongest bin is the root |
| Estimates.DecideKeyTransposes | tools/youtube_to_strudel.py:92-101 | rotating the chroma profile by k semitones moves a strictly strongest root by k and keeps the mode |
| Estimates.TransposeKeepsMode | tools/youtube_to_strudel.py:97-101 | the third comparison reads the same two values after a rotation |
| Notes.SpellingsAreLowerCase | tools/youtube_to_strudel.py:64 | the spellings used in note names are the lower-cased `NOTE_NAMES`, in the same order |
| Notes.MidiToNoteRoundTrip | tools/youtube_to_strudel.py:235-239 | every name reads back to its MIDI number: pitch class `midi mod 12`, octave `midi div 12 - 1`, negative octaves included |
| Notes.MidiToNoteInjective | tools/youtube_to_strudel.py:235-239 | distinct MIDI numbers get distinct names |
| Notes.MidiToNotePlain | tools/youtube_to_strudel.py:235-239 | a name has no space, quote or line break, so it can sit in a quoted pattern |
| Quantizer.Snap | tools/youtube_to_strudel.py:223 | a snapped time is a multiple of 1/8 s within 1/16 s of the input, and on a tie the even multiple (0.0625 gives 0.0) |
| Quantizer.SnapOnGrid | tools/youtube_to_strudel.py:223 | a time already on the grid is not moved |
| Quantizer.Quantize | tools/youtube_to_strudel.py:213-233 | the output is no longer than the input, every time is on the grid, every name is the MIDI number's name, and no two neighbours share time and MIDI number |
| Quantizer.QuantizeFromKeys | tools/youtube_to_strudel.py:218-231 | the loop from any last-kept state keeps exactly the look-behind duplicate removal of the snapped (time, midi) pairs |
| Quantizer.QuantizeCollapsesRuns | tools/youtube_to_strudel.py:213-233 | the kept pairs are the snapped pairs with each run of equal pairs collapsed to one, so they form a subsequence and keep order and MIDI numbers |
| Quantizer.QuantizeEmptyIff | tools/youtube_to_strudel.py:215-216 | the quantiser returns an empty list exactly for an empty input |
| Quantizer.QuantizeIdempotent | tools/youtube_to_strudel.py:213-233 | quantising a quantised list returns it unchanged |
| Quantizer.QuantizeDropsRepeatedNotes | tools/youtube_to_strudel.py:222-231 | repeated (time, midi) input pairs 60, 60, 62, 62, 64 give 60, 62, 64 |
| Runs.CollapseRuns | tools/youtube_to_strudel.py:414-419 | the reference deduplication is no longer than its input, empty only for an empty input, starts with the input's first element and has no equal neighbours |
| Runs.DropRepeatsIsCollapse | tools/youtube_to_strudel.py:414-419 | the `last_note` loop that starts from `None` equals the run-collapsing reference |
| Runs.DropRepeatsAfter | tools/youtube_to_strudel.py:219-231 | the loop started from a given last element equals collapsing with that element in front, then dropping it |
| Runs.CollapseKeepsValues | tools/youtube_to_strudel.py:414-419 | collapsing runs loses no value: the same elements occur before and after |
| Runs.CollapseIsSubsequence | tools/youtube_to_strudel.py:414-419 | the collapsed list is a subsequence of its input |
| Runs.CollapseOfRepeatFree | tools/youtube_to_strudel.py:414-419 | a list without equal neighbours is left unchanged |
| Drums.BarLength | tools/youtube_to_strudel.py:301-302 | the bar lasts four beats of 60/bpm seconds, that is bar × bpm = 240 |
| Drums.NumBars | tools/youtube_to_strudel.py:305 | at most four bars; fewer only when that is the whole number of bars that fit in the duration, and four only when at least four bars fit |
| Drums.StepOf | tools/youtube_to_strudel.py:318-320 | a hit lands on the step nearest to its offset into the bar measured in sixteenths, the even one on a tie, with an offset of 15.5 slots or more wrapping to step 0 |
| Drums.StepOfNearest | tools/youtube_to_strudel.py:319-320 | any step that is the nearest slot in that sense is the step `StepOf` returns, so the contract decides every hit, on the grid or off it |
| Drums.StepOfGridSlot | tools/youtube_to_strudel.py:319-320 | a hit exactly on grid slot j of any bar k (time `k·bar + j·bar/16`) lands on step j |
| Drums.StepOfPeriodic | tools/youtube_to_strudel.py:319-320 | shifting a hit by whole bars keeps its step, so every bar folds onto the same 16 steps |
| Drums.Tally | tools/youtube_to_strudel.py:314-321 | each step's tally adds the number of early-enough hits that land on that step |
| Drums.Threshold | tools/youtube_to_strudel.py:324 | the threshold is `max(1, num_bars // 2)`: 1 below two bars, otherwise the t with 2t ≤ num_bars < 2t + 2 |
| Drums.HitsToPattern | tools/youtube_to_strudel.py:308-329 | the pattern has 16 steps of `x` or `~`, and a step is `x` exactly when the hits before `num_bars` bars that land on it reach the threshold |
| Drums.LateHitsIgnored | tools/youtube_to_strudel.py:317 | hits at or after `num_bars × bar_duration` do not change the pattern |
| Drums.NoBarsAllRests | tools/youtube_to_strudel.py:305-329 | with zero bars analysed (audio shorter than one bar) every step is a rest |
| Drums.NoHitIffQuiet | tools/youtube_to_strudel.py:323-327 | a pattern has no `x` exactly when no step's count reaches the threshold |
| Drums.Subdivisions | tools/youtube_to_strudel.py:343-352 | a beat gives one `x` subdivision per hit step, whichever position it is on |
| Drums.BeatTokenByCount | tools/youtube_to_strudel.py:339-361 | a beat token depends only on the beat's number of hits: `~` for none, `x` for one, a bracketed group of that many `x` otherwise |
| Drums.SimplifyAsTokens | tools/youtube_to_strudel.py:336-362 | the simplified pattern is the four beat tokens joined by spaces |
| Drums.SimplifyKeepsHits | tools/youtube_to_strudel.py:336-362 | simplification keeps the number of hits and adds no line break |
| Drums.SimplifyReadsBack | tools/youtube_to_strudel.py:336-362 | the simplified text parses back to the number of hits in each of the four beats |
| Drums.PatternTextFacts | tools/youtube_to_strudel.py:369-370 | the simplified text contains `x` exactly when the bar pattern does |
| Drums.KickVoices | tools/youtube_to_strudel.py:369-371 | a kick voice with the simplified pattern is emitted exactly when the kick pattern has a hit |
| Drums.SnareVoices | tools/youtube_to_strudel.py:374-376 | a snare voice with the simplified pattern is emitted exactly when the snare pattern has a hit |
| Drums.HihatVoices | tools/youtube_to_strudel.py:379-384 | hihat: `c6*8` at 12 or more hits, `c6*4` at 8 to 11, a struct voice at 1 to 7, nothing at 0 |
| Drums.DrumParts | tools/youtube_to_strudel.py:366-384 | at most three voices, none exactly when no pattern has a hit; the kick voice is present exactly when the kick has a hit, likewise the snare, the hihat voice always when chosen, nothing else, and kick before snare before hihat |
| Drums.DrumPartsOneLine | tools/youtube_to_strudel.py:366-384 | every rendered voice is a single line |
| Drums.DrumLine | tools/youtube_to_strudel.py:386-389 | the drum line is the fallback kick exactly when there are no voices |
| Drums.StackReadsBack | tools/youtube_to_strudel.py:386-387 | a `stack(...)` line split at its `", "` separators gives back the text of each voice, in order |
| Drums.DrumPartsWithoutComma | tools/youtube_to_strudel.py:369-384 | no voice text contains a comma, so the stack separators are the only commas |
| Drums.DrumStanzaVoices | tools/youtube_to_strudel.py:365-391 | when some pattern has a hit, the second stanza line is a stack that reads back to the `drum_parts` voices in order |
| Drums.DrumStanza | tools/youtube_to_strudel.py:365-391 | the stanza is two lines, `// Drums` then the drum line, which is the fallback kick exactly when no pattern has a hit |
| Drums.GenerateDrums | tools/youtube_to_strudel.py:296-391 | `_generate_drums` gives the `// Drums` line and one drum line, and that line is the fallback kick exactly when none of the three bar patterns has a hit |
| Drums.GenerateDrumsVoices | tools/youtube_to_strudel.py:296-391 | when a bar pattern has a hit, the drum line reads back to the voices chosen from the kick, snare and hihat patterns of the first bars |
| DrumExamples.WholeSecondsPattern | tools/youtube_to_strudel.py:308-329 | kicks on each whole second of four 2-second bars (beats 1 and 3 of each bar) mark steps 0 and 8 only |
| DrumExamples.HalfBarHitsText | tools/youtube_to_strudel.py:336-362 | the pattern with hits on steps 0 and 8 simplifies to `x ~ x ~` |
| DrumExamples.KickOnWholeSeconds | tools/youtube_to_strudel.py:296-362 | at 120 bpm over 8 s, kicks on beats 1 and 3 of each bar give the kick pattern `x ~ x ~` |
| DrumExamples.MajorityOfFourBars | tools/youtube_to_strudel.py:321-327 | over four bars a step hit in two bars is marked `x` and a step hit in only one stays `~` |
| Strudel.Bpm | tools/youtube_to_strudel.py:251 | the generator's bpm is the analysed one, or 120 when none was analysed |
| Strudel.KeyText | tools/youtube_to_strudel.py:252-253 | the key text is `C minor` exactly when no key was analysed or the analysed key is C minor |
| Strudel.HeaderDefaults | tools/youtube_to_strudel.py:251-253 | without an analysed key the second header line is `// Key: C minor`; without a bpm the third is `// BPM: 120` and the tempo call is `setcpm(120)` |
| Strudel.FormatTenths | tools/youtube_to_strudel.py:290 | `:.1f` writes a point followed by one decimal |
| Strudel.FormatTenthsReadsBack | tools/youtube_to_strudel.py:290 | the formatted duration reads back to a number of tenths within 0.05 of the duration, the even one on a tie (0.25 gives `0.2`) |
| Strudel.HeaderSplitsIntoLines | tools/youtube_to_strudel.py:285-290 | the header is exactly four comment lines: title, key and mode, bpm, duration |
| Strudel.HeaderStatesTempo | tools/youtube_to_strudel.py:289 | the third header line is `// BPM: ` followed by the generator's bpm, read back as an integer |
| Strudel.Settings | tools/youtube_to_strudel.py:292-294 | `setcpm(...)` encloses the generator's bpm, which reads back from it |
| Strudel.EarlyNotes | tools/youtube_to_strudel.py:405 | the early notes are a subsequence of the notes, all before the limit, and include every note before the limit |
| Strudel.EarlyNotesHead | tools/youtube_to_strudel.py:405 | a first note before the limit is the first early note |
| Strudel.VoicePattern | tools/youtube_to_strudel.py:395-424 | at most `cap` names, no two neighbours equal, at least one for non-empty notes, each the name of an input note |
| Strudel.VoicePatternStartsWithFirstNote | tools/youtube_to_strudel.py:405-424 | when the first note starts within two bars, the pattern starts with its name |
| Strudel.VoicePatternPicks | tools/youtube_to_strudel.py:395-424 | the pattern is the first `cap` names after collapsing runs of the first eight early notes of the window, or of its first eight notes when none is early |
| Strudel.VoicePatternFromEarlyNotes | tools/youtube_to_strudel.py:405-424 | when a note of the window starts within two bars, the pattern comes from the first eight such notes |
| Strudel.VoicePatternEarlyNames | tools/youtube_to_strudel.py:405-424 | in that case every name of the pattern is the name of a window note that starts within two bars |
| Strudel.VoicePatternFromFirstEight | tools/youtube_to_strudel.py:407-424 | when no note of the window starts within two bars, the pattern comes from the first eight notes |
| Strudel.VoiceSelection | tools/youtube_to_strudel.py:405-424 | both cases together: early notes when there is one, else the first eight notes, then collapse and cap |
| Strudel.EarlyNotesAppend | tools/youtube_to_strudel.py:405 | filtering a list with one more note adds that note exactly when it is early |
| Strudel.NoteLineReadsBack | tools/youtube_to_strudel.py:424-427 | a note line reads back to the names it was built from, given the timbre chain |
| Strudel.VoiceStanza | tools/youtube_to_strudel.py:421-429 | a stanza is empty exactly when it has no names |
| Strudel.BassPattern | tools/youtube_to_strudel.py:393-424 | at most 4 bass names, no equal neighbours, empty exactly for no notes, each a bass note's name |
| Strudel.BassPatternSelection | tools/youtube_to_strudel.py:395-424 | the bass pattern is the first 4 collapsed names of the first eight of the first 32 notes that start within two bars, or of the first eight notes when none does |
| Strudel.MelodyPattern | tools/youtube_to_strudel.py:431-461 | at most 8 melody names, no equal neighbours, empty exactly for no notes, each a melody note's name |
| Strudel.MelodyPatternSelection | tools/youtube_to_strudel.py:433-461 | the melody pattern is the first 8 collapsed names of the first eight of the first 64 notes that start within two bars, or of the first eight notes when none does |
| Strudel.GenerateBass | tools/youtube_to_strudel.py:393-429 | the bass stanza is empty exactly when there are no bass notes |
| Strudel.GenerateMelody | tools/youtube_to_strudel.py:431-466 | the melody stanza is empty exactly when there are no melody notes |
| Strudel.QuantizedNotesAreWellNamed | tools/youtube_to_strudel.py:225-229 | quantised notes are named by their MIDI number |
| Strudel.VoiceStanzaReadsBack | tools/youtube_to_strudel.py:424-429 | a stanza is its title line and a note line that reads back to its names |
| Strudel.BassStanzaReadsBack | tools/youtube_to_strudel.py:393-429 | the bass stanza is `// Bass` and a sawtooth note line that reads back to the bass pattern |
| Strudel.MelodyStanzaReadsBack | tools/youtube_to_strudel.py:431-466 | the melody stanza is `// Melody` and a triangle note line that reads back to the melody pattern |
| Strudel.Kept | tools/youtube_to_strudel.py:268-281 | a section is appended exactly when its code is non-empty |
| Strudel.DrumSection | tools/youtube_to_strudel.py:266-269 | the drums section is present exactly when drum hits were analysed, and starts with `// Drums` |
| Strudel.BassSection | tools/youtube_to_strudel.py:272-275 | the bass section is present exactly when there are bass notes, and starts with `// Bass` |
| Strudel.MelodySection | tools/youtube_to_strudel.py:278-281 | the melody section is present exactly when there are melody notes, and starts with `// Melody` |
| Strudel.Stanzas | tools/youtube_to_strudel.py:265-281 | the stanzas are drums, bass and melody in that order, each present exactly when its input is |
| Strudel.Generate | tools/youtube_to_strudel.py:255-283 | the code starts with the header, a blank line and the tempo call |
| Strudel.GenerateLayout | tools/youtube_to_strudel.py:255-283 | the code is the header and tempo call, then each stanza after a blank line, and nothing else |
| Markdown.ReplaceChar | tools/docx_to_md.py:28 | `replace` of one character changes exactly the positions that held it |
| Markdown.HalvePairsRemovesOnlySpaces | tools/docx_to_md.py:28 | replacing double spaces removes only spaces and adds no line break |
| Markdown.HalvePairsKeepsSingleSpaces | tools/docx_to_md.py:28 | text without a double space is unchanged |
| Markdown.HalvePairsOfThreeSpaces | tools/docx_to_md.py:28 | three spaces become two, so a single pass can leave a double space |
| Markdown.HalvePairsOfSpaces | tools/docx_to_md.py:28 | a run of k spaces becomes a run of ceil(k/2) spaces |
| Markdown.HalvePairsAround | tools/docx_to_md.py:28 | a character other than a space splits the replacement: each side is halved on its own, so every run of spaces is halved and nothing else changes |
| Markdown.Normalize | tools/docx_to_md.py:28 | a normalised run has no line break and the same non-space characters as the run with line breaks made spaces |
| Markdown.NormalizeOfSpaces | tools/docx_to_md.py:28 | a run text of k spaces normalises to ceil(k/2) spaces, never to nothing |
| Markdown.EmphasisReadsBack | tools/docx_to_md.py:32-35 | the `**` and `*` markers come off again to give the run's text, for every bold and italic setting |
| Markdown.RunText | tools/docx_to_md.py:25-36 | a run's contribution has no line break |
| Markdown.BlankRunUnmarked | tools/docx_to_md.py:29-31 | a whitespace-only run is kept as normalised and gets no markers |
| Markdown.VisibleRunMarked | tools/docx_to_md.py:32-36 | a visible run is its normalised text inside the markers of its formatting |
| Markdown.RunsToMarkdown | tools/docx_to_md.py:22-37 | the paragraph text is the run contributions joined, with only whitespace removed from either end, and has no line break and no whitespace at either end |
| Markdown.RunsConcatenate | tools/docx_to_md.py:24-37 | the joined contributions of two run lists are the joined contributions of each, one after the other |
| Markdown.EmptyRunSkipped | tools/docx_to_md.py:26-27 | an empty run, wherever it stands and however formatted, does not change the paragraph text |
| Text.Strip | tools/docx_to_md.py:37 | `strip()` returns an infix of its argument whose borders are all whitespace and whose own ends are not whitespace |
| Text.StripUnique | tools/docx_to_md.py:37 | any such infix is the stripped string, so `strip()` is characterised by that contract |
| Markdown.DigitsOf | tools/docx_to_md.py:46 | the collected characters are digits, no more than the style name had |
| Markdown.DigitsOfAppend | tools/docx_to_md.py:46 | the digits of a concatenation are the digits of each part, in order |
| Markdown.DigitsOfDigits | tools/docx_to_md.py:46 | a string of digits keeps all of them |
| Markdown.DigitsOfNone | tools/docx_to_md.py:46 | a string without digits yields none |
| Markdown.HeadingLevel | tools/docx_to_md.py:45-48 | a heading level is between 1 and 6, and 1 for a style name with no digits |
| Markdown.HeadingLevelOfNumber | tools/docx_to_md.py:45-48 | `Heading n` has level n clamped to 1..6 |
| Markdown.IndentLevel | tools/docx_to_md.py:52-53 | for a non-negative indent the level is the number of whole 360-EMU steps; a negative one gives no positive level |
| Markdown.ParagraphToMarkdown | tools/docx_to_md.py:40-56 | a paragraph renders to nothing exactly when its runs' text is empty |
| Markdown.HeadingLineReadsBack | tools/docx_to_md.py:49 | a heading line reads back to its level and text |
| Markdown.ListLineReadsBack | tools/docx_to_md.py:54-55 | a list line reads back to its depth and text, a negative depth giving no indent |
| Markdown.ParagraphReadsBack | tools/docx_to_md.py:40-56 | a paragraph with visible text renders to a line that reads back as a heading of its style's level, a list item of its indent depth, or its plain text |
| Markdown.CellText | tools/docx_to_md.py:64 | a cell of at most one paragraph gives single-line text |
| Markdown.Width | tools/docx_to_md.py:69 | the column count is the length of the longest row |
| Markdown.Pad | tools/docx_to_md.py:70 | a padded row keeps its cells and fills up to the column count with empty cells |
| Markdown.TableLines | tools/docx_to_md.py:69-78 | one line per row plus the separator in second place, every row padded to the column count |
| Markdown.RowsToMarkdown | tools/docx_to_md.py:67-79 | a table renders to nothing exactly when it has no rows |
| Markdown.TableToMarkdown | tools/docx_to_md.py:59-79 | a table renders to nothing exactly when it has no rows |
| Markdown.RowLineReadsBack | tools/docx_to_md.py:74 | a bar-delimited row reads back to its cells when they hold no bar |
| Markdown.TableReadsBack | tools/docx_to_md.py:69-79 | the table splits into one line per row plus the separator; each line reads back to exactly the column count of cells, with short rows padded and the separator all `---` |
| Markdown.Convert | tools/docx_to_md.py:82-96 | the document ends with exactly one line break and no other trailing whitespace |
| Markdown.NonEmpty | tools/docx_to_md.py:87-95 | the kept renderings are a subsequence of the blocks' renderings holding every non-empty one, as often as it occurs, and no empty one |
| Markdown.BlockLinesInterleave | tools/docx_to_md.py:84-95 | the `lines` list holds each non-empty rendering followed by an empty line |
| Markdown.ConvertJoinsWithBlankLines | tools/docx_to_md.py:84-96 | the document is the non-empty renderings joined by blank lines, stripped, plus a final line break |
| Markdown.ConvertIgnoresEmptyBlock | tools/docx_to_md.py:84-96 | a block that renders to nothing changes nothing, wherever it stands |
| Markdown.ConvertOfNothing | tools/docx_to_md.py:96 | a document whose blocks all render to nothing converts to a lone line break |

## Left out

- Signal analysis is not modelled. That covers audio loading, beat tracking, the chroma computation, percussive and harmonic separation, peak picking, pitch tracking and the per-frame loops that build the note lists. Their results enter as values: a tempo reading, a 12-bin chroma profile, hit times and pitched notes.
- Binary floating point is not modelled: times, durations and chroma energies are exact reals. NaN in the chroma profile is not modelled.
- The YouTube downloader, the command line, the HTTP server and all file I/O are left out. Writing the `.md` file and the `print` progress messages are part of this.
- Reading a `.docx` file with python-docx is left out, and so is `iter_block_items`. The document is given as a sequence of blocks. A run's bold and italic are booleans, with "inherited" (`None`) read as false. Merged table cells are not modelled.
- `str.isdigit` is modelled for ASCII digits only. Other Unicode decimal digits in a style name are not.
- Estimates.DecideKey: takes the 12-bin profile as given. The model does not state that the signal library always returns 12 bins.
- Quantizer.QuantizeCollapsesRuns: requires non-negative note times. A note snapping to the sentinel `(-1, -1)` would be dropped, but frame times are never negative.
- Quantizer.QuantizeEmptyIff: requires non-negative note times, for the same reason.
- Strudel.FormatTenths: is defined for non-negative durations only, which is what an audio length is.
- Strudel.Generate: covers only the inputs of `Strudel.Generable`. A zero tempo with a drum, bass or melody stanza divides by zero in the source, which raises.
- Markdown.CellText: states single-line text only for cells of at most one paragraph. A cell with several paragraphs keeps its inner line breaks, which break the Markdown row.
- Markdown.TableReadsBack: requires at least one column and cells without `|` or a line break. Other cells cannot be told apart from the table's own separators.
