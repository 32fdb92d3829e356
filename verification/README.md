# Verified model of the font, text and SSTV tools

This project models the algorithmic core of the repository's Python tools in
Dafny and proves what they are for. One module stands for one component; where
the source changes state step by step, the model is a class or a method with
loops, proved against a function of its inputs or of the old state, and the
promises of the tool are theorems about that function.

## What is modelled

**The LVGL glyph codec** (`Bits`, `GlyphCodec`, `LongRuns`, `FontRewrite`). A most
significant bit first writer and reader; the run-length encoder with its two
states; the independently written decoder with its three states and
data-dependent bit reads; and the font rewriter, which concatenates the streams
and re-indexes every glyph. The source checks the round trip while it runs, for
one font; here it is proved for all. The encoder and the decoder are kept in a
lockstep relation, for any bytes that follow the stream, so a rebuilt font is
read back at every new index with all later glyphs behind it. The values for
which the round trip holds are given exactly, the "validation failed" error is
shown to be unreachable, and the fonts that are accepted are given exactly. For every
row and column of every glyph the decoded pixel is given by its bits in the raw
bitmap. `LongRuns` is about the counter form of the stream, which only the decoder
knows.

**One-bit glyph packing** (`UnifontGlyph`). The in-place packing loop of the
Unifont importer, read back by the plain-pixel reader of the codec, which was
written separately. Reading the bytes as a packed pixel stream gives the flattened
rows for all glyphs of a shape if and only if the width is a multiple of 8 or
there is at most one row: rows are padded to bytes, and the other reader does
not skip the padding. The native 8x16 and 16x16 grids are such shapes.

**Codepoint ranges** (`CodeRanges`, `RangeTexts`, `PyText`). The maximal-run printer and its
two independent readers, at the level of the text: hexadecimal printing and
integer parsing with and without a given base, splitting, stripping, and both
readers' error cases. `RangeTexts` says what the texts look like, what several values
and numbers in every base mean, and where the readers differ.

**The line counter** (`LineCounter`, `LineTokens`). The hand-written scanner, with its `find`
jumps, its escapes and the block comment state it carries from line to line,
refines a lexer that reads one character at a time. The counter for the other
comment style and the totals over files of all languages are modelled with it.
`LineTokens` describes lines as text, as sequences of plain characters, literals and
comments, and proves that every line is such a sequence and that the lexer finds it.

**The Scottie-1 receiver** (the `Scottie*` modules, `HeaderDetector`,
`SyncDetector`, `SyncLineTracker`, `LeastSquares`, `SyncPositions`, `SyncRecordings`,
`RingWindow`). The header
recogniser; the pulse detector with its gate and the line tracker with its
incremental fit, each alone and composed as the scanning loop composes them; and
the decoder as a state machine over samples and sync pulses in any interleaving.
`SyncRecordings` says how many lines of noiseless recordings are found.
`ScottieModel` holds the states and the steps, `ScottieRuns` what every run keeps,
`ScottieTiming` which way the timing scale goes, `ScottieResync` what pulses that count do
in one step and over runs, `ScottieFrame` how long a frame takes and which rows it paints,
`ScottieEdges` what every picture shows at its edges, and `ScottieLevels` the scale from
tones to intensities, the layout of a row and the picture of a recording of tones.
`ScottieWindows` gives every pixel of every run, however often pulses resynchronise
the decoder, as the intensity of one window of samples. `ScottieQuiet` says which
pulses are ignored, and for receptions in which all are, `ScottiePicture`,
`ScottieLine`, `ScottieImage` and `ScottieLateStart` give the place of every pixel's
window in the recording. `ScottieDecoder` is the mutable decoder, `ScottieSchedule`
the exact interleaving a recording is played as, and `ScottieReceiver` the reception
loop, proved to play exactly that.

Signal processing is a parameter: `Dsp` gives the tone powers of a window,
`Score` says whether a window holds a sync tone, and `Estimator` gives the
frequency of a pixel window. All three are arbitrary functions of the window, so
every theorem holds for any of them. Python floats are modelled by real numbers,
and truncations and roundings are written out.

## Findings

* The tracker's fit is not the least-squares line. The first accepted position
  is counted but never added to the sum, so in every run the slope at the fit is
  the least-squares slope (`LeastSquares.LeastSquaresIsLeast`) of the kept positions plus
  `6 y0 / (n (n + 1))`, clamped
  (`SyncLineTracker.FitOfRun`). It is the least-squares slope exactly when that lies
  in the window and either `y0` is 0 or it is the upper edge of the window, where
  the clamp cuts the deviation off (`SyncLineTracker.FitIsLeastSquaresIff`). In the
  receiver `y0` is at least 478, so only the second case is left
  (`SyncPositions.ReceiverFitIsBiased`).
* That deviation loses perfect recordings. The fitted line puts the next position
  `2 y0 / n` further than the least-squares line (`SyncLineTracker.FittedNext`), and for
  every run the position after the fit is accepted exactly when it is on that line, up
  to the bend of the clamp (`SyncLineTracker.NextAfterFit`, `SyncPositions.FitDecides`).
  For evenly spaced lines the number that is found is given exactly, for every spacing
  the gate passes and every first position (`SyncRecordings.EvenLinesFound`): all of
  them, or 24, or 25 where the clamp bends the line so far that the slope is off at the
  26th. At a spacing of 18880 all of more than 24 lines are found exactly when the first
  position is at most 27192 or in 333293..362221 (`SyncRecordings.AllLinesFoundIff`). At
  the nominal rate of 18884.502 samples, heard on the detector's hops of 80, all or
  exactly 24 are found, by an inequality in the first position and its phase
  (`SyncRecordings.NominalLinesFound`): in phase 0 at most 27349 or in 332634..361562
  (`SyncRecordings.NominalPhase0`), and in no phase between 44100 and 220500
  (`SyncRecordings.NominalIsLost`), so a recording whose first line comes one to five
  seconds in is lost after 24 lines. `SyncRecordings.NominalRecording` gives recordings
  of zeros and ones on which the loop does so.
* A rejected line is never recovered from. The gate measures from the last hit and
  the tracker from the last position, so with two minimum lines longer than a
  maximum one the positions are a prefix of the hits, the first rejection is final
  (`SyncPositions.RejectionIsPermanent`), and the tracker's reset after four misses
  cannot be reached (`SyncPositions.PositionsArePrefix`).
* A missed pulse is never recovered from either. The hits end exactly when every
  later candidate is blocked by the last hit (`SyncDetector.RunEndsIff`), and with
  the receiver's values one missing line among perfect ones does it
  (`SyncRecordings.MissedPulseEndsRun`).
* The first row of a picture never has green or blue, because a frame begins in
  the sync pulse before the Red phase (`ScottieEdges.FirstRowIsRed`). Source columns
  0 and 1 are black in every row of every picture, because the pixel window is
  three columns long (`ScottieEdges.FirstColumnsAreBlack`).
* The two readers of range texts differ: a number without a prefix is hexadecimal for one
  (`RangeTexts.UnprefixedIsHex`) and decimal for the other (`RangeTexts.NotationRead`), and
  a range that runs backwards is kept, and empty, for the first
  (`RangeTexts.BackwardRead`) and an error for the second (`RangeTexts.RangeCollected`).
* The timing scale goes the wrong way. It multiplies the lengths of the phases, but it is
  set to, and drawn a fiftieth of the way at a time towards, the expected line over the
  measured one by every pulse that counts (`ScottieResync.CountedPulse`, and over any number
  of them `ScottieResync.RunScale` and `ScottieResync.EvenMeasures`). It shrinks exactly when
  the measured line times the scale exceeds the expected line
  (`ScottieResync.CountedPulseDirection`), so after a line longer than nominal a decoder at
  scale 1 or more makes its own lines shorter (`ScottieResync.CountedPulseAfterLine`). The
  measured line is short by the phase offset besides. At set-up the scale
  never brings the decoder's line closer to the measured one than scale 1 does
  (`ScottieTiming.SetUpNeverHelps`); the inverse ratio would, to within 6 samples
  (`ScottieTiming.InverseRatioFits`).
* A pulse resynchronises exactly when it comes, by the clock of the undisturbed
  frame, in the last quarter of a Blue phase (`ScottieQuiet.QuietByClock`); pulses
  exactly a line apart never do (`ScottieSchedule.EvenReceptionIsQuiet`).
* Dead branches: the round-trip validation of the font rewriter
  (`FontRewrite.FontAccepted`) and the last `else` of the line scanner
  (`LineCounter.BlankIff`), and the clamp of a negative offset in `on_sync`: its branch is
  only taken for offsets past the sync pulse and the porch
  (`ScottieModel.NegativeClampIsDead`).
* The reader of plain pixels and the packer of one-bit glyphs disagree on every
  shape outside the condition above (`UnifontGlyph.AgreementByShape`).

## Model

| member | source | states |
|---|---|---|
| Bits.GetBits | tools/compress_lvgl_bitmap_font.py:17-24 | the most significant bit first value of the field, or `None` exactly when the source would index past the buffer |
| Bits.ReadPlainPixels | tools/compress_lvgl_bitmap_font.py:27-33 | `count` consecutive fields from a byte offset, or `None` when one of them lies outside |
| Bits.PlainPixelsDefined | tools/compress_lvgl_bitmap_font.py:27-33 | plain pixels can be read if and only if the last one ends inside the buffer (or no bit is read) |
| Bits.PlainPixelAt | tools/compress_lvgl_bitmap_font.py:27-33 | pixel `k` is the value of its own field and below `2^bpp` |
| Bits.BitWriter.Put | tools/compress_lvgl_bitmap_font.py:40-42 | appends the low `width` bits of the value, most significant first |
| Bits.BitWriter.ToBytes | tools/compress_lvgl_bitmap_font.py:44-54 | the bits packed eight to a byte, the last byte filled up with zeros |
| Bits.ValueBinary | tools/compress_lvgl_bitmap_font.py:40-42 | what is put has value `value mod 2^width` |
| Bits.BitsOfPack | tools/compress_lvgl_bitmap_font.py:44-54 | unpacking the bytes gives the bits back, followed by fewer than 8 zeros |
| Bits.ByteIsSum | tools/compress_lvgl_bitmap_font.py:17-24 | the bits of a byte are its binary digits, the highest first |
| Bits.PutThenGet | tools/compress_lvgl_bitmap_font.py:17-54 | after any sequence of puts, and with any bytes following, reading at the offset of put `k` gives its value modulo its width |
| Bits.PlainPixelsOfFixed | tools/compress_lvgl_bitmap_font.py:17-54 | the plain pixel reader inverts any run of puts of one width |
| GlyphCodec.EncodeNoCounter | tools/compress_lvgl_bitmap_font.py:57-92 | the loop computes the encoder run that the theorems below are about |
| GlyphCodec.DecodePixel | tools/compress_lvgl_bitmap_font.py:109-140 | one round of the decoder, with its three states, two conditional literals and every read that can fail |
| GlyphCodec.DecodeLvglStream | tools/compress_lvgl_bitmap_font.py:95-142 | the decoded pixels, or `None` when a read leaves the stream |
| GlyphCodec.LockstepStep | tools/compress_lvgl_bitmap_font.py:71-140 | one encoder step and one decoder step on what it wrote keep the two machines in lockstep, return the pixel, and consume exactly the bits written |
| GlyphCodec.LockstepRun | tools/compress_lvgl_bitmap_font.py:57-142 | after every pixel of every run the decoder is in lockstep with the encoder, whatever follows |
| GlyphCodec.RoundTrip | tools/compress_lvgl_bitmap_font.py:57-142 | for every bpp, every list of values below `2^bpp` and every trailing bytes, decoding the encoding returns the list, with no read out of range |
| GlyphCodec.RoundTripExactly | tools/compress_lvgl_bitmap_font.py:57-142 | the round trip holds if and only if every value is below `2^bpp` |
| GlyphCodec.DecodedInRange | tools/compress_lvgl_bitmap_font.py:95-142 | the decoder returns values below `2^bpp` on any stream |
| GlyphCodec.EncoderAvoidsCounter | tools/compress_lvgl_bitmap_font.py:81-127 | no encoder output takes the decoder into COUNTER or to the 6-bit counter read |
| GlyphCodec.DecoderStopsWithEncoder | tools/compress_lvgl_bitmap_font.py:44-142 | the decoder stops where the encoder stopped; what is left is fewer than 8 zero bits |
| GlyphCodec.SizeBound | tools/compress_lvgl_bitmap_font.py:65-92 | n pixels take at most `n * bpp + (n - 1) / 2` bits |
| GlyphCodec.SizeBoundAttained | tools/compress_lvgl_bitmap_font.py:65-92 | for every n and bpp there is a list that takes exactly that many |
| GlyphCodec.StreamSize | tools/compress_lvgl_bitmap_font.py:57-92 | the bound in whole bytes |
| GlyphCodec.ConstantRunSize | tools/compress_lvgl_bitmap_font.py:65-92 | a constant run of `2 + 12 k` pixels takes exactly `2 bpp + k (2 bpp + 11)` bits |
| GlyphCodec.DecoderBounds | tools/compress_lvgl_bitmap_font.py:95-142 | on any stream: REPEATED has count 0..10, COUNTER has 1..63, and m pixels consume at most `m (bpp + 1) + 6 (m / 12)` bits |
| GlyphCodec.LongStreamDecodes | tools/compress_lvgl_bitmap_font.py:95-142 | a stream with that many bits is always decoded, whatever it holds |
| GlyphCodec.DecodeIgnoresTail | tools/compress_lvgl_bitmap_font.py:95-142 | bits after a decodable stream change nothing |
| LongRuns.CounterRun | tools/compress_lvgl_bitmap_font.py:109-140 | wherever the decoder has read ten repeat flags, an eleventh, a six-bit count `n` and a literal are `n` more pixels of the value and the literal |
| LongRuns.CounterStream | tools/compress_lvgl_bitmap_font.py:95-142 | a stream of a value twice, eleven flags, a count and a literal decodes to the value `12 + n` times and the literal, for every count and whatever follows |
| FontRewrite.CompressFont | tools/compress_lvgl_bitmap_font.py:217-257 | the glyph loop: the rebuilt bitmap and the new indexes, or the first error |
| FontRewrite.FontPreserved | tools/compress_lvgl_bitmap_font.py:234-257 | in every accepted font, decoding the rebuilt bitmap from a glyph's new index, with all later glyphs behind it, gives the pixels the old bitmap held at the old index |
| FontRewrite.PixelsPreserved | tools/compress_lvgl_bitmap_font.py:234-257 | in every accepted font, for every glyph, row and column: decoding `box_w * box_h` pixels from the new index gives at `row * box_w + column` the number that the `bpp` bits at `8 * bitmap_index + (row * box_w + column) * bpp` of the raw bitmap spell |
| FontRewrite.StreamsAdjacent | tools/compress_lvgl_bitmap_font.py:243-257 | the streams stand one behind the other from the first byte of the new bitmap to the last |
| FontRewrite.IndexOfGlyph | tools/compress_lvgl_bitmap_font.py:243-257 | the new index is the size of the streams before, and the glyph's stream stands there |
| FontRewrite.FontAccepted | tools/compress_lvgl_bitmap_font.py:217-255 | a font is accepted if and only if it has glyphs, is plain, has ascending indexes up to the size of the bitmap, and holds every pixel; otherwise the error is that of the first bad glyph, and never the failed validation |
| FontRewrite.GlyphErrorIs | tools/compress_lvgl_bitmap_font.py:237-249 | which error a glyph has: the start of the next glyph, or the end of the bitmap, before its own; or else pixels beyond the bitmap |
| FontRewrite.RewriteOutcome | tools/compress_lvgl_bitmap_font.py:237-255 | the loop succeeds if and only if no glyph has an error, and otherwise reports the first |
| FontRewrite.FontSize | tools/compress_lvgl_bitmap_font.py:234-257 | the rebuilt bitmap stays within the size bounds of its glyphs |
| UnifontGlyph.PackRow | tools/unifont_bdf.py:147-152 | the in-place loop packs the pixels of the row, then zero padding |
| UnifontGlyph.GlyphBitmapBytes | tools/unifont_bdf.py:143-153 | all rows one after the other, each padded to whole bytes |
| UnifontGlyph.RowPixelBit | tools/unifont_bdf.py:134-140 | a row's pixel is 255 times the bit of the row value at that column |
| UnifontGlyph.PackedBitIs | tools/unifont_bdf.py:134-153 | every bit of the packed glyph: rows in order, each in as few whole bytes as hold it, the highest bit of the row value first, zeros behind the last |
| UnifontGlyph.FlatPixelIs | tools/unifont_bdf.py:134-140 | and the pixels read back stand in the same order |
| UnifontGlyph.PackedBitAt | tools/unifont_bdf.py:143-153 | the bit at row stride plus column is the pixel |
| UnifontGlyph.PackedReadsBack | tools/unifont_bdf.py:134-153 | for widths divisible by 8, or a single row, the plain pixel reader gives the flattened rows over 255 |
| UnifontGlyph.AgreementByShape | tools/unifont_bdf.py:134-153 | all glyphs of a shape read back if and only if the width is a multiple of 8 or there is at most one row |
| UnifontGlyph.LeftEdgeFails | tools/unifont_bdf.py:143-153 | for every other shape a glyph that does not read back |
| UnifontGlyph.NativeGlyphSurvivesCompression | tools/unifont_bdf.py:123-153 | a glyph on the native grid, packed, read as plain pixels, compressed and decompressed, still shows its rows |
| CodeRanges.WriteRanges | tools/build_locale_pack_charset.py:121-134 | the printing loop computes the text of the maximal runs |
| CodeRanges.RunsSpellCodes | tools/build_locale_pack_charset.py:124-132 | for every list, sorted or not, the runs are maximal and spell out exactly the list |
| CodeRanges.IncreasingRunsAreApart | tools/build_locale_pack_charset.py:124-132 | the spans of a strictly increasing list are disjoint, in order and not adjacent |
| RangeTexts.ToHexIs | tools/build_locale_pack_charset.py:130-132 | codes are printed with the digits 0-9 and A-F |
| RangeTexts.TextOfRun | tools/build_locale_pack_charset.py:121-134 | every run adds one item to the text, after a comma if there was any, and before the line end |
| RangeTexts.SpanTextIs | tools/build_locale_pack_charset.py:130-132 | an item is one prefixed number, or two with a dash |
| CodeRanges.ReadRangeSpans | tools/validate_locale_packs.py:176-189 | the spans of the text, or the first error |
| CodeRanges.SpansReadBack | tools/validate_locale_packs.py:176-189 | the printed text is read back as exactly the printed spans |
| CodeRanges.IncludedIffWritten | tools/validate_locale_packs.py:192-194 | a code is included if and only if it was printed |
| CodeRanges.TextSpellsCodes | tools/build_locale_pack_charset.py:121-134 | the list, with order and repetitions, can be recovered from the text |
| CodeRanges.TextIsInjective | tools/build_locale_pack_charset.py:121-134 | two lists with the same text are the same list |
| CodeRanges.ParseRanges | tools/unifont_bdf.py:39-55 | the set of the values' codes, or the first error |
| CodeRanges.SetReadBack | tools/unifont_bdf.py:39-55 | parsing the printed text gives exactly the printed set |
| RangeTexts.SetsReadBack | tools/unifont_bdf.py:39-55 | any number of printed texts are read back as the codes of all the lists |
| RangeTexts.ValuesUnited | tools/unifont_bdf.py:39-55 | one more value adds its codes to those before; the first bad value decides |
| RangeTexts.NotationRead | tools/unifont_bdf.py:46-54 | numbers in bases 2, 8, 10 and 16 are read by their prefix |
| RangeTexts.RangeCollected | tools/unifont_bdf.py:46-52 | a range in any notation gives the codes between, and an error exactly when it runs backwards |
| RangeTexts.NumberCollected | tools/unifont_bdf.py:53-54 | and a single number itself |
| RangeTexts.UnprefixedIsHex | tools/validate_locale_packs.py:182-187 | the other reader takes unprefixed digits as hexadecimal |
| RangeTexts.BackwardRead | tools/validate_locale_packs.py:182-188 | it keeps a range that runs backwards, which holds no code |
| PyText.ParseIntOfHex | tools/validate_locale_packs.py:184-187 | both integer parsers read a printed hexadecimal number back |
| PyText.SplitJoin | tools/validate_locale_packs.py:178 | splitting joined parts gives the parts, if none holds the separator |
| LineCounter.FindClose | scripts/code_stats.py:129 | the first closing delimiter from a position on, or none |
| LineCounter.SkipQuoted | scripts/code_stats.py:148-160 | the literal loop jumps to where the lexer leaves the literal, escapes and unterminated literals included |
| LineCounter.ScanLine | scripts/code_stats.py:121-164 | the scanner with its jumps agrees with the character lexer on code, comment and carried state |
| LineCounter.BlockJump | scripts/code_stats.py:127-135 | inside a block comment the lexer reads comment characters up to the first closing delimiter |
| LineTokens.TokensLexed | scripts/code_stats.py:121-164 | in every line written as a sequence of tokens, comments are comment characters, literals between either quote with their escapes are code whatever they hold, every other visible character is code, and the line ends in a block comment exactly when its last token is an open one |
| LineTokens.EveryLineHasTokens | scripts/code_stats.py:121-164 | every line is such a sequence |
| LineTokens.LiteralLexed | scripts/code_stats.py:147-160 | from an opening quote to the first unescaped equal one every character is code, and scanning goes on behind it |
| LineTokens.OpenLiteralLexed | scripts/code_stats.py:147-160 | a literal that is not closed ends with the line, even after a last backslash |
| LineTokens.BlockTokenLexed | scripts/code_stats.py:127-145 | outside literals a slash and a star open a comment up to the first star and slash |
| LineCounter.CountCLikeLines | scripts/code_stats.py:110-173 | the counts are those of classifying every line by the lexer |
| LineCounter.SummaryOfClasses | scripts/code_stats.py:121-164 | a line has code, or comment, exactly when one of its characters is of that class |
| LineCounter.CodeIsVisible | scripts/code_stats.py:121-164 | a line has code exactly when a visible character of it is outside every comment |
| LineCounter.KindOfLine | scripts/code_stats.py:117-171 | which lines are code and which are blank, for every line and carried state |
| LineTokens.KindOfTokens | scripts/code_stats.py:110-171 | the kind of a line that begins outside comments, by its tokens, and the state it leaves |
| LineTokens.KindAfterBlock | scripts/code_stats.py:110-171 | and of one that begins in a block comment which it closes |
| LineTokens.KindInBlock | scripts/code_stats.py:110-171 | and of one that does not close it |
| LineTokens.LineEndStripped | scripts/code_stats.py:116 | line feeds and carriage returns at the end of a line, and nothing else, are taken off |
| LineCounter.BlankIff | scripts/code_stats.py:117-171 | a line is blank if and only if it is white space and begins outside a block comment, so the last `else` is unreachable |
| LineCounter.EveryLineCountedOnce | scripts/code_stats.py:110-173 | total = code + comment + blank = number of lines |
| LineTokens.CountsAreKinds | scripts/code_stats.py:110-173 | every field is the number of lines of its kind |
| LineCounter.CountsCompose | scripts/code_stats.py:110-173 | counting two files' worth of lines is counting the first and going on from its state |
| LineCounter.CountsShift | scripts/code_stats.py:110-173 | counting from given counts adds to them, and the carried state does not depend on them |
| LineCounter.Stats.Add | scripts/code_stats.py:19-24 | adds every field of the other statistics, itself included |
| LineCounter.CountHashCommentLines | scripts/code_stats.py:96-107 | the counts of the other comment style: a line is blank, begins with the mark, or is code |
| LineCounter.HashLinesCountedOnce | scripts/code_stats.py:96-107 | each line once, as one kind |
| LineTokens.HashKindIs | scripts/code_stats.py:96-107 | a line is blank exactly when it is white space, and a comment exactly when its first visible character is the number sign |
| LineCounter.HashCountsAdd | scripts/code_stats.py:96-107 | here counting a concatenation is adding the counts, with no state carried |
| LineCounter.CountFile | scripts/code_stats.py:176-184 | the counter that the language selects |
| LineTokens.FileCountsAreKinds | scripts/code_stats.py:176-184 | C and C++ and other code are counted by the scanner, CMake, scripts and PowerShell by the number sign; every field is the number of lines of its kind |
| LineCounter.CountFiles | scripts/code_stats.py:225-231 | the totals over files of all languages |
| LineCounter.AllLinesCountedOnce | scripts/code_stats.py:225-231 | over files of all languages each line is counted once, as one kind |
| RingWindow.Ring.Push | tools/sstv_offline_decode.py:997-1002 | appends to the history since the last reset |
| RingWindow.Ring.CopyOut | tools/sstv_offline_decode.py:1006-1010 | a full ring is copied out as the last N samples since the reset, oldest first |
| HeaderDetector.ToneIsDominant | tools/sstv_offline_decode.py:354-378 | a tone is reported exactly when its power exceeds 1.3 times every other power, 0, and 0.45 of the total |
| HeaderDetector.WindowCounts | tools/sstv_offline_decode.py:394-397 | the stage lengths are 52, 2, 52 and 5 windows |
| HeaderDetector.MachineIsGreedy | tools/sstv_offline_decode.py:425-461 | the four-stage machine always holds the longest heard prefix of the pattern, with the longest pending run |
| HeaderDetector.RecognisesHeader | tools/sstv_offline_decode.py:394-462 | after any number of windows the machine has fired exactly when they contain the pattern, in order and disjointly with any tones between: complete, and earliest |
| HeaderDetector.Detector.Push | tools/sstv_offline_decode.py:400-462 | after every sample the detector has fired exactly when the machine has on the history's windows, each of which is the last 512 samples |
| HeaderDetector.Detector.Advance | tools/sstv_offline_decode.py:425-461 | one tone moves stage, count and header end as the machine does |
| HeaderDetector.HeaderEndIs | tools/sstv_offline_decode.py:453-458 | the end is the sample that completed the header less 512, but not below 0, and ten bits of 30 ms more, which are 13230 samples |
| HeaderDetector.TonesAre | tools/sstv_offline_decode.py:400-423 | the windows are samples `256 t + 255` to `256 t + 766`, as many as fit |
| HeaderDetector.ScanForHeader | tools/sstv_offline_decode.py:1173-1178 | a header is found if and only if the recording's windows contain the pattern, and its end is sample `256 n - 2 + 13230` for the first window `n` that completes it |
| SyncDetector.Detector.Push | tools/sstv_offline_decode.py:489-543 | a pulse is reported exactly every 80th eligible sample whose last 400 samples score and whose position passes the gate |
| SyncDetector.GateSpaces | tools/sstv_offline_decode.py:533-543 | consecutive accepted positions keep the minimum gap and, past the first, the line window |
| SyncDetector.RunEndsIff | tools/sstv_offline_decode.py:533-543 | nothing more is accepted if and only if every later candidate fails the gate against the last accepted position |
| SyncDetector.LockLossIsPermanent | tools/sstv_offline_decode.py:534-541 | candidates that all lie beyond the window are all blocked |
| SyncDetector.GapEndsRun | tools/sstv_offline_decode.py:534-541 | so a gap beyond the window ends the hits |
| SyncDetector.ScanSyncs | tools/sstv_offline_decode.py:1353-1362 | the hits of a recording are the gated candidates, spaced |
| SyncPositions.ReceiverGate | tools/sstv_offline_decode.py:533-543 | the receiver's gate: more than 18522 samples, and after a hit at most 21150 |
| SyncPositions.ScoredWindows | tools/sstv_offline_decode.py:489-505 | the scored windows are the last 400 samples, after 479 samples and every 80 from then on |
| SyncPositions.FindPositions | tools/sstv_offline_decode.py:1353-1364 | the positions are the hits that the tracker, run on all hits, accepts |
| SyncPositions.PositionsArePrefix | tools/sstv_offline_decode.py:1353-1364 | with matching windows the positions are the first hits, as many as the tracker counts, so it is never reset |
| SyncPositions.RejectionIsPermanent | tools/sstv_offline_decode.py:1353-1364 | after the first hit the tracker rejects, no hit is ever a position |
| SyncPositions.RecordingPositions | tools/sstv_offline_decode.py:1338-1364 | so the positions of every recording are a prefix of its hits |
| SyncPositions.FitDecides | tools/sstv_offline_decode.py:1337-1364 | for every list of hits longer than the fit: no hit up to the fit is rejected, and the next is rejected, and with it all that follow, if and only if it is off the fitted line |
| SyncPositions.StaysOnBand | tools/sstv_offline_decode.py:126-141 | once the slope is in a band that no later distance leaves or misses by a window, every later hit is accepted |
| SyncPositions.ReceiverFitIsBiased | tools/sstv_offline_decode.py:1337-1364 | in every reception the fit is the least-squares fit exactly when that is the upper edge of the window |
| SyncRecordings.EvenLinesFound | tools/sstv_offline_decode.py:1337-1364 | exactly how many of `n` even lines are found, for every spacing the gate passes, every first position and every `n`: all, 24, or 25 |
| SyncRecordings.AllLinesFoundIff | tools/sstv_offline_decode.py:1337-1364 | lines 18880 samples apart are all found if and only if there are at most 24 or the first position is at most 27192 or in 333293..362221 |
| SyncRecordings.NominalLinesFound | tools/sstv_offline_decode.py:1337-1364 | lines 18884.502 samples apart, heard on hops of 80, for every first position, phase and number: all pass the gate, and all are found if there are at most 24 or the clamped line through them reaches the 25th, otherwise exactly 24 |
| SyncRecordings.NominalPhase0 | tools/sstv_offline_decode.py:108-134 | in phase 0 that line reaches the 25th if and only if the first position is at most 27349 or in 332634..361562 |
| SyncRecordings.NominalIsLost | tools/sstv_offline_decode.py:108-134 | in every phase it does not if the first position is in 44100..220500 |
| SyncRecordings.NominalRecording | tools/sstv_offline_decode.py:1168-1364 | recordings of samples 0 and 1 and a tone score on which the loop does exactly that |
| SyncRecordings.MissedPulseEndsRun | tools/sstv_offline_decode.py:533-543 | with the receiver's values, one missing line among even ones ends the hits, however many follow |
| SyncLineTracker.Tracker.Accept | tools/sstv_offline_decode.py:85-141 | the new state and the answer of every branch |
| SyncLineTracker.FittingIff | tools/sstv_offline_decode.py:97-101 | while fitting, a sample is accepted if and only if a minimum line has passed, without a maximum |
| SyncLineTracker.AcceptedIsOnLine | tools/sstv_offline_decode.py:135-141 | an accepted sample after the fit is on the new line, whose slope has moved a fiftieth of the way to the last distance |
| SyncLineTracker.ResetIff | tools/sstv_offline_decode.py:102-134 | a rejected sample resets the tracker if and only if it is at a plausible distance but off the line and three were missed before |
| LeastSquares.LeastSquaresIsLeast | tools/sstv_offline_decode.py:115-118 | the line the fit is compared with is the only one with the least sum of squared distances |
| SyncLineTracker.Tracker.AddToFit | tools/sstv_offline_decode.py:108-125 | the sums with one more point, and the clamped fit when there are enough |
| SyncLineTracker.Tracker.Reset | tools/sstv_offline_decode.py:72-83 | back to the first state |
| SyncLineTracker.DenomClosedForm | tools/sstv_offline_decode.py:115-116 | the denominator is `n^2 (n^2 - 1) / 12`, positive from two points on |
| SyncLineTracker.FitKeepsSums | tools/sstv_offline_decode.py:108-125 | the sums are those of the accepted positions at 0, 1, ..., and the fit is made exactly at the fit point |
| SyncLineTracker.RunKeepsInvariant | tools/sstv_offline_decode.py:85-141 | over every run: the closed forms while fitting, the fit completes, then `int(expected (1 - pct)) <= slope <= expected (1 + pct)`, and accepted positions keep the line windows |
| SyncLineTracker.FitDeviation | tools/sstv_offline_decode.py:92-117 | the fitted slope exceeds the least-squares slope by exactly `6 y0 / (n (n + 1))` |
| SyncLineTracker.FitOfRun | tools/sstv_offline_decode.py:85-125 | in every run, at the sample that makes the fit, the slope is the clamp of the least-squares slope of what was kept plus that deviation |
| SyncLineTracker.FitIsLeastSquaresIff | tools/sstv_offline_decode.py:85-125 | in every run that slope is the least-squares slope if and only if the latter lies in the window and the first position is 0 or it is the upper edge |
| SyncLineTracker.FittedNext | tools/sstv_offline_decode.py:117-128 | the fitted line, before the clamp, puts the next position `2 y0 / n` further than the least-squares line does |
| SyncLineTracker.NextAfterFit | tools/sstv_offline_decode.py:101-134 | in every run, the sample after the fit is accepted if and only if its distance is in the window and it differs from the least-squares prediction plus `2 y0 / n` plus the bend of the clamp by at most the window |
| SyncLineTracker.BandStep | tools/sstv_offline_decode.py:126-141 | on a line through the last position with a slope in a band, a sample at a distance inside the band and within a window of its edges is accepted and keeps the slope in the band |
| SyncLineTracker.EvenLinesFit | tools/sstv_offline_decode.py:85-125 | a run of lines exactly `d` apart is fitted to the clamp of `d` plus that deviation, with the intercept of the line before the clamp |
| ScottieModel.PositiveTiming | tools/sstv_offline_decode.py:877-882 | for every scale in [0.95, 1.05] the lengths are positive and the window is three columns, not clamped |
| ScottieRuns.SetUpReady | tools/sstv_offline_decode.py:1308-1318 | whatever line length was found, reception begins from a decoder whose lengths belong to a scale in range |
| ScottieTiming.AdaptMoves | tools/sstv_offline_decode.py:939-954 | a plausible line moves the scale a fiftieth of the way to the clamped ratio of expected over measured, any other changes nothing |
| ScottieTiming.AdaptDirection | tools/sstv_offline_decode.py:939-954 | the scale shrinks if and only if it is above its minimum and scale times measured line exceeds the expected line, and grows if and only if it is below its maximum and the product falls short |
| ScottieTiming.LongLinesShorten | tools/sstv_offline_decode.py:877-954 | at scale 1 or more a line longer than expected shrinks the scale and never lengthens the decoder's line; at scale 1 or less the converse |
| ScottieTiming.ApproachesTarget | tools/sstv_offline_decode.py:939-954 | after `k` lines of one measured length the distance of the scale from that ratio is `0.98^k` times what it was |
| ScottieTiming.SetUpScale | tools/sstv_offline_decode.py:1406-1412 | the scale at set-up is the ratio within 0.95 and 1.05, and the lengths are those of the scale |
| ScottieTiming.SetUpNeverHelps | tools/sstv_offline_decode.py:1406-1412 | for every measured length, the decoder's line after set-up is no closer to it than the line at scale 1 |
| ScottieResync.PulseCounts | tools/sstv_offline_decode.py:932-938 | a pulse counts if and only if at most a quarter of Blue is left, and otherwise changes nothing |
| ScottieResync.LengthsFollow | tools/sstv_offline_decode.py:877-882 | at every scale the lengths are 66, 396 and 6096 samples times the scale, rounded, and the window is three columns |
| ScottieResync.CountedPulse | tools/sstv_offline_decode.py:939-955 | a pulse that counts moves the scale a fiftieth of the way to 18882 over the measured line, clamped to 0.95 and 1.05, if the line is within 16616..21147, and not otherwise; the lengths are those of the new scale, and the measure begins anew |
| ScottieResync.CountedPulseDirection | tools/sstv_offline_decode.py:939-954 | the exact direction in which the scale, and with it the decoder's line, goes |
| ScottieResync.CountedPulseAfterLine | tools/sstv_offline_decode.py:939-954 | after a line longer than expected a decoder at scale 1 or more gets faster, and the converse |
| ScottieResync.CountedPulsePlace | tools/sstv_offline_decode.py:957-971 | it puts the decoder `offset` samples into the sync pulse of the same line by the new lengths, keeps cells and picture, and leaves exactly the rest of that line and of the frame |
| ScottieResync.ResyncedFrameLength | tools/sstv_offline_decode.py:912-1075 | without further pulses that count the frame is done after exactly that many samples |
| ScottieResync.RunScale | tools/sstv_offline_decode.py:912-1075 | over every run of a frame the scale is that of the measured lines one after the other, and the lengths are those of the scale |
| ScottieResync.MeasuresAddUp | tools/sstv_offline_decode.py:939-955 | the measured lines and the samples since the last pulse that counted add up to the samples of the run |
| ScottieResync.EvenMeasures | tools/sstv_offline_decode.py:939-954 | after `k` equal lines the distance of the scale from expected over measured is `0.98^k` times what it was |
| ScottieRuns.StartInvariant | tools/sstv_offline_decode.py:900-930 | a frame begins in a state that keeps the invariant |
| ScottieRuns.RunInvariant | tools/sstv_offline_decode.py:912-1075 | under any interleaving of samples and pulses: phase, line and painted row agree, every cell holds at most one intensity in 0..255, columns are filled in order, columns 0 and 1 never, and later channels are empty |
| ScottieRuns.RenderedInRange | tools/sstv_offline_decode.py:983-992 | every rendered pixel is a colour, read from source columns 0..319 |
| ScottieFrame.FrameEnds | tools/sstv_offline_decode.py:912-1075 | every frame is done within the bound, whatever the samples and the pulses |
| ScottieFrame.FrameBoundValue | tools/sstv_offline_decode.py:849-882 | the bound is 5062516 samples |
| ScottieFrame.DoneIsAbsorbing | tools/sstv_offline_decode.py:932-933 | a done frame is never left by samples or pulses |
| ScottieQuiet.QuietIsTicks | tools/sstv_offline_decode.py:932-938 | pulses that do not count can be erased from any run |
| ScottieQuiet.QuietByClock | tools/sstv_offline_decode.py:932-938 | a reception has no pulse that counts if and only if none comes, by the clock of the undisturbed frame, in the last quarter of Blue |
| ScottieQuiet.ExactFrameLength | tools/sstv_offline_decode.py:900-938 | a frame begun at offset o and not resynchronised, with any number of ignored pulses, is done after exactly `max(1, s + p + c - o) + 255 (3p + 3c + s)` samples |
| ScottieFrame.PulseMovesForward | tools/sstv_offline_decode.py:932-972 | a pulse keeps the line, the cells and the picture, and moves only out of late Blue, only forward |
| ScottieFrame.FramePaintsEachRowOnce | tools/sstv_offline_decode.py:974-992 | under any interleaving a done frame has painted rows 0..191 once each, in order, row y from line ceil(4y / 3), and shows what was painted |
| ScottiePicture.RecordsItsColumn | tools/sstv_offline_decode.py:994-1025 | for every reachable colour length, exactly one sample of a phase records each of the columns 2..319 |
| ScottiePicture.ColorPhase | tools/sstv_offline_decode.py:994-1045 | an undisturbed colour phase leaves exactly the intensities of its own samples in its channel |
| ScottiePicture.FullPhase | tools/sstv_offline_decode.py:994-1025 | a full phase records columns 2..319 once each |
| ScottieLine.WholeLine | tools/sstv_offline_decode.py:994-1075 | an undisturbed line, from any frame state at its start, paints the row of its own samples |
| ScottieImage.FramePicture | tools/sstv_offline_decode.py:912-1075 | when no pulse counts, every row but the first is decoded from its own samples, at a fixed place after the start of the frame |
| ScottieImage.FirstRowPicture | tools/sstv_offline_decode.py:900-930 | then row 0, if the offset leaves the whole first Red phase to come, shows the samples of that phase |
| ScottieLateStart.LateFirstRow | tools/sstv_offline_decode.py:912-930 | and if the offset falls into that phase, row 0 shows in red, for each column, the first window that is full after the entry and ends in the column, and black if there is none |
| ScottieImage.FirstRowPixel | tools/sstv_offline_decode.py:983-992 | in red only, every pixel from its own window |
| ScottieImage.LinePixels | tools/sstv_offline_decode.py:983-992 | every pixel of a row is the intensity of its own window of samples, in its own channel |
| ScottieLevels.ScaleEnds | tools/sstv_offline_decode.py:305-316 | up to 1500 Hz black, from 2300 Hz white |
| ScottieLevels.ScaleMonotone | tools/sstv_offline_decode.py:305-316 | a higher tone is never darker |
| ScottieLevels.ScaleIsNearest | tools/sstv_offline_decode.py:305-316 | in between the nearest level of the linear scale |
| ScottieLevels.LevelReadsBack | tools/sstv_offline_decode.py:305-316 | every level comes back from its tone and from all tones less than half a level away |
| ScottieLevels.PixelOfTone | tools/sstv_offline_decode.py:983-1025 | in every run, where the estimator hears the tone of a level in the windows of a cell, the component is that level |
| ScottieLevels.PictureOfTones | tools/sstv_offline_decode.py:912-1075 | without pulses that count, a recording that holds the tones of a colour at the places of a pixel, given in samples, is decoded to that colour at that pixel |
| ScottieLevels.RowLayout | tools/sstv_offline_decode.py:974-992 | output column `24 + x` shows source column `4 x / 3` in red, green and blue, and the rest of the row is panel |
| ScottieLevels.MarginsStay | tools/sstv_offline_decode.py:974-992 | in every run the margins of every row are panel |
| ScottieWindows.RunTracked | tools/sstv_offline_decode.py:912-1075 | in every run of a frame, under any interleaving: in a colour phase the ring holds exactly the samples of that phase, and a cell is filled if and only if a full window of its own phase and line ends in its column, with the intensity of the first |
| ScottieWindows.PixelsAreHeard | tools/sstv_offline_decode.py:912-1075 | so every pixel of every run, resynchronised or not: each component is the intensity of the first window of consecutive samples, all of its own colour phase and source line, that ends in its column, and 0 if there is none |
| ScottieWindows.HeardOnce | tools/sstv_offline_decode.py:994-1025 | that intensity is determined by the samples and the places they were taken at |
| ScottieEdges.FirstRowIsRed | tools/sstv_offline_decode.py:900-930 | under any interleaving, the first row has no green and no blue |
| ScottieEdges.FirstColumnsAreBlack | tools/sstv_offline_decode.py:994-1010 | under any interleaving, the first two columns of every row painted are black |
| ScottieDecoder.Decoder.constructor | tools/sstv_offline_decode.py:841-875 | an idle decoder at scale 1 with empty cells and a blank picture |
| ScottieDecoder.Decoder.ApplyTimingScale | tools/sstv_offline_decode.py:877-888 | the lengths at the scale; a window of another size is a new, empty ring |
| ScottieDecoder.Decoder.BeginFrame | tools/sstv_offline_decode.py:900-910 | everything is reset except scale and offset |
| ScottieDecoder.Decoder.OnSync | tools/sstv_offline_decode.py:912-972 | the pulse of the model, and whether a frame was started |
| ScottieDecoder.Decoder.AdaptScale | tools/sstv_offline_decode.py:939-954 | the scale moves by a fiftieth towards the measured ratio, if the line length is plausible, and stays in [0.95, 1.05] |
| ScottieDecoder.Decoder.DrawLine | tools/sstv_offline_decode.py:974-992 | the pixel loop paints the row of the model, or nothing |
| ScottieDecoder.Decoder.SampleColor | tools/sstv_offline_decode.py:995-1025 | the pixel ring, the pending column and the cells after one sample |
| ScottieDecoder.Decoder.ColorStep | tools/sstv_offline_decode.py:994-1045 | one sample of a colour phase, with the end of a line |
| ScottieDecoder.Decoder.Step | tools/sstv_offline_decode.py:1047-1075 | one sample, in every phase |
| ScottieSchedule.SamplesPlayed | tools/sstv_offline_decode.py:1414-1429 | the loop plays the samples from the first position on, in order and without gaps |
| ScottieSchedule.PulsesPlayed | tools/sstv_offline_decode.py:1414-1425 | for increasing positions, a pulse before the sample at each later one |
| ScottieSchedule.PulsesCounted | tools/sstv_offline_decode.py:1414-1425 | and no other pulse |
| ScottieSchedule.QuietReception | tools/sstv_offline_decode.py:932-938 | for increasing positions, no pulse counts if and only if no later position lies in late Blue of the clock that starts at the first |
| ScottieSchedule.EvenReceptionIsQuiet | tools/sstv_offline_decode.py:932-938 | positions exactly a line apart never resynchronise, whatever the phase offset |
| ScottieReceiver.Receive | tools/sstv_offline_decode.py:1414-1429 | the decoder ends exactly where the interleaving of the samples and the later pulses takes it; a frame begins if and only if the first position lies in the recording, is complete if the bound's worth of samples follows, and shows the recording if no position lies in late Blue |
| ScottieReceiver.ReceivedPicture | tools/sstv_offline_decode.py:1414-1429 | the picture of such a reception: every row but the first from its own samples of the recording |
| ScottieReceiver.ReceivedPixels | tools/sstv_offline_decode.py:1414-1429 | the pixels of every reception are such windows of the recording from the first position on, in all rows once the frame is done |
| ScottieReceiver.RestIsIgnored | tools/sstv_offline_decode.py:1428-1429 | leaving the loop when the frame is done changes nothing |

## Left out

- Parsing and rewriting the C source of a font: regular expressions and text surgery; glyph entries and raw bytes are modelled directly, and negative numbers cannot be matched there.
- Files, archives, WAV chunks, command lines, console output: no logic of their own.
- Goertzel bins, window functions, the tone score, the frequency estimate and the header frequency shift: arbitrary functions of the window here, so nothing is proved about how well a tone is found.
- The slowrx-style path with its sync search, demodulation and resampling, the smoothing of positions and pixels, the line length chosen after the scan, and image comparison: floating-point signal processing. In the shipped settings that path runs after the header scan; the modelled decoder is the other path.
- `compute_sync_phase_offset`, `score_at` and the alternative windowed search: their results enter as the phase offset, which the source keeps from being negative, and as the positions of `ScottieReceiver.Receive`.
- The decoder's statistics of seen frequencies: written, never read by the decoder.
- Float rounding: scales, slopes and windows are real numbers, so the theorems about `SyncLineTracker` and the timing hold up to floating-point error only.
- Resynchronised pictures: `ScottieWindows.PixelsAreHeard` gives every pixel by the places its samples were taken at; a closed form for those places in the recording is proved for receptions in which no pulse counts.
- `collect_charset`: a set filled from files and sorted; `CodeRanges.WriteRanges` is proved for every list, not only sorted ones.
- Digits beyond ASCII in Python's `int`: `PyText` knows the ASCII ones; codes are printed in ASCII, so the round trips are not affected.
- Counting by language and by directory, the choice of a language by file name, and the walk over the source tree.
- The header scan in front of the position loop: `SyncPositions.FindPositions` begins at the sample where it ends.
- BDF parsing: `UnifontGlyph` begins at the parsed glyph.
- `scripts/check_*.py`, the packaging and release tools, board variants and the firmware itself: not part of this model.
