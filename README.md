# Lyric canvas layout and playlist import, modelled in Dafny

This project models two parts of a web music player.

**The canvas lyric view** (`components/LyricLineCanvas.ts`):
- **Layout.** Each lyric line is cut into atoms:
  - the line's own timed words, when it has any;
  - otherwise segmenter output, single characters for CJK text, or space-separated words.
- **Wrapping.** Atoms are placed left to right and wrap to a new row only when they would overflow. The translation wraps the same way.
- **Stacking.** Line blocks are stacked one under the other with a fixed gap.
- **Word animation.** Each word is pending, active or done at a given time. An active word uses one of two effects:
  - a per-character glow sweep, for long words with few characters;
  - a lift with a gradient.
- **Drawing.** A line block is drawn under a transform that scales around the block's vertical centre. The blur is clamped, and a hovered line gets a rounded background.

**The import dialog** (`components/ImportMusicDialog.tsx`):
- It trims its input and expands a bare numeric playlist ID to a NetEase Cloud Music playlist URL.
- It tracks a loading flag and the input field around the asynchronous import call.

## Modelling choices

**Numbers and text**
- JavaScript numbers are `real`. Strings are `seq<char>`, and `length` counts characters.
- `ctx.measureText` is a parameter of the layout, `Measure`, a function from a font and a text to a non-negative width.
- `Intl.Segmenter` is an optional parameter, `Segmenter`, from a language and a text to its segments.

**Layout: methods proved against folds**
- `measureLine`, `measureTranslationLines` and `measureLyrics` are methods with loops, as in the source. Each is proved equal to a specification fold:
  - `LineLayout.LineMeasure`;
  - `TranslationLayout.TranslationOf`;
  - `DocumentLayout.LyricsLayout`.
- The layout properties are proved about those folds.

**Drawing: an abstract command log**
- The drawing code becomes a log of canvas commands (`LineRenderer.Command`) and a small interpreter of the transform, opacity and filter state with its save stack.
- The glow and gradient rendering of one active word is a single command carrying the frame computed by `WordAnimator.FrameAt`.

**The dialog: a class**
- The dialog is a class whose fields are the component's state.
- The `onImport` and `onClose` callbacks are recorded in an `effects` log.
- How the import call ends is the parameter `Outcome`: resolved true, resolved false, or rejected.
- `handleImport` is split at its `await` into `BeginImport` and `FinishImport`. `HandleImport` runs both with nothing in between.

**Untimed words are active, not pending.** Words without their own timing get `startTime = line.time` and `endTime = 999999` (`components/LyricLineCanvas.ts:104-121`). So they are active from the line's time on, and done only after 999999 seconds. See `WordAnimator.SynthesizedWordsActive`.

## Model

| member | source | states |
|---|---|---|
| LineLayout.DetectLanguage | components/LyricLineCanvas.ts:26-29 | the language is Chinese exactly when some character lies in one of the three CJK ranges, otherwise English |
| LineLayout.GetFonts | components/LyricLineCanvas.ts:32-42 | weights 800/500, main line height equals the main font size, translation line height is 1.3 times the translation size, and the translation font is smaller |
| LineLayout.SpacedPartsShape | components/LyricLineCanvas.ts:114-120 | k space-separated parts give 2k-1 atoms, the parts at even positions and a single space at odd positions, spelling the joined text |
| LineLayout.VerbatimWordsFirst | components/LyricLineCanvas.ts:100-103 | a line with timed words yields exactly those words in order, with their own start/end times and marked verbatim, whatever the segmenter or language |
| LineLayout.SynthesizedTiming | components/LyricLineCanvas.ts:104-121 | without timed words every atom starts at the line's time, ends at 999999 and is not verbatim |
| LineLayout.SpaceSplitAtoms | components/LyricLineCanvas.ts:113-121 | without segmenter in English, 2k-1 atoms for k parts with " " between them, spelling the line text |
| LineLayout.CharSplitAtoms | components/LyricLineCanvas.ts:109-112 | without segmenter in Chinese, one atom per character, spelling the line text |
| LineLayout.FallbackWidth | components/LyricLineCanvas.ts:77-79 | the fallback width `length * baseSize * 0.5` is non-negative, and positive for a non-empty text and positive size |
| LineLayout.AtomWidth | components/LyricLineCanvas.ts:75-79 | the measured width is kept unless it is 0 for a text that is not blank after trimming, in which case the fallback is used; a non-blank atom gets a positive width |
| LineLayout.MeasureLine | components/LyricLineCanvas.ts:56-128 | the loop over the atoms returns exactly the specification fold `LineMeasure` of the line's atoms |
| LineLayout.PlaceAtomsWellPlaced | components/LyricLineCanvas.ts:70-97 | every prefix of the placement keeps the cursor invariants: words carry their atoms, consecutive words follow the wrap rule, the widest row is tracked |
| LineLayout.WrapOnlyOnOverflow | components/LyricLineCanvas.ts:81-84 | the first word is at (0, paddingY); a word starts a new row (x = 0, y + mainHeight) exactly when the previous row end plus its width exceeds maxWidth and that end is positive, and otherwise sits at the previous end on the same row |
| LineLayout.WordsCarryAtoms | components/LyricLineCanvas.ts:86-94 | one word per atom, in order, with the atom's text, times and verbatim flag and the width `AtomWidth` gives |
| LineLayout.WordsFitOrStartRow | components/LyricLineCanvas.ts:81-84 | every word has x = 0 or ends within maxWidth |
| LineLayout.OversizedAtomStandsAlone | components/LyricLineCanvas.ts:81-84 | an atom wider than maxWidth is kept, at x = 0, and the next word starts a new row |
| LineLayout.RowsDescend | components/LyricLineCanvas.ts:70-84 | word y values start at paddingY and never decrease |
| LineLayout.TextWidthIsWidestRow | components/LyricLineCanvas.ts:96-97 | textWidth is at least every word's right end and equal to one of them (0 without words) |
| LineLayout.MainHeightCoversRows | components/LyricLineCanvas.ts:123-127 | height is the last row's y plus mainHeight (paddingY + mainHeight without words), and every word lies between paddingY and the height |
| TranslationLayout.ConcatSpacedWords | components/LyricLineCanvas.ts:147-154 | English atoms (each but the last followed by a space) spell the parts joined with single spaces |
| TranslationLayout.TranslationAtomsSpell | components/LyricLineCanvas.ts:146-154 | the translation's atoms, words or characters by detected language, spell the translation |
| TranslationLayout.LinesHeight | components/LyricLineCanvas.ts:173 | no lines give height 0, one line gives transHeight + 4, more lines at least that |
| TranslationLayout.LinesHeightStep | components/LyricLineCanvas.ts:173 | each further line adds exactly transHeight |
| TranslationLayout.MeasureTranslationLines | components/LyricLineCanvas.ts:138-175 | the loop returns exactly the specification fold `TranslationOf` |
| TranslationLayout.WrapStepKeeps | components/LyricLineCanvas.ts:153-165 | one wrap step keeps the invariant: the groups flatten to the atoms seen, the current width is the current group's width, the grouping is greedy |
| TranslationLayout.WrapAtomsInvariant | components/LyricLineCanvas.ts:149-165 | after all atoms the wrap state satisfies that invariant |
| TranslationLayout.TranslationLinesSpell | components/LyricLineCanvas.ts:147-169 | concatenating the output lines gives back the translation |
| TranslationLayout.TranslationWrapGreedy | components/LyricLineCanvas.ts:157-169 | the lines are the texts of a greedy grouping: no group is empty, a new group starts exactly where its first atom would overflow the previous group (whose width is positive), and within a group no atom would have overflowed the atoms before it; the groups hold the translation's atoms in order, followed only by a trailing run of atoms with empty text (the last line that is dropped because it is empty); and no output line is empty |
| TranslationLayout.TranslationLinesHaveText | components/LyricLineCanvas.ts:157-169 | no output line is empty: a line pushed on overflow has positive width and so holds an atom with text, and an empty last line is dropped |
| TranslationLayout.EmptyTranslationLines | components/LyricLineCanvas.ts:167-169 | an empty translation gives no lines |
| TranslationLayout.TranslationHeight | components/LyricLineCanvas.ts:167-173 | there are lines exactly when the translation is not empty; the height is 0 without lines and at least transHeight + 4 with them |
| DocumentLayout.MainConfig | components/LyricLineCanvas.ts:183-188 | base size equals the main line height, positive, padding 12, the main font, and the wrap width `MaxWidth`: the container width less the horizontal padding (24 on mobile, 56 otherwise) on both sides |
| DocumentLayout.HasCjkJoin | components/LyricLineCanvas.ts:194-195 | joining with a non-CJK separator has a CJK character exactly when some part has one |
| DocumentLayout.DocumentLanguageFromSample | components/LyricLineCanvas.ts:193-195 | the document language, detected on `SampleTexts` joined with spaces, is Chinese exactly when one of the first five lines holds a CJK character |
| DocumentLayout.MeasureLyrics | components/LyricLineCanvas.ts:177-252 | the loop returns exactly the specification fold `LyricsLayout` |
| DocumentLayout.BlockShape | components/LyricLineCanvas.ts:206-243 | a block keeps the line's text, translation, words and width; it has wrapped translation lines exactly when the translation is non-empty, and those lines spell it; its height is exactly the main height plus paddingY, plus the translation's height `TranslationOf(...).height` when there is one; every word lies inside it |
| DocumentLayout.StackShape | components/LyricLineCanvas.ts:235-245 | the first block is at y = 0, each next block at the previous y + height + 12, blocks otherwise unchanged, and the cursor ends below the last block |
| DocumentLayout.LyricsLayoutShape | components/LyricLineCanvas.ts:190-251 | one block per lyric line, in order, built from that line; blocks stacked as above; totalHeight is the final cursor plus 0.8 times the container width |
| DocumentLayout.BlocksDoNotOverlap | components/LyricLineCanvas.ts:245 | any later block starts at least 12 below the end of any earlier block |
| WordAnimator.PhaseAt | components/LyricLineCanvas.ts:345-353 | pending exactly before the start, done exactly after the end, active exactly in the closed interval between |
| WordAnimator.PhasesInOrder | components/LyricLineCanvas.ts:345-353 | as time advances a word only moves forward from pending to active to done |
| WordAnimator.Clamp01 | components/LyricLineCanvas.ts:356 | the clamp lies in [0, 1], is the identity inside it and saturates outside |
| WordAnimator.Progress | components/LyricLineCanvas.ts:354-357 | progress lies in [0, 1] and is 0 when the duration is not positive |
| WordAnimator.ProgressIsRatio | components/LyricLineCanvas.ts:356 | for an active word of positive duration, progress is elapsed over duration |
| WordAnimator.ProgressMonotone | components/LyricLineCanvas.ts:354-357 | progress never decreases with time |
| WordAnimator.ProgressEnds | components/LyricLineCanvas.ts:354-357 | progress is 0 at the start and 1 at the end of a word of positive duration |
| WordAnimator.StrategyOf | components/LyricLineCanvas.ts:359 | glow exactly when the duration exceeds 1.5 and the text has fewer than 7 characters |
| WordAnimator.StrategyFixedWhileActive | components/LyricLineCanvas.ts:359-364 | the effect chosen does not change while the word is active |
| WordAnimator.EffectiveDuration | components/LyricLineCanvas.ts:377-378 | the sweep duration is the lesser of the duration and 1 + 0.25 per character |
| WordAnimator.GlowDurationAtLeastOne | components/LyricLineCanvas.ts:377-378 | for a glow word the sweep lasts at least one second |
| WordAnimator.EffectiveProgress | components/LyricLineCanvas.ts:403-407 | the sweep progress lies in [0, 1], is 1 once the sweep is over, and is elapsed over sweep duration while it runs |
| WordAnimator.ActiveIndex | components/LyricLineCanvas.ts:409-410 | the sweep centre runs from -3 (progress 0) to length + 3 (sweep over) |
| WordAnimator.CharStartsInOrder | components/LyricLineCanvas.ts:431 | characters further right start no earlier |
| WordAnimator.LitLeftToRight | components/LyricLineCanvas.ts:428-437 | when a character is lit, every character to its left is lit |
| WordAnimator.LitStaysLit | components/LyricLineCanvas.ts:428-437 | a lit character stays lit as time advances |
| WordAnimator.SweepEnds | components/LyricLineCanvas.ts:428-437 | the first character is lit at the start, and all are lit once the sweep is over |
| WordAnimator.GlowEndsFullyLit | components/LyricLineCanvas.ts:377-437 | at a glow word's end time the sweep is over, its progress is 1 and every character is lit |
| WordAnimator.StopsWindow | components/LyricLineCanvas.ts:467-468 | the gradient stops lie in [0, 1] around the progress, at most 0.4 apart, exactly 0.4 apart in the middle |
| WordAnimator.StopsAtEnds | components/LyricLineCanvas.ts:467-468 | at progress 0 the stops are 0 and 0.2; at progress 1 they are 0.8 and 1 |
| WordAnimator.GradientWidth | components/LyricLineCanvas.ts:465 | the gradient spans the word's width, and at least one pixel |
| WordAnimator.FrameFollowsPhase | components/LyricLineCanvas.ts:345-364 | the frame is pending, done (lifted by -3), glow or standard exactly in the matching phase and strategy |
| WordAnimator.StandardFrameStops | components/LyricLineCanvas.ts:450-468 | a standard frame's stops bracket its progress within [0, 1], at most 0.4 apart, the gradient is at least the word's width, and only verbatim words get the shadow |
| WordAnimator.GlowFrameShape | components/LyricLineCanvas.ts:377-437 | a glow frame's sweep duration is between 1 and the word's duration, an empty word has no sweep, and otherwise the sweep's progress, centre and per-character flags are in range, all lit once the sweep is over; the flags (`SweepAt`) are each character's lit test, and `LitLeftToRight`, `LitStaysLit` and `SweepEnds` say how they evolve |
| WordAnimator.SynthesizedWordsActive | components/LyricLineCanvas.ts:104-121 | a word built from untimed text is pending before the line's time, active from then to 999999, and never gets the shadow |
| LineRenderer.BlurFilter | components/LyricLineCanvas.ts:280-285 | a blur is applied exactly when it exceeds 0.5, and then with the given radius |
| LineRenderer.HoverWidth | components/LyricLineCanvas.ts:291 | the hover width is the text width plus 32, or 200 if that is more |
| LineRenderer.RoundRectRadius | components/LyricLineCanvas.ts:493-494 | the clamped radius is at most the given one, fits twice into the width and the height, and is unchanged when it already fits |
| LineRenderer.RoundRectRadiusIsLeast | components/LyricLineCanvas.ts:493-494 | the clamped radius is the least of the radius, half the width and half the height |
| LineRenderer.HoverBackground | components/LyricLineCanvas.ts:288-294 | the rounded background is drawn exactly when hovered, from x = -16 over the block's height, at least the text width plus 32 and 200 wide, with a radius of at most 16 that fits |
| LineRenderer.PivotTransform | components/LyricLineCanvas.ts:271-276 | the block transform scales around the block's vertical centre, which stays at y + height/2, and is a plain move to (x, y) at scale 1 |
| LineRenderer.LineCommandsBalanced | components/LyricLineCanvas.ts:269-367 | the saves and restores of the line and of every word pair up: none is missing and no restore precedes its save |
| LineRenderer.LineLeavesCanvasUnchanged | components/LyricLineCanvas.ts:269-327 | drawing a line leaves the transform, opacity, filter and save stack as they were |
| LineRenderer.WordCommandsDrawWord | components/LyricLineCanvas.ts:339-367 | drawing one word fills exactly its text once, whatever its state |
| LineRenderer.LineDrawsEachTextOnce | components/LyricLineCanvas.ts:300-325 | a line draws each of its words once, in order, then each translation line once, in order, when there is a translation |
| LineRenderer.TranslationLinePlacement | components/LyricLineCanvas.ts:316-324 | the k-th translation line is drawn at x = 0, k translation line heights below the first |
| JsString.Split | components/LyricLineCanvas.ts:147 | `split(" ")` (also at line 114) gives at least one part, no part contains the separator, and joining the parts with it gives the input back |
| JsString.TrimEmptyIffBlank | components/ImportMusicDialog.tsx:21 | trimming gives the empty string exactly when the input is all whitespace |
| JsString.TrimIdempotent | components/ImportMusicDialog.tsx:25 | trimming twice is trimming once |
| ImportDialog.PlaylistIdRoundTrip | components/ImportMusicDialog.tsx:30-31 | reading the ID back out of the expanded playlist URL gives the ID |
| ImportDialog.ImportTarget | components/ImportMusicDialog.tsx:21-33 | nothing is submitted exactly when the input is blank; what is submitted is never blank; it is the trimmed input in link mode, and in ID mode the playlist URL of the trimmed input when that is all digits, the trimmed input otherwise |
| ImportDialog.ImportTargetIgnoresPadding | components/ImportMusicDialog.tsx:21-25 | surrounding whitespace does not change what is submitted |
| ImportDialog.ImportTargetIdempotent | components/ImportMusicDialog.tsx:25-33 | submitting the submitted value again in the same mode submits it unchanged |
| ImportDialog.Dialog.constructor | components/ImportMusicDialog.tsx:16-18 | a fresh dialog has an empty input, is in ID mode, is not loading and has requested nothing |
| ImportDialog.Dialog.BeginImport | components/ImportMusicDialog.tsx:20-35 | ignored while loading or for a blank input; otherwise starts loading and calls the import with the normalised input, leaving the input and mode as they were |
| ImportDialog.Dialog.FinishImport | components/ImportMusicDialog.tsx:35-42 | loading always ends, a rejection included, and the rejection is passed on; on success the input is cleared and closing is requested; otherwise the input is kept |
| ImportDialog.Dialog.HandleImport | components/ImportMusicDialog.tsx:20-43 | the whole handler: the loading flag ends as it started; the import is called at most once, with the normalised input; success clears the input and requests closing |
| ImportDialog.Dialog.HandleClose | components/ImportMusicDialog.tsx:45-48 | the input is cleared and closing is requested |
| ImportDialog.Dialog.EditInput | components/ImportMusicDialog.tsx:109 | typing replaces the input and changes nothing else |
| ImportDialog.Dialog.SelectInputType | components/ImportMusicDialog.tsx:85-95 | the toggle sets the mode and changes nothing else |

## Left out

- Text measurement and segmentation are parameters. `ctx.measureText` and `Intl.Segmenter` are browser capabilities, and the segmenter's word boundaries are not modelled.
- `length` counts characters, not UTF-16 code units. A character outside the Basic Multilingual Plane counts once here and twice in the browser.
- Floating point is not modelled: numbers are exact reals, with no rounding, NaN or infinity. The `isFinite` fallback for the gradient stops (`components/LyricLineCanvas.ts:470-476`) cannot be taken with reals, so it is not modelled.
- `Math.sin` and `Math.exp` terms are left out, because they are transcendental floating-point functions. This covers:
  - the lift of the standard animation;
  - the shadow blur's pulse;
  - the breathing blur and scale of the glow;
  - the Gaussian character scale and brightness.

  The model keeps which of these effects applies, and when.
- Pixels are not modelled: fonts, fill colours beyond their opacity, gradients, shadows and the per-character transforms of the glow. Each of these is part of the single `FillAnimated` command of an active word. The path of `roundRect` is represented by one rounded-rectangle command with its clamped radius.
- The component's rendering is left out: the React markup, the portal, the `isOpen` switch and the Enter key binding. The Enter key calls the same handler.
- The dialog reads the current state, not a render-time snapshot. In the browser, a second click before the loading flag re-renders could start a second import. React's scheduling is outside the model, so the model does not capture this.
- `onImport` and `onClose` are callbacks into code outside this component. They are recorded as effects, and the result of `onImport` is the `Outcome` parameter.
- LineLayout.OversizedAtomStandsAlone: requires a non-negative `maxWidth`. A container narrower than twice the horizontal padding (48 pixels on mobile, 112 otherwise) gives a negative `maxWidth`. Then even a zero-width atom, such as the empty part a double space leaves, counts as wider than `maxWidth`, and the next atom may still share its row.
- TranslationLayout.TranslationHeight: states the height `lines * transHeight + 4` through `LinesHeight` (exact for one line, plus exactly `transHeight` per further line) rather than as a product in the lemma itself.
