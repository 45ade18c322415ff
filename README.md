# Batting Record — a verified model of its pitch-counting core

Batting Record is a React Native app for logging one batter's at-bat pitch by
pitch. The user taps the 3×3 strike-zone grid and picks a pitch type, a result
(好球 strike, 壞球 ball, 界外 foul, 打擊出去 ball in play), a speed and a note.
The app then:

- keeps the running count and decides when the at-bat ends (三振 strikeout,
  保送 walk, or the ball put in play);
- draws the earlier pitches as numbered, coloured dots;
- archives the at-bat as one summary record that can later be viewed and
  edited pitch by pitch.

This Dafny project models the logic under that UI:

| file | module | what it models |
|---|---|---|
| `pitch_types.dfy` | `PitchTypes` | game constants, the result set, the stored pitch record, `Option` |
| `sequences.dfy` | `Sequences` | the JavaScript array operations the core uses: `filter`, copy-and-`reverse`, copy-and-`splice(i, 1)` |
| `baseball_logic.dfy` | `BaseballLogic` | the ball/strike reducer `useBaseballLogic` |
| `pitch_utils.dfy` | `PitchUtils` | the zone mapper `getCellNumber` |
| `colors.dfy` | `Colors` | `getColorByResult` and the four meaning-carrying colours |
| `at_bat_service.dfy` | `AtBatService` | the archive payload builder `formatAtBatData` |
| `speed_input.dfy` | `SpeedInput` | the speed field's text sanitiser |
| `pitch_input.dfy` | `PitchInput` | the input form's state, `getResultOptions` and the `handleSave` guard chain |
| `pitch_history_dots.dfy` | `PitchHistoryDots` | the placement, numbering and colouring of history dots |
| `history_data_modal.dfy` | `HistoryDataModal` | the archive view's local pitch list, single-pitch removal and row numbering |

Some parts of the source work by changing state step by step, and the model
keeps them in that form:

- **The counting walk** (`BaseballLogic.ProcessAscending`) is a `while` loop
  over the three counters. It is proved equal to the recursive specification
  `Annotate` / `CountAfter`.
- **The final reverse** (`Sequences.ReverseCopy`) reverses a fresh array in
  place.
- **The splice on a copy** (`Sequences.SpliceCopy`) shifts a fresh array in
  place.
- **The form state** (`PitchInput.PitchInputForm`) and **the archive view's
  list** (`HistoryDataModal.HistoryDataModalState`) are classes with mutable
  fields.

Everything else is a function. The per-pitch transition `Step` states what
each result does to the count. The lemmas about the walk state that counts
are bounded and monotone, that each record carries the count after its
pitch, and that there is a single terminal pitch. Other lemmas state that
the sort is stable and a permutation, and that normalisation and placement
round-trip.

Value modelling:

- Coordinates are `real`.
- Timestamps are `int` milliseconds.
- A field that may be missing, or may not be a number, is an `Option`.

## Model

| member | source | states |
|---|---|---|
| PitchTypes.ParseResult | src/hooks/business/useBaseballLogic.js:31-42 | the four result strings map to the four named results and every other text to `Other`, and the text can always be recovered |
| PitchTypes.PitchNumber | src/components/PitchHistoryDots.js:31 | the number shown for index `i` of `n` entries is `n - i`, always in 1..n |
| Sequences.Filter | src/hooks/ui/usePitchInput.js:25-26 | `filter` keeps exactly the elements that satisfy the predicate and no other values, and never grows the list |
| Sequences.FilterIsSubsequence | src/hooks/ui/usePitchInput.js:25-27 | `filter` keeps the original order: the result is a subsequence of the input |
| Sequences.FilterCounts | src/components/forms/SpeedInput.js:15 | every occurrence of an accepted value survives, and none of a rejected one |
| Sequences.FilterIdempotent | src/components/forms/SpeedInput.js:15 | filtering twice equals filtering once |
| Sequences.FilterKeepsAccepted | src/hooks/ui/usePitchInput.js:27 | a list whose every element is accepted passes through unchanged |
| Sequences.FilterDropsRejected | src/components/forms/SpeedInput.js:15 | a list whose every element is rejected filters to empty |
| Sequences.FilterAppend | src/components/forms/SpeedInput.js:15 | filtering distributes over concatenation |
| Sequences.FilterSingle | src/hooks/business/useBaseballLogic.js:14-16 | a one-element list filters to itself when the element is accepted, else to empty |
| Sequences.FilterSnoc | src/hooks/business/useBaseballLogic.js:14-16 | filtering a list with one more element at the end appends that element exactly when it is accepted |
| Sequences.FilterAppendCongruent | src/hooks/business/useBaseballLogic.js:14-16 | two lists with the same filtered result keep the same filtered result after the same suffix is appended |
| Sequences.FilterAppendSwap | src/hooks/business/useBaseballLogic.js:14-16 | swapping two adjacent final elements that are not both accepted leaves the filtered result unchanged |
| Sequences.FilterRejectCount | src/hooks/ui/usePitchInput.js:25-26 | a filter rejecting one value removes exactly that value's copies |
| Sequences.Reversed | src/hooks/business/useBaseballLogic.js:53 | the reversed list has the same length, and position `i` holds element `n-1-i` |
| Sequences.ReverseCopy | src/hooks/business/useBaseballLogic.js:53 | reversing a copy in place yields `Reversed` of the input |
| Sequences.ReversedTwice | src/hooks/business/useBaseballLogic.js:53 | reversing is its own inverse |
| Sequences.ReversedExists | src/hooks/business/useBaseballLogic.js:53 | some element satisfies a property in the reversed list iff some element does in the original |
| Sequences.SpliceStart | src/components/modals/HistoryDataModal.js:32 | `splice` starts at the index when it lies in 0..len, counts a negative index from the end; an index past the end clamps to len and one below -len clamps to 0 |
| Sequences.SpliceOne | src/components/modals/HistoryDataModal.js:32 | `splice(i, 1)` shortens the list by one when the start is inside it, keeps earlier elements and shifts later ones down, and changes nothing otherwise |
| Sequences.SpliceCopy | src/components/modals/HistoryDataModal.js:31-32 | copying the list and splicing the copy in place gives `SpliceOne` |
| Sequences.SpliceOneRemovesOne | src/components/modals/HistoryDataModal.js:32 | the removal takes exactly the element at the start position out of the multiset |
| Sequences.SpliceOneUndoesInsert | src/components/modals/HistoryDataModal.js:32 | removing at `k` undoes an insertion at `k` |
| Colors.ColorByResult | src/constants/Colors.js:17-24 | a walk outcome gives the ball colour and a strikeout the strike colour, whatever the result; otherwise ball, strike and foul each get their own colour; anything else gets the neutral colour |
| Colors.HexDistinct | src/constants/Colors.js:4-7 | the four colour constants are pairwise different |
| BaseballLogic.AnnotateNext | src/hooks/business/useBaseballLogic.js:24-49 | the record carries its own pitch, and its running counts and outcome are those of one `Step` from the count before it; after the end it repeats that count with no outcome; an outcome is only set while the at-bat is open |
| BaseballLogic.Step | src/hooks/business/useBaseballLogic.js:24-42 | one pitch on an open at-bat: a strike adds a strike and finishes as a strikeout iff there were already 2; a ball adds a ball and finishes as a walk iff there were already 3; a foul adds a strike only below 2 strikes and never finishes; in play keeps the counts and finishes as in play. A finished at-bat is unchanged, unknown text changes nothing, counts never decrease, and reachable counts stay reachable |
| BaseballLogic.CountAfter | src/hooks/business/useBaseballLogic.js:18-50 | the counters after any sequence of pitches stay within 4 balls and 3 strikes, and a fourth ball or a third strike only occurs once the at-bat is finished |
| BaseballLogic.Annotate | src/hooks/business/useBaseballLogic.js:23-50 | one annotated record per pitch, in the same order, each carrying its own pitch |
| BaseballLogic.ProcessAscending | src/hooks/business/useBaseballLogic.js:18-50 | the counting loop produces exactly `Annotate` and ends at `CountAfter` |
| BaseballLogic.AnnotatePrefix | src/hooks/business/useBaseballLogic.js:23-50 | annotating a prefix gives the prefix of the annotation: a record depends only on earlier pitches |
| BaseballLogic.AnnotateExtend | src/hooks/business/useBaseballLogic.js:23-50 | walking one more pitch appends that pitch's annotation, taken at the count so far, and advances the count by one step |
| BaseballLogic.AnnotateAt | src/hooks/business/useBaseballLogic.js:23-50 | record `i` is the step from the count after the first `i` pitches |
| BaseballLogic.RunningCountsAreCountAfter | src/hooks/business/useBaseballLogic.js:44-49 | record `i` carries the balls and strikes counted after the first `i + 1` pitches |
| BaseballLogic.CountMonotone | src/hooks/business/useBaseballLogic.js:31-41 | counts never decrease along the walk, and once finished the count is frozen |
| BaseballLogic.RunningCountsMonotoneAndBounded | src/hooks/business/useBaseballLogic.js:31-41 | running counts of later records are at least those of earlier ones, and never exceed 4 balls and 3 strikes |
| BaseballLogic.AtMostOneEnding | src/hooks/business/useBaseballLogic.js:24-26 | after a record with an end outcome, every later record has no outcome and repeats its counts |
| BaseballLogic.EndingStep | src/hooks/business/useBaseballLogic.js:24-42 | one more annotated pitch keeps "3 strikes iff strikeout, 4 balls iff walk, finished iff some outcome" |
| BaseballLogic.EndingsMatchFinalCount | src/hooks/business/useBaseballLogic.js:31-41 | 3 final strikes iff a strikeout record exists; 4 final balls iff a walk record exists; finished iff some record has an outcome |
| BaseballLogic.EndingCause | src/hooks/business/useBaseballLogic.js:31-41 | a strikeout record is a strike with 3 running strikes; a walk record is a ball with 4 running balls; an in-play outcome belongs to an in-play pitch |
| BaseballLogic.EditKeepsEarlier | src/hooks/business/useBaseballLogic.js:23-50 | replacing pitch `k` does not change any earlier record |
| BaseballLogic.SortKey | src/hooks/business/useBaseballLogic.js:15 | the sort key is the `createdAt` milliseconds, or 0 when it is missing |
| BaseballLogic.InsertByKey | src/hooks/business/useBaseballLogic.js:14-16 | inserting one pitch grows the list by one |
| BaseballLogic.SortByCreatedAt | src/hooks/business/useBaseballLogic.js:14-16 | sorting keeps the length |
| BaseballLogic.InsertByKeyPermutes | src/hooks/business/useBaseballLogic.js:14-16 | inserting adds exactly that pitch to the multiset of pitches |
| BaseballLogic.InsertByKeySorted | src/hooks/business/useBaseballLogic.js:14-16 | inserting into a list ordered by `createdAt` keeps it ordered |
| BaseballLogic.SortByCreatedAtCorrect | src/hooks/business/useBaseballLogic.js:14-16 | the result is ordered by `createdAt`, with a missing one read as 0, and is a permutation of the input |
| BaseballLogic.SortKeepsSorted | src/hooks/business/useBaseballLogic.js:14-16 | an already ordered list is returned unchanged |
| BaseballLogic.InsertByKeyFilter | src/hooks/business/useBaseballLogic.js:14-16 | inserting a pitch keeps the arrival order among the pitches of any one key: it lands after every pitch with its own key |
| BaseballLogic.SortStable | src/hooks/business/useBaseballLogic.js:14-16 | the sort is stable: for every key, the pitches with that key appear in the result in their arrival order |
| BaseballLogic.TiedKeysOrderMatters | src/hooks/business/useBaseballLogic.js:14-41 | a strike and a ball in play with the same timestamp give 0-1 in one arrival order and 0-0 in the other, so the result depends on arrival order when keys tie |
| BaseballLogic.SortedPermutationUnique | src/hooks/business/useBaseballLogic.js:14-16 | two ordered permutations of records with distinct timestamps are equal |
| BaseballLogic.Scored | src/hooks/business/useBaseballLogic.js:7-64 | a null input gives no records and the empty status; otherwise one record per input pitch, counted in the status; the counts stay within 4 balls and 3 strikes; `lastResult` is present iff there is a record, and is then the newest record's result |
| BaseballLogic.UseBaseballLogic | src/hooks/business/useBaseballLogic.js:7-64 | a null input gives no records and a zero, unfinished status; otherwise the records are the annotated ascending list reversed, the count is the input length, and `lastResult` is the newest record's result |
| BaseballLogic.StatusMatchesNewest | src/hooks/business/useBaseballLogic.js:55-63 | the status counts equal the newest record's running counts (zero with no records), and the status is finished iff some record has an outcome |
| BaseballLogic.ReversedOutcomes | src/hooks/business/useBaseballLogic.js:53 | the newest-first list holds an outcome, a strikeout or a walk iff the chronological list does |
| BaseballLogic.OrderIndependent | src/hooks/business/useBaseballLogic.js:14-16 | two inputs with the same records and distinct timestamps, in any arrival order, give the same result |
| BaseballLogic.ThreeStrikes | src/hooks/business/useBaseballLogic.js:31-33 | the third strike of three is tagged strikeout and finishes the at-bat |
| BaseballLogic.FoulAtTwoStrikes | src/hooks/business/useBaseballLogic.js:37-38 | a foul at two strikes leaves two strikes and does not finish |
| BaseballLogic.FourBalls | src/hooks/business/useBaseballLogic.js:34-36 | the fourth ball is tagged walk with 4 running balls |
| BaseballLogic.SingleBallInPlay | src/hooks/business/useBaseballLogic.js:39-41 | a lone in-play pitch is tagged in play with 0-0 and finishes |
| PitchUtils.ThirdOf | src/utils/PitchUtils.js:23-27 | the floor of `offset / (size/3)` is in 0..2 and names the third that contains the offset |
| PitchUtils.ThirdBounds | src/utils/PitchUtils.js:23-27 | for an offset inside the size, that floor lies in 0..2, and the offset lies between it and its successor times a third of the size |
| PitchUtils.ThirdOfHalf | src/utils/PitchUtils.js:26-27 | the middle of a size lies in its middle third |
| PitchUtils.Normalise | src/utils/PitchUtils.js:35-36 | the normalised value times the size gives the offset back |
| PitchUtils.CellIndex | src/utils/PitchUtils.js:23-29 | an inside offset gets a cell number in 1..9 |
| PitchUtils.CellIndexThirds | src/utils/PitchUtils.js:26-29 | `(n-1) % 3` of a cell number is the column third and `(n-1) / 3` the row third of the offset |
| PitchUtils.CellIndexContains | src/utils/PitchUtils.js:23-29 | the column and row that a cell number names hold the offset |
| PitchUtils.GetCellNumber | src/utils/PitchUtils.js:8-38 | no layout or width 0 gives cell 0, outside, 0, 0; otherwise inside iff `0 <= offset < size` on both axes; the normalised values are `Normalise` of the offsets, so times the size they give the offsets back; outside means cell 0 and inside means 1..9 |
| PitchUtils.CellContainsPoint | src/utils/PitchUtils.js:23-29 | an inside point lies in column `(n-1) % 3` and row `(n-1) / 3` of its cell number `n` |
| PitchUtils.InsideCellIndex | src/utils/PitchUtils.js:18-29 | an inside point's offset is within the grid and its cell number is the cell index of that offset |
| PitchUtils.InsideIsNormalised | src/utils/PitchUtils.js:32-37 | an inside point has both normalised values in [0, 1) |
| PitchUtils.OutsideIsNotClamped | src/utils/PitchUtils.js:15-20 | a point left of or above the grid is outside, gets cell 0, and has a negative normalised value |
| PitchUtils.FarEdgesAreOutside | src/utils/PitchUtils.js:18 | the right and bottom edges are outside |
| PitchUtils.CentreAndCorner | src/utils/PitchUtils.js:23-29 | the centre is cell 5 at (0.5, 0.5); the top-left corner is cell 1 at (0, 0) |
| AtBatService.ArchivePitch | src/services/atBatService.js:28-36 | each archived pitch keeps its result; every present field is copied as is, a missing string becomes '' and a missing number 0 |
| AtBatService.ArchiveAll | src/services/atBatService.js:28 | one archived entry per record, in the same order |
| AtBatService.FormatAtBatData | src/services/atBatService.js:9-42 | a non-array is an empty list; final counts come from the newest record, or 0; walk iff 4 balls, strikeout iff 3 strikes without 4 balls, otherwise summarised; the label defaults to 未命名打席 and the note to ''; the total is the length; the start is the oldest record's time, else now |
| AtBatService.ArchiveKeepsStatus | src/services/atBatService.js:37-39 | archiving the reducer's output keeps its status counts and record count, and starts at the earliest pitch |
| AtBatService.ArchiveOutcomeMatchesEnding | src/services/atBatService.js:19-21 | the archive says strikeout iff a strikeout record exists, and walk iff a walk record exists |
| SpeedInput.FilterSpeed | src/components/forms/SpeedInput.js:15 | the sanitised text has only digits and dots, keeps every digit and dot, and is never longer |
| SpeedInput.FilterSpeedDeletesOnly | src/components/forms/SpeedInput.js:15 | the result is a subsequence of the input, and each digit or dot keeps its number of occurrences |
| SpeedInput.FilterSpeedIdempotent | src/components/forms/SpeedInput.js:15 | sanitising twice equals sanitising once |
| SpeedInput.FilterSpeedKeepsNumbers | src/components/forms/SpeedInput.js:15 | text made of digits and dots passes unchanged |
| SpeedInput.RepeatedDotsKept | src/components/forms/SpeedInput.js:15 | "1.2.3" stays "1.2.3" |
| SpeedInput.FilterSpeedDropsLetters | src/components/forms/SpeedInput.js:15 | text without digits or dots becomes empty |
| SpeedInput.SanitiseAsYouType | src/components/forms/SpeedInput.js:15 | appending to a sanitised text and sanitising equals sanitising everything typed |
| PitchInput.GetResultOptions | src/hooks/ui/usePitchInput.js:24-28 | with 3 strikes, every option except strike; otherwise with 4 balls, every option except ball; otherwise all options; always in the original order |
| PitchInput.ResultOptionsCount | src/hooks/ui/usePitchInput.js:25-26 | the offered list loses exactly the copies of the excluded result |
| PitchInput.AtMostOneResultWithheld | src/hooks/ui/usePitchInput.js:25-26 | of the game's four results at most one is withheld |
| PitchInput.HandleSave | src/hooks/ui/usePitchInput.js:30-62 | a finished at-bat is refused; strike at 3 strikes and ball at 4 balls are refused; anything else is submitted with the cell's number and position, the form's type, result and note, and the parsed speed or 0 |
| PitchInput.OffersMatchSaves | src/hooks/ui/usePitchInput.js:24-47 | on an open at-bat without both counts full, a result is offered iff saving it is accepted |
| PitchInput.OpenScoredStatusAcceptsAll | src/hooks/ui/usePitchInput.js:32-47 | a reducer status never has both counts full, and while it is open every result is offered and accepted |
| PitchInput.PitchInputForm.constructor | src/hooks/ui/usePitchInput.js:8-11 | the form starts at the first pitch type, the first result, and an empty speed and note |
| PitchInput.PitchInputForm.SetPitchType | src/hooks/ui/usePitchInput.js:8 | only the pitch type changes |
| PitchInput.PitchInputForm.SetResult | src/hooks/ui/usePitchInput.js:9 | only the result changes |
| PitchInput.PitchInputForm.SetNote | src/hooks/ui/usePitchInput.js:11 | only the note changes |
| PitchInput.PitchInputForm.EnterSpeed | src/hooks/ui/usePitchInput.js:10 | the speed becomes the sanitised text, so it only ever holds digits and dots |
| PitchInput.PitchInputForm.OnVisibilityChange | src/hooks/ui/usePitchInput.js:14-21 | hiding resets all four fields to their initial values; showing changes nothing |
| PitchInput.PitchInputForm.Save | src/hooks/ui/usePitchInput.js:30-62 | saving the current fields decides as `HandleSave` and leaves the form unchanged |
| PitchHistoryDots.Place | src/components/PitchHistoryDots.js:18-45 | a record without a numeric position gives no dot; otherwise the dot is numbered `length - index` |
| PitchHistoryDots.PlaceFirst | src/components/PitchHistoryDots.js:18-46 | dot numbers strictly decrease and stay in range; each dot is its record's placement; every placeable record has its dot |
| PitchHistoryDots.HistoryDots | src/components/PitchHistoryDots.js:7-49 | nothing without a truthy zone height, a layout and records; otherwise every dot is the placement of the record it is numbered for, every placeable record is drawn, and the numbers are distinct and in 1..n |
| PitchHistoryDots.PlacedAtScaledPosition | src/components/PitchHistoryDots.js:28-29 | a dot sits at the stored fractions times the grid size, with the record's key and colour |
| PitchHistoryDots.DotUndoesNormalisation | src/components/PitchHistoryDots.js:28-29 | a position stored from a tap is drawn exactly at the tapped offset from the grid corner |
| PitchHistoryDots.OutcomeKeepsResultColour | src/components/PitchHistoryDots.js:42 | on the reducer's records, colouring with the outcome equals colouring by the result alone |
| HistoryDataModal.RowNumbers | src/components/modals/HistoryDataModal.js:59 | row numbers run from n down to 1, strictly decreasing |
| HistoryDataModal.RowColor | src/components/modals/HistoryDataModal.js:60 | an archived row's colour is ball, strike or foul exactly for those results |
| HistoryDataModal.ArchivedColourMatchesLive | src/components/modals/HistoryDataModal.js:144 | after archiving, each pitch keeps the colour its dot had during the at-bat |
| HistoryDataModal.HistoryDataModalState.constructor | src/components/modals/HistoryDataModal.js:13 | the local list starts empty |
| HistoryDataModal.HistoryDataModalState.SyncFromRecord | src/components/modals/HistoryDataModal.js:15-19 | a record carrying a pitch list (even an empty one) replaces the local list; otherwise the list is kept |
| HistoryDataModal.HistoryDataModalState.DeleteSinglePitch | src/components/modals/HistoryDataModal.js:24-38 | the local list becomes the old list with one element removed; the update sends that same list with the record's id; a valid index shortens the list by one and keeps the rest in order |

## Left out

- Firestore reads and writes, authentication, navigation, animation, layout
  measurement, `Alert` dialogs, `console.log` and the async busy flags: these
  are I/O or presentation.
- The clock: `new Date()` in the archive builder is the parameter `now`, in
  milliseconds.
- Firestore `Timestamp` objects are not modelled either. `createdAt` is the
  millisecond value that `getTime()` would return. A present timestamp is
  therefore truthy even when it is 0, as a `Date` object is.
- JavaScript number parsing: `parseFloat` is the parameter `parseFloat`,
  where `None` stands for NaN. `Number(...)` coercion of stored speeds and
  cell numbers is folded into the `Option` fields.
- IEEE floating point: coordinates are exact reals. Rounding at the cell
  boundaries is not modelled.
- PitchUtils.GetCellNumber: requires `Divisible`, which excludes a grid of
  height 0 with a non-zero width. The source checks only the width before
  dividing by the height. Its caller, src/screens/StrikeZoneScreen.js:128-129,
  checks only that a layout exists. For that grid the source returns outside,
  cell 0 and a relY that is an infinity or NaN. Infinities and NaN have no
  counterpart among the reals, so that case is not modelled.
- The zone mapper's right and bottom edges are outside: the test uses strict
  `<` (src/utils/PitchUtils.js:18). The column and row are not clamped
  (src/utils/PitchUtils.js:26-27).
- BaseballLogic.SortByCreatedAt: the stable insertion sort is a function on
  sequences. It stands for the engine's `Array.prototype.sort` on a copy.
  It is not an in-place array algorithm, and the comparator-based algorithm
  the engine picks is not modelled. Only the result is modelled: ordered,
  a permutation, and stable (`SortStable`).
- BaseballLogic.OrderIndependent: requires distinct timestamps. With tied
  timestamps the result does depend on arrival order
  (`TiedKeysOrderMatters`). Ties occur: a record stored without a timestamp
  is given the read time (src/services/pitchService.js:46).
- The null-input status of the reducer omits `lastResult` (undefined), and
  a record passed through after the end has no `atBatEndOutcome` field.
  Both read as `None` here, the same as `null`.
- PitchTypes.PitchResult: the type can hold `Other` of one of the four
  result strings, which `Step` and the colour functions treat as unknown
  while the source would count it. `ParseResult` never produces such a
  value (its ensures says `Other` only for other text), and every result in
  the model is meant to come from it; the type itself does not exclude it.
- Array elements that are themselves `null` or `undefined` are not
  modelled. A record without a result reads as the result `Other("")`.
- The unused `reason` variable in `handleSave`
  (src/hooks/ui/usePitchInput.js:33-34) has no effect and is not modelled.
- PitchInput.PitchInputForm.EnterSpeed: only the path through the speed
  field is modelled. A raw `setSpeed` with unsanitised text is not
  modelled, so the class invariant that the speed holds only digits and
  dots describes the form as the input modal drives it.
- The near-duplicate dot placements with window-size centring, and the
  older unexported copy of `formatAtBatData`, are not part of this model.
- The per-pitch edit form and its service are not part of this model.
