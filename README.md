# Timeline widget interaction core, in Dafny

This project models the interaction logic of a timeline editor widget. It covers five components.

- **NumberInputField** is a staged numeric edit field. It shows a draft that follows the keyboard and reports a value through `onChange` only at commit points. Every reported value is quantised by `validateValue`: clamp to `[min, max]`, round to an integer, round to a multiple of ten.
- **PlayControls** wires two such fields to the timeline's `time` and `duration`. A committed duration below the current time pulls the time down with it.
- **Ruler** turns a click, or a drag over the ruler bar, into `setTime` calls.
- **SyncScroll** keeps the horizontal and vertical scroll offsets of the tagged panes equal.
- **Playhead** places the play-position marker and hides it once it has scrolled out on the left.

Files and modules:

| file | module | models |
|---|---|---|
| `wrappers.dfy` | `Wrappers` | an `Option` type |
| `utils.dfy` | `Utils` | `tenMultipliers`, as an explicit assumption (below) |
| `number_parse.dfy` | `NumberParse` | the text a number input hands to its change handler |
| `number_input.dfy` | `NumberInput` | `validateValue`, the field's reactions, class `NumberInputField` |
| `play_controls.dfy` | `Controls` | class `PlayControls` over `time`/`duration` and the setter log |
| `ruler.dfy` | `RulerSeek` | class `Ruler`, its drag session and its `setTime` log |
| `sync_scroll.dfy` | `ScrollSync` | the pane registry and `HandleScroll` over the offset arrays |
| `playhead.dfy` | `PlayheadPosition` | the pure locator |

Stateful components follow one pattern. A pure function gives each reaction as a function of the state before the event (`AfterChange`, `AfterKeyDown`, `AfterDurationChange`, `AfterMouseMove`, `Synced`/`Writes`, ...). The class method for the same handler updates its fields in place, and its `ensures` ties the new state to that function. The lemmas about the functions carry the properties.

**Assumption: `tenMultipliers`.** Its module (`src/utils`) is not part of this model. `Utils.TenMultiple` assumes it rounds to the nearest multiple of ten, with ties going up: `((n + 5) / 10) * 10` with floor division. This agrees with every value the tests observe: 234 to 230 and 100 to 100 in `src/tests/Ruler.spec.tsx:21-25`, and 104.5 to 110 and 100.4 to 100 in `src/Timeline/NumberInputField/NumberInputField.spec.tsx:323-328`. It is an assumption, not a verified fact.

**Numbers.** The field's draft is an exact `real`, because typed decimals such as 104.5 reach it. `Math.round(r)` is `Floor(r + 1/2)`. Committed values, pixel offsets and scroll offsets are `int`.

**Behaviour of the code worth knowing.**

- `validateValue` quantises to multiples of ten whatever the field's `step` is. `Validate` takes no step.
- Escape calls `onChange` with the validated committed value, so a revert is also reported upward.
- Emptied text commits `validateValue(value)` at once, in the change handler.
- Enter and Escape call `clearFocus()`. On a focused field, `input.blur()` runs the blur handler synchronously, so `onChange` is called a second time. For Enter it is the same value again. For Escape see Findings.
- The playhead is hidden when `time < scrollLeft - 15`, so it stays visible up to 15 pixels left of the scroll position. For example, at scroll 200, time 199 is visible.
- `SyncScroll` takes no props. It reports no horizontal offset upward, and its registry is built once at mount and never rescanned.

## Model

| member | source | states |
|---|---|---|
| `Utils.TenMultiple` | src/Timeline/Ruler.tsx:2 | assumed `tenMultipliers`: a multiple of ten within `(n-5, n+5]`, i.e. the nearest one, ties up |
| `Utils.TenMultipleFixes` | src/Timeline/Ruler.tsx:2 | a multiple of ten is left unchanged |
| `Utils.TenMultipleBetween` | src/Timeline/NumberInputField/NumberInputField.tsx:45 | a value between two multiples of ten rounds to a value between them |
| `Utils.TenMultipleMonotone` | src/Timeline/Ruler.tsx:2 | rounding to the ten grid preserves order |
| `NumberParse.ParseNumber` | src/Timeline/NumberInputField/NumberInputField.tsx:77-81 | empty text is no number; a digit string reads as its decimal value |
| `NumberParse.FirstDot` | src/Timeline/NumberInputField/NumberInputField.tsx:81 | the position of the decimal point, or the end when there is none |
| `NumberParse.DigitsParsed` | src/Timeline/NumberInputField/NumberInputField.tsx:81 | a non-empty digit string reads as its decimal value |
| `NumberParse.FirstDotAfterDigits` | src/Timeline/NumberInputField/NumberInputField.tsx:81 | in digits followed by more text, the first decimal point is found in that text |
| `NumberParse.ParseThreeDigits` | src/Timeline/NumberInputField/NumberInputField.spec.tsx:27-28 | a three-digit text reads as 100, 10 and 1 times its digits |
| `NumberParse.LeadingZeroIgnored` | src/Timeline/NumberInputField/NumberInputField.spec.tsx:279-280 | a leading zero does not change the value, so "0100" shows as 100 |
| `NumberParse.LeadingZerosExample` | src/Timeline/NumberInputField/NumberInputField.spec.tsx:279-280 | "0100" reads as 100 |
| `NumberParse.DecimalParsed` | src/Timeline/NumberInputField/NumberInputField.tsx:81 | "w.f" reads as w plus f over its power of ten |
| `NumberParse.DecimalExample` | src/Timeline/NumberInputField/NumberInputField.spec.tsx:323 | "104.5" reads as 104.5 |
| `NumberParse.DecimalBelowHalfExample` | src/Timeline/NumberInputField/NumberInputField.spec.tsx:326 | "100.4" reads as 100.4 |
| `NumberParse.NegativeExample` | src/Timeline/NumberInputField/NumberInputField.spec.tsx:301 | "-100" reads as -100 |
| `NumberParse.NonNumericExample` | src/Timeline/NumberInputField/NumberInputField.spec.tsx:348-350 | "123abc" reads as no number, like empty text |
| `NumberInput.Round` | src/Timeline/NumberInputField/NumberInputField.tsx:44 | `Math.round`: the nearest integer, halves up |
| `NumberInput.ToInteger` | src/Timeline/NumberInputField/NumberInputField.tsx:42-44 | integers are kept, other values rounded to the nearest integer |
| `NumberInput.ToIntegerMonotone` | src/Timeline/NumberInputField/NumberInputField.tsx:42-44 | rounding to an integer preserves order |
| `NumberInput.Clamp` | src/Timeline/NumberInputField/NumberInputField.tsx:41 | `Math.min(Math.max(x, lo), hi)`: below `lo` gives `lo` (ordered bounds), above `hi` gives `hi`, inside is unchanged, `hi` when `hi < lo` |
| `NumberInput.Validate` | src/Timeline/NumberInputField/NumberInputField.tsx:39-48 | the multiple of ten nearest to `Math.round` of the clamped value (ties up), hence within `[min, max]` when the bounds are ordered multiples of ten; no dependence on step |
| `NumberInput.ValidateKeepsValid` | src/Timeline/NumberInputField/NumberInputField.tsx:39-48 | an in-bounds multiple of ten is returned unchanged |
| `NumberInput.ValidateIdempotent` | src/Timeline/NumberInputField/NumberInputField.tsx:39-48 | validating twice equals validating once, for all bounds |
| `NumberInput.ValidateMonotone` | src/Timeline/NumberInputField/NumberInputField.tsx:39-48 | a larger entry never validates to a smaller value |
| `NumberInput.NegativeClampsToMinExample` | src/Timeline/NumberInputField/NumberInputField.spec.tsx:301-303 | -100 with min 10 gives 10 |
| `NumberInput.DecimalRoundingExamples` | src/Timeline/NumberInputField/NumberInputField.spec.tsx:323-328 | 104.5 gives 110 and 100.4 gives 100 |
| `NumberInput.IsInvalid` | src/Timeline/NumberInputField/NumberInputField.tsx:29-31 | the red-text flag: the draft differs from its validated value |
| `NumberInput.InvalidIffOffGrid` | src/Timeline/NumberInputField/NumberInputField.tsx:29-31 | with quantised bounds, the field is invalid exactly when its draft is not an in-bounds integer multiple of ten |
| `NumberInput.Commit` | src/Timeline/NumberInputField/NumberInputField.tsx:50-59 | `submitChange` reports the validated value, shows it, and clears the invalid flag |
| `NumberInput.IsStepNudge` | src/Timeline/NumberInputField/NumberInputField.tsx:83-85 | the step-button heuristic: one step from the draft rounded to tens, or from the draft itself when the new value equals the step |
| `NumberInput.StepNudgeFromGrid` | src/Timeline/NumberInputField/NumberInputField.tsx:83-85 | for a draft on the ten grid, a nudge is exactly the draft plus or minus one step |
| `NumberInput.AfterChange` | src/Timeline/NumberInputField/NumberInputField.tsx:75-93 | empty text reports and shows the validated committed value; a number is shown as typed and reported only when `IsStepNudge` holds, otherwise nothing is reported |
| `NumberInput.AfterBlur` | src/Timeline/NumberInputField/NumberInputField.tsx:124-126 | blur commits the validated draft and drops focus |
| `NumberInput.AfterClearFocus` | src/Timeline/NumberInputField/NumberInputField.tsx:68-73 | blurring a focused input runs the blur handler: reports and shows `validate(draft)`; an unfocused one is unchanged |
| `NumberInput.AfterKeyDown` | src/Timeline/NumberInputField/NumberInputField.tsx:95-118 | Enter reports `validate(draft)`, and Escape `validate(value)`, once on an unfocused field and twice on a focused one (the blur follows); both end showing that value without focus; arrows commit `validate(draft ± step)`; other keys change nothing; calls only appended |
| `NumberInput.AfterFocus` | src/Timeline/NumberInputField/NumberInputField.tsx:120-122 | focus changes nothing but the focus flag |
| `NumberInput.AfterValueProp` | src/Timeline/NumberInputField/NumberInputField.tsx:33-37 | a changed committed value overwrites the draft; an unchanged one does nothing |
| `NumberInput.Step` | src/Timeline/NumberInputField/NumberInputField.tsx:75-126 | each event appends at most two reports and keeps them within quantised bounds |
| `NumberInput.Changes` | src/Timeline/NumberInputField/NumberInputField.tsx:134 | a run of typed texts as change events |
| `NumberInput.RunReportsOnlyValidValues` | src/Timeline/NumberInputField/NumberInputField.tsx:50-59 | over any event sequence, every `onChange` argument is within bounds on the ten grid, and earlier calls are never undone |
| `NumberInput.TypingNeverCommits` | src/Timeline/NumberInputField/NumberInputField.tsx:81-90 | typing numbers that are not step nudges never calls `onChange` |
| `NumberInput.EscapeRevertsToValue` | src/Timeline/NumberInputField/NumberInputField.tsx:103-107 | with a valid committed value, Escape's last report and the draft are that value |
| `NumberInput.StaleCommit` | src/Timeline/NumberInputField/NumberInputField.tsx:50-59 | `submitChange` reading a stale `inputValue`: reports the validated value; shows it when it differs from the stale draft, otherwise keeps the shown draft; with an up-to-date draft it is `Commit` |
| `NumberInput.TypeThenEnterExample` | src/Timeline/NumberInputField/NumberInputField.spec.tsx:27-32 | typing 100 shows 100 and reports nothing; Enter reports 100 |
| `NumberInput.StepButtonsExample` | src/Timeline/NumberInputField/NumberInputField.spec.tsx:79-84 | at 150, "160" reports 160, then "150" reports 150 |
| `NumberInput.ArrowKeysExample` | src/Timeline/NumberInputField/NumberInputField.spec.tsx:106-110 | ArrowUp at 150 reports 160, ArrowDown then reports 150 |
| `NumberInput.EscapeAsWritten` | src/Timeline/NumberInputField/NumberInputField.tsx:103-107 | Escape as written on a focused field: reports `validate(value)`, then the blur reports `validate(staleDraft)` |
| `NumberInput.EscapeAsWrittenKeepsTypedValue` | src/Timeline/NumberInputField/NumberInputField.tsx:103-107 | at 150 with 100 typed, Escape as written reports 150 then 100, and the field ends at 100 |
| `NumberInput.EnterAsWrittenAgrees` | src/Timeline/NumberInputField/NumberInputField.tsx:98-102 | Enter with the stale-draft blur equals `AfterKeyDown(Enter)` |
| `NumberInput.NumberInputField.constructor` | src/Timeline/NumberInputField/NumberInputField.tsx:19 | the draft starts as the committed value, nothing reported |
| `NumberInput.NumberInputField.Invalid` | src/Timeline/NumberInputField/NumberInputField.tsx:29-31 | the red-text flag of the field's current state, as `IsInvalid` |
| `NumberInput.NumberInputField.SubmitChange` | src/Timeline/NumberInputField/NumberInputField.tsx:50-59 | in place, as `Commit` |
| `NumberInput.NumberInputField.HandleInputChange` | src/Timeline/NumberInputField/NumberInputField.tsx:75-93 | in place, as `AfterChange` |
| `NumberInput.NumberInputField.HandleInputBlur` | src/Timeline/NumberInputField/NumberInputField.tsx:124-126 | in place, as `AfterBlur` |
| `NumberInput.NumberInputField.ClearFocus` | src/Timeline/NumberInputField/NumberInputField.tsx:68-73 | in place, as `AfterClearFocus` |
| `NumberInput.NumberInputField.HandleInputKeyDown` | src/Timeline/NumberInputField/NumberInputField.tsx:95-118 | in place, as `AfterKeyDown` |
| `NumberInput.NumberInputField.HandleInputFocus` | src/Timeline/NumberInputField/NumberInputField.tsx:120-122 | in place, as `AfterFocus` |
| `NumberInput.NumberInputField.ReceiveValue` | src/Timeline/NumberInputField/NumberInputField.tsx:33-37 | in place, as `AfterValueProp` |
| `Controls.Initial` | src/Timeline/Timeline.tsx:10-11 | time 0 and the default duration 2000 satisfy the timeline invariant |
| `Controls.Consistent` | src/Timeline/PlayControls.tsx:46-66 | the timeline invariant the two fields keep: `0 <= time <= duration`, duration in `[100, 6000]`, both on the step grid; it implies `0 <= time <= 6000` |
| `Controls.AfterDurationChange` | src/Timeline/PlayControls.tsx:18-27 | duration becomes `v`; time becomes `min(time, v)`; `setDuration(v)` is logged before the `setTime(v)` that happens exactly when the time changes |
| `Controls.AfterTimeChange` | src/Timeline/PlayControls.tsx:31-36 | the value is forwarded to `setTime` unchanged |
| `Controls.CommitDuration` | src/Timeline/PlayControls.tsx:58-66 | a committed duration lies in `[100, 6000]`; the invariant `0 <= time <= duration` is kept |
| `Controls.CommitTime` | src/Timeline/PlayControls.tsx:46-54 | a committed time is `validate(x, 0, duration)`; the invariant is kept |
| `Controls.CommitsKeepConsistent` | src/Timeline/PlayControls.tsx:18-36 | no sequence of field commits breaks the invariant |
| `Controls.ShortDurationPullsTimeExample` | src/tests/Timeline.spec.tsx:42-45 | time 200 with 50 typed as duration gives duration 100 and time 100 |
| `Controls.BoundsExamples` | src/Timeline/PlayControls.tsx:11-13 | -1 and 2001 give times 0 and 2000; 99 and 6001 give durations 100 and 6000; 500 under time 1000 sets time 500 |
| `Controls.PlayControls.constructor` | src/Timeline/Timeline.tsx:10-11 | the initial state, which is valid |
| `Controls.PlayControls.HandleDurationChange` | src/Timeline/PlayControls.tsx:18-27 | in place, as `AfterDurationChange`; a duration the field can report keeps `Valid()` |
| `Controls.PlayControls.OnTimeChange` | src/Timeline/PlayControls.tsx:31-36 | in place, as `AfterTimeChange`; a time the field can report keeps `Valid()` |
| `Controls.PlayControls.CommitDurationField` | src/Timeline/PlayControls.tsx:58-66 | in place, as `CommitDuration`, keeping `Valid()` |
| `Controls.PlayControls.CommitTimeField` | src/Timeline/PlayControls.tsx:46-54 | in place, as `CommitTime`, keeping `Valid()` |
| `RulerSeek.AfterClick` | src/Timeline/Ruler.tsx:20-30 | no target means no change; otherwise `setTime(tenMultipliers(x))` whatever the drag state |
| `RulerSeek.AfterMouseDown` | src/Timeline/Ruler.tsx:32-35 | a drag session begins, nothing is reported |
| `RulerSeek.AfterMouseUp` | src/Timeline/Ruler.tsx:13-18 | the page-wide mouse-up ends the session |
| `RulerSeek.AfterMouseMove` | src/Timeline/Ruler.tsx:41-47 | a move reports `tenMultipliers(x)` exactly when dragging, otherwise nothing |
| `RulerSeek.DragReportsEveryMove` | src/Timeline/Ruler.tsx:41-47 | during a session every move is reported, in order |
| `RulerSeek.MovesAfterMouseUpAreSilent` | src/Timeline/Ruler.tsx:37-47 | after a mouse-up, moves change nothing |
| `RulerSeek.RulerOnlySeeks` | src/Timeline/Ruler.tsx:10-47 | over any mouse events the ruler calls only `setTime`, never `setDuration`, always on the ten grid |
| `RulerSeek.SeekWithinBar` | src/Timeline/Ruler.tsx:26-27 | an offset within a bar whose width is a multiple of ten reports a multiple of ten in `[0, duration]` |
| `RulerSeek.ClickAndDragExample` | src/tests/Ruler.spec.tsx:21-30 | clicks at 100 and 234 then a drag to 300 report 100, 230, 300 |
| `RulerSeek.Ruler.constructor` | src/Timeline/Ruler.tsx:10-11 | not dragging, nothing reported; the bar is `duration` pixels wide |
| `RulerSeek.Ruler.HandleClick` | src/Timeline/Ruler.tsx:20-30 | in place, as `AfterClick`, calling only `setTime` |
| `RulerSeek.Ruler.HandleMouseDown` | src/Timeline/Ruler.tsx:32-35 | in place, as `AfterMouseDown` |
| `RulerSeek.Ruler.HandleMouseUp` | src/Timeline/Ruler.tsx:37-39 | in place, as `AfterMouseUp` |
| `RulerSeek.Ruler.HandleMouseMove` | src/Timeline/Ruler.tsx:41-47 | in place, as `AfterMouseMove`, calling only `setTime` |
| `ScrollSync.IndexFrom` | src/Timeline/SyncScroll.tsx:18-21 | `indexOf`: -1 exactly when there is no occurrence, otherwise the first occurrence |
| `ScrollSync.OnAxis` | src/Timeline/SyncScroll.tsx:18-21 | `indexOf(axis) !== -1`: true exactly when the axis name occurs in the tag |
| `ScrollSync.Mount` | src/Timeline/SyncScroll.tsx:39-44 | each registered pane is on an axis exactly when its tag contains the axis name |
| `ScrollSync.TagExamples` | src/Timeline/KeyframeList.tsx:14 | "horizontal\|vertical" joins both axes; "horizontal" only the horizontal one |
| `ScrollSync.Synced` | src/Timeline/SyncScroll.tsx:13-35 | on an axis of the source, every pane on it takes the source's offset; the source and panes off the axis keep theirs |
| `ScrollSync.PaneWrites` | src/Timeline/SyncScroll.tsx:14-35 | the guarded assignments to one pane, none for the source |
| `ScrollSync.PaneWritesIffMoved` | src/Timeline/SyncScroll.tsx:23-33 | a pane is assigned exactly when syncing changes one of its offsets |
| `ScrollSync.Writes` | src/Timeline/SyncScroll.tsx:13-36 | the assignments of one event, pane by pane in registry order |
| `ScrollSync.WritesUpToEmpty` | src/Timeline/SyncScroll.tsx:13-36 | the first `k` panes receive nothing exactly when syncing leaves them all as they were |
| `ScrollSync.SyncedKeepsIff` | src/Timeline/SyncScroll.tsx:17-35 | syncing leaves an axis unchanged exactly when each pane keeps its offset |
| `ScrollSync.NoWritesIffUnchanged` | src/Timeline/SyncScroll.tsx:13-36 | an event assigns nothing exactly when it leaves both axes unchanged |
| `ScrollSync.SyncAligns` | src/Timeline/SyncScroll.tsx:13-35 | panes aligned before the source moved are aligned after its event |
| `ScrollSync.AlignedWritesNothing` | src/Timeline/SyncScroll.tsx:23-33 | aligned panes produce no assignment whichever pane scrolls |
| `ScrollSync.NoSecondRound` | src/Timeline/SyncScroll.tsx:23-33 | the scroll events fired by the handler's own assignments assign nothing |
| `ScrollSync.RehandlingWritesNothing` | src/Timeline/SyncScroll.tsx:23-33 | handling the same event again assigns nothing |
| `ScrollSync.WritesOnlyDifferingPanes` | src/Timeline/SyncScroll.tsx:14-35 | every assignment targets a pane other than the source, on a shared axis, whose offset differed |
| `ScrollSync.RulerScrollExample` | src/tests/Ruler.spec.tsx:51-53 | the ruler at 100 moves the keyframe list to 100 and leaves its vertical offset |
| `ScrollSync.SyncScroll.constructor` | src/Timeline/SyncScroll.tsx:39-44 | the registry is the tags of the panes present at mount |
| `ScrollSync.SyncScroll.HandleScroll` | src/Timeline/SyncScroll.tsx:6-37 | no target changes nothing; otherwise the arrays become `Synced` per axis and exactly `Writes` are made, in pane order |
| `PlayheadPosition.Locate` | src/Timeline/Playhead.tsx:6-15 | offset plus scroll equals time; visible exactly when the offset is at least -15 |
| `PlayheadPosition.UnscrolledShowsTime` | src/Timeline/Playhead.tsx:6 | with the default scroll 0, a non-negative time is visible at its own offset |
| `PlayheadPosition.VisibilityMonotone` | src/Timeline/Playhead.tsx:8 | a later time or less scroll never hides a visible playhead |
| `PlayheadPosition.ShiftInvariant` | src/Timeline/Playhead.tsx:8-14 | shifting time and scroll together changes neither offset nor visibility |
| `PlayheadPosition.PlayheadExamples` | src/tests/Playhead.spec.tsx:113-116 | 500 at scroll 200 sits at 300; 200 is hidden at scroll 300 and shown at 200 |

## Findings

| source | as written | input that shows it | evidently intended | confidence | as-written member | corrected member |
|---|---|---|---|---|---|---|
| src/Timeline/NumberInputField/NumberInputField.tsx:103-107 | Escape calls `submitChange(value)`, then `clearFocus()`. The `blur()` runs `handleInputBlur` from the same render, which commits the draft from before the key press. | value 150, 100 typed, field focused, Escape: `onChange(150)`, then `onChange(100)`. The parent keeps 100 and the field shows 100. | Escape reverts: the last report and the draft are the committed value | medium, not executed | `NumberInput.EscapeAsWrittenKeepsTypedValue` | `NumberInput.AfterKeyDown` |

In the corrected model the blur that follows Escape sees the reverted draft, so it reports the committed value again. `NumberInput.NumberInputField.HandleInputKeyDown` uses the corrected behaviour. For Enter the two readings agree (`NumberInput.EnterAsWrittenAgrees`).

## Left out

- React and DOM plumbing is not modelled: refs, effects, memoisation, adding and removing listeners, and the `text-red-500` class. Focus is a flag, and the invalid class is the predicate `NumberInputField.Invalid`.
- Text selection is not modelled: `select()` on focus and after a step nudge, which the tests check by copy and paste. It is browser behaviour with no state in the model.
- `NumberParse.ParseNumber` models the browser's sanitisation of number inputs without exponent notation ("1e3"). Text the browser blanks is treated as empty text.
- `tenMultipliers` is assumed, not modelled: its module is not part of this model.
- Pointer coordinates are integer offsets from the bar's left edge. `clientX`, `getBoundingClientRect` and floating point are not modelled. Mouse-down's `stopPropagation` has no counterpart.
- Scroll offsets are integers. The browser's own clamping of `scrollLeft`/`scrollTop` to the scrollable range is not modelled.
- Listener removal at unmount is not modelled.
- `NumberInput.NumberInputField.constructor`: the class fixes `min`, `max` and `step` when it is built. A re-render with new bounds is not a method of the class; the pure transition functions take the bounds per event. This matters for the time field, whose `max` follows the duration. `Controls.CommitTime` reads the current duration.
- Controls.PlayControls.HandleDurationChange: requires a duration on the grid within `[100, 6000]`, and `OnTimeChange` a time on the grid within `[0, duration]`. These are what the two fields report (`PlayControls.tsx:46-66`), and they are needed to promise `Valid()`. The handlers themselves accept any number; `AfterDurationChange` and `AfterTimeChange` model them for any input.
- Controls.CommitDuration: models one report of the field, not one key press. Enter on a focused field reports twice (the blur handler runs after `clearFocus()`), and both handler calls read the same render's `time`, so the setters are logged twice. The final time and duration are those of one commit.
- Layout and presentation are not modelled: the playhead's CSS `calc(... - 50%)` and `left-[316px]` anchor, segments and track rendering, and how `Timeline.tsx` composes the components. Only the initial state is taken from `Timeline.tsx`.
