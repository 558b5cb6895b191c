# Batch video re-framer: job engine model

The program re-frames video files for a 9:16 (vertical) or 16:9
(horizontal) canvas by driving an external transcoder (`ffmpeg`). It has two
front ends:

- a Tk application (`main1.py`) with a task list, colour and rotation
  options and a "nothing changed since the last batch" start button;
- a Qt application (`ui.py`, with the background job in `core.py`) with
  cards, persisted settings and a countdown that announces the end of a
  batch.

Each front end has its own job engine, and both are modelled here in Dafny:
the Tk job (`_run_ffmpeg`, modules `Planner` and `TkJob`) and the Qt
background job (`VideoWorker.run`, module `Worker`). They differ in the
aspect test, the colour and rotation stages, the stream maps and the
presets. Each reads its options and plans a filter chain, picks an output
name that no existing file uses, builds the transcoder's command line,
reads progress from the transcoder's diagnostic lines and turns its exit
status into status updates. The front ends' bookkeeping (task rows, cards,
the start button, settings) is modelled as pure state transitions.

Modules, one per file:

| module | file | what it models |
|---|---|---|
| `Common` | common.dfy | `Option`, Python's `str`/`int()`/`float()` on the texts involved, `:.Nf` formatting, string predicates |
| `Paths` | paths.dfy | `posixpath` `dirname`/`basename`/`splitext`/`join`; the collision-free output-name allocator. The filesystem is the set of existing paths |
| `Filters` | filters.dfy | filter stages and their `-vf` text |
| `Planner` | planner.dfy | the Tk planner: colour, rotation, aspect test, layout, pixel format |
| `Progress` | progress.dfy | the `time=H:M:S.F` matcher (leftmost, greedy) and the percentage |
| `Worker` | worker.dfy | the Qt background job `VideoWorker.run` |
| `TkJob` | tkjob.dfy | one Tk job `_run_ffmpeg` and the `_run_all` settings |
| `Inputs` | inputs.dfy | the Qt `NumberInput`, the Tk wheel handlers, the concurrency entry |
| `TaskList` | tasklist.dfy | the Tk task rows |
| `Session` | session.dfy | the Tk start-button snapshot |
| `Cards` | cards.dfy | the Qt cards, the workers' signals (routed to the card each worker is bound to) and the countdown |
| `Settings` | settings.dfy | the Qt settings save and load |

Three facts about the source that the model keeps:

- The accepted extensions differ per front end: `.ts` is accepted only by
  the Tk drop (main1.py:553) and `.flv` only by the Qt drop (ui.py:232).
- The blur strength entry of the Qt front end is validated to 0..100
  (`Settings.BlurRange`); the Tk wheel's 1..150 bounds apply only to its
  wheel steps.
- The Tk start-button tracker normalises only the three colour entries,
  not the blur strength entry (main1.py:504-508).

## Model

| member | source | states |
|---|---|---|
| Common.ParseInt | ui.py:291 | an all-digit text reads as its decimal value and `-` followed by digits as its negation; anything read holds only digits after an optional sign |
| Common.ParseIntOfIntToString | ui.py:289-295 | reading back `str(i)` gives i, so a text the validator writes is read unchanged |
| Common.UnsignedDecimal | main1.py:363-369 | an unsigned text that reads has a value that is never negative |
| Common.UnsignedDecimalAccepts | main1.py:363-369 | an unsigned text reads exactly when it is digits with at most one point and at least one digit |
| Common.ParseDecimal | main1.py:363-369 | a text that reads is not empty; its value is not positive after `-` and not negative otherwise, and a run of digits reads as its integer value |
| Common.ParseDecimalAccepts | main1.py:363-369 | a text reads exactly when it is such a numeral, or a `+` or `-` followed by one |
| Common.ParseDecimalOfParts | main1.py:363-369 | an optional sign, digits, a point and digits read as the signed value whole + frac / 10^len(frac), so fractional entries such as `0.5` read as written |
| Common.ParseDecimalExample | main1.py:363-369 | `0.5` reads as 0.5 |
| Common.ParseDecimalNegativeExample | main1.py:363-369 | `-.5` reads as -0.5 |
| Common.ParseDecimalTwoPlaces | main1.py:363-369 | `1.25` reads as 1.25 |
| Common.ParseDecimalTrailingPoint | main1.py:363-369 | `5.` reads as 5 |
| Common.ParseDecimalRefuses | main1.py:363-369 | a lone point and a text with two points are refused |
| Common.ParseDecimalOfParseInt | main1.py:291 | `float()` of a text `int()` accepts is that integer |
| Common.ParseDecimalOfIntToString | main1.py:291 | `float(str(i))` is i |
| Common.Clamp | ui.py:301 | `max(lo, min(hi, v))`: v itself within range, lo below it, hi above it, and always within [lo, hi] for lo <= hi |
| Common.Lower | ui.py:232 | lower-casing keeps the length and lower-cases each character on its own |
| Common.Fixed | main1.py:386-390 | `:.Nf` text: a sign exactly for negative values, at least one digit before the point, a point, then exactly N digits |
| Common.FixedOnePlaceOfNat | main1.py:298-299 | a whole number written with one decimal is its digits followed by `.0` |
| Paths.Basename | core.py:47 | the base name contains no separator and is a suffix of the path |
| Paths.Dirname | core.py:42 | the directory part is a prefix of the path |
| Paths.StemOfName | core.py:47 | the name without its extension is a prefix of the name |
| Paths.NumberedInjective | main1.py:347-352 | two different counters never give the same candidate path in one folder, so the search visits a new name each round |
| Paths.FirstFree | main1.py:347-352 | the search returns a counter at or after its start whose name is free, and every counter before it is taken |
| Paths.Allocate | main1.py:342-352 | the chosen name is free and keeps base, tag and extension; it is unnumbered exactly when the plain name is free, otherwise it has the smallest free counter from 1 |
| Paths.AllocateAfterCreateDiffers | main1.py:342-352 | once the chosen file exists, the next allocation in that folder picks a different path |
| Paths.AllocateIsSmallestFree | main1.py:347-352 | the allocator's choice is determined: with the plain name taken, it is the first free counter |
| Paths.ExampleNames | main1.py:343-349 | the candidate names of `clip` in `out` for 9:16 are `out/clip_9_16.mp4`, `out/clip_9_16_1.mp4`, `out/clip_9_16_2.mp4` |
| Paths.AllocateSecondExample | main1.py:342-352 | with `clip_9_16.mp4` present, the next output is `clip_9_16_1.mp4` |
| Paths.AllocateThirdExample | main1.py:342-352 | with `_1` present as well, the next output is `clip_9_16_2.mp4` |
| Filters.BlurGraphText | main1.py:400-402 | the blur graph labels its input `[0:v]` exactly in the Qt variant, blurs with the given strength, and ends by overlaying the fitted frame in the centre |
| Filters.VerticalGraphsDifferInLabel | core.py:62-67 | for 9:16 the Qt graph is the Tk graph with the `[0:v]` label in front |
| Filters.RenderStage | main1.py:391-406 | each stage's text starts with the filter doing its work: `eq=` for colour, the first turn's `transpose` for rotation, `scale=` to the canvas for scaling and padding, with `pad=` to the canvas for padding; the blur stage holds its strength; the last stage is `format=yuv420p` |
| Filters.RenderChainEndsWithFormat | main1.py:408-415 | a stage list closed by the pixel-format stage renders, joined by commas, to text ending in `format=yuv420p` |
| Planner.RatioOfMode | main1.py:378-379 | the Tk job targets the vertical canvas exactly for the mode `9:16` |
| Planner.EqParts | main1.py:384-390 | the colour terms are exactly the enabled toggles with their values, in the order brightness, contrast, saturation; there are none when no toggle is on |
| Planner.ColourStages | main1.py:391-392 | there is one colour stage iff a colour toggle is on, and it carries those terms |
| Planner.RotationStages | main1.py:394-397 | there is a rotation stage iff rotation is on with angle 90, 180 or 270; 90 turns once clockwise, 180 twice, 270 once counter-clockwise |
| Planner.PlanWith | main1.py:382-408 | the chain ends with the pixel format, preceded by the only layout stage. The aspect verdict chooses scale, pad or blur overlay. The colour stage exists iff a toggle is on and comes first. Rotation exists iff the angle is known, with the right turns |
| Planner.Plan | main1.py:374-408 | for a frame with non-zero effective height, the layout is plain scaling iff the rotated frame's aspect is within 0.01 of the target; otherwise it is padding or blur overlay according to the blur toggle |
| Planner.AspectMatchesCross | main1.py:380 | the tolerance test on quotients is equivalent to the integer test `100*abs(w*th - tw*h) <= h*th` |
| Planner.MatchingSourceIsOnlyScaled | main1.py:374-406 | an unrotated 1080x1920 source into 9:16 is only scaled |
| Planner.RotatedLandscapeIsOnlyScaled | main1.py:374-406 | a 1920x1080 source rotated by 90 into 9:16 is only scaled, because width and height swap for the test |
| Planner.LandscapeIntoVerticalIsFitted | main1.py:374-406 | an unrotated 1920x1080 source into 9:16 is padded, or blur-overlaid when blur is on |
| Planner.PlanTextEndsWithFormat | main1.py:408-415 | the `-vf` text of every plan ends in `format=yuv420p` |
| Progress.DigitRunEnd | core.py:92 | a `\d+` run starting at i ends at the first non-digit, so it is maximal |
| Progress.MarkerEnds | core.py:92 | a match at i has the layout `time=` digits `:` digits `:` digits `.` digits, with each group a digit run |
| Progress.MatchAt | core.py:92 | the pattern matches at i exactly when the marker layout is found there, and the seconds read are non-negative |
| Progress.FirstMatch | core.py:96 | the search result is a matching position at or after its start, or past the end |
| Progress.FirstMatchIsFirst | core.py:96 | no position between the start and the result matches, so `search` finds the leftmost marker |
| Progress.FindClock | main1.py:423-425 | a located marker has non-negative seconds and elapsed time |
| Progress.MarkerReadBack | core.py:92-98 | a line holding `time=H:M:S.F` followed by a non-digit is matched there with H, M and S.F read as numbers |
| Progress.Percent | core.py:99-100 | the percentage is at most 99 and is the largest whole percent not above elapsed/duration (capped at 99) |
| Progress.PercentMonotone | core.py:99-100 | a later elapsed time never gives a smaller percentage |
| Progress.ClockProgress | main1.py:424-426 | a percentage exists iff the probed duration is positive, and it brackets elapsed/duration from below |
| Progress.LineProgress | core.py:96-100 | a line yields progress iff it holds a marker and the duration is positive |
| Progress.ProgressValues | core.py:93-100 | at most one running value per line, each at most 99; none for a non-positive duration |
| Progress.LineValues | core.py:96-100 | a line contributes its progress value when it has one and nothing otherwise |
| Progress.ProgressValuesAppend | main1.py:420-426 | reading one more line appends exactly that line's value, if it has one: the values are the marker lines' values in arrival order |
| Worker.ModeTag | core.py:48 | the file tag is `9-16` exactly for the mode `9:16`, `16-9` otherwise |
| Worker.OutputFor | core.py:42-55 | the output does not exist yet and is a `base_tag[_N].mp4` name in the source folder's `Converted_Videos`. It is the plain name when that is free; otherwise it carries a counter from 1 such that every smaller counter is taken |
| Worker.WorkerStages | core.py:57-74 | one layout stage for the target canvas, blur overlay iff blur is on, padding otherwise (no aspect test), then the pixel format |
| Worker.WorkerFilter | core.py:57-74 | the Qt filter text ends in `format=yuv420p`. With blur it starts with the `[0:v]` graph and holds the configured strength; without, it scales and pads to the target canvas |
| Worker.WorkerCommand | core.py:77-87 | the command starts with `ffmpeg` and ends with the output. It passes input, filter, preset, quality, pixel format and both optional stream maps as flag/value pairs |
| Worker.RunSignals | core.py:89-108 | one progress signal per marker line, all below 100, then exactly one terminal signal. On exit 0 this is 100 followed by `finished`; otherwise it is `error` with the return code or exception message |
| Worker.RunWorker | core.py:40-108 | the job writes to the output the allocator picks, which is fresh, with the command and signals above |
| Worker.RunningProgressBelowHundred | core.py:97-100 | the running signals never reach 100 |
| TkJob.ReadAsWritten | main1.py:355-372 | a fully readable row reads as parsed. The read dies exactly when the blur, quality, brightness or contrast entry fails. When only saturation fails, every toggle is already bound and the fallback runs with strength 80, quality 25, rotation and blur off, and neutral colour values under the toggles as entered |
| TkJob.EmptyBlurEntryCrashes | main1.py:355-385 | an empty blur entry kills the job as written, while the corrected job runs for any frame with a height |
| TkJob.Read | main1.py:355-372 | a readable row reads as parsed; an unreadable one gives strength 80, quality 25, and no rotation, blur or colour |
| TkJob.ReadAgreesWhenReadable | main1.py:355-408 | the corrected read agrees with the original when nothing fails, and a failed read plans a plain 1080x1920 job as scale plus pixel format |
| TkJob.PresetFor | main1.py:480 | the engine preset is `ultrafast` iff the label contains `极快`, else `medium` |
| TkJob.FinalUpdate | main1.py:428-430 | the final row status is 100 and `✓ 完成` iff the engine exited 0, `失败` for a non-zero exit, `错误` for an exception |
| TkJob.RowUpdates | main1.py:417-430 | the row gets the running percentages (each at most 99) and then exactly one final status |
| TkJob.TkCommand | main1.py:415 | the command starts with `ffmpeg` and ends with the output; it passes input, filter, preset and quality as flag/value pairs |
| TkJob.JobWith | main1.py:374-430 | from a reading on, a job crashes exactly when the effective height is 0; otherwise it has a fresh allocated output, the planned filter, the quality and the run's row updates |
| TkJob.RunJobAsWritten | main1.py:354-430 | as written, a job dies when the read dies, and otherwise exactly when the effective height is 0 |
| TkJob.RunJob | main1.py:354-430 | with the corrected read, a job crashes exactly when the effective height is 0. Otherwise its output is fresh and allocated in the save folder (or the source folder) with the mode's `:` turned into `_`. Its command carries the planned filter and the quality read, and its row gets the run's updates |
| TkJob.RunJobAgreesWhenReadable | main1.py:354-430 | on a readable row the job as written and the corrected job are the same job |
| TkJob.DoneOnlyOnSuccess | main1.py:417-430 | a row ends showing `✓ 完成` iff the engine exited 0, and only the final update can carry 100 |
| TkJob.RowShowsDoneOnlyOnSuccess | main1.py:424-430 | the same for the updates of one run |
| TkJob.FinalShowsDone | main1.py:428-430 | the final update shows `✓ 完成` exactly on exit 0 |
| TkJob.SecondJobGetsFreshOutput | main1.py:410-413 | a second job on the same source after the first one's output exists writes to another file |
| Inputs.Validate | ui.py:287-295 | empty stays empty; an in-range integer is kept; an integer below or above the range becomes the nearer bound; any other non-empty text becomes the lower bound |
| Inputs.ValidateInRange | ui.py:287-295 | after validation the entry is empty or holds an integer within bounds |
| Inputs.ValidateIdempotent | ui.py:287-295 | validating twice is validating once, so the re-entrant `setText` settles |
| Inputs.NumberWheel | ui.py:297-308 | a disabled or unreadable entry is left alone; otherwise the new text reads as `max(lo, min(hi, v±1))` and lies within bounds |
| Inputs.WheelTextIsValid | ui.py:297-308 | the wheel never leaves text that the validator would change |
| Inputs.WheelUpThenDown | ui.py:297-308 | away from the upper bound, a notch up then down restores the text |
| Inputs.WheelNumber | main1.py:289-303 | the Tk wheel's value stays within [lo, hi] |
| Inputs.WheelTextIntegerInRange | main1.py:289-303 | on an integer scale the written text is an integer within bounds |
| Inputs.WheelTextUpThenDown | main1.py:289-303 | on an integer scale, a notch up then down restores the text away from the upper bound |
| Inputs.AngleIndex | main1.py:305-317 | a listed angle is found at its position; anything else counts as the first |
| Inputs.RotateWheel | main1.py:305-317 | the rotation wheel always writes one of 90, 180, 270, 360 |
| Inputs.RotateUpThenDown | main1.py:305-317 | for a listed angle, up then down restores it |
| Inputs.RotateStep | main1.py:305-317 | a notch moves the angle's position by one, wrapping around |
| Inputs.RotateFullTurn | main1.py:305-317 | four notches in one direction come back to the start |
| Inputs.RotateFromUnknown | main1.py:305-317 | an unlisted text counts as 90: up gives 180, down gives 360 |
| Inputs.ConcurrentWheel | main1.py:247-253 | the concurrency wheel writes `max(1, min(8, v±1))`, with v = 2 for an empty or unreadable variable, which the entry's validator accepts |
| Inputs.WorkerCount | main1.py:475-478 | the job count is within 1..8; it equals the entry for an integer in range, is 1 below it and 8 above it, and is 2 for non-integers |
| Inputs.WheelSetsWorkerCount | main1.py:475-478 | whatever the concurrency wheel writes is taken literally as the job count |
| TaskList.AddFile | main1.py:550-557 | a drop of one file only appends; an accepted file ends up listed; the list stays numbered and free of duplicates |
| TaskList.AddFiles | main1.py:550-557 | a drop only appends and keeps the list numbered and free of duplicates |
| TaskList.AddFilesListsAccepted | main1.py:550-557 | every accepted dropped file is listed afterwards |
| TaskList.AddFilesNewRows | main1.py:550-557 | every added row holds an accepted file of that drop |
| TaskList.DropTwiceAddsNothing | main1.py:550-557 | dropping the same files again changes nothing |
| TaskList.AllPresentAddsNothing | main1.py:550-557 | files already listed or rejected change nothing |
| TaskList.RemoveTask | main1.py:559-564 | removal is refused while running. Otherwise the remaining paths are those of the list without the path, in their order, renumbered from 1; every other path stays and a valid list loses exactly one row |
| TaskList.WithoutAppend | main1.py:559-562 | removal keeps the order of the rest: a path at the end stays at the end unless it is the one removed |
| TaskList.RemoveMiddleExample | main1.py:559-562 | removing `b` from rows a, b, c leaves a as row 1 and c as row 2 |
| TaskList.ClearTasks | main1.py:566-571 | clearing is refused while running and empties the list otherwise |
| TaskList.RemoveUndoesAdd | main1.py:550-564 | removing a file just dropped onto a valid list gives the list back |
| Session.Normalise | main1.py:493-510 | a disabled colour entry reads as its neutral text; all other options are unchanged |
| Session.SnapshotAsWritten | main1.py:451-467 | the stored snapshot holds the raw options and the task count |
| Session.RawSnapshotCleanIff | main1.py:451-510 | the raw snapshot matches the live options it was taken from only when every disabled colour entry already holds its neutral text |
| Session.Snapshot | main1.py:451-510 | the normalised snapshot records the task count and always matches the live options it was taken from |
| Session.CleanIffSameOptions | main1.py:493-515 | with the normalised snapshot, the button is clean iff the task counts agree and the options agree, except the text of colour entries that are disabled |
| Session.ParamChanged | main1.py:544-548 | nothing is compared while a batch runs |
| Session.Drop | main1.py:550-557 | the dropped files are queued even while running; options, running flag and snapshot are kept; the button is left alone while running and otherwise compared again |
| Session.Remove | main1.py:559-564 | a removal while running changes nothing. Otherwise the path's row goes, the rest keep their order and are renumbered, options and snapshot are kept, and the button is clean exactly when the snapshot equals the live options |
| Session.Clear | main1.py:566-571 | clearing while running changes nothing; otherwise rows and snapshot are dropped and the button shows changes |
| Session.StartWith | main1.py:447-471 | start does nothing while running or with no tasks. Otherwise it marks the batch running and converting, keeps rows and options, and stores the normalised snapshot (corrected) or the raw one (as written) |
| Session.Finish | main1.py:489-490 | the end of a batch clears the running flag and keeps options, rows and snapshot; the button then shows nothing new exactly when the snapshot equals the live options |
| Session.UntouchedBatchIsClean | main1.py:447-515 | with the snapshot normalised, an untouched batch finishes showing nothing new |
| Session.UntouchedBatchIsDirtyAsWritten | main1.py:451-467 | with the raw snapshot, brightness off with `50` in its entry finishes showing changes |
| Session.EditsWhileRunningIgnored | main1.py:544-548 | edits during a batch leave the button alone |
| Session.ClearedStaysDirty | main1.py:566-571 | after clearing, no edit or drop makes the button clean |
| Session.DisabledEntryEditKeepsClean | main1.py:493-515 | with the normalised snapshot, editing a disabled colour entry after a batch keeps the button clean |
| Cards.AddCard | ui.py:216-221 | a path gets a waiting card unless it has one, and a new card is a new widget, different from every card made before; earlier cards stay; paths stay distinct; the output folder is set only while unset, by a new card |
| Cards.ProcessFiles | ui.py:213-222 | cards are only appended, new ones wait at 0% and are new widgets, paths stay distinct, and a set output folder is kept |
| Cards.ProcessFilesListsAll | ui.py:213-222 | every file of the call has a card afterwards |
| Cards.FirstNewFileSetsOutputDir | ui.py:213-222 | the output folder is the first new file's folder |
| Cards.FilterAccepted | ui.py:230-233 | the kept paths are exactly the dropped paths with an accepted extension |
| Cards.FilterAcceptedAppend | ui.py:232 | the kept paths keep the dropped order and repeats: one more dropped path is appended exactly when it is accepted |
| Cards.DropEvent | ui.py:230-233 | a drop only appends cards and keeps paths distinct; a drop with no accepted file changes nothing |
| Cards.DropListsEveryAccepted | ui.py:230-233 | every accepted file of a drop has a card afterwards |
| Cards.DropAddsOnlyAccepted | ui.py:230-233 | every card a drop adds holds an accepted dropped file |
| Cards.ProcessFilesNewCards | ui.py:213-222 | every new card holds a file of that call |
| Cards.RemoveCard | ui.py:235-238 | the path's card is gone, every other card stays, nothing else changes, and a path without a card changes nothing |
| Cards.RemoveCardKeepsOrder | ui.py:235-237 | the remaining cards keep their order: a card at the end stays at the end unless it is the one removed |
| Cards.WithoutCardAppend | ui.py:235-237 | the same for the card list itself |
| Cards.ClearList | ui.py:180-182 | clearing leaves no cards and touches nothing else |
| Cards.ResetCard | ui.py:204-207 | a finished or failed card waits again at 0%; others are unchanged |
| Cards.OnParamChanged | ui.py:203-207 | an option change resets each over card, leaves the other cards, and touches nothing but the cards |
| Cards.CountTargets | ui.py:241-244 | the count is the number of waiting cards; it is 0 iff no card is waiting |
| Cards.TargetIndicesSnoc | ui.py:241 | the waiting positions of a list are those of all but its last card, plus the last one when it waits |
| Cards.IntOr | ui.py:246 | an empty entry gives the default, a run of digits its value, and other text is read by `int()`, failing exactly when `int()` fails |
| Cards.IntOrOfIntToString | ui.py:246 | an entry holding a written-out integer gives that integer, whatever the default |
| Cards.ConfigOf | ui.py:245-247 | the configuration exists iff both entries are empty or integers. Its mode is 9:16 iff the label says so and its blur follows the check box. An empty entry gives the default and a non-empty one its integer value. Its preset is `ultrafast` iff named, else `fast` |
| Cards.ValidatedEntriesGiveConfig | ui.py:245-247 | entries that passed their validator always give a configuration |
| Cards.StartCard | ui.py:249-251 | a waiting card turns to processing; others are unchanged |
| Cards.Bindings | ui.py:248-256 | one worker per waiting card, bound to that card |
| Cards.BindingsAreTargets | ui.py:248-256 | a worker is started for a card exactly when the card waits, with that card's file |
| Cards.StartAll | ui.py:240-256 | with no waiting card nothing happens; otherwise the countdown is the number of targets and the button is off; nothing else but the cards changes. Once the configuration is built the targets are processing and each has a worker bound to it; without it no worker starts |
| Cards.StartAllStartsTargets | ui.py:240-256 | once the configuration is built, the cards that change are exactly the waiting ones, and the countdown and the number of workers are their number |
| Cards.StartedCardsChange | ui.py:248-251 | turning every waiting card to processing changes exactly the waiting cards |
| Cards.UpdateProgress | core.py:212-217 | the card shows the value, and says done from 100 on |
| Cards.MapCard | ui.py:253-255 | only the card the signal is bound to changes, whatever the other cards' paths |
| Cards.OnProgress | ui.py:253 | a progress signal moves only the card its worker is bound to, to the value shown; a signal whose card is gone changes nothing |
| Cards.OnOk | ui.py:258-260 | a job's success counts down by one; the notice is shown and the button enabled exactly when the count reaches 0 or below |
| Cards.OnFailAsWritten | ui.py:262-264 | as written, a failure counts down the same way and leaves every card as it is |
| Cards.OnFail | ui.py:262-264 | corrected, a failure counts down the same way and marks the job's own card failed, leaving the others |
| Cards.Conclude | ui.py:254-264 | one job's end, with the corrected failure handler, counts down by one; a failed job's card says failed |
| Cards.ConcludeAll | ui.py:254-270 | after k ends the countdown has moved down by k and no card has come or gone |
| Cards.CheckFinish | ui.py:266-270 | the notice is shown and the button enabled exactly when the countdown is not positive |
| Cards.CountdownFiresOnce | ui.py:258-270 | with any outcomes in any order, the notice stays hidden before the last job ends and the last one shows it exactly once |
| Cards.StartedBatchAnnouncesOnce | ui.py:240-270 | given one end signal per card the start actually started, the batch announces its end exactly once, with the last of them |
| Cards.FailedCardNeverRetriedAsWritten | ui.py:262-264 | as written, a failed card keeps saying processing through an option change and is never targeted again |
| Cards.FailedCardRetried | ui.py:262-264 | with the card marked failed, an option change makes it wait and the next start targets it |
| Cards.ReaddedCardIgnoresOldJob | ui.py:235-256 | a job keeps reporting to its own card: when that card is removed and the file dropped again, the old job's progress and failure leave the new card waiting at 0% |
| Settings.ComboIndex | ui.py:195-196 | a stored index within the items selects that item; any other selects nothing |
| Settings.Save | ui.py:184-185 | the saved object holds exactly the five keys with the controls' values |
| Settings.LoadTexts | ui.py:199-200 | loading touches only the entry texts. A non-string strength stops it. Otherwise a valid strength entry ends up holding the validated stored strength. Then a non-string quality leaves the quality entry alone, and a string one ends up validated in it |
| Settings.Load | ui.py:190-201 | a missing file changes nothing, and loading keeps the entries validated |
| Settings.SaveLoadRoundTrip | ui.py:184-201 | loading what was saved restores every saved control at the next start-up |
| Settings.LoadEmptyGivesDefaults | ui.py:190-201 | an object without keys loads the defaults |
| Settings.DefaultsValid | ui.py:107-117 | the default entry texts `60` and `25` pass their validators |
| Settings.WrongTypeAbortsLoad | ui.py:195 | a mistyped mode index stops the load before anything is applied |
| Settings.LoadClampsQuality | ui.py:199-200 | a stored quality of 99 is loaded as 51 |

## Left out

- Widgets, styling, thumbnails, the toast, `open_folder` and the folder
  buttons: presentation only.
- Launching processes and probing media: the transcoder's output lines and
  exit are parameters (`Launch`). The duration, width and height come in as
  probed values.
- Threads, the thread pool and the semaphore of `_run_all`: jobs are
  modelled one at a time. A job that crashes does not release the
  semaphore (main1.py:484); that case is not modelled.
- The allocation race between jobs running at the same time: allocation
  against a fixed set of existing paths is modelled. Two jobs run one after
  the other are covered by `TkJob.SecondJobGetsFreshOutput`.
- `os.makedirs` failures, and `os.path.normpath` differences between
  platforms: paths are POSIX strings.
- AddFiles: the Tk drop normalises each path with `os.path.normpath` before
  its duplicate check (main1.py:552). The model takes the dropped paths as
  already normalised, so `v/./a.mp4` dropped after `v/a.mp4` gets a second
  row here but not in the program.
- Lower: ASCII lower-casing only. Python's `str.lower()` also maps other
  letters, such as U+212A KELVIN SIGN to `k`, so a name ending in
  `.M\u212AV` is accepted by the program and refused by the model.
- IsDigit: ASCII digits only. Python's `int()`, `float()` and the regular
  expression `\d` also take other Unicode decimal digits.
- The 0.1 s rate limit of the Tk row's `update_status` (main1.py:119-130):
  wall-clock time is not modelled, so every update is delivered.
- Forms of Python's `int()`/`float()` beyond sign, ASCII digits and one
  dot. Whitespace, underscores, exponents, `inf` and `nan` are read as
  refused.
- Floating point: reals stand in for floats. `:.2f` is modelled as exact
  round-half-even, which can differ from binary floats on ties.
- Qt `blockSignals`, and the settings writes triggered while the settings
  load: signal plumbing.
- The Tk concurrency entry is not bound to its variable (main1.py:240-253),
  so typed text never reaches `_run_all`. Only the wheel is modelled as
  setting the value.
- Paths.Basename: states only that the result has no separator and is a
  suffix of the path, not that it starts right after the last separator.
- Paths.Dirname: states only that the result is a prefix of the path, not
  the trailing-separator stripping.
- Paths.StemOfName: states only that the stem is a prefix of the name, not
  where the extension starts.
- Progress.FindClock: states only non-negativity. The leftmost-match
  property is stated by `Progress.FirstMatch` and
  `Progress.FirstMatchIsFirst`.
- Inputs.WheelNumber: states only the bounds, not the step taken.
- Settings.Load: states only that the entries stay validated and that a
  missing file changes nothing. The field-by-field effect is stated by
  `Settings.SaveLoadRoundTrip`, `Settings.LoadEmptyGivesDefaults` and
  `Settings.WrongTypeAbortsLoad`.

## Findings

| source | as written | input that shows it | evidently intended | confidence | as-written member | corrected member |
|---|---|---|---|---|---|---|
| main1.py:370-372 | when the blur, quality, brightness or contrast entry fails to parse, the fallback rebinds the values but not the colour toggles not yet read, so the job dies on an unbound name at main1.py:385, 387 or 389, at the first toggle not yet read | an empty blur entry | a failed read falls back to a plain job with every option off | not executed | TkJob.ReadAsWritten, TkJob.RunJobAsWritten, TkJob.EmptyBlurEntryCrashes | TkJob.Read, TkJob.RunJob, TkJob.RunJobAgreesWhenReadable |
| ui.py:262-264 | `on_fail` only counts down; the card keeps saying processing, so `on_param_changed` never resets it and `start_all` never targets it again | one card whose job exits non-zero, then an option change | the card is marked failed, so an option change makes it wait again | not executed | Cards.OnFailAsWritten, Cards.FailedCardNeverRetriedAsWritten | Cards.OnFail, Cards.FailedCardRetried |
| main1.py:451-467 | the snapshot stores the raw text of disabled colour entries, while the live side (main1.py:504-508) normalises it | brightness off with `50` in its entry, start and finish untouched | an untouched batch finishes showing nothing new | not executed | Session.SnapshotAsWritten, Session.UntouchedBatchIsDirtyAsWritten | Session.Snapshot, Session.UntouchedBatchIsClean |
