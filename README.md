# Area screenshot tool — a verified model

The repository is a desktop tool that repeatedly photographs a rectangle of
the screen. The user picks a monitor in a combo box and drags a rectangle on
a translucent overlay. A background thread then grabs that rectangle every
few seconds and writes it to a `screenshots` folder. There are two versions
of the tool:

- `src/main.py` is the full version. It has settings for the interval, the
  maximum number of captures and the number of files to keep. Every capture
  goes to `screenshot_<timestamp>.png` and is copied to `latest.png`. A
  retention sweep deletes the oldest captures beyond the limit. The loop
  gives up after five consecutive failed captures.
- `src2/app.py` is the simpler version. It numbers its files
  `screenshot_<timestamp>_<NNNN>.png` and stops at the first failed capture.

This project models the deterministic core of both versions and proves what
it promises. The core is:

- the retention sweep;
- validation of the settings and of the command-line arguments;
- turning a drag on the overlay into a capture region;
- the capture loop of each version, as a state machine over one input per
  loop iteration (a "tick").

Modules:

| file | module | models |
|---|---|---|
| `wrappers.dfy` | `Wrappers` | `Option` and `Result` |
| `decimal.dfy` | `Decimal` | Python's `int()` on text, `str()` of an int, the `{:04d}` format |
| `text.dfy` | `Text` | Python's `isspace()`, `strip()`, `lstrip()`, `rstrip()` and `lower()` |
| `settings.dfy` | `Settings` | `validate_settings`, the checks in `__main__`, the default arguments |
| `retention.dfy` | `Retention` | the files of the screenshots folder, writing a file, `cleanup_old_screenshots` |
| `selection.dfy` | `Selection` | monitor combo-box labels, the overlay origin, the rectangle of `end_selection` |
| `app.dfy` | `App` | the `ScreenshotTool` class of `src/main.py` and its capture loop |
| `basic_app.dfy` | `BasicApp` | the `ScreenshotTool` class of `src2/app.py` and its capture loop |

Each capture loop is a `while` loop in a method of a class whose fields are
the tool's attributes. One call to the method consumes a finite sequence of
ticks. A tick says whether the grab and the writes succeeded, which files
refuse deletion, the timestamp, and whether the stop button was pressed
during the wait that follows. Each method is proved equal to a recursive
specification function (`App.Run`, `BasicApp.BasicRun`). The lemmas beside
that function state what the loop promises.

The folder is a sequence of `Entry(name, mtime)` in listing order. Writing
a file replaces an entry of the same name in place, or appends a new one.

## Model

| member | source | states |
|---|---|---|
| Decimal.ParseIntOfIntToString | src/main.py:249 | `int()` reads back every integer that `str()` prints |
| Decimal.NatToStringValue | src/main.py:139 | the decimal text of n is a numeral whose value is n |
| Decimal.Pad4Value | src2/app.py:221 | the `{:04d}` text of a counter reads back as that counter |
| Decimal.Pad4Injective | src2/app.py:221 | different counters never share their `{:04d}` text |
| Text.StripLeftRemovesLeadingSpace | src/main.py:245 | `strip()` drops exactly a prefix of white space and keeps the rest |
| Text.StripRightRemovesTrailingSpace | src/main.py:245 | `strip()` drops exactly a suffix of white space and keeps the rest |
| Text.StripIgnoresSurroundingSpace | src/main.py:245 | white space around the text does not change the stripped text |
| Text.StripLeftLower | src/main.py:245 | lower-casing and stripping commute at the front |
| Text.StripRightLower | src/main.py:245 | lower-casing and stripping commute at the back |
| Settings.ParseMaxCount | src/main.py:245-257 | "infinite" or empty (after strip and lower) means no limit, in both directions; a text whose integer value is above 0 is accepted with that value, and a parsed count is always positive; the text is refused as not a number exactly when `int()` fails, and as not positive exactly when it parses to a value of 0 or less |
| Settings.KeywordsAreNotNumbers | src/main.py:247-249 | neither keyword that means "no limit" parses as an integer |
| Settings.ParseMaxCountIgnoresCase | src/main.py:245 | two texts that lower-case alike give the same verdict |
| Settings.ParseMaxCountIgnoresSpace | src/main.py:245 | surrounding white space does not change the verdict |
| Settings.ValidateSettings | src/main.py:237-267 | the settings are accepted iff the interval can be read and is > 0, the max-count text is accepted, and keep can be read and is > 0; accepted settings are exactly the values read, and they are well formed; an unreadable interval and an interval <= 0 give their own errors |
| Settings.CheckArguments | src/main.py:605-615 | the arguments are accepted iff interval > 0, keep > 0 and a given max count is > 0, and they are then passed on unchanged |
| Settings.MaxCountFieldRoundTrip | src/main.py:98-100 | the text put into the max-count field validates back to the argument, except that 0 becomes "no limit" and a negative count is refused |
| Settings.CliAcceptedSettingsPassValidation | src/main.py:83-110 | arguments that pass the command-line checks also pass `validate_settings` unchanged once shown in the fields |
| Settings.DefaultsValidate | src/main.py:57-66 | the GUI defaults (5 s, no limit, keep 100) pass validation as themselves |
| Retention.Captures | src/main.py:220 | the sweep considers exactly the entries named `screenshot_*.png` |
| Retention.Insert | src/main.py:224 | inserting into a newest-first list gives a newest-first list with the same entries plus one |
| Retention.NewestFirst | src/main.py:224 | the sort gives a newest-first permutation of its input |
| Retention.NewestFirstIsStable | src/main.py:224 | the sort is stable: entries of equal mtime keep their listing order |
| Retention.StableNewestFirstIsUnique | src/main.py:224 | a sequence is a stable newest-first sort of the listing iff it is the sort's result |
| Retention.Write | src/main.py:471-474 | after a write the folder holds the new entry under its name with its time |
| Retention.WriteKeepsOthers | src/main.py:471-474 | a write keeps every file under another name and adds nothing else under another name |
| Retention.WriteDistinct | src/main.py:471-474 | writing keeps file names unique |
| Retention.Sweep | src/main.py:217-235 | the folder after the sweep is the folder without the doomed files that could be deleted; the log has one line per doomed file, in order, and reports a failure exactly for the files that refused deletion |
| Retention.DeleteEach | src/main.py:228-233 | deleting in a loop removes each file that can be removed, carries on past one that cannot, and its log is the removal log of the doomed files |
| Retention.TryRemove | src/main.py:229-233 | one deletion attempt names its file and reports success exactly when deleting that file does not raise OSError |
| Retention.RemovalLogEntries | src/main.py:228-233 | the removal log has one line per doomed file, and its i-th line is the attempt on the i-th doomed file |
| Retention.DoomedAreCaptures | src/main.py:220-227 | only `screenshot_*.png` files are ever candidates for deletion |
| Retention.SweepSparesOtherFiles | src/main.py:220 | every other file in the folder survives the sweep |
| Retention.LatestIsNotACapture | src/main.py:468 | `latest.png` is not a capture name, so the sweep never deletes it |
| Retention.SweepUnderLimitRemovesNothing | src/main.py:222 | with at most `max_files` captures nothing is deleted and the folder is unchanged |
| Retention.DoomedAreOldest | src/main.py:224-227 | every deleted capture is no newer than every kept one |
| Retention.TiesKeepListingOrder | src/main.py:224-227 | among captures of equal mtime, the kept ones come first in listing order and the deleted ones after |
| Retention.SweepLeavesTheNewest | src/main.py:217-235 | without deletion failures, the captures left are exactly the `max_files` newest (stable order), and there are min(count, `max_files`) of them |
| Selection.DragRegionIsBoundingBox | src/main.py:353-359 | the region contains both drag end points, shifted by the offset, and its size is the absolute difference of their coordinates |
| Selection.DragRegionIsSmallest | src/main.py:353-359 | any rectangle containing both shifted end points contains the region |
| Selection.DragRegionSymmetric | src/main.py:353-356 | the drag direction does not matter |
| Selection.DragSizeIgnoresOffset | src/main.py:358-361 | whether a region is large enough does not depend on the monitor offset |
| Selection.MonitorAt | src/main.py:348 | indexing the monitor list succeeds iff the index is in Python's range (negative indices count from the end) and then gives that monitor |
| Selection.ChoiceOf | src/main.py:344-347 | a numbered choice is the integer in the second word of the combo-box text |
| Selection.ChoiceOfLabel | src/main.py:134-143 | reading back the label "Monitor i (WxH)" chooses monitor i |
| Selection.ChoiceOfAllMonitorsLabel | src/main.py:134 | reading back the first label chooses the virtual screen |
| Selection.EndSelection | src/main.py:341-377 | the selected area changes only to a region whose width and height are both above 10 |
| Selection.SelectedAreaStaysLargeEnough | src/main.py:361-367 | a selected area that was large enough, or none, stays so after any drag |
| Selection.EndSelectionCoversDrag | src/main.py:341-377 | a large enough drag selects the region that covers both end points on the overlay's monitor, with the drag's size; a small drag leaves the selection unchanged |
| Selection.AsWrittenAgreesAtOrigin | src2/app.py:151-179 | when the virtual screen starts at (0, 0) the code as written and the corrected model select the same area |
| Selection.AsWrittenMisplacesVirtualScreenDrag | src/main.py:344-345 | with a monitor left of the primary, the region of the code as written misses the drag, which the corrected model covers |
| App.CaptureName | src/main.py:465-466 | every capture file name is one the sweep considers |
| App.Attempt | src/main.py:460-501 | a successful tick adds exactly one to the count and resets the errors; a failed one, including one whose `latest.png` write failed after the capture file was written, leaves the count and adds one error |
| App.Run | src/main.py:444-518 | the loop uses no more ticks than it is given, and reports running out only after using every tick |
| App.RunNeverExceedsMax | src/main.py:448-458 | with a maximum set, the count never passes it |
| App.RunCountsSuccesses | src/main.py:476 | the final count is the start count plus the successful ticks the loop used |
| App.RunErrorBound | src/main.py:490-501 | the loop stops for too many errors iff the error counter has reached 5, and otherwise ends with fewer than 5 errors |
| App.RunStopsAfterStopPress | src/main.py:446-518 | no capture starts after a tick in which stop was pressed |
| App.RunReachesMaximum | src/main.py:448-458 | with only successes, the loop stops with reason "maximum reached" after exactly the missing number of captures |
| App.RunGivesUpAfterFiveFailures | src/main.py:490-501 | a run of failures brings the counter to 5 and stops the loop with the count unchanged |
| App.SavedCaptureKeepsLatest | src/main.py:468-484 | after a successful tick `latest.png` holds the new capture |
| App.SavedCaptureBoundsCaptures | src/main.py:471-484 | after a successful tick in which no deletion fails, at most `keep` captures remain, and they are the newest of the folder as written |
| App.ScreenshotTool.constructor | src/main.py:40-49 | the tool starts with no area, not stopped, no captures, no errors, and its fields show the arguments |
| App.ScreenshotTool.EndSelection | src/main.py:341-377 | the handler stores the area `Selection.EndSelection` computes |
| App.ScreenshotTool.StartScreenshots | src/main.py:389-416 | the loop starts iff an area is selected and the settings validate; it then stores the validated settings and resets the stop flag, count and errors; otherwise nothing changes |
| App.ScreenshotTool.StopScreenshots | src/main.py:529-530 | the stop handler sets the stop flag |
| App.ScreenshotTool.CaptureOnce | src/main.py:460-501 | one iteration of the loop body changes the state as `Attempt` says, and the folder keeps unique names |
| App.ScreenshotTool.ScreenshotLoop | src/main.py:444-518 | the loop ends in the state, for the reason and after the ticks that `Run` gives; the stop flag is set iff it stopped for a reason other than running out of ticks |
| BasicApp.FileNameIsCapture | src2/app.py:221 | every numbered file name is one the retention sweep would consider a capture |
| BasicApp.FileNameInjective | src2/app.py:221 | two captures get the same file name only with the same timestamp and counter |
| BasicApp.BasicRunCounts | src2/app.py:224-226 | the final count is the start count plus the successful ticks the loop used |
| BasicApp.BasicRunStopsOnFirstError | src2/app.py:237-239 | a used tick failed iff it is the last one used and the loop ended on a capture error |
| BasicApp.BasicRunStopsAfterStopPress | src2/app.py:214-235 | no capture starts after a tick in which stop was pressed |
| BasicApp.BasicRunKeepsEntry | src2/app.py:220-224 | a file whose name no later counter value can produce survives the loop |
| BasicApp.BasicRunKeepsEveryCapture | src2/app.py:220-226 | every capture of the session is still in the folder at the end, under the name with its own counter value, even when captures share a timestamp |
| BasicApp.ScreenshotTool.constructor | src2/app.py:12-24 | the tool starts with no area, not stopped, and no captures |
| BasicApp.ScreenshotTool.EndSelection | src2/app.py:151-179 | the handler stores the area `Selection.EndSelection` computes |
| BasicApp.ScreenshotTool.StartScreenshots | src2/app.py:191-203 | the loop starts iff an area is selected; it then clears the stop flag and the count; otherwise nothing changes |
| BasicApp.ScreenshotTool.StopScreenshots | src2/app.py:244-245 | the stop handler sets the stop flag |
| BasicApp.ScreenshotTool.SaveOnce | src2/app.py:220-226 | one save writes the file with the next counter value and adds one to the count |
| BasicApp.ScreenshotTool.ScreenshotLoop | src2/app.py:212-239 | the loop ends in the state, for the reason and after the ticks that `BasicRun` gives; the stop flag is set iff the stop button ended it |

## Left out

- The tkinter user interface is not modelled: windows, labels, buttons, the overlay canvas, message boxes and `update_ui`. The values the settings fields hold are parameters.
- The `mss` grab and the PNG encoding are foreign calls. A capture is an opaque success or failure per tick, with the file's timestamp and modification time.
- A PNG file written only in part is not modelled. A capture either fails before any write, or fails writing `latest.png` after its own file was written, or succeeds.
- Threads are not modelled: the loop thread, `root.after` and the `join` on closing. A stop that the loop schedules through `root.after` is applied at once.
- Restarting while an old loop thread still sleeps is not modelled.
- `time.sleep` and the polling of the stop flag during the wait are one boolean per tick: whether stop was pressed before the next loop head. So the float arithmetic `int(interval * 10)` is not modelled.
- `datetime.now()` is an opaque timestamp string per tick.
- Directory creation with `os.makedirs`, `argparse` and the import checks are not modelled.
- Console messages (`print`) are not modelled. The sweep's log of removals stands in for its messages.
- The interval is a `real`. NaN and infinity from a float field are not modelled.
- `lower()` is modelled on ASCII letters only.
- `int()` is modelled on ASCII digits, an optional sign and single underscores between digits; non-ASCII digits are not modelled.
- Settings.ParseMaxCount: Python's default limit of 4300 digits on `int()` of text is not modelled. A max-count text longer than that raises ValueError and is refused as not a number, while the model accepts it. The same limit on `str()` of an int is not modelled either.
- Windows' case-insensitive `glob` is not modelled; names match `screenshot_*.png` exactly.
- If a file vanishes between listing and sorting, the sort key's `stat()` raises and the outer handler abandons the sweep. That case is not modelled. Neither is a failing directory listing, which the same handler swallows.
- Retention.Write: a file with a new name is appended at the end of the listing. A real directory lists files in the file system's order, not in write order. The order decides which of two captures with the same modification time the sweep keeps, so the model fixes one such order.
- Retention.Sweep: requires that the folder's names are distinct, which every directory listing satisfies.
- App.ScreenshotTool.EndSelection: stores the corrected region `Selection.EndSelection`, not the region of the code as written. The two differ only for "All Monitors (Virtual)" when the virtual screen does not start at (0, 0); see "## Findings". `Selection.EndSelectionAsWritten` models the code as written.
- BasicApp.ScreenshotTool.EndSelection: stores the corrected region `Selection.EndSelection`, not the region of the code as written, for the same reason and with the same difference as App.ScreenshotTool.EndSelection.
- BasicApp.ScreenshotTool.StartScreenshots: the status text "every 5 seconds" and the fixed 5 s wait are not modelled.
- The top-level `main.py` is not part of this model. It is a plain capture-and-sleep loop with no state to reason about.

## Findings

| source | as written | input that shows it | evidently intended | confidence | as-written member | corrected member |
|---|---|---|---|---|---|---|
| src/main.py:344-345 | For "All Monitors (Virtual)" the offset added to the drag is (0, 0). The overlay window, however, is placed at the virtual screen's own left/top (src/main.py:289-291), so drag coordinates are relative to that corner. | Monitors `[(-1920,0,3840x1080), (0,0,1920x1080), (-1920,0,1920x1080)]`, choice "All Monitors (Virtual)", drag (100,100) to (300,300): the region is (100,100,200x200), which lies on the primary monitor and not where the drag was made. | The offset is the virtual screen's left/top, giving (-1820,100,200x200). | not executed | Selection.AsWrittenMisplacesVirtualScreenDrag | Selection.EndSelectionCoversDrag |
| src2/app.py:154-155 | The same zero offset for "All Monitors (Virtual)", while the overlay is placed at the virtual screen's left/top. | The same monitors and drag as above. | The offset is the virtual screen's left/top. | not executed | Selection.EndSelectionAsWritten | Selection.EndSelection |
