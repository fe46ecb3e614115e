/** The full tool: its settings fields, the area selection, starting a
    capture session and the capture loop that saves a timestamped file plus
    `latest.png` each interval, sweeps old captures away, stops at the
    maximum count, on the Stop button, or after five failures in a row.
    The loop runs against a finite sequence of ticks: what the environment
    does during each interval (the capture's outcome, which deletions fail,
    whether Stop was pressed before the next check of the stop flag). */
module App {
  import opened Wrappers
  import opened Settings
  import opened Selection
  import opened Retention

  const MaxConsecutiveErrors := 5

  /** What one capture attempt does on disk. */
  datatype Capture =
    | Saved(stamp: string, mtime: int)        // grab and both writes succeed
    | Failed                                  // the grab or the first write raises: nothing written
    | LatestFailed(stamp: string, mtime: int) // the timestamped file is written, latest.png raises

  /** The environment during one pass of the loop. */
  datatype Tick = Tick(capture: Capture, undeletable: set<string>, stopPressed: bool)

  /** Why the loop ended; OutOfTicks means it was still running when the
      given ticks ran out. */
  datatype StopReason = StopRequested | MaximumReached | TooManyErrors | OutOfTicks

  /** The state the loop changes: the count, the error streak and the
      screenshots directory. */
  datatype Progress = Progress(count: int, errors: int, files: seq<Entry>)

  datatype Outcome = Outcome(progress: Progress, reason: StopReason, used: nat)

  /** The timestamped file name of a capture. */
  function CaptureName(stamp: string): (name: string)
    ensures IsCapture(name)
  {
    CapturePrefix + stamp + CaptureSuffix
  }

  /** Python's truthiness test of the loop: a limit of None or 0 is no limit. */
  predicate MaxReached(count: int, maxCount: Option<int>) {
    maxCount.Some? && maxCount.value != 0 && count >= maxCount.value
  }

  /** One capture attempt: the try block of the loop, with the sweep after
      a save. */
  function Attempt(p: Progress, t: Tick, keep: int): (r: Progress)
    ensures t.capture.Saved? ==> r.count == p.count + 1 && r.errors == 0
    ensures !t.capture.Saved? ==> r.count == p.count && r.errors == p.errors + 1
  {
    match t.capture
    case Saved(stamp, mtime) =>
      var written := Write(Write(p.files, CaptureName(stamp), mtime), LatestName, mtime);
      Progress(p.count + 1, 0, Retained(written, keep, t.undeletable))
    case Failed =>
      Progress(p.count, p.errors + 1, p.files)
    case LatestFailed(stamp, mtime) =>
      Progress(p.count, p.errors + 1, Write(p.files, CaptureName(stamp), mtime))
  }

  /** The loop from state `p`, with the stop flag `stopped` as seen at its
      head, over the ticks: the final state, why it ended and how many ticks
      it used. */
  function Run(p: Progress, stopped: bool, maxCount: Option<int>, keep: int, ticks: seq<Tick>): (o: Outcome)
    ensures o.used <= |ticks|
    ensures o.reason == OutOfTicks ==> o.used == |ticks|
    decreases |ticks|
  {
    if stopped then Outcome(p, StopRequested, 0)
    else if MaxReached(p.count, maxCount) then Outcome(p, MaximumReached, 0)
    else if ticks == [] then Outcome(p, OutOfTicks, 0)
    else
      var t := ticks[0];
      var q := Attempt(p, t, keep);
      if !t.capture.Saved? && q.errors >= MaxConsecutiveErrors then Outcome(q, TooManyErrors, 1)
      else
        var o := Run(q, t.stopPressed, maxCount, keep, ticks[1..]);
        Outcome(o.progress, o.reason, o.used + 1)
  }

  /** The number of saved captures among the ticks. */
  function Successes(ticks: seq<Tick>): (n: nat)
    ensures n <= |ticks|
  {
    if ticks == [] then 0
    else (if ticks[0].capture.Saved? then 1 else 0) + Successes(ticks[1..])
  }

  // ---------------------------------------------------------------------
  // The tool

  class ScreenshotTool {
    const monitors: seq<Monitor>
    /** The contents of the three settings fields; None where the widget's
        value cannot be read as a number. */
    var intervalField: Option<real>
    var maxCountField: string
    var keepField: Option<int>

    var selectedArea: Option<Region>
    var stopScreenshots: bool
    var screenshotCount: int
    var consecutiveErrors: int
    var currentInterval: real
    var currentMaxCount: Option<int>
    var currentKeep: int
    var directory: seq<Entry>

    ghost predicate Valid()
      reads this
    {
      DistinctNames(directory)
    }

    function Snapshot(): Progress
      reads this
    {
      Progress(screenshotCount, consecutiveErrors, directory)
    }

    /** The fields start from the command line settings (or the defaults);
        the current settings are not read before StartScreenshots sets them. */
    constructor(args: Settings, monitors: seq<Monitor>, directory: seq<Entry>)
      requires DistinctNames(directory)
      ensures Valid()
      ensures this.monitors == monitors && this.directory == directory
      ensures intervalField == Some(args.interval) && keepField == Some(args.keep)
      ensures maxCountField == MaxCountFieldText(args.maxCount)
      ensures selectedArea == None && !stopScreenshots
      ensures screenshotCount == 0 && consecutiveErrors == 0
    {
      this.monitors := monitors;
      this.directory := directory;
      intervalField := Some(args.interval);
      maxCountField := MaxCountFieldText(args.maxCount);
      keepField := Some(args.keep);
      selectedArea := None;
      stopScreenshots := false;
      screenshotCount := 0;
      consecutiveErrors := 0;
      currentInterval := args.interval;
      currentMaxCount := args.maxCount;
      currentKeep := args.keep;
    }

    /** The mouse button is released on the overlay: stores the dragged
        region when it is large enough. */
    method EndSelection(shown: string, start: Point, end: Point)
      modifies this`selectedArea
      ensures selectedArea == Selection.EndSelection(old(selectedArea), shown, monitors, start, end)
    {
      selectedArea := Selection.EndSelection(selectedArea, shown, monitors, start, end);
    }

    /** The Start button: refuses without a selected area or with invalid
        settings; otherwise takes over the settings and resets the flag and
        both counters. */
    method StartScreenshots() returns (started: bool)
      modifies this`currentInterval, this`currentMaxCount, this`currentKeep
      modifies this`stopScreenshots, this`screenshotCount, this`consecutiveErrors
      ensures var v := ValidateSettings(intervalField, maxCountField, keepField);
        started <==> selectedArea.Some? && v.Success?
      ensures !started ==> unchanged(this)
      ensures started ==>
        var s := ValidateSettings(intervalField, maxCountField, keepField).value;
        && WellFormed(Settings(currentInterval, currentMaxCount, currentKeep))
        && currentInterval == s.interval && currentMaxCount == s.maxCount && currentKeep == s.keep
        && !stopScreenshots && screenshotCount == 0 && consecutiveErrors == 0
    {
      if selectedArea.None? {
        return false;
      }
      var validation := ValidateSettings(intervalField, maxCountField, keepField);
      if validation.Failure? {
        return false;
      }
      var s := validation.value;
      currentInterval, currentMaxCount, currentKeep := s.interval, s.maxCount, s.keep;
      stopScreenshots := false;
      screenshotCount := 0;
      consecutiveErrors := 0;
      started := true;
    }

    /** The Stop button (and closing the window). */
    method StopScreenshots()
      modifies this`stopScreenshots
      ensures stopScreenshots
    {
      stopScreenshots := true;
    }

    /** The try block of one pass: save and sweep, or count the failure. */
    method CaptureOnce(t: Tick)
      requires Valid()
      modifies this`screenshotCount, this`consecutiveErrors, this`directory
      ensures Valid()
      ensures Snapshot() == Attempt(old(Snapshot()), t, currentKeep)
    {
      match t.capture
      case Saved(stamp, mtime) =>
        WriteDistinct(directory, CaptureName(stamp), mtime);
        directory := Write(directory, CaptureName(stamp), mtime);
        WriteDistinct(directory, LatestName, mtime);
        directory := Write(directory, LatestName, mtime);
        screenshotCount := screenshotCount + 1;
        consecutiveErrors := 0;
        ghost var written := directory;
        var log;
        directory, log := Sweep(directory, currentKeep, t.undeletable);
        WithoutDistinct(written, NamesOf(Doomed(written, currentKeep)) - t.undeletable);
      case Failed =>
        consecutiveErrors := consecutiveErrors + 1;
      case LatestFailed(stamp, mtime) =>
        WriteDistinct(directory, CaptureName(stamp), mtime);
        directory := Write(directory, CaptureName(stamp), mtime);
        consecutiveErrors := consecutiveErrors + 1;
    }

    /** screenshot_loop: runs while the stop flag is clear. Reaching the
        maximum or the fifth failure in a row ends it and schedules the
        stop handler, which sets the flag. */
    method ScreenshotLoop(ticks: seq<Tick>) returns (reason: StopReason, used: nat)
      requires Valid()
      modifies this`screenshotCount, this`consecutiveErrors, this`directory, this`stopScreenshots
      ensures Valid()
      ensures var o := Run(old(Snapshot()), old(stopScreenshots), currentMaxCount, currentKeep, ticks);
        Snapshot() == o.progress && reason == o.reason && used == o.used
      ensures stopScreenshots <==> reason != OutOfTicks
    {
      var i := 0;
      while !stopScreenshots
        invariant Valid()
        invariant 0 <= i <= |ticks|
        invariant var o0 := Run(old(Snapshot()), old(stopScreenshots), currentMaxCount, currentKeep, ticks);
          var o := Run(Snapshot(), stopScreenshots, currentMaxCount, currentKeep, ticks[i..]);
          o0.progress == o.progress && o0.reason == o.reason && o0.used == i + o.used
        decreases |ticks| - i, !stopScreenshots
      {
        if MaxReached(screenshotCount, currentMaxCount) {
          stopScreenshots := true;      // the scheduled stop handler
          return MaximumReached, i;
        }
        if i == |ticks| {
          return OutOfTicks, i;
        }
        var t := ticks[i];
        assert ticks[i..][0] == t && ticks[i..][1..] == ticks[i + 1..];
        CaptureOnce(t);
        i := i + 1;
        if !t.capture.Saved? && consecutiveErrors >= MaxConsecutiveErrors {
          stopScreenshots := true;      // the scheduled stop handler
          return TooManyErrors, i;
        }
        if t.stopPressed {
          stopScreenshots := true;
        }
      }
      return StopRequested, i;
    }
  }

  // ---------------------------------------------------------------------
  // Properties

  /** With a limit, the loop never takes more captures than the limit. */
  lemma {:induction false} RunNeverExceedsMax(p: Progress, stopped: bool, m: int, keep: int, ticks: seq<Tick>)
    requires m > 0 && p.count <= m
    ensures Run(p, stopped, Some(m), keep, ticks).progress.count <= m
    decreases |ticks|
  {
    if !stopped && !MaxReached(p.count, Some(m)) && ticks != [] {
      RunNeverExceedsMax(Attempt(p, ticks[0], keep), ticks[0].stopPressed, m, keep, ticks[1..]);
    }
  }

  /** The count grows by exactly the number of saved captures among the
      ticks the loop used. */
  lemma {:induction false} RunCountsSuccesses(p: Progress, stopped: bool, maxCount: Option<int>, keep: int,
                                              ticks: seq<Tick>)
    ensures var o := Run(p, stopped, maxCount, keep, ticks);
      o.progress.count == p.count + Successes(ticks[..o.used])
    decreases |ticks|
  {
    var o := Run(p, stopped, maxCount, keep, ticks);
    if !stopped && !MaxReached(p.count, maxCount) && ticks != [] {
      var t := ticks[0];
      var q := Attempt(p, t, keep);
      if !t.capture.Saved? && q.errors >= MaxConsecutiveErrors {
        assert ticks[..1][1..] == [];
      } else {
        var inner := Run(q, t.stopPressed, maxCount, keep, ticks[1..]);
        RunCountsSuccesses(q, t.stopPressed, maxCount, keep, ticks[1..]);
        assert ticks[..o.used][0] == t && ticks[..o.used][1..] == ticks[1..][..inner.used];
      }
    } else {
      assert ticks[..o.used] == [];
    }
  }

  /** While the loop runs the error streak stays below five; it ends for
      too many errors exactly when the streak reaches five. */
  lemma {:induction false} RunErrorBound(p: Progress, stopped: bool, maxCount: Option<int>, keep: int,
                                         ticks: seq<Tick>)
    requires 0 <= p.errors < MaxConsecutiveErrors
    ensures var o := Run(p, stopped, maxCount, keep, ticks);
      (o.reason == TooManyErrors <==> o.progress.errors == MaxConsecutiveErrors)
      && (o.reason != TooManyErrors ==> 0 <= o.progress.errors < MaxConsecutiveErrors)
    decreases |ticks|
  {
    if !stopped && !MaxReached(p.count, maxCount) && ticks != [] {
      var t := ticks[0];
      var q := Attempt(p, t, keep);
      if t.capture.Saved? || q.errors < MaxConsecutiveErrors {
        RunErrorBound(q, t.stopPressed, maxCount, keep, ticks[1..]);
      }
    }
  }

  /** Once Stop is pressed during the wait of tick k, no later tick is
      used: the flag is checked before the next capture. */
  lemma {:induction false} RunStopsAfterStopPress(p: Progress, stopped: bool, maxCount: Option<int>, keep: int,
                                                  ticks: seq<Tick>, k: nat)
    requires k < |ticks| && ticks[k].stopPressed
    ensures Run(p, stopped, maxCount, keep, ticks).used <= k + 1
    decreases |ticks|
  {
    if !stopped && !MaxReached(p.count, maxCount) && k > 0 {
      RunStopsAfterStopPress(Attempt(p, ticks[0], keep), ticks[0].stopPressed, maxCount, keep, ticks[1..], k - 1);
    }
  }

  /** When every capture succeeds and Stop is never pressed, the loop
      takes captures until the count reaches the limit, and stops there. */
  lemma {:induction false} RunReachesMaximum(p: Progress, m: int, keep: int, ticks: seq<Tick>)
    requires 0 < m && 0 <= p.count <= m && |ticks| >= m - p.count
    requires forall i :: 0 <= i < |ticks| ==> ticks[i].capture.Saved? && !ticks[i].stopPressed
    ensures var o := Run(p, false, Some(m), keep, ticks);
      o.reason == MaximumReached && o.progress.count == m && o.used == m - p.count
    decreases m - p.count
  {
    if p.count < m {
      RunReachesMaximum(Attempt(p, ticks[0], keep), m, keep, ticks[1..]);
    }
  }

  /** Five failures in a row end the loop at the fifth, with the count
      unchanged (fewer when the streak had already begun). */
  lemma {:induction false} RunGivesUpAfterFiveFailures(p: Progress, maxCount: Option<int>, keep: int, ticks: seq<Tick>)
    requires 0 <= p.errors < MaxConsecutiveErrors && !MaxReached(p.count, maxCount)
    requires |ticks| >= MaxConsecutiveErrors - p.errors
    requires forall i :: 0 <= i < MaxConsecutiveErrors - p.errors ==>
               !ticks[i].capture.Saved? && !ticks[i].stopPressed
    ensures var o := Run(p, false, maxCount, keep, ticks);
      && o.reason == TooManyErrors && o.used == MaxConsecutiveErrors - p.errors
      && o.progress.count == p.count && o.progress.errors == MaxConsecutiveErrors
    decreases MaxConsecutiveErrors - p.errors
  {
    var q := Attempt(p, ticks[0], keep);
    if q.errors < MaxConsecutiveErrors {
      RunGivesUpAfterFiveFailures(q, maxCount, keep, ticks[1..]);
    }
  }

  /** A saved capture always leaves `latest.png`, with the capture's time,
      whatever deletions fail. */
  lemma SavedCaptureKeepsLatest(p: Progress, t: Tick, keep: int)
    requires t.capture.Saved?
    ensures Entry(LatestName, t.capture.mtime) in Attempt(p, t, keep).files
  {
    var written := Write(Write(p.files, CaptureName(t.capture.stamp), t.capture.mtime), LatestName, t.capture.mtime);
    LatestIsNotACapture();
    SweepSparesOtherFiles(written, keep, t.undeletable, Entry(LatestName, t.capture.mtime));
  }

  /** After a saved capture whose sweep deletes everything it tries, at
      most `keep` capture files remain: the newest ones. */
  lemma SavedCaptureBoundsCaptures(p: Progress, t: Tick, keep: nat)
    requires t.capture.Saved? && t.undeletable == {} && DistinctNames(p.files)
    ensures var written := Write(Write(p.files, CaptureName(t.capture.stamp), t.capture.mtime),
                                 LatestName, t.capture.mtime);
      var after := Captures(Attempt(p, t, keep).files);
      |after| <= keep && multiset(after) == multiset(Kept(written, keep))
  {
    var written := Write(Write(p.files, CaptureName(t.capture.stamp), t.capture.mtime), LatestName, t.capture.mtime);
    WriteDistinct(p.files, CaptureName(t.capture.stamp), t.capture.mtime);
    WriteDistinct(Write(p.files, CaptureName(t.capture.stamp), t.capture.mtime), LatestName, t.capture.mtime);
    SweepLeavesTheNewest(written, keep);
  }
}
