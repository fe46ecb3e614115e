/** The first version of the tool: no settings, a capture every five
    seconds into a file whose name carries the timestamp and a four-digit
    counter, until Stop is pressed or a capture raises. The loop runs
    against a finite sequence of ticks, as in the full tool. */
module BasicApp {
  import opened Wrappers
  import opened Decimal
  import opened Selection
  import opened Retention

  /** What one capture attempt does. */
  datatype Shot = Grabbed(stamp: string, mtime: int) | CaptureError

  /** The environment during one pass: the capture, and whether Stop was
      pressed before the next check of the stop flag. */
  datatype SimpleTick = SimpleTick(shot: Shot, stopPressed: bool)

  /** Why the loop ended; OutOfTicks means it was still running when the
      given ticks ran out. */
  datatype Exit = StopRequested | CaptureFailed | OutOfTicks

  datatype State = State(count: nat, files: seq<Entry>)

  datatype BasicOutcome = BasicOutcome(state: State, exit: Exit, used: nat)

  /** `screenshot_<stamp>_<n:04d>.png`. */
  function FileName(stamp: string, n: nat): string {
    CapturePrefix + stamp + "_" + Pad4(n) + CaptureSuffix
  }

  /** Every numbered file is one the retention sweep would consider. */
  lemma FileNameIsCapture(stamp: string, n: nat)
    ensures IsCapture(FileName(stamp, n))
  {
    var x := stamp + "_" + Pad4(n);
    assert FileName(stamp, n) == CapturePrefix + x + CaptureSuffix;
  }

  /** The state after saving a capture under the next counter value. */
  function Save(s: State, stamp: string, mtime: int): (next: State)
    ensures next.count == s.count + 1
  {
    State(s.count + 1, Write(s.files, FileName(stamp, s.count + 1), mtime))
  }

  /** The loop from state `s`, with the stop flag `stopped` as seen at its
      head: a capture is saved under the next counter value, and the first
      capture that raises ends the loop. */
  function BasicRun(s: State, stopped: bool, ticks: seq<SimpleTick>): (o: BasicOutcome)
    ensures o.used <= |ticks|
    decreases |ticks|
  {
    if stopped then BasicOutcome(s, StopRequested, 0)
    else if ticks == [] then BasicOutcome(s, OutOfTicks, 0)
    else
      match ticks[0].shot
      case CaptureError => BasicOutcome(s, CaptureFailed, 1)
      case Grabbed(stamp, mtime) =>
        var o := BasicRun(Save(s, stamp, mtime), ticks[0].stopPressed, ticks[1..]);
        BasicOutcome(o.state, o.exit, o.used + 1)
  }

  /** The number of captures among the ticks that did not raise. */
  function Grabs(ticks: seq<SimpleTick>): (n: nat)
    ensures n <= |ticks|
  {
    if ticks == [] then 0
    else (if ticks[0].shot.Grabbed? then 1 else 0) + Grabs(ticks[1..])
  }

  class ScreenshotTool {
    const monitors: seq<Monitor>
    var selectedArea: Option<Region>
    var stopScreenshots: bool
    var screenshotCount: nat
    var directory: seq<Entry>

    function Snapshot(): State
      reads this
    {
      State(screenshotCount, directory)
    }

    constructor(monitors: seq<Monitor>, directory: seq<Entry>)
      ensures this.monitors == monitors && this.directory == directory
      ensures selectedArea == None && !stopScreenshots && screenshotCount == 0
    {
      this.monitors := monitors;
      this.directory := directory;
      selectedArea := None;
      stopScreenshots := false;
      screenshotCount := 0;
    }

    /** The mouse button is released on the overlay. */
    method EndSelection(shown: string, start: Point, end: Point)
      modifies this`selectedArea
      ensures selectedArea == Selection.EndSelection(old(selectedArea), shown, monitors, start, end)
    {
      selectedArea := Selection.EndSelection(selectedArea, shown, monitors, start, end);
    }

    /** The Start button: does nothing without a selected area; otherwise
        clears the stop flag and the count. */
    method StartScreenshots() returns (started: bool)
      modifies this`stopScreenshots, this`screenshotCount
      ensures started <==> old(selectedArea).Some?
      ensures !started ==> unchanged(this)
      ensures started ==> !stopScreenshots && screenshotCount == 0
    {
      if selectedArea.None? {
        return false;
      }
      stopScreenshots := false;
      screenshotCount := 0;
      started := true;
    }

    /** The Stop button (and closing the window). */
    method StopScreenshots()
      modifies this`stopScreenshots
      ensures stopScreenshots
    {
      stopScreenshots := true;
    }

    /** The body of the try block: the file is written under the next
        counter value, then the count goes up. */
    method SaveOnce(stamp: string, mtime: int)
      modifies this`screenshotCount, this`directory
      ensures Snapshot() == Save(old(Snapshot()), stamp, mtime)
    {
      directory := Write(directory, FileName(stamp, screenshotCount + 1), mtime);
      screenshotCount := screenshotCount + 1;
    }

    /** screenshot_loop: runs while the stop flag is clear; a capture that
        raises shows the error and ends the loop without setting the flag. */
    method ScreenshotLoop(ticks: seq<SimpleTick>) returns (exit: Exit, used: nat)
      modifies this`screenshotCount, this`directory, this`stopScreenshots
      ensures var o := BasicRun(old(Snapshot()), old(stopScreenshots), ticks);
        Snapshot() == o.state && exit == o.exit && used == o.used
      ensures stopScreenshots <==> exit == StopRequested
    {
      var i := 0;
      while !stopScreenshots
        invariant 0 <= i <= |ticks|
        invariant var o0 := BasicRun(old(Snapshot()), old(stopScreenshots), ticks);
          var o := BasicRun(Snapshot(), stopScreenshots, ticks[i..]);
          o0.state == o.state && o0.exit == o.exit && o0.used == i + o.used
        decreases |ticks| - i, !stopScreenshots
      {
        if i == |ticks| {
          return OutOfTicks, i;
        }
        var t := ticks[i];
        assert ticks[i..][0] == t && ticks[i..][1..] == ticks[i + 1..];
        i := i + 1;
        match t.shot
        case CaptureError =>
          return CaptureFailed, i;
        case Grabbed(stamp, mtime) =>
          SaveOnce(stamp, mtime);
          if t.stopPressed {
            stopScreenshots := true;
          }
      }
      return StopRequested, i;
    }
  }

  // ---------------------------------------------------------------------
  // Properties

  /** The longest run of digits at the end of `s`. */
  function DigitSuffix(s: string): (d: string)
    ensures |d| <= |s| && d == s[|s| - |d|..]
  {
    if s != [] && IsDigit(s[|s| - 1]) then DigitSuffix(s[..|s| - 1]) + [s[|s| - 1]] else []
  }

  lemma {:induction false} DigitSuffixAfterSeparator(a: string, d: string)
    requires AllDigits(d)
    ensures DigitSuffix(a + "_" + d) == d
  {
    if d != [] {
      var init := d[..|d| - 1];
      assert (a + "_" + d)[..|a + "_" + d| - 1] == a + "_" + init;
      DigitSuffixAfterSeparator(a, init);
      assert init + [d[|d| - 1]] == d;
    }
  }

  /** The text between the fixed prefix and suffix of a capture name. */
  function Middle(name: string): string
    requires IsCapture(name)
  {
    name[|CapturePrefix|..|name| - |CaptureSuffix|]
  }

  lemma MiddleOfFileName(stamp: string, n: nat)
    requires IsCapture(FileName(stamp, n))
    ensures Middle(FileName(stamp, n)) == stamp + "_" + Pad4(n)
  {
    var x := stamp + "_" + Pad4(n);
    assert FileName(stamp, n) == CapturePrefix + x + CaptureSuffix;
  }

  /** Stamp and counter can be read back from a file name: two names are
      equal only for the same stamp and the same counter, also when the
      stamp itself holds underscores or digits. */
  lemma FileNameInjective(stamp1: string, n1: nat, stamp2: string, n2: nat)
    requires FileName(stamp1, n1) == FileName(stamp2, n2)
    ensures stamp1 == stamp2 && n1 == n2
  {
    FileNameIsCapture(stamp1, n1);
    FileNameIsCapture(stamp2, n2);
    MiddleOfFileName(stamp1, n1);
    MiddleOfFileName(stamp2, n2);
    SplitAtLastSeparator(stamp1, Pad4(n1), stamp2, Pad4(n2));
    Pad4Injective(n1, n2);
  }

  /** A text ending in "_" and a run of digits splits there in one way only. */
  lemma SplitAtLastSeparator(a1: string, d1: string, a2: string, d2: string)
    requires AllDigits(d1) && AllDigits(d2) && a1 + "_" + d1 == a2 + "_" + d2
    ensures a1 == a2 && d1 == d2
  {
    DigitSuffixAfterSeparator(a1, d1);
    DigitSuffixAfterSeparator(a2, d2);
    var x := a1 + "_" + d1;
    assert a1 == x[..|a1|] && a2 == x[..|a2|];
  }

  /** The count grows by exactly the number of captures saved among the
      ticks the loop used. */
  lemma {:induction false} BasicRunCounts(s: State, stopped: bool, ticks: seq<SimpleTick>)
    ensures var o := BasicRun(s, stopped, ticks);
      o.state.count == s.count + Grabs(ticks[..o.used])
    decreases |ticks|
  {
    var o := BasicRun(s, stopped, ticks);
    if !stopped && ticks != [] {
      var t := ticks[0];
      if t.shot.CaptureError? {
        assert ticks[..1][1..] == [];
      } else {
        var next := Save(s, t.shot.stamp, t.shot.mtime);
        var inner := BasicRun(next, t.stopPressed, ticks[1..]);
        BasicRunCounts(next, t.stopPressed, ticks[1..]);
        assert ticks[..o.used][0] == t && ticks[..o.used][1..] == ticks[1..][..inner.used];
      }
    } else {
      assert ticks[..o.used] == [];
    }
  }

  /** The loop uses no tick past the first capture that raises, and it ends
      for a failed capture exactly when the last tick it used raised. */
  lemma {:induction false} BasicRunStopsOnFirstError(s: State, stopped: bool, ticks: seq<SimpleTick>)
    ensures var o := BasicRun(s, stopped, ticks);
      forall i :: 0 <= i < o.used ==>
        (ticks[i].shot.CaptureError? <==> o.exit == CaptureFailed && i == o.used - 1)
    decreases |ticks|
  {
    var o := BasicRun(s, stopped, ticks);
    if !stopped && ticks != [] && ticks[0].shot.Grabbed? {
      var t := ticks[0];
      var next := Save(s, t.shot.stamp, t.shot.mtime);
      BasicRunStopsOnFirstError(next, t.stopPressed, ticks[1..]);
      forall i | 1 <= i < o.used
        ensures ticks[i].shot.CaptureError? <==> o.exit == CaptureFailed && i == o.used - 1
      {
        assert ticks[i] == ticks[1..][i - 1];
      }
    }
  }

  /** Once Stop is pressed during the wait of tick k, no later tick is used. */
  lemma {:induction false} BasicRunStopsAfterStopPress(s: State, stopped: bool, ticks: seq<SimpleTick>, k: nat)
    requires k < |ticks| && ticks[k].stopPressed
    ensures BasicRun(s, stopped, ticks).used <= k + 1
    decreases |ticks|
  {
    if !stopped && ticks[0].shot.Grabbed? && k > 0 {
      var t := ticks[0];
      var next := Save(s, t.shot.stamp, t.shot.mtime);
      BasicRunStopsAfterStopPress(next, t.stopPressed, ticks[1..], k - 1);
    }
  }

  /** A file the loop does not write again stays: every name it writes
      carries a counter above the current count. */
  lemma {:induction false} BasicRunKeepsEntry(s: State, stopped: bool, ticks: seq<SimpleTick>, e: Entry)
    requires e in s.files
    requires forall stamp, m: nat :: m > s.count ==> FileName(stamp, m) != e.name
    ensures e in BasicRun(s, stopped, ticks).state.files
    decreases |ticks|
  {
    if !stopped && ticks != [] && ticks[0].shot.Grabbed? {
      var t := ticks[0];
      assert FileName(t.shot.stamp, s.count + 1) != e.name;
      WriteKeepsOthers(s.files, FileName(t.shot.stamp, s.count + 1), t.shot.mtime);
      var next := Save(s, t.shot.stamp, t.shot.mtime);
      BasicRunKeepsEntry(next, t.stopPressed, ticks[1..], e);
    }
  }

  /** A larger counter value always gives another name. */
  lemma LaterNamesDiffer(stamp: string, n: nat)
    ensures forall other, m: nat :: m > n ==> FileName(other, m) != FileName(stamp, n)
  {
    forall other, m: nat | m > n ensures FileName(other, m) != FileName(stamp, n) {
      if FileName(other, m) == FileName(stamp, n) {
        FileNameInjective(other, m, stamp, n);
      }
    }
  }

  /** The capture of the first tick survives the rest of the session. */
  lemma FirstCaptureKept(s: State, ticks: seq<SimpleTick>)
    requires ticks != [] && ticks[0].shot.Grabbed?
    ensures Entry(FileName(ticks[0].shot.stamp, s.count + 1), ticks[0].shot.mtime)
              in BasicRun(s, false, ticks).state.files
  {
    var t := ticks[0];
    var next := Save(s, t.shot.stamp, t.shot.mtime);
    var e := Entry(FileName(t.shot.stamp, s.count + 1), t.shot.mtime);
    assert e in next.files;
    LaterNamesDiffer(t.shot.stamp, s.count + 1);
    BasicRunKeepsEntry(next, t.stopPressed, ticks[1..], e);
  }

  /** One step of BasicRun over a tick whose capture succeeded. */
  lemma UnfoldGrab(s: State, ticks: seq<SimpleTick>)
    requires ticks != [] && ticks[0].shot.Grabbed?
    ensures var o := BasicRun(s, false, ticks);
      var inner := BasicRun(Save(s, ticks[0].shot.stamp, ticks[0].shot.mtime), ticks[0].stopPressed, ticks[1..]);
      o.state == inner.state && o.exit == inner.exit && o.used == inner.used + 1
  {
  }

  /** A run that uses a tick was not stopped, and after a failed capture
      it uses no more. */
  lemma UsedTicks(s: State, stopped: bool, ticks: seq<SimpleTick>)
    ensures var o := BasicRun(s, stopped, ticks);
      o.used > 0 ==> !stopped && ticks != [] && (ticks[0].shot.CaptureError? ==> o.used == 1)
  {
  }

  /** What the rest of a run keeps, the whole run keeps. */
  lemma RestKeeps(s: State, t: SimpleTick, rest: seq<SimpleTick>, e: Entry)
    requires t.shot.Grabbed?
    requires e in BasicRun(Save(s, t.shot.stamp, t.shot.mtime), t.stopPressed, rest).state.files
    ensures e in BasicRun(s, false, [t] + rest).state.files
  {
    UnfoldGrab(s, [t] + rest);
    assert ([t] + rest)[1..] == rest;
  }

  /** The i-th tick of a run that saved its first capture is the (i - 1)-th
      of the rest of the run. */
  lemma LaterTick(s: State, t: SimpleTick, rest: seq<SimpleTick>, i: nat)
    requires 0 < i < BasicRun(s, false, [t] + rest).used && t.shot.Grabbed?
    ensures i - 1 < BasicRun(Save(s, t.shot.stamp, t.shot.mtime), t.stopPressed, rest).used
  {
    UnfoldGrab(s, [t] + rest);
    assert ([t] + rest)[1..] == rest;
  }

  /** No capture of a session overwrites another: after the loop, every
      capture it saved is still there under its own name, the one with
      counter value count + i + 1 for the i-th tick, even when several
      share one timestamp. */
  lemma BasicRunKeepsEveryCapture(s: State, stopped: bool, ticks: seq<SimpleTick>, i: nat)
    requires i < BasicRun(s, stopped, ticks).used && ticks[i].shot.Grabbed?
    ensures Entry(FileName(ticks[i].shot.stamp, s.count + i + 1), ticks[i].shot.mtime)
              in BasicRun(s, stopped, ticks).state.files
  {
    CaptureKept(s, stopped, ticks, i, Entry(FileName(ticks[i].shot.stamp, s.count + i + 1), ticks[i].shot.mtime));
  }

  /** BasicRunKeepsEveryCapture for the entry `e` of the i-th tick. */
  lemma {:induction false} CaptureKept(s: State, stopped: bool, ticks: seq<SimpleTick>, i: nat, e: Entry)
    requires i < BasicRun(s, stopped, ticks).used && ticks[i].shot.Grabbed?
    requires e == Entry(FileName(ticks[i].shot.stamp, s.count + i + 1), ticks[i].shot.mtime)
    ensures e in BasicRun(s, stopped, ticks).state.files
    decreases |ticks|
  {
    UsedTicks(s, stopped, ticks);
    if i == 0 {
      FirstCaptureKept(s, ticks);
    } else {
      var t, rest := ticks[0], ticks[1..];
      var next := Save(s, t.shot.stamp, t.shot.mtime);
      assert ticks == [t] + rest;
      LaterTick(s, t, rest, i);
      assert e == Entry(FileName(rest[i - 1].shot.stamp, next.count + (i - 1) + 1), rest[i - 1].shot.mtime);
      CaptureKept(next, t.stopPressed, rest, i - 1, e);
      RestKeeps(s, t, rest, e);
    }
  }
}
