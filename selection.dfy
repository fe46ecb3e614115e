/** The area selection shared by both versions of the tool: the monitor
    chosen in the combo box, where the translucent overlay is placed, and
    how end_selection turns a mouse drag on that overlay into the screen
    region that later captures grab. */
module Selection {
  import opened Wrappers
  import opened Decimal
  import opened Text

  datatype Point = Point(x: int, y: int)

  /** One entry of mss's monitor list. Entry 0 is the virtual screen that
      spans all monitors; entries 1.. are the physical monitors. */
  datatype Monitor = Monitor(left: int, top: int, width: int, height: int)

  /** What the "Select Monitor" combo box names: the virtual screen, or the
      monitor list entry with the given (Python) index. */
  datatype MonitorChoice = AllMonitors | Numbered(index: int)

  /** The `selected_area` dictionary. */
  datatype Region = Region(left: int, top: int, width: int, height: int)

  /** A drag must be strictly wider and strictly taller than this. */
  const MinSide := 10

  const AllMonitorsLabel := "All Monitors (Virtual)"

  function Min(a: int, b: int): int { if a <= b then a else b }
  function Max(a: int, b: int): int { if a <= b then b else a }
  function Abs(a: int): int { if a < 0 then -a else a }

  // ---------------------------------------------------------------------
  // The combo box

  /** The combo box entry for monitor `i` (1-based): its number and size. */
  function MonitorLabel(i: nat, m: Monitor): string {
    "Monitor " + NatToString(i) + SizeText(m)
  }

  predicate NoSpace(s: string) { forall i :: 0 <= i < |s| ==> !IsSpace(s[i]) }

  /** The longest prefix of `s` without white space. */
  function LeadingWord(s: string): (w: string)
    ensures |w| <= |s| && w == s[..|w|]
    ensures NoSpace(w)
    ensures |w| < |s| ==> IsSpace(s[|w|])
  {
    if s == [] || IsSpace(s[0]) then [] else [s[0]] + LeadingWord(s[1..])
  }

  /** str.split() with no separator: the maximal runs of non-space text. */
  function Words(s: string): seq<string>
    decreases |s|
  {
    var t := StripLeft(s);
    if t == [] then []
    else
      var w := LeadingWord(t);
      [w] + Words(t[|w|..])
  }

  predicate StartsWith(s: string, prefix: string) {
    |prefix| <= |s| && s[..|prefix|] == prefix
  }

  /** How end_selection and select_area read the combo box: a text starting
      with "All Monitors" is the virtual screen; any other text must have a
      second word that int() accepts, else the handler raises (None). */
  function ChoiceOf(shown: string): (r: Option<MonitorChoice>)
    ensures r.Some? && r.value.Numbered? ==>
              |Words(shown)| >= 2 && ParseInt(Words(shown)[1]) == Some(r.value.index)
  {
    if StartsWith(shown, "All Monitors") then Some(AllMonitors)
    else
      var ws := Words(shown);
      if |ws| < 2 then None
      else
        match ParseInt(ws[1])
        case None => None
        case Some(k) => Some(Numbered(k))
  }

  /** Python's `monitors[k]`, negative indexes counting from the end;
      None where Python raises IndexError. */
  function MonitorAt(monitors: seq<Monitor>, k: int): (r: Option<Monitor>)
    ensures r.Some? <==> -|monitors| <= k < |monitors|
    ensures 0 <= k < |monitors| ==> r == Some(monitors[k])
    ensures -|monitors| <= k < 0 ==> r == Some(monitors[|monitors| + k])
  {
    if 0 <= k < |monitors| then Some(monitors[k])
    else if -|monitors| <= k < 0 then Some(monitors[|monitors| + k])
    else None
  }

  /** The monitor select_area covers with its overlay window: entry 0 for
      the virtual screen, otherwise the numbered entry. */
  function OverlayMonitor(choice: MonitorChoice, monitors: seq<Monitor>): Option<Monitor> {
    match choice
    case AllMonitors => MonitorAt(monitors, 0)
    case Numbered(k) => MonitorAt(monitors, k)
  }

  /** The screen position of the overlay's top-left corner: the window
      geometry is `+left+top` of the overlay monitor. Event coordinates are
      relative to this point. */
  function OverlayOrigin(choice: MonitorChoice, monitors: seq<Monitor>): Option<Point> {
    match OverlayMonitor(choice, monitors)
    case None => None
    case Some(m) => Some(Point(m.left, m.top))
  }

  // ---------------------------------------------------------------------
  // The region

  function Shift(p: Point, offset: Point): Point {
    Point(p.x + offset.x, p.y + offset.y)
  }

  predicate Contains(r: Region, p: Point) {
    r.left <= p.x <= r.left + r.width && r.top <= p.y <= r.top + r.height
  }

  /** `inner` lies within `outer`. */
  predicate Inside(inner: Region, outer: Region) {
    && outer.left <= inner.left && inner.left + inner.width <= outer.left + outer.width
    && outer.top <= inner.top && inner.top + inner.height <= outer.top + outer.height
  }

  /** The rectangle spanned by a drag from `start` to `end`, moved by
      `offset`: corners at the minimum and maximum coordinates. */
  function DragRegion(start: Point, end: Point, offset: Point): Region {
    var x1 := Min(start.x, end.x) + offset.x;
    var y1 := Min(start.y, end.y) + offset.y;
    var x2 := Max(start.x, end.x) + offset.x;
    var y2 := Max(start.y, end.y) + offset.y;
    Region(x1, y1, x2 - x1, y2 - y1)
  }

  /** The minimum size check of end_selection. */
  predicate LargeEnough(r: Region) {
    r.width > MinSide && r.height > MinSide
  }

  /** The offset end_selection adds, as written: nothing for the virtual
      screen, the monitor's top-left corner otherwise. None where reading
      the monitor raises. */
  function OffsetAsWritten(choice: MonitorChoice, monitors: seq<Monitor>): Option<Point> {
    match choice
    case AllMonitors => Some(Point(0, 0))
    case Numbered(k) =>
      match MonitorAt(monitors, k)
      case None => None
      case Some(m) => Some(Point(m.left, m.top))
  }

  /** `selected_area` after end_selection as written: the drag's rectangle
      when it is large enough, otherwise the previous value (also when the
      combo box text cannot be read, where the handler raises). */
  function EndSelectionAsWritten(previous: Option<Region>, shown: string, monitors: seq<Monitor>,
                                 start: Point, end: Point): Option<Region>
  {
    match ChoiceOf(shown)
    case None => previous
    case Some(choice) =>
      match OffsetAsWritten(choice, monitors)
      case None => previous
      case Some(offset) =>
        var r := DragRegion(start, end, offset);
        if LargeEnough(r) then Some(r) else previous
  }

  /** `selected_area` after end_selection, with the drag translated by the
      overlay's own origin, so that the region is where the drag was made
      on the screen, for the virtual screen too. */
  function EndSelection(previous: Option<Region>, shown: string, monitors: seq<Monitor>,
                        start: Point, end: Point): (r: Option<Region>)
    ensures r != previous ==> r.Some? && LargeEnough(r.value)
  {
    match ChoiceOf(shown)
    case None => previous
    case Some(choice) =>
      match OverlayOrigin(choice, monitors)
      case None => previous
      case Some(origin) =>
        var r := DragRegion(start, end, origin);
        if LargeEnough(r) then Some(r) else previous
  }

  // ---------------------------------------------------------------------
  // Properties

  /** The region spans both drag points exactly: its width and height are
      the distances between them. */
  lemma DragRegionIsBoundingBox(start: Point, end: Point, offset: Point)
    ensures var r := DragRegion(start, end, offset);
      && Contains(r, Shift(start, offset)) && Contains(r, Shift(end, offset))
      && r.width == Abs(end.x - start.x) && r.height == Abs(end.y - start.y)
  {
  }

  /** It is the smallest region that contains both drag points. */
  lemma DragRegionIsSmallest(start: Point, end: Point, offset: Point, q: Region)
    requires Contains(q, Shift(start, offset)) && Contains(q, Shift(end, offset))
    ensures Inside(DragRegion(start, end, offset), q)
  {
  }

  /** Dragging either way selects the same region. */
  lemma DragRegionSymmetric(start: Point, end: Point, offset: Point)
    ensures DragRegion(start, end, offset) == DragRegion(end, start, offset)
  {
  }

  /** Whether a drag is large enough does not depend on the offset. */
  lemma DragSizeIgnoresOffset(start: Point, end: Point, a: Point, b: Point)
    ensures LargeEnough(DragRegion(start, end, a)) <==> LargeEnough(DragRegion(start, end, b))
  {
  }

  lemma {:induction false} LeadingWordAppend(w: string, rest: string)
    requires NoSpace(w) && (rest == [] || IsSpace(rest[0]))
    ensures LeadingWord(w + rest) == w
  {
    if w != [] {
      assert (w + rest)[1..] == w[1..] + rest;
      LeadingWordAppend(w[1..], rest);
    } else {
      assert w + rest == rest;
    }
  }

  /** The words of a text that starts with a word and white space. */
  lemma WordsCons(w: string, rest: string)
    requires w != [] && NoSpace(w) && rest != [] && IsSpace(rest[0])
    ensures Words(w + rest) == [w] + Words(rest)
  {
    StripLeftNoSpace(w + rest);
    LeadingWordAppend(w, rest);
    assert (w + rest)[|w|..] == rest;
  }

  lemma NumeralHasNoSpace(n: nat)
    ensures NoSpace(NatToString(n)) && IsDigit(NatToString(n)[0])
  {
  }

  lemma WordsSkipSpace(x: string)
    requires x != [] && !IsSpace(x[0])
    ensures Words(" " + x) == Words(x)
  {
    StripLeftAppend(" ", x);
    StripLeftNoSpace(x);
  }

  /** The second word of a monitor's entry is its number. */
  lemma MonitorLabelWords(i: nat, m: Monitor)
    ensures |Words(MonitorLabel(i, m))| >= 2 && Words(MonitorLabel(i, m))[1] == NatToString(i)
  {
    var digits := NatToString(i);
    var tail := SizeText(m);
    var rest := digits + tail;
    MonitorLabelShape(i, m);
    NumeralHasNoSpace(i);
    WordsCons("Monitor", " " + rest);
    WordsSkipSpace(rest);
    WordsCons(digits, tail);
  }

  /** The size part of a monitor's entry, after its number. */
  function SizeText(m: Monitor): (t: string)
    ensures |t| > 0 && t[0] == ' '
  {
    " (" + IntToString(m.width) + "x" + IntToString(m.height) + ")"
  }

  /** A monitor's entry is the word "Monitor", a space, its number and its size. */
  lemma MonitorLabelShape(i: nat, m: Monitor)
    ensures MonitorLabel(i, m) == "Monitor" + (" " + (NatToString(i) + SizeText(m)))
  {
    assert "Monitor " == "Monitor" + " ";
  }

  /** Every entry the combo box offers reads back as the monitor it names. */
  lemma ChoiceOfLabel(i: nat, m: Monitor)
    ensures ChoiceOf(MonitorLabel(i, m)) == Some(Numbered(i))
  {
    var shown := MonitorLabel(i, m);
    assert shown == "M" + shown[1..];
    NotAllMonitors(shown[1..]);
    MonitorLabelWords(i, m);
    ParseIntOfIntToString(i);
    assert IntToString(i) == NatToString(i);
  }

  /** Text that starts with 'M' is not the virtual screen's entry. */
  lemma NotAllMonitors(rest: string)
    ensures !StartsWith("M" + rest, "All Monitors")
  {
    assert ("M" + rest)[0] != "All Monitors"[0];
  }

  lemma ChoiceOfAllMonitorsLabel()
    ensures ChoiceOf(AllMonitorsLabel) == Some(AllMonitors)
  {
    assert AllMonitorsLabel[..12] == "All Monitors";
  }

  /** A region the tool holds is always larger than the minimum: end_selection
      never stores one that is too small. */
  lemma SelectedAreaStaysLargeEnough(previous: Option<Region>, shown: string, monitors: seq<Monitor>,
                                     start: Point, end: Point)
    requires previous.None? || LargeEnough(previous.value)
    ensures var r := EndSelection(previous, shown, monitors, start, end);
      r.None? || LargeEnough(r.value)
  {
  }

  /** For a readable choice, end_selection stores exactly the rectangle
      spanned on the screen by the two drag points (the event coordinates
      moved by the overlay's origin) when it is large enough, and keeps the
      previous area otherwise. */
  lemma EndSelectionCoversDrag(previous: Option<Region>, shown: string, monitors: seq<Monitor>,
                               start: Point, end: Point, choice: MonitorChoice, origin: Point)
    requires ChoiceOf(shown) == Some(choice) && OverlayOrigin(choice, monitors) == Some(origin)
    ensures var r := EndSelection(previous, shown, monitors, start, end);
      && (LargeEnough(DragRegion(start, end, Point(0, 0))) ==>
            && r.Some?
            && Contains(r.value, Shift(start, origin)) && Contains(r.value, Shift(end, origin))
            && r.value.width == Abs(end.x - start.x) && r.value.height == Abs(end.y - start.y))
      && (!LargeEnough(DragRegion(start, end, Point(0, 0))) ==> r == previous)
  {
    DragRegionIsBoundingBox(start, end, origin);
    DragSizeIgnoresOffset(start, end, origin, Point(0, 0));
  }

  /** As written, end_selection agrees with the overlay-based region
      whenever a numbered monitor is chosen, and for the virtual screen
      when that screen's origin is (0, 0). */
  lemma AsWrittenAgreesAtOrigin(previous: Option<Region>, shown: string, monitors: seq<Monitor>,
                                start: Point, end: Point)
    requires ChoiceOf(shown) == Some(AllMonitors) ==>
               |monitors| > 0 && monitors[0].left == 0 && monitors[0].top == 0
    ensures EndSelectionAsWritten(previous, shown, monitors, start, end)
         == EndSelection(previous, shown, monitors, start, end)
  {
  }

  /** As written, with a monitor left of the primary one (the virtual screen
      starts at x = -1920), a drag from (100, 100) to (300, 300) on the
      virtual-screen overlay, i.e. from (-1820, 100) to (-1620, 300) on the
      screen, stores a region at x = 100 that contains neither point. */
  lemma AsWrittenMisplacesVirtualScreenDrag()
    ensures var monitors := [Monitor(-1920, 0, 3840, 1080), Monitor(0, 0, 1920, 1080),
                             Monitor(-1920, 0, 1920, 1080)];
      var start, end := Point(100, 100), Point(300, 300);
      var asWritten := EndSelectionAsWritten(None, AllMonitorsLabel, monitors, start, end);
      var corrected := EndSelection(None, AllMonitorsLabel, monitors, start, end);
      && asWritten == Some(Region(100, 100, 200, 200))
      && !Contains(asWritten.value, Point(-1820, 100)) && !Contains(asWritten.value, Point(-1620, 300))
      && corrected == Some(Region(-1820, 100, 200, 200))
  {
    ChoiceOfAllMonitorsLabel();
    var start, end := Point(100, 100), Point(300, 300);
    assert DragRegion(start, end, Point(0, 0)) == Region(100, 100, 200, 200);
    assert DragRegion(start, end, Point(-1920, 0)) == Region(-1820, 100, 200, 200);
  }
}
