/** The screenshots directory: saving a file into it, and the retention
    sweep that runs after every saved screenshot: list the files named
    `screenshot_*.png`, and when there are more than the keep count, order
    them newest first and delete every one past that count. `latest.png`
    never matches the pattern, so it is never deleted. */
module Retention {

  /** One file of the screenshots directory: its name and its modification
      time (st_mtime, as a whole number of clock ticks). */
  datatype Entry = Entry(name: string, mtime: int)

  /** One line of the sweep's report: the file was deleted, or deleting it
      raised OSError, which the sweep reports and then goes on. */
  datatype Removal = Removed(name: string) | RemoveFailed(name: string)

  const CapturePrefix := "screenshot_"
  const CaptureSuffix := ".png"
  const LatestName := "latest.png"

  /** The glob pattern `screenshot_*.png`: the prefix, any text, the suffix. */
  predicate IsCapture(name: string) {
    && |name| >= |CapturePrefix| + |CaptureSuffix|
    && name[..|CapturePrefix|] == CapturePrefix
    && name[|name| - |CaptureSuffix|..] == CaptureSuffix
  }

  /** No name occurs twice: true of every directory listing. */
  predicate DistinctNames(s: seq<Entry>) {
    forall i, j :: 0 <= i < j < |s| ==> s[i].name != s[j].name
  }

  function NamesOf(s: seq<Entry>): set<string> {
    set e | e in s :: e.name
  }

  /** The glob: the capture files of the directory, in listing order. */
  function Captures(dir: seq<Entry>): (c: seq<Entry>)
    ensures forall e :: e in c <==> e in dir && IsCapture(e.name)
  {
    if dir == [] then []
    else (if IsCapture(dir[0].name) then [dir[0]] else []) + Captures(dir[1..])
  }

  /** The entries of `s` whose modification time is `t`, in their order in `s`. */
  function WithMtime(s: seq<Entry>, t: int): seq<Entry> {
    if s == [] then []
    else (if s[0].mtime == t then [s[0]] else []) + WithMtime(s[1..], t)
  }

  /** The directory once the files with the given names are gone. */
  function Without(dir: seq<Entry>, names: set<string>): (r: seq<Entry>)
    ensures forall e :: e in r <==> e in dir && e.name !in names
  {
    if dir == [] then []
    else (if dir[0].name in names then [] else [dir[0]]) + Without(dir[1..], names)
  }

  // ---------------------------------------------------------------------
  // Ordering newest first

  /** Modification times never increase along `s`. */
  predicate NewestFirstOrder(s: seq<Entry>) {
    forall i, j :: 0 <= i < j < |s| ==> s[i].mtime >= s[j].mtime
  }

  /** `s` is `list.sort(key=mtime, reverse=True)` applied to `listing`:
      newest first, and entries with equal times keep their listing order
      (Python's sort is stable, also when reversed). */
  ghost predicate StableNewestFirst(listing: seq<Entry>, s: seq<Entry>) {
    NewestFirstOrder(s) && forall t :: WithMtime(s, t) == WithMtime(listing, t)
  }

  /** Putting in front an entry at least as new as all of `s` keeps the order. */
  lemma ConsNewestFirst(x: Entry, s: seq<Entry>)
    requires NewestFirstOrder(s)
    requires forall y :: y in s ==> y.mtime <= x.mtime
    ensures NewestFirstOrder([x] + s)
  {
    forall i, j | 0 <= i < j < |s| + 1 ensures ([x] + s)[i].mtime >= ([x] + s)[j].mtime {
      assert ([x] + s)[j] == s[j - 1];
      if i > 0 {
        assert ([x] + s)[i] == s[i - 1];
      }
    }
  }

  /** Places `e` before the first entry that is not newer than it. */
  function Insert(e: Entry, s: seq<Entry>): (r: seq<Entry>)
    requires NewestFirstOrder(s)
    ensures NewestFirstOrder(r)
    ensures |r| == |s| + 1
    ensures forall x :: x in r <==> x == e || x in s
    ensures multiset(r) == multiset{e} + multiset(s)
  {
    if s == [] || e.mtime >= s[0].mtime then
      ConsNewestFirst(e, s);
      [e] + s
    else
      var rest := Insert(e, s[1..]);
      assert s == [s[0]] + s[1..];
      ConsNewestFirst(s[0], rest);
      [s[0]] + rest
  }

  /** The directory listing ordered newest first (a stable sort). */
  function NewestFirst(s: seq<Entry>): (r: seq<Entry>)
    ensures NewestFirstOrder(r)
    ensures |r| == |s|
    ensures multiset(r) == multiset(s)
  {
    if s == [] then []
    else
      assert s == [s[0]] + s[1..];
      Insert(s[0], NewestFirst(s[1..]))
  }

  // ---------------------------------------------------------------------
  // Saving a file

  /** Writing a file: an existing file of that name is overwritten in place
      (its listing position stays), otherwise the file is added. */
  function Write(files: seq<Entry>, name: string, mtime: int): (r: seq<Entry>)
    ensures Entry(name, mtime) in r
  {
    if files == [] then [Entry(name, mtime)]
    else if files[0].name == name then [Entry(name, mtime)] + files[1..]
    else [files[0]] + Write(files[1..], name, mtime)
  }

  /** A write touches no file of another name. */
  lemma {:induction false} WriteKeepsOthers(files: seq<Entry>, name: string, mtime: int)
    ensures forall e: Entry :: e.name != name ==> (e in Write(files, name, mtime) <==> e in files)
  {
    if files != [] && files[0].name != name {
      var f, rest := files[0], files[1..];
      assert files == [f] + rest;
      WriteKeepsOthers(rest, name, mtime);
    }
  }

  // ---------------------------------------------------------------------
  // The sweep

  /** Python's `s[k:]` for an integer `k`, negative counting from the end. */
  function Tail(s: seq<Entry>, k: int): seq<Entry> {
    if k >= 0 then (if k <= |s| then s[k..] else [])
    else if |s| + k >= 0 then s[|s| + k..]
    else s
  }

  /** The files the sweep tries to delete, in the order it tries them. */
  function Doomed(dir: seq<Entry>, keep: int): seq<Entry> {
    var c := Captures(dir);
    if |c| > keep then Tail(NewestFirst(c), keep) else []
  }

  /** The capture files the sweep means to keep (keep >= 0). */
  function Kept(dir: seq<Entry>, keep: nat): seq<Entry> {
    var c := Captures(dir);
    if |c| > keep then NewestFirst(c)[..keep] else c
  }

  /** The directory after a sweep in which deleting the files named in
      `failing` raises OSError. */
  function Retained(dir: seq<Entry>, keep: int, failing: set<string>): seq<Entry> {
    Without(dir, NamesOf(Doomed(dir, keep)) - failing)
  }

  lemma WithoutCons(e: Entry, rest: seq<Entry>, names: set<string>)
    ensures Without([e] + rest, names) == (if e.name in names then [] else [e]) + Without(rest, names)
  {
    assert ([e] + rest)[1..] == rest;
  }

  lemma {:induction false} WithoutUnion(dir: seq<Entry>, a: set<string>, b: set<string>)
    ensures Without(Without(dir, a), b) == Without(dir, a + b)
  {
    if dir != [] {
      var d, rest := dir[0], dir[1..];
      assert dir == [d] + rest;
      WithoutUnion(rest, a, b);
      WithoutCons(d, rest, a);
      WithoutCons(d, rest, a + b);
      if d.name in a {
        assert Without(dir, a) == Without(rest, a);
        assert Without(dir, a + b) == Without(rest, a + b);
      } else {
        assert Without(dir, a) == [d] + Without(rest, a);
        WithoutCons(d, Without(rest, a), b);
      }
    }
  }

  lemma NamesOfSnoc(s: seq<Entry>, e: Entry)
    ensures NamesOf(s + [e]) == NamesOf(s) + {e.name}
  {
    assert forall x :: x in s + [e] <==> x in s || x == e;
  }

  /** cleanup_old_screenshots: lists the capture files, and when there are
      more than `keep` deletes those past position `keep` in newest-first
      order. Deleting a file whose name is in `failing` raises OSError; that
      error is reported and the sweep goes on with the next file. */
  method Sweep(dir: seq<Entry>, keep: int, failing: set<string>)
    returns (after: seq<Entry>, log: seq<Removal>)
    requires DistinctNames(dir)
    ensures after == Retained(dir, keep, failing)
    ensures |log| == |Doomed(dir, keep)|
    ensures forall i :: 0 <= i < |log| ==>
              log[i].name == Doomed(dir, keep)[i].name &&
              (log[i].Removed? <==> log[i].name !in failing)
  {
    var files := Captures(dir);
    var doomed: seq<Entry> := [];
    if |files| > keep {
      files := NewestFirst(files);
      doomed := Tail(files, keep);
    }
    after, log := DeleteEach(dir, doomed, failing);
    RemovalLogEntries(doomed, failing);
  }

  /** The log line of one deletion attempt: a file in `failing` raises
      OSError, which is reported, and any other file is removed. */
  function TryRemove(f: Entry, failing: set<string>): (r: Removal)
    ensures r.name == f.name && (r.Removed? <==> f.name !in failing)
  {
    if f.name in failing then RemoveFailed(f.name) else Removed(f.name)
  }

  /** The log of trying each file of `doomed` in turn. */
  function RemovalLog(doomed: seq<Entry>, failing: set<string>): seq<Removal> {
    if doomed == [] then []
    else RemovalLog(doomed[..|doomed| - 1], failing) + [TryRemove(doomed[|doomed| - 1], failing)]
  }

  lemma {:induction false} RemovalLogEntries(doomed: seq<Entry>, failing: set<string>)
    ensures |RemovalLog(doomed, failing)| == |doomed|
    ensures forall i :: 0 <= i < |doomed| ==> RemovalLog(doomed, failing)[i] == TryRemove(doomed[i], failing)
  {
    if doomed != [] {
      var init := doomed[..|doomed| - 1];
      RemovalLogEntries(init, failing);
      assert forall i :: 0 <= i < |init| ==> init[i] == doomed[i];
    }
  }

  /** The names removed after one more step of the deletion loop. */
  lemma GoneStep(doomed: seq<Entry>, i: nat, failing: set<string>)
    requires i < |doomed|
    ensures NamesOf(doomed[..i + 1]) - failing
         == (NamesOf(doomed[..i]) - failing) + (if doomed[i].name in failing then {} else {doomed[i].name})
    ensures RemovalLog(doomed[..i + 1], failing) == RemovalLog(doomed[..i], failing) + [TryRemove(doomed[i], failing)]
  {
    assert doomed[..i + 1] == doomed[..i] + [doomed[i]];
    assert doomed[..i + 1][..i] == doomed[..i];
    NamesOfSnoc(doomed[..i], doomed[i]);
  }

  /** The loop of the sweep: tries each file of `doomed` in turn; a failed
      deletion is logged and does not stop the loop. */
  method DeleteEach(dir: seq<Entry>, doomed: seq<Entry>, failing: set<string>)
    returns (after: seq<Entry>, log: seq<Removal>)
    ensures after == Without(dir, NamesOf(doomed) - failing)
    ensures log == RemovalLog(doomed, failing)
  {
    WithoutNothing(dir);
    after, log := dir, [];
    ghost var gone: set<string> := {};
    for i := 0 to |doomed|
      invariant gone == NamesOf(doomed[..i]) - failing
      invariant after == Without(dir, gone)
      invariant log == RemovalLog(doomed[..i], failing)
    {
      var f := doomed[i];
      GoneStep(doomed, i, failing);
      if f.name !in failing {
        WithoutUnion(dir, gone, {f.name});
        after := Without(after, {f.name});
        gone := gone + {f.name};
      }
      log := log + [TryRemove(f, failing)];     // an OSError is reported and the loop goes on
    }
    assert doomed[..|doomed|] == doomed;
  }

  lemma {:induction false} WithoutNothing(dir: seq<Entry>)
    ensures Without(dir, {}) == dir
  {
    if dir != [] {
      WithoutNothing(dir[1..]);
    }
  }

  // ---------------------------------------------------------------------
  // Facts about the listing helpers

  lemma DistinctCons(x: Entry, s: seq<Entry>)
    ensures DistinctNames([x] + s) <==> x.name !in NamesOf(s) && DistinctNames(s)
  {
    if x.name !in NamesOf(s) && DistinctNames(s) {
      forall i, j | 0 <= i < j < |s| + 1 ensures ([x] + s)[i].name != ([x] + s)[j].name {
        assert ([x] + s)[j] == s[j - 1];
        if i > 0 { assert ([x] + s)[i] == s[i - 1]; }
      }
    }
    if DistinctNames([x] + s) {
      forall e | e in s ensures e.name != x.name {
        var k :| 0 <= k < |s| && s[k] == e;
        assert ([x] + s)[0] == x && ([x] + s)[k + 1] == e;
      }
      forall i, j | 0 <= i < j < |s| ensures s[i].name != s[j].name {
        assert ([x] + s)[i + 1] == s[i] && ([x] + s)[j + 1] == s[j];
      }
    }
  }

  lemma {:induction false} CapturesDistinct(dir: seq<Entry>)
    requires DistinctNames(dir)
    ensures DistinctNames(Captures(dir))
  {
    if dir != [] {
      assert dir == [dir[0]] + dir[1..];
      DistinctCons(dir[0], dir[1..]);
      CapturesDistinct(dir[1..]);
      DistinctCons(dir[0], Captures(dir[1..]));
      assert [] + Captures(dir[1..]) == Captures(dir[1..]);
    }
  }

  lemma {:induction false} WithoutDistinct(dir: seq<Entry>, names: set<string>)
    requires DistinctNames(dir)
    ensures DistinctNames(Without(dir, names))
  {
    if dir != [] {
      assert dir == [dir[0]] + dir[1..];
      DistinctCons(dir[0], dir[1..]);
      WithoutDistinct(dir[1..], names);
      DistinctCons(dir[0], Without(dir[1..], names));
      assert [] + Without(dir[1..], names) == Without(dir[1..], names);
    }
  }

  lemma {:induction false} InsertDistinct(e: Entry, s: seq<Entry>)
    requires NewestFirstOrder(s) && DistinctNames(s) && e.name !in NamesOf(s)
    ensures DistinctNames(Insert(e, s))
  {
    if s == [] || e.mtime >= s[0].mtime {
      DistinctCons(e, s);
    } else {
      assert s == [s[0]] + s[1..];
      DistinctCons(s[0], s[1..]);
      InsertDistinct(e, s[1..]);
      DistinctCons(s[0], Insert(e, s[1..]));
    }
  }

  /** Sorting never makes two entries share a name. */
  lemma {:induction false} NewestFirstDistinct(s: seq<Entry>)
    requires DistinctNames(s)
    ensures DistinctNames(NewestFirst(s))
  {
    if s != [] {
      assert s == [s[0]] + s[1..];
      DistinctCons(s[0], s[1..]);
      NewestFirstDistinct(s[1..]);
      var r := NewestFirst(s[1..]);
      assert forall x :: x in r <==> x in s[1..] by {
        forall x ensures x in r <==> x in s[1..] {
          assert x in r <==> x in multiset(r);
        }
      }
      assert NamesOf(r) == NamesOf(s[1..]);
      InsertDistinct(s[0], r);
    }
  }

  lemma {:induction false} WithMtimeAppend(a: seq<Entry>, b: seq<Entry>, t: int)
    ensures WithMtime(a + b, t) == WithMtime(a, t) + WithMtime(b, t)
  {
    if a == [] {
      assert a + b == b;
    } else {
      var x, rest := a[0], a[1..];
      assert a == [x] + rest && a + b == [x] + (rest + b);
      WithMtimeCons(x, rest, t);
      WithMtimeCons(x, rest + b, t);
      WithMtimeAppend(rest, b, t);
    }
  }

  lemma WithMtimeCons(x: Entry, rest: seq<Entry>, t: int)
    ensures WithMtime([x] + rest, t) == WithMtime([x], t) + WithMtime(rest, t)
  {
    assert ([x] + rest)[1..] == rest;
    assert WithMtime([x], t) == (if x.mtime == t then [x] else []) + WithMtime([], t);
  }

  lemma {:induction false} WithMtimeMembers(s: seq<Entry>, t: int)
    ensures forall e :: e in WithMtime(s, t) <==> e in s && e.mtime == t
  {
    if s != [] {
      WithMtimeMembers(s[1..], t);
      assert s == [s[0]] + s[1..];
    }
  }

  lemma WithMtimeSingle(x: Entry, t: int)
    ensures WithMtime([x], t) == if x.mtime == t then [x] else []
  {
    assert [x][1..] == [];
  }

  lemma InsertPastHead(e: Entry, x: Entry, rest: seq<Entry>)
    requires NewestFirstOrder([x] + rest) && NewestFirstOrder(rest) && e.mtime < x.mtime
    ensures Insert(e, [x] + rest) == [x] + Insert(e, rest)
  {
    assert ([x] + rest)[1..] == rest;
  }

  /** An entry strictly newer than `e` can go in front of either side. */
  lemma WithMtimeSwap(x: Entry, e: Entry, inner: seq<Entry>, rest: seq<Entry>, t: int)
    requires x.mtime > e.mtime
    requires WithMtime(inner, t) == WithMtime([e], t) + WithMtime(rest, t)
    ensures WithMtime([x] + inner, t) == WithMtime([e], t) + WithMtime([x] + rest, t)
  {
    WithMtimeAppend([x], inner, t);
    WithMtimeAppend([x], rest, t);
    WithMtimeSingle(e, t);
    WithMtimeSingle(x, t);
    if e.mtime == t {
      assert WithMtime([x], t) == [];
      assert WithMtime([x] + inner, t) == WithMtime(inner, t);
    } else {
      assert WithMtime([e], t) == [];
      assert WithMtime([x] + inner, t) == WithMtime([x], t) + WithMtime(rest, t);
    }
  }

  /** Inserting `e` puts it before the entries of its own time. */
  lemma {:induction false} InsertWithMtime(e: Entry, s: seq<Entry>, t: int)
    requires NewestFirstOrder(s)
    ensures WithMtime(Insert(e, s), t) == WithMtime([e], t) + WithMtime(s, t)
  {
    if s == [] || e.mtime >= s[0].mtime {
      WithMtimeAppend([e], s, t);
    } else {
      var x, rest := s[0], s[1..];
      assert s == [x] + rest;
      InsertWithMtime(e, rest, t);
      InsertPastHead(e, x, rest);
      WithMtimeSwap(x, e, Insert(e, rest), rest, t);
    }
  }

  /** The newest-first order is the stable one: among entries with the same
      modification time, the listing order is kept. */
  lemma {:induction false} NewestFirstIsStable(s: seq<Entry>)
    ensures StableNewestFirst(s, NewestFirst(s))
  {
    if s != [] {
      var x, rest := s[0], s[1..];
      assert s == [x] + rest;
      NewestFirstCons(x, rest);
      NewestFirstIsStable(rest);
      forall t ensures WithMtime(NewestFirst(s), t) == WithMtime(s, t) {
        calc {
          WithMtime(NewestFirst(s), t);
          WithMtime(Insert(x, NewestFirst(rest)), t);
          { InsertWithMtime(x, NewestFirst(rest), t); }
          WithMtime([x], t) + WithMtime(NewestFirst(rest), t);
          WithMtime([x], t) + WithMtime(rest, t);
          { WithMtimeCons(x, rest, t); }
          WithMtime(s, t);
        }
      }
    }
  }

  /** One step of the sort. */
  lemma NewestFirstCons(x: Entry, rest: seq<Entry>)
    ensures NewestFirst([x] + rest) == Insert(x, NewestFirst(rest))
  {
    assert ([x] + rest)[1..] == rest;
  }


  /** In a newest-first sequence the head is at least as new as any member. */
  lemma HeadIsNewest(s: seq<Entry>, x: Entry)
    requires NewestFirstOrder(s) && x in s
    ensures s[0].mtime >= x.mtime
  {
    var k :| 0 <= k < |s| && s[k] == x;
    if k > 0 {
      assert s[0].mtime >= s[k].mtime;
    }
  }

  lemma HeadsEqual(a: seq<Entry>, b: seq<Entry>)
    requires NewestFirstOrder(a) && NewestFirstOrder(b) && a != [] && b != []
    requires forall t :: WithMtime(a, t) == WithMtime(b, t)
    ensures a[0] == b[0]
  {
    WithMtimeMembers(a, a[0].mtime);
    WithMtimeMembers(b, a[0].mtime);
    WithMtimeMembers(a, b[0].mtime);
    WithMtimeMembers(b, b[0].mtime);
    assert a[0] in WithMtime(a, a[0].mtime);
    assert b[0] in WithMtime(b, b[0].mtime);
    HeadIsNewest(b, a[0]);
    HeadIsNewest(a, b[0]);
    var m := a[0].mtime;
    assert WithMtime(a, m)[0] == a[0];
    assert WithMtime(b, m)[0] == b[0];
  }

  lemma TailsAgree(a: seq<Entry>, b: seq<Entry>)
    requires a != [] && b != [] && a[0] == b[0]
    requires forall t :: WithMtime(a, t) == WithMtime(b, t)
    ensures forall t :: WithMtime(a[1..], t) == WithMtime(b[1..], t)
  {
    forall t ensures WithMtime(a[1..], t) == WithMtime(b[1..], t) {
      var h := if a[0].mtime == t then [a[0]] else [];
      assert WithMtime(a, t) == h + WithMtime(a[1..], t);
      assert WithMtime(b, t) == h + WithMtime(b[1..], t);
      assert WithMtime(a[1..], t) == WithMtime(a, t)[|h|..];
    }
  }

  /** Two newest-first sequences that agree, time by time, on which entries
      carry that time and in what order, are the same sequence. */
  lemma {:induction false} NewestFirstDeterminedByTies(a: seq<Entry>, b: seq<Entry>)
    requires NewestFirstOrder(a) && NewestFirstOrder(b)
    requires forall t :: WithMtime(a, t) == WithMtime(b, t)
    ensures a == b
  {
    if a != [] {
      assert a[0] in WithMtime(a, a[0].mtime);
    }
    if b != [] {
      assert b[0] in WithMtime(b, b[0].mtime);
    }
    if a != [] && b != [] {
      HeadsEqual(a, b);
      TailsAgree(a, b);
      NewestFirstDeterminedByTies(a[1..], b[1..]);
      assert a == [a[0]] + a[1..] && b == [b[0]] + b[1..];
    }
  }

  /** NewestFirst is exactly Python's stable `sort(key=mtime, reverse=True)`:
      it has that property, and it is the only order that has it. */
  lemma StableNewestFirstIsUnique(listing: seq<Entry>, s: seq<Entry>)
    ensures StableNewestFirst(listing, s) <==> s == NewestFirst(listing)
  {
    NewestFirstIsStable(listing);
    if StableNewestFirst(listing, s) {
      NewestFirstDeterminedByTies(s, NewestFirst(listing));
    }
  }

  // ---------------------------------------------------------------------
  // What the sweep deletes and what it keeps

  lemma DoomedAreCaptures(dir: seq<Entry>, keep: int)
    ensures forall d :: d in Doomed(dir, keep) ==> d in Captures(dir)
  {
    var c := Captures(dir);
    if |c| > keep {
      var n := NewestFirst(c);
      forall d | d in Doomed(dir, keep) ensures d in c {
        assert d in n;
        assert d in multiset(n);
      }
    }
  }

  /** Files that do not match `screenshot_*.png`, `latest.png` among them,
      are never deleted. */
  lemma SweepSparesOtherFiles(dir: seq<Entry>, keep: int, failing: set<string>, e: Entry)
    requires e in dir && !IsCapture(e.name)
    ensures e in Retained(dir, keep, failing)
  {
    DoomedAreCaptures(dir, keep);
    forall d | d in Doomed(dir, keep) ensures d.name != e.name {
      assert IsCapture(d.name);
    }
  }

  lemma LatestIsNotACapture()
    ensures !IsCapture(LatestName)
  {
  }

  /** With at most `keep` capture files the sweep deletes nothing. */
  lemma SweepUnderLimitRemovesNothing(dir: seq<Entry>, keep: int, failing: set<string>)
    requires |Captures(dir)| <= keep
    ensures Doomed(dir, keep) == [] && Retained(dir, keep, failing) == dir
  {
    assert NamesOf([]) == {};
    WithoutNothing(dir);
  }

  /** Every deleted file is at most as new as every kept one. */
  lemma DoomedAreOldest(dir: seq<Entry>, keep: nat, k: Entry, d: Entry)
    requires k in Kept(dir, keep) && d in Doomed(dir, keep)
    ensures d.mtime <= k.mtime
  {
    var n := NewestFirst(Captures(dir));
    assert |n| > keep && Doomed(dir, keep) == n[keep..] && Kept(dir, keep) == n[..keep];
    OrderedHalves(n, keep, k, d);
  }

  /** In a newest-first list, nothing after position `keep` is newer than
      anything before it. */
  lemma OrderedHalves(n: seq<Entry>, keep: nat, k: Entry, d: Entry)
    requires NewestFirstOrder(n) && keep <= |n| && k in n[..keep] && d in n[keep..]
    ensures d.mtime <= k.mtime
  {
    var i :| 0 <= i < keep && n[..keep][i] == k;
    var j :| 0 <= j < |n| - keep && n[keep..][j] == d;
    assert n[i] == k && n[keep + j] == d;
  }

  /** Among capture files with the same modification time, those listed
      first are kept and the later ones deleted. */
  lemma TiesKeepListingOrder(dir: seq<Entry>, keep: nat, t: int)
    requires |Captures(dir)| > keep
    ensures WithMtime(Kept(dir, keep), t) + WithMtime(Doomed(dir, keep), t) == WithMtime(Captures(dir), t)
  {
    var n := NewestFirst(Captures(dir));
    assert n == n[..keep] + n[keep..];
    WithMtimeAppend(n[..keep], n[keep..], t);
    NewestFirstIsStable(Captures(dir));
  }

  lemma {:induction false} CapturesWithout(dir: seq<Entry>, names: set<string>)
    ensures Captures(Without(dir, names)) == Without(Captures(dir), names)
  {
    if dir != [] {
      var d, rest := dir[0], dir[1..];
      assert dir == [d] + rest;
      CapturesWithout(rest, names);
      WithoutCons(d, rest, names);
      if d.name in names {
        assert Without(dir, names) == Without(rest, names);
        if IsCapture(d.name) {
          WithoutCons(d, Captures(rest), names);
        } else {
          assert Captures(dir) == Captures(rest);
        }
      } else {
        assert Without(dir, names) == [d] + Without(rest, names);
        assert ([d] + Without(rest, names))[1..] == Without(rest, names);
        if IsCapture(d.name) {
          WithoutCons(d, Captures(rest), names);
        } else {
          assert Captures(dir) == Captures(rest);
        }
      }
    }
  }

  lemma {:induction false} WithoutCount(s: seq<Entry>, names: set<string>, x: Entry)
    ensures multiset(Without(s, names))[x] == if x.name in names then 0 else multiset(s)[x]
  {
    if s != [] {
      assert s == [s[0]] + s[1..];
      WithoutCount(s[1..], names, x);
    }
  }

  /** Deleting by name treats two orderings of the same files alike. */
  lemma WithoutPermutation(a: seq<Entry>, b: seq<Entry>, names: set<string>)
    requires multiset(a) == multiset(b)
    ensures multiset(Without(a, names)) == multiset(Without(b, names))
  {
    forall x ensures multiset(Without(a, names))[x] == multiset(Without(b, names))[x] {
      WithoutCount(a, names, x);
      WithoutCount(b, names, x);
    }
  }

  lemma {:induction false} WithoutAppend(a: seq<Entry>, b: seq<Entry>, names: set<string>)
    ensures Without(a + b, names) == Without(a, names) + Without(b, names)
  {
    if a == [] {
      assert a + b == b;
    } else {
      assert (a + b)[1..] == a[1..] + b;
      WithoutAppend(a[1..], b, names);
    }
  }

  lemma {:induction false} WithoutNoneOf(s: seq<Entry>, names: set<string>)
    requires forall e :: e in s ==> e.name !in names
    ensures Without(s, names) == s
  {
    if s != [] {
      WithoutNoneOf(s[1..], names);
      assert s == [s[0]] + s[1..];
    }
  }

  lemma WithoutAllOf(s: seq<Entry>, names: set<string>)
    requires forall e :: e in s ==> e.name in names
    ensures Without(s, names) == []
  {
    var r := Without(s, names);
    assert forall i :: 0 <= i < |r| ==> r[i] in r;
  }

  /** In a sequence without repeated names, no name before position
      `keep` recurs after it. */
  lemma SplitNamesDisjoint(n: seq<Entry>, keep: nat)
    requires DistinctNames(n) && keep <= |n|
    ensures forall e :: e in n[..keep] ==> e.name !in NamesOf(n[keep..])
  {
    forall e, x | e in n[..keep] && x in n[keep..] ensures e.name != x.name {
      var i :| 0 <= i < keep && n[..keep][i] == e;
      var j :| 0 <= j < |n| - keep && n[keep..][j] == x;
      assert n[i] == e && n[keep + j] == x;
    }
  }

  /** Removing the names of everything after position `keep` from a
      sequence without repeated names leaves its first `keep` entries. */
  lemma DropSuffixByName(n: seq<Entry>, keep: nat)
    requires DistinctNames(n) && keep <= |n|
    ensures Without(n, NamesOf(n[keep..])) == n[..keep]
  {
    var gone := NamesOf(n[keep..]);
    var k, d := n[..keep], n[keep..];
    assert n == k + d;
    SplitNamesDisjoint(n, keep);
    WithoutAppend(k, d, gone);
    WithoutAllOf(d, gone);
    WithoutNoneOf(k, gone);
    assert Without(n, gone) == k + [];
  }

  /** The capture files left by a sweep without failures, as a multiset. */
  lemma SweptCaptures(dir: seq<Entry>, keep: nat)
    requires DistinctNames(dir)
    ensures multiset(Captures(Retained(dir, keep, {}))) == multiset(Kept(dir, keep))
  {
    var c := Captures(dir);
    var gone := NamesOf(Doomed(dir, keep));
    assert gone - {} == gone;
    CapturesWithout(dir, gone);
    if |c| <= keep {
      SweepUnderLimitRemovesNothing(dir, keep, {});
    } else {
      var n := NewestFirst(c);
      assert Doomed(dir, keep) == n[keep..];
      CapturesDistinct(dir);
      NewestFirstDistinct(c);
      DropSuffixByName(n, keep);
      WithoutPermutation(c, n, gone);
    }
  }

  /** When every deletion succeeds, the capture files left are exactly the
      `keep` newest (all of them when there were no more than `keep`). */
  lemma SweepLeavesTheNewest(dir: seq<Entry>, keep: nat)
    requires DistinctNames(dir)
    ensures multiset(Captures(Retained(dir, keep, {}))) == multiset(Kept(dir, keep))
    ensures |Captures(Retained(dir, keep, {}))| == if |Captures(dir)| > keep then keep else |Captures(dir)|
  {
    SweptCaptures(dir, keep);
    var left := Captures(Retained(dir, keep, {}));
    assert |left| == |multiset(left)|;
    assert |Kept(dir, keep)| == |multiset(Kept(dir, keep))|;
  }

  lemma {:induction false} WriteDistinct(files: seq<Entry>, name: string, mtime: int)
    requires DistinctNames(files)
    ensures DistinctNames(Write(files, name, mtime))
  {
    if files != [] {
      var f, rest := files[0], files[1..];
      assert files == [f] + rest;
      DistinctCons(f, rest);
      if f.name == name {
        DistinctCons(Entry(name, mtime), rest);
      } else {
        WriteDistinct(rest, name, mtime);
        WriteKeepsOthers(rest, name, mtime);
        var w := Write(rest, name, mtime);
        forall e | e in w ensures e.name != f.name {
          if e.name != name {
            assert e in rest;
          }
        }
        DistinctCons(f, w);
      }
    }
  }
}
