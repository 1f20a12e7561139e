/**
 How much of a window was recorded: `diagnostics/analysis/src/analysis/coverage.py`.
 Instants are whole microseconds, so the time lost to gaps is a number of instants, and the
 covered fraction is an exact real.
 */
module Coverage {
  import opened Measures
  import opened Sequences
  import opened Windows

  datatype Gap = Gap(span: Interval, reason: string)

  datatype Report = Report(window: Window, gaps: seq<Gap>, coveredFraction: real) {
    predicate FullyCovered() {
      coveredFraction == 1.0
    }
  }

  function Max(a: int, b: int): int { if a < b then b else a }
  function Min(a: int, b: int): int { if a < b then a else b }

  predicate StartsNoLater(a: Gap, b: Gap) { a.span.fromTs <= b.span.fromTs }

  /** The instants of the window that lie in at least one gap. */
  ghost function Lost(window: Window, gaps: seq<Gap>): set<int> {
    set t | window.fromTs <= t < window.toTs && InGap(gaps, t)
  }

  ghost predicate InGap(gaps: seq<Gap>, t: int) {
    exists g :: g in gaps && g.span.Contains(t)
  }

  ghost predicate Touches(window: Window, g: Gap) {
    g.span.fromTs < g.span.toTs && g.span.fromTs < window.toTs && window.fromTs < g.span.toTs
  }

  // ----- the sweep -----

  /** Every instant of every interval. */
  ghost function Union(gaps: seq<Gap>): set<int> {
    if gaps == [] then {} else Union(gaps[..|gaps| - 1]) + gaps[|gaps| - 1].span.Instants()
  }

  lemma {:induction false} UnionIsInGap(gaps: seq<Gap>, t: int)
    ensures t in Union(gaps) <==> InGap(gaps, t)
  {
    if gaps != [] {
      var n := |gaps| - 1;
      UnionIsInGap(gaps[..n], t);
      assert gaps == gaps[..n] + [gaps[n]];
    }
  }

  /** `settled` holds the finished spans, all of it before the open span. */
  ghost predicate Swept(done: seq<Gap>, settled: set<int>, open: Interval) {
    && Union(done) == settled + open.Instants()
    && (forall t :: t in settled ==> t < open.fromTs)
    && open.fromTs < open.toTs
  }

  lemma SweepStart(first: seq<Gap>)
    requires |first| == 1 && first[0].span.fromTs < first[0].span.toTs
    ensures Swept(first, {}, first[0].span)
  {
    assert first[..0] == [];
  }

  /** What the sweep has measured when the open span is closed. */
  lemma SweepEnd(done: seq<Gap>, settled: set<int>, open: Interval)
    requires Swept(done, settled, open)
    ensures |Union(done)| == |settled + open.Instants()| == |settled| + open.Duration()
  {
    SettleOpen(settled, open);
  }

  lemma NoGaps()
    ensures Union([]) == {}
  {
  }

  lemma SweepOn(done: seq<Gap>, settled: set<int>, open: Interval, g: Gap)
    requires Swept(done, settled, open) && open.fromTs <= g.span.fromTs < g.span.toTs
    ensures g.span.fromTs <= open.toTs ==> Swept(done + [g], settled, Interval(open.fromTs, Max(open.toTs, g.span.toTs)))
    ensures g.span.fromTs > open.toTs ==> Swept(done + [g], settled + open.Instants(), g.span)
  {
    assert (done + [g])[..|done|] == done;
    assert Union(done + [g]) == Union(done) + g.span.Instants();
    if g.span.fromTs <= open.toTs {
      assert open.Instants() + g.span.Instants() == Interval(open.fromTs, Max(open.toTs, g.span.toTs)).Instants();
    }
  }

  lemma SettleOpen(settled: set<int>, open: Interval)
    requires forall t :: t in settled ==> t < open.fromTs
    requires open.fromTs < open.toTs
    ensures |settled + open.Instants()| == |settled| + open.Duration()
  {
    InstantsCount(open);
    assert settled !! open.Instants();
  }

  /** Intervals that touch or overlap are merged before their lengths are added. */
  method MergedDuration(intervals: seq<Gap>) returns (total: int)
    requires Sorted(StartsNoLater, intervals)
    requires forall g :: g in intervals ==> g.span.fromTs < g.span.toTs
    ensures total == |Union(intervals)|
  {
    hide Swept, Union;
    if intervals == [] {
      NoGaps();
      return 0;
    }
    total := 0;
    var open := intervals[0].span;
    ghost var settled: set<int> := {};
    SweepStart(intervals[..1]);
    for i := 1 to |intervals|
      invariant Swept(intervals[..i], settled, open)
      invariant total == |settled|
      invariant forall j :: i <= j < |intervals| ==> open.fromTs <= intervals[j].span.fromTs
    {
      var interval := intervals[i];
      assert interval in intervals;
      SweepOn(intervals[..i], settled, open, interval);
      assert intervals[..i] + [interval] == intervals[..i + 1];
      assert forall j :: i < j < |intervals| ==> StartsNoLater(intervals[i], intervals[j]);
      if interval.span.fromTs <= open.toTs {
        open := Interval(open.fromTs, Max(open.toTs, interval.span.toTs));
      } else {
        SweepEnd(intervals[..i], settled, open);
        settled := settled + open.Instants();
        total := total + open.Duration();
        open := interval.span;
      }
    }
    assert intervals[..|intervals|] == intervals;
    SweepEnd(intervals, settled, open);
    total := total + open.Duration();
  }

  // ----- the report -----

  function Clip(window: Window, g: Gap): Gap {
    Gap(Interval(Max(g.span.fromTs, window.fromTs), Min(g.span.toTs, window.toTs)), g.reason)
  }

  /** The parts of the gaps that lie in the window, in the order the rows came. */
  function Clipped(window: Window, gaps: seq<Gap>): seq<Gap> {
    if gaps == [] then
      []
    else
      var g := gaps[|gaps| - 1];
      var c := Clip(window, g);
      Clipped(window, gaps[..|gaps| - 1]) + if c.span.fromTs < c.span.toTs then [c] else []
  }

  lemma {:induction false} ClippedCovers(window: Window, gaps: seq<Gap>, t: int)
    ensures InGap(Clipped(window, gaps), t) <==> window.Contains(t) && InGap(gaps, t)
    ensures forall g :: g in Clipped(window, gaps) ==>
                          window.fromTs <= g.span.fromTs < g.span.toTs <= window.toTs
  {
    if gaps != [] {
      var n := |gaps| - 1;
      var g := gaps[n];
      var rest := Clipped(window, gaps[..n]);
      ClippedCovers(window, gaps[..n], t);
      assert gaps == gaps[..n] + [g];
      var c := Clip(window, g);
      assert window.Contains(t) && g.span.Contains(t) ==> c.span.Contains(t);
      if c.span.fromTs < c.span.toTs {
        assert Clipped(window, gaps) == rest + [c];
        assert InGap(rest + [c], t) <==> InGap(rest, t) || c.span.Contains(t) by {
          if c.span.Contains(t) { assert c in rest + [c]; }
        }
      } else {
        assert Clipped(window, gaps) == rest;
      }
    }
  }

  method ComputeCoverage(window: Window, gaps: seq<Gap>) returns (report: Report)
    ensures report.window == window
    ensures report.gaps == Sort(StartsNoLater, Clipped(window, gaps))
    ensures report.coveredFraction == 1.0 - |Lost(window, gaps)| as real / window.Duration() as real
  {
    var clipped: seq<Gap> := [];
    for i := 0 to |gaps|
      invariant clipped == Clipped(window, gaps[..i])
    {
      assert gaps[..i + 1][..i] == gaps[..i];
      var start := Max(gaps[i].span.fromTs, window.fromTs);
      var end := Min(gaps[i].span.toTs, window.toTs);
      if start < end {
        clipped := clipped + [Gap(Interval(start, end), gaps[i].reason)];
      }
    }
    assert gaps[..|gaps|] == gaps;
    SortSorts(StartsNoLater, clipped);
    forall t ensures t in Union(Sort(StartsNoLater, clipped)) <==> t in Lost(window, gaps) {
      SortedCovers(window, gaps, t);
    }
    forall g | g in Sort(StartsNoLater, clipped) ensures g.span.fromTs < g.span.toTs {
      ClippedCovers(window, gaps, 0);
    }
    clipped := Sort(StartsNoLater, clipped);
    var uncovered := MergedDuration(clipped);
    assert Union(clipped) == Lost(window, gaps);
    report := Report(window, clipped, 1.0 - uncovered as real / window.Duration() as real);
  }

  lemma SortedCovers(window: Window, gaps: seq<Gap>, t: int)
    ensures t in Union(Sort(StartsNoLater, Clipped(window, gaps))) <==> t in Lost(window, gaps)
    ensures InGap(Sort(StartsNoLater, Clipped(window, gaps)), t) <==> t in Lost(window, gaps)
  {
    ClippedCovers(window, gaps, t);
    UnionIsInGap(Sort(StartsNoLater, Clipped(window, gaps)), t);
  }

  // ----- what the report means -----

  /** The fraction is a share of the window: it lies between nothing and everything, is
      everything exactly when no gap touches the window, and nothing exactly when every
      instant of it was lost. */
  lemma FractionIsAShare(window: Window, gaps: seq<Gap>, report: Report)
    requires report.coveredFraction == 1.0 - |Lost(window, gaps)| as real / window.Duration() as real
    ensures 0.0 <= report.coveredFraction <= 1.0
    ensures report.FullyCovered() <==> forall g :: g in gaps ==> !Touches(window, g)
    ensures report.coveredFraction == 0.0 <==> forall t :: window.Contains(t) ==> InGap(gaps, t)
  {
    var lost := Lost(window, gaps);
    assert lost <= window.Instants();
    assert window.Instants() == lost + (window.Instants() - lost);
    InstantsCount(window);
    ShareBounds(|lost|, window.Duration());
    forall g | g in gaps && Touches(window, g) ensures lost != {} {
      assert Max(g.span.fromTs, window.fromTs) in lost;
    }
    if lost != {} {
      var t :| t in lost;
      var g :| g in gaps && g.span.Contains(t);
      assert Touches(window, g);
    }
    assert (forall t :: window.Contains(t) ==> InGap(gaps, t)) ==> lost == window.Instants();
    if |lost| == window.Duration() {
      assert window.Instants() - lost == {};
      forall t | window.Contains(t) ensures InGap(gaps, t) {
        assert t in window.Instants() - (window.Instants() - lost);
      }
    }
  }

  /** Every instant a report lists as lost was lost, and every lost instant is listed. */
  lemma ReportedGapsAreTheLostTime(window: Window, gaps: seq<Gap>, t: int)
    ensures InGap(Sort(StartsNoLater, Clipped(window, gaps)), t) <==> window.Contains(t) && InGap(gaps, t)
  {
    SortedCovers(window, gaps, t);
  }

  /** Lost time adds up when a window is cut anywhere. */
  lemma LostTimeAddsUp(window: Window, cut: int, gaps: seq<Gap>)
    requires window.fromTs < cut < window.toTs
    ensures |Lost(window, gaps)| == |Lost(Interval(window.fromTs, cut), gaps)| + |Lost(Interval(cut, window.toTs), gaps)|
  {
    var left, right := Lost(Interval(window.fromTs, cut), gaps), Lost(Interval(cut, window.toTs), gaps);
    assert Lost(window, gaps) == left + right;
    assert left !! right;
  }

  /** Rows may arrive in any order, and be recorded twice, without changing the measure. */
  lemma RowsAreASet(window: Window, a: seq<Gap>, b: seq<Gap>)
    requires forall g :: g in a <==> g in b
    ensures Lost(window, a) == Lost(window, b)
  {
  }

  // ----- the reported gaps, row by row -----

  /** `part` is what of row `g` lies in the window, under the row's own reason. */
  ghost predicate IsPart(window: Window, g: Gap, part: Gap) {
    && part.reason == g.reason
    && part.span.fromTs < part.span.toTs
    && forall t :: part.span.Contains(t) <==> window.Contains(t) && g.span.Contains(t)
  }

  lemma ClipIsPart(window: Window, g: Gap)
    ensures (var c := Clip(window, g); c.span.fromTs < c.span.toTs) <==> Touches(window, g)
    ensures Touches(window, g) ==> IsPart(window, g, Clip(window, g))
  {
  }

  /** Row `at[k]` is reported as part `k`. */
  ghost predicate Reports(window: Window, gaps: seq<Gap>, parts: seq<Gap>, at: seq<nat>) {
    && |at| == |parts|
    && (forall k :: 0 <= k < |at| ==> at[k] < |gaps| && IsPart(window, gaps[at[k]], parts[k]))
    && (forall k, l :: 0 <= k < l < |at| ==> at[k] < at[l])
    && (forall i :: 0 <= i < |gaps| && Touches(window, gaps[i]) ==> i in at)
  }

  lemma OneMoreRow(window: Window, gaps: seq<Gap>, g: Gap, parts: seq<Gap>, at: seq<nat>)
    requires Reports(window, gaps, parts, at)
    ensures !Touches(window, g) ==> Reports(window, gaps + [g], parts, at)
    ensures Touches(window, g) ==> Reports(window, gaps + [g], parts + [Clip(window, g)], at + [|gaps|])
  {
    hide IsPart, Clip, Touches;
    ClipIsPart(window, g);
    var all := gaps + [g];
    assert forall i :: 0 <= i < |gaps| ==> all[i] == gaps[i];
    assert forall i :: i in at ==> i in at + [|gaps|];
  }

  lemma {:induction false} RowsAreReported(window: Window, gaps: seq<Gap>) returns (at: seq<nat>)
    ensures Reports(window, gaps, Clipped(window, gaps), at)
  {
    hide Reports, Clip, Touches;
    at := [];
    if gaps == [] {
      NothingReported(window);
    } else {
      var n := |gaps| - 1;
      at := RowsAreReported(window, gaps[..n]);
      ClipIsPart(window, gaps[n]);
      OneMoreRow(window, gaps[..n], gaps[n], Clipped(window, gaps[..n]), at);
      assert gaps == gaps[..n] + [gaps[n]];
      assert Clipped(window, gaps[..n]) + [] == Clipped(window, gaps[..n]);
      if Touches(window, gaps[n]) {
        at := at + [n];
      }
    }
  }

  lemma NothingReported(window: Window)
    ensures Reports(window, [], [], [])
  {
  }

  /** Every row that touches the window is reported once, by the part of it that lies inside and under its own
      reason; and the report is those parts by their starts. */
  lemma EveryRowIsReportedOnce(window: Window, gaps: seq<Gap>)
    ensures exists at :: Reports(window, gaps, Clipped(window, gaps), at)
    ensures (var report := Sort(StartsNoLater, Clipped(window, gaps));
             && multiset(report) == multiset(Clipped(window, gaps))
             && forall k, l :: 0 <= k < l < |report| ==> report[k].span.fromTs <= report[l].span.fromTs)
  {
    hide Reports, Clipped, Sort;
    var at := RowsAreReported(window, gaps);
    PartsAreSorted(Clipped(window, gaps));
  }

  lemma PartsAreSorted(parts: seq<Gap>)
    ensures |Sort(StartsNoLater, parts)| == |parts|
    ensures forall k, l :: 0 <= k < l < |parts| ==>
              Sort(StartsNoLater, parts)[k].span.fromTs <= Sort(StartsNoLater, parts)[l].span.fromTs
  {
    SortSorts(StartsNoLater, parts);
    forall k, l | 0 <= k < l < |parts|
      ensures Sort(StartsNoLater, parts)[k].span.fromTs <= Sort(StartsNoLater, parts)[l].span.fromTs
    {
      assert StartsNoLater(Sort(StartsNoLater, parts)[k], Sort(StartsNoLater, parts)[l]);
    }
  }
}
