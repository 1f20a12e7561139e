/**
 A line stop is an absence of output: `diagnostics/analysis/src/analysis/stops.py`.
 */
module Stops {
  import opened Sequences
  import opened Windows

  datatype Stop = Stop(fromTs: int, toTs: int, startedBeforeWindow: bool, openAtWindowEnd: bool)

  function Inside(window: Window): int -> bool { t => window.Contains(t) }

  predicate NoLater(a: int, b: int) { a <= b }

  function Parts(outputs: seq<int>, window: Window): seq<int> {
    Sort(NoLater, Filter(Inside(window), outputs))
  }

  /** Both window edges are gap boundaries, and so is every part between them. */
  function Boundaries(outputs: seq<int>, window: Window): (b: seq<int>)
    ensures |b| >= 2
  {
    [window.fromTs] + Parts(outputs, window) + [window.toTs]
  }

  datatype GapKind = Cycle | Micro | Long

  function Classify(gap: int, threshold: int, floor: int): GapKind {
    if gap <= floor then Cycle else if gap <= threshold then Micro else Long
  }

  function StopAt(b: seq<int>, i: nat): Stop
    requires i < |b| - 1
  {
    Stop(b[i], b[i + 1], i == 0, i == |b| - 2)
  }

  /** The stops among the first `n` gaps. */
  function StopsIn(b: seq<int>, n: nat, threshold: int, floor: int): seq<Stop>
    requires n < |b|
  {
    if n == 0 then []
    else StopsIn(b, n - 1, threshold, floor)
         + if Classify(b[n] - b[n - 1], threshold, floor) == Long then [StopAt(b, n - 1)] else []
  }

  function MicrosIn(b: seq<int>, n: nat, threshold: int, floor: int): nat
    requires n < |b|
  {
    if n == 0 then 0
    else MicrosIn(b, n - 1, threshold, floor) + if Classify(b[n] - b[n - 1], threshold, floor) == Micro then 1 else 0
  }

  function StopsOf(outputs: seq<int>, window: Window, threshold: int, floor: int): seq<Stop> {
    var b := Boundaries(outputs, window);
    StopsIn(b, |b| - 1, threshold, floor)
  }

  function MicroStopsOf(outputs: seq<int>, window: Window, threshold: int, floor: int): nat {
    var b := Boundaries(outputs, window);
    MicrosIn(b, |b| - 1, threshold, floor)
  }

  method DetectStops(outputs: seq<int>, window: Window, threshold: int, floor: int)
    returns (stops: seq<Stop>, microStops: nat)
    ensures stops == StopsOf(outputs, window, threshold, floor)
    ensures microStops == MicroStopsOf(outputs, window, threshold, floor)
  {
    var parts := Sort(NoLater, Filter(Inside(window), outputs));
    var boundaries := [window.fromTs] + parts + [window.toTs];
    stops, microStops := [], 0;
    for index := 0 to |boundaries| - 1
      invariant stops == StopsIn(boundaries, index, threshold, floor)
      invariant microStops == MicrosIn(boundaries, index, threshold, floor)
    {
      var began, ended := boundaries[index], boundaries[index + 1];
      var gap := ended - began;
      if gap <= floor {
        continue;
      }
      if gap <= threshold {
        microStops := microStops + 1;
        continue;
      }
      stops := stops + [Stop(began, ended, index == 0, index == |boundaries| - 2)];
    }
  }

  // ----- what the gaps are -----

  /** A stretch of the window without output that cannot be widened: each end is a part or an
      edge of the window. */
  ghost predicate MaximalGap(outputs: seq<int>, window: Window, a: int, b: int) {
    && window.fromTs <= a < b <= window.toTs
    && (a == window.fromTs || a in outputs)
    && (b == window.toTs || b in outputs)
    && QuietBetween(outputs, a, b)
  }

  ghost predicate QuietBetween(outputs: seq<int>, a: int, b: int) {
    forall t :: t in outputs ==> !(a < t < b)
  }

  lemma BoundariesAreSorted(outputs: seq<int>, window: Window)
    ensures Sorted(NoLater, Boundaries(outputs, window))
    ensures forall t :: t in Boundaries(outputs, window) <==>
                          t == window.fromTs || t == window.toTs || (t in outputs && window.Contains(t))
  {
    var parts := Parts(outputs, window);
    SortSorts(NoLater, Filter(Inside(window), outputs));
    assert forall t :: t in parts <==> t in outputs && Inside(window)(t);
    var b := Boundaries(outputs, window);
    forall i, j | 0 <= i < j < |b| ensures NoLater(b[i], b[j]) {
      assert 0 < i < |b| - 1 ==> b[i] == parts[i - 1] && parts[i - 1] in parts;
      assert 0 < j < |b| - 1 ==> b[j] == parts[j - 1] && parts[j - 1] in parts;
      if 0 < i && j < |b| - 1 { assert NoLater(parts[i - 1], parts[j - 1]); }
    }
  }

  /** A step between neighbouring boundaries that has any width is a maximal gap. */
  lemma StepIsMaximalGap(outputs: seq<int>, window: Window, i: nat)
    requires i < |Boundaries(outputs, window)| - 1
    requires Boundaries(outputs, window)[i] < Boundaries(outputs, window)[i + 1]
    ensures MaximalGap(outputs, window, Boundaries(outputs, window)[i], Boundaries(outputs, window)[i + 1])
  {
    var b := Boundaries(outputs, window);
    BoundariesAreSorted(outputs, window);
    assert b[i] in b && b[i + 1] in b;
    forall k | 0 <= k < |b| ensures !(b[i] < b[k] < b[i + 1]) {
      if k <= i {
        assert k == i || NoLater(b[k], b[i]);
      } else {
        assert k == i + 1 || NoLater(b[i + 1], b[k]);
      }
    }
    forall t | t in outputs ensures !(b[i] < t < b[i + 1]) {
      assert window.Contains(t) ==> t in b;
    }
  }

  /** The last boundary at or before `x`, for an instant of the window. */
  lemma StepAround(outputs: seq<int>, window: Window, x: int) returns (i: nat)
    requires window.fromTs <= x < window.toTs
    ensures i < |Boundaries(outputs, window)| - 1
    ensures Boundaries(outputs, window)[i] <= x < Boundaries(outputs, window)[i + 1]
  {
    var b := Boundaries(outputs, window);
    BoundariesAreSorted(outputs, window);
    i := 0;
    while b[i + 1] <= x
      invariant i < |b| - 1 && b[i] <= x
      decreases |b| - i
    {
      i := i + 1;
    }
  }

  lemma MaximalGapIsStep(outputs: seq<int>, window: Window, x: int, y: int) returns (i: nat)
    requires MaximalGap(outputs, window, x, y)
    ensures i < |Boundaries(outputs, window)| - 1
    ensures Boundaries(outputs, window)[i] == x && Boundaries(outputs, window)[i + 1] == y
  {
    var b := Boundaries(outputs, window);
    i := StepAround(outputs, window, x);
    BoundariesAreSorted(outputs, window);
    StepIsMaximalGap(outputs, window, i);
    assert x in b && y in b;
    assert b[i] in b && b[i + 1] in b;
  }

  // ----- the stops of a window -----

  lemma {:induction false} StopsInAre(b: seq<int>, n: nat, threshold: int, floor: int, s: Stop)
    requires n < |b|
    ensures s in StopsIn(b, n, threshold, floor) <==>
              exists i :: 0 <= i < n && IsLongStep(b, i, threshold, floor, s)
  {
    if n > 0 {
      StopsInAre(b, n - 1, threshold, floor, s);
      if s in StopsIn(b, n, threshold, floor) && s !in StopsIn(b, n - 1, threshold, floor) {
        assert IsLongStep(b, n - 1, threshold, floor, s);
      }
      if i :| 0 <= i < n && IsLongStep(b, i, threshold, floor, s) {
      }
    }
  }

  ghost predicate IsLongStep(b: seq<int>, i: int, threshold: int, floor: int, s: Stop) {
    0 <= i < |b| - 1 && b[i + 1] - b[i] > threshold && b[i + 1] - b[i] > floor && s == StopAt(b, i)
  }

  /** The stops are exactly the maximal gaps longer than the threshold and the floor; a stop
      began before the window exactly when it starts at the edge and no part left there, and
      is open exactly when it runs to the window's end. */
  lemma StopsAreTheLongGaps(outputs: seq<int>, window: Window, threshold: int, floor: int, s: Stop)
    requires threshold >= 0 || floor >= 0
    ensures s in StopsOf(outputs, window, threshold, floor) <==>
              && MaximalGap(outputs, window, s.fromTs, s.toTs)
              && s.toTs - s.fromTs > threshold && s.toTs - s.fromTs > floor
              && (s.startedBeforeWindow <==> s.fromTs !in outputs)
              && (s.openAtWindowEnd <==> s.toTs == window.toTs)
  {
    var b := Boundaries(outputs, window);
    StopsInAre(b, |b| - 1, threshold, floor, s);
    if s in StopsOf(outputs, window, threshold, floor) {
      var i :| 0 <= i < |b| - 1 && IsLongStep(b, i, threshold, floor, s);
      StepIsMaximalGap(outputs, window, i);
      StepFlags(outputs, window, i);
    }
    if MaximalGap(outputs, window, s.fromTs, s.toTs) {
      var i := MaximalGapIsStep(outputs, window, s.fromTs, s.toTs);
      StepFlags(outputs, window, i);
      if && s.toTs - s.fromTs > threshold && s.toTs - s.fromTs > floor
         && (s.startedBeforeWindow <==> s.fromTs !in outputs)
         && (s.openAtWindowEnd <==> s.toTs == window.toTs) {
        assert IsLongStep(b, i, threshold, floor, s);
      }
    }
  }

  lemma PartAtTheEdge(outputs: seq<int>, window: Window)
    requires window.fromTs in outputs
    ensures Boundaries(outputs, window)[1] == window.fromTs
  {
    var parts := Parts(outputs, window);
    assert Inside(window)(window.fromTs);
    assert window.fromTs in parts;
    var k :| 0 <= k < |parts| && parts[k] == window.fromTs;
    SortSorts(NoLater, Filter(Inside(window), outputs));
    assert k == 0 || NoLater(parts[0], parts[k]);
    assert parts[0] in parts && Inside(window)(parts[0]);
  }

  lemma StepFlags(outputs: seq<int>, window: Window, i: nat)
    requires i < |Boundaries(outputs, window)| - 1
    requires Boundaries(outputs, window)[i] < Boundaries(outputs, window)[i + 1]
    ensures i == 0 <==> Boundaries(outputs, window)[i] !in outputs
    ensures i == |Boundaries(outputs, window)| - 2 <==> Boundaries(outputs, window)[i + 1] == window.toTs
  {
    var b := Boundaries(outputs, window);
    BoundariesAreSorted(outputs, window);
    if window.fromTs in outputs { PartAtTheEdge(outputs, window); }
    var parts := Parts(outputs, window);
    assert forall t :: t in parts <==> t in outputs && Inside(window)(t);
    if i > 0 {
      assert b[i] == parts[i - 1] && parts[i - 1] in parts;
    }
    if i < |b| - 2 {
      assert b[i + 1] == parts[i] && parts[i] in parts;
    }
  }

  /** Stops come in order and never overlap. */
  ghost predicate InOrder(stops: seq<Stop>) {
    forall i, j :: 0 <= i < j < |stops| ==> stops[i].toTs <= stops[j].fromTs
  }

  lemma {:induction false} StopsAreDisjoint(outputs: seq<int>, window: Window, n: nat, threshold: int, floor: int)
    requires n < |Boundaries(outputs, window)|
    ensures var stops := StopsIn(Boundaries(outputs, window), n, threshold, floor);
            InOrder(stops) && forall s :: s in stops ==> s.toTs <= Boundaries(outputs, window)[n]
  {
    hide Boundaries;
    var b := Boundaries(outputs, window);
    BoundariesAreSorted(outputs, window);
    if n > 0 {
      StopsAreDisjoint(outputs, window, n - 1, threshold, floor);
      assert NoLater(b[n - 1], b[n]);
      var before, after := StopsIn(b, n - 1, threshold, floor), StopsIn(b, n, threshold, floor);
      assert forall i :: 0 <= i < |before| ==> before[i] in before && after[i] == before[i];
    }
  }

  ghost predicate Holds(stops: seq<Stop>, s: Stop, x: int, y: int) {
    s in stops && s.fromTs <= x && y <= s.toTs
  }

  lemma OneHolder(stops: seq<Stop>, k: nat, l: nat, x: int, y: int)
    requires InOrder(stops) && k < |stops| && l < |stops| && x < y
    requires stops[k].fromTs <= x && y <= stops[k].toTs && stops[l].fromTs <= x && y <= stops[l].toTs
    ensures k == l
  {
  }

  /** Every long enough stretch of silence lies inside exactly one stop. */
  lemma SilenceLiesInOneStop(outputs: seq<int>, window: Window, threshold: int, floor: int, x: int, y: int)
    requires threshold >= 0 || floor >= 0
    requires window.fromTs <= x < y <= window.toTs && QuietBetween(outputs, x, y)
    requires y - x > threshold && y - x > floor
    ensures exists s :: Holds(StopsOf(outputs, window, threshold, floor), s, x, y)
    ensures forall s, r :: (&& Holds(StopsOf(outputs, window, threshold, floor), s, x, y)
                            && Holds(StopsOf(outputs, window, threshold, floor), r, x, y)) ==> s == r
  {
    hide Boundaries, MaximalGap, StopsIn, Classify, InOrder;
    var b := Boundaries(outputs, window);
    var i := StepAround(outputs, window, x);
    BoundariesAreSorted(outputs, window);
    assert b[i + 1] in b;
    StepIsMaximalGap(outputs, window, i);
    var s := StopAt(b, i);
    StepFlags(outputs, window, i);
    StopsAreTheLongGaps(outputs, window, threshold, floor, s);
    var stops := StopsOf(outputs, window, threshold, floor);
    StopsAreDisjoint(outputs, window, |b| - 1, threshold, floor);
    assert Holds(stops, s, x, y);
    forall s, r | Holds(stops, s, x, y) && Holds(stops, r, x, y) ensures s == r {
      var k :| 0 <= k < |stops| && stops[k] == s;
      var l :| 0 <= l < |stops| && stops[l] == r;
      OneHolder(stops, k, l, x, y);
    }
  }

  // ----- micro-stops, and nothing is lost -----

  ghost function MicroSteps(b: seq<int>, n: nat, threshold: int, floor: int): set<(int, int)>
    requires n < |b|
  {
    if n == 0 then {}
    else MicroSteps(b, n - 1, threshold, floor)
         + if Classify(b[n] - b[n - 1], threshold, floor) == Micro then {(b[n - 1], b[n])} else {}
  }

  ghost predicate IsMicroStep(b: seq<int>, i: int, threshold: int, floor: int, p: (int, int)) {
    0 <= i < |b| - 1 && floor < b[i + 1] - b[i] <= threshold && p == (b[i], b[i + 1])
  }

  lemma {:induction false} MicroStepsAre(b: seq<int>, n: nat, threshold: int, floor: int, p: (int, int))
    requires n < |b|
    ensures p in MicroSteps(b, n, threshold, floor) <==> exists i :: 0 <= i < n && IsMicroStep(b, i, threshold, floor, p)
  {
    if n > 0 {
      MicroStepsAre(b, n - 1, threshold, floor, p);
      if p in MicroSteps(b, n, threshold, floor) && p !in MicroSteps(b, n - 1, threshold, floor) {
        assert IsMicroStep(b, n - 1, threshold, floor, p);
      }
      if i :| 0 <= i < n && IsMicroStep(b, i, threshold, floor, p) {
      }
    }
  }

  lemma {:induction false} MicrosCount(b: seq<int>, n: nat, threshold: int, floor: int)
    requires n < |b| && floor >= 0 && Sorted(NoLater, b)
    ensures MicrosIn(b, n, threshold, floor) == |MicroSteps(b, n, threshold, floor)|
    ensures forall p :: p in MicroSteps(b, n, threshold, floor) ==> p.1 <= b[n]
  {
    if n > 0 {
      MicrosCount(b, n - 1, threshold, floor);
      assert NoLater(b[n - 1], b[n]);
    }
  }

  /** The micro-stop count is the number of maximal gaps above the floor and within the
      threshold. */
  lemma MicroStopsAreTheShortGaps(outputs: seq<int>, window: Window, threshold: int, floor: int, gaps: set<(int, int)>)
    requires floor >= 0
    requires forall p :: p in gaps <==> MaximalGap(outputs, window, p.0, p.1) && floor < p.1 - p.0 <= threshold
    ensures MicroStopsOf(outputs, window, threshold, floor) == |gaps|
  {
    hide Boundaries, MicrosIn, MicroSteps;
    var b := Boundaries(outputs, window);
    var steps := MicroSteps(b, |b| - 1, threshold, floor);
    BoundariesAreSorted(outputs, window);
    MicrosCount(b, |b| - 1, threshold, floor);
    forall p ensures p in steps <==> p in gaps {
      MicroStepsAre(b, |b| - 1, threshold, floor, p);
      if p in steps {
        var i :| 0 <= i < |b| - 1 && IsMicroStep(b, i, threshold, floor, p);
        StepIsMaximalGap(outputs, window, i);
      }
      if p in gaps {
        var i := MaximalGapIsStep(outputs, window, p.0, p.1);
        assert IsMicroStep(b, i, threshold, floor, p);
      }
    }
    assert steps == gaps;
  }

  function TotalOf(b: seq<int>, n: nat, kind: GapKind, threshold: int, floor: int): int
    requires n < |b|
  {
    if n == 0 then 0
    else TotalOf(b, n - 1, kind, threshold, floor)
         + if Classify(b[n] - b[n - 1], threshold, floor) == kind then b[n] - b[n - 1] else 0
  }

  function StoppedTime(stops: seq<Stop>): int {
    if stops == [] then 0 else StoppedTime(stops[..|stops| - 1]) + stops[|stops| - 1].toTs - stops[|stops| - 1].fromTs
  }

  lemma {:induction false} TimeIsConserved(b: seq<int>, n: nat, threshold: int, floor: int)
    requires n < |b|
    ensures TotalOf(b, n, Cycle, threshold, floor) + TotalOf(b, n, Micro, threshold, floor) + StoppedTime(StopsIn(b, n, threshold, floor))
         == b[n] - b[0]
  {
    if n > 0 {
      TimeIsConserved(b, n - 1, threshold, floor);
      var before, after := StopsIn(b, n - 1, threshold, floor), StopsIn(b, n, threshold, floor);
      if Classify(b[n] - b[n - 1], threshold, floor) == Long {
        assert after[..|after| - 1] == before;
      } else {
        assert after == before;
      }
    }
  }

  lemma BoundaryEdges(outputs: seq<int>, window: Window)
    ensures Boundaries(outputs, window)[0] == window.fromTs
    ensures Boundaries(outputs, window)[|Boundaries(outputs, window)| - 1] == window.toTs
  {
  }

  function TimeIn(outputs: seq<int>, window: Window, kind: GapKind, threshold: int, floor: int): int {
    var b := Boundaries(outputs, window);
    TotalOf(b, |b| - 1, kind, threshold, floor)
  }

  /** Ordinary cycles, micro-stops and stops together are the whole window. */
  lemma GapsFillTheWindow(outputs: seq<int>, window: Window, threshold: int, floor: int)
    ensures TimeIn(outputs, window, Cycle, threshold, floor) + TimeIn(outputs, window, Micro, threshold, floor)
            + StoppedTime(StopsOf(outputs, window, threshold, floor)) == window.Duration()
  {
    hide StopsIn, TotalOf, StoppedTime;
    var b := Boundaries(outputs, window);
    BoundaryEdges(outputs, window);
    TimeIsConserved(b, |b| - 1, threshold, floor);
  }

  lemma PartsPermutation(a: seq<int>, b: seq<int>, window: Window)
    requires multiset(a) == multiset(b)
    ensures Boundaries(a, window) == Boundaries(b, window)
  {
    FilterPermutation(Inside(window), a, b);
    SortPermutation(NoLater, Filter(Inside(window), a), Filter(Inside(window), b));
  }

  /** The order in which parts are read does not matter. */
  lemma PartsMayComeInAnyOrder(a: seq<int>, b: seq<int>, window: Window, threshold: int, floor: int)
    requires multiset(a) == multiset(b)
    ensures StopsOf(a, window, threshold, floor) == StopsOf(b, window, threshold, floor)
    ensures MicroStopsOf(a, window, threshold, floor) == MicroStopsOf(b, window, threshold, floor)
  {
    hide Boundaries, StopsIn, MicrosIn;
    PartsPermutation(a, b, window);
  }
}
