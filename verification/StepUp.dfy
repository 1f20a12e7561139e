/**
 The Benjamini-Hochberg step-up of `diagnostics/analysis/src/analysis/patterns.py`: one pass
 from the weakest test to the strongest with a running minimum, and the order-free quantity
 that pass computes. P-values are exact reals.
 */
module StepUp {
  import opened Measures
  import opened Sequences
  import opened Ordering

  /** The value tested, and the stratum it was tested inside. */
  type Key = (string, Option<string>)

  datatype Test = Test(key: Key, p: real)

  function Min(a: real, b: real): real { if b < a then b else a }

  function Text(o: Option<string>): string {
    if o.Some? then o.value else ""
  }

  predicate KeyLe(a: Key, b: Key) {
    if a.0 == b.0 then StringLe(Text(a.1), Text(b.1)) else StringLe(a.0, b.0)
  }

  /** Strongest first; ties by key. */
  predicate Stronger(a: Test, b: Test) {
    if a.p == b.p then KeyLe(a.key, b.key) else a.p < b.p
  }

  ghost predicate DistinctKeys(tests: seq<Test>) {
    forall i, j :: 0 <= i < j < |tests| ==> tests[i].key != tests[j].key
  }

  ghost predicate Proper(tests: seq<Test>) {
    DistinctKeys(tests) && forall t :: t in tests ==> 0.0 <= t.p <= 1.0
  }

  // ----- the order-free quantity -----

  ghost function Members(tests: seq<Test>): set<Test> {
    set t | t in tests
  }

  ghost function AtMost(family: set<Test>, q: real): set<Test> {
    set t | t in family && t.p <= q
  }

  /** p·m / rank. */
  function Quotient(p: real, m: nat, rank: nat): real
    requires rank > 0
  {
    p * m as real / rank as real
  }

  /** q·m over the number of tests at most q. */
  ghost function Bound(family: set<Test>, q: real): real
    requires AtMost(family, q) != {}
  {
    Quotient(q, |family|, |AtMost(family, q)|)
  }

  ghost predicate BoundsAt(family: set<Test>, t: Test, v: real) {
    t in family && t in AtMost(family, t.p) && v <= Bound(family, t.p)
  }

  ghost predicate AttainedAt(family: set<Test>, t: Test, v: real) {
    t in family && t in AtMost(family, t.p) && v == Bound(family, t.p)
  }

  /** `v` is the least of 1 and the bounds of the tests no stronger than `q`. */
  ghost predicate IsStepUp(family: set<Test>, q: real, v: real) {
    && v <= 1.0
    && (forall t :: t in family && q <= t.p ==> BoundsAt(family, t, v))
    && (v == 1.0 || exists t: Test :: q <= t.p && AttainedAt(family, t, v))
  }

  lemma StepUpIsUnique(family: set<Test>, q: real, v: real, w: real)
    requires IsStepUp(family, q, v) && IsStepUp(family, q, w)
    ensures v == w
  {
    if v != 1.0 {
      var t: Test :| q <= t.p && AttainedAt(family, t, v);
      assert BoundsAt(family, t, w);
    }
    if w != 1.0 {
      var t: Test :| q <= t.p && AttainedAt(family, t, w);
      assert BoundsAt(family, t, v);
    }
  }

  // ----- the pass -----

  /** The running minimum over the ranks from `i` on. */
  function RunningMin(ranked: seq<Test>, i: nat): (r: real)
    requires i <= |ranked|
    ensures r <= 1.0
    decreases |ranked| - i
  {
    if i == |ranked| then 1.0
    else Min(RunningMin(ranked, i + 1), Quotient(ranked[i].p, |ranked|, i + 1))
  }

  ghost predicate KeyAt(ranked: seq<Test>, i: int, k: Key) {
    0 <= i < |ranked| && ranked[i].key == k
  }

  /** The ranks from `rank` on have been given their running minimum, and nothing else has. */
  ghost predicate AdjustedFrom(ranked: seq<Test>, rank: nat, adjusted: map<Key, real>) {
    && (forall i :: rank <= i < |ranked| ==> ranked[i].key in adjusted && adjusted[ranked[i].key] == RunningMin(ranked, i))
    && (forall k :: k in adjusted ==> exists i :: rank <= i && KeyAt(ranked, i, k))
  }

  lemma AdjustOne(ranked: seq<Test>, rank: nat, adjusted: map<Key, real>)
    requires DistinctKeys(ranked) && 0 < rank <= |ranked| && AdjustedFrom(ranked, rank, adjusted)
    ensures AdjustedFrom(ranked, rank - 1, adjusted[ranked[rank - 1].key := RunningMin(ranked, rank - 1)])
  {
    hide RunningMin;
    var next := adjusted[ranked[rank - 1].key := RunningMin(ranked, rank - 1)];
    forall k | k in next ensures exists i :: rank - 1 <= i && KeyAt(ranked, i, k) {
      if k in adjusted {
        var i :| rank <= i && KeyAt(ranked, i, k);
        assert KeyAt(ranked, i, k);
      } else {
        assert KeyAt(ranked, rank - 1, k);
      }
    }
  }

  lemma RankIsStepUp(ranked: seq<Test>, adjusted: map<Key, real>, t: Test)
    requires Proper(ranked) && RankedByP(ranked) && AdjustedFrom(ranked, 0, adjusted) && t in ranked
    ensures t.key in adjusted && IsStepUp(Members(ranked), t.p, adjusted[t.key])
  {
    hide RunningMin, IsStepUp;
    var i :| 0 <= i < |ranked| && ranked[i] == t;
    RunningMinIsStepUp(ranked, i);
  }

  lemma PassIsStepUp(tests: seq<Test>, adjusted: map<Key, real>)
    requires Proper(tests) && AdjustedFrom(Sort(Stronger, tests), 0, adjusted)
    ensures forall k :: k in adjusted <==> exists t :: t in tests && t.key == k
    ensures forall t :: t in tests ==> IsStepUp(Members(tests), t.p, adjusted[t.key])
  {
    hide RunningMin, IsStepUp, Sort, Proper, RankedByP;
    var ranked := Sort(Stronger, tests);
    RankedIsProper(tests);
    assert Members(ranked) == Members(tests);
    forall t | t in tests ensures t.key in adjusted && IsStepUp(Members(tests), t.p, adjusted[t.key]) {
      assert t in ranked;
      RankIsStepUp(ranked, adjusted, t);
    }
    forall k | k in adjusted ensures exists t :: t in tests && t.key == k {
      var i :| 0 <= i && KeyAt(ranked, i, k);
      assert ranked[i] in ranked;
    }
  }

  method BenjaminiHochberg(tests: seq<Test>) returns (adjusted: map<Key, real>)
    requires Proper(tests)
    ensures forall k :: k in adjusted <==> exists t :: t in tests && t.key == k
    ensures forall t :: t in tests ==> IsStepUp(Members(tests), t.p, adjusted[t.key])
  {
    hide IsStepUp, Sort, AdjustedFrom, Quotient;
    var ranked := Sort(Stronger, tests);
    RankedIsProper(tests);
    adjusted := map[];
    NothingAdjusted(ranked);
    var running := 1.0;
    var rank := |ranked|;
    while rank > 0
      invariant 0 <= rank <= |ranked|
      invariant running == RunningMin(ranked, rank)
      invariant AdjustedFrom(ranked, rank, adjusted)
    {
      var test := ranked[rank - 1];
      running := Min(running, Quotient(test.p, |ranked|, rank));
      AdjustOne(ranked, rank, adjusted);
      adjusted := adjusted[test.key := running];
      rank := rank - 1;
    }
    PassIsStepUp(tests, adjusted);
  }

  lemma NothingAdjusted(ranked: seq<Test>)
    ensures AdjustedFrom(ranked, |ranked|, map[])
  {
  }

  // ----- sorting by strength -----

  lemma KeyLeTotal(a: Key, b: Key)
    ensures KeyLe(a, b) || KeyLe(b, a)
  {
    StringLeTotal(a.0, b.0);
    StringLeTotal(Text(a.1), Text(b.1));
  }

  lemma KeyLeTransitive(a: Key, b: Key, c: Key)
    requires KeyLe(a, b) && KeyLe(b, c)
    ensures KeyLe(a, c)
  {
    if a.0 == b.0 == c.0 {
      StringLeTransitive(Text(a.1), Text(b.1), Text(c.1));
    } else {
      if a.0 == b.0 { StringLeTotal(a.0, a.0); }
      if b.0 == c.0 { StringLeTotal(c.0, c.0); }
      StringLeTransitive(a.0, b.0, c.0);
      if a.0 == c.0 {
        StringLeAntisymmetric(a.0, b.0);
      }
    }
  }

  lemma StrongerIsTotalPreorder()
    ensures TotalPreorder(Stronger)
  {
    forall x, y ensures Stronger(x, y) || Stronger(y, x) {
      KeyLeTotal(x.key, y.key);
    }
    forall x, y, z | Stronger(x, y) && Stronger(y, z) ensures Stronger(x, z) {
      if x.p == y.p == z.p { KeyLeTransitive(x.key, y.key, z.key); }
    }
  }

  ghost predicate RankedByP(ranked: seq<Test>) {
    forall i, j :: 0 <= i < j < |ranked| ==> ranked[i].p <= ranked[j].p
  }

  lemma RankedIsProper(tests: seq<Test>)
    requires Proper(tests)
    ensures var ranked := Sort(Stronger, tests); RankedByP(ranked) && Proper(ranked)
  {
    var ranked := Sort(Stronger, tests);
    StrongerIsTotalPreorder();
    SortSorts(Stronger, tests);
    forall i, j | 0 <= i < j < |ranked| ensures ranked[i].p <= ranked[j].p {
      assert Stronger(ranked[i], ranked[j]);
    }
    SortKeepsDistinctKeys(tests);
  }

  lemma SortKeepsDistinctKeys(tests: seq<Test>)
    requires DistinctKeys(tests)
    ensures DistinctKeys(Sort(Stronger, tests))
  {
    var ranked := Sort(Stronger, tests);
    assert Distinct(tests);
    DistinctCount(tests);
    DistinctCount(ranked);
    forall i, j | 0 <= i < j < |ranked| ensures ranked[i].key != ranked[j].key {
      assert ranked[i] in tests && ranked[j] in tests && ranked[i] != ranked[j];
    }
  }

  // ----- the pass computes the order-free quantity -----

  /** In a ranking, the tests at most `q` are the first ones. */
  lemma AtMostIsPrefix(ranked: seq<Test>, q: real, n: nat)
    requires RankedByP(ranked) && DistinctKeys(ranked) && n <= |ranked|
    requires forall i :: 0 <= i < |ranked| ==> (ranked[i].p <= q <==> i < n)
    ensures |AtMost(Members(ranked), q)| == n
  {
    assert AtMost(Members(ranked), q) == Members(ranked[..n]) by {
      assert forall i :: 0 <= i < n ==> ranked[..n][i] == ranked[i];
    }
    MembersCount(ranked[..n]);
  }

  lemma {:induction false} MembersCount(tests: seq<Test>)
    requires DistinctKeys(tests)
    ensures |Members(tests)| == |tests|
  {
    if tests != [] {
      var n := |tests| - 1;
      MembersCount(tests[..n]);
      assert tests == tests[..n] + [tests[n]];
      assert Members(tests) == Members(tests[..n]) + {tests[n]};
      assert tests[n] !in tests[..n];
    }
  }

  /** How many tests are at most `q`, when test `i` is one of them. */
  lemma PrefixLength(ranked: seq<Test>, q: real, i: nat) returns (n: nat)
    requires RankedByP(ranked) && i < |ranked| && ranked[i].p <= q
    ensures i < n <= |ranked|
    ensures forall k :: 0 <= k < |ranked| ==> (ranked[k].p <= q <==> k < n)
  {
    n := i + 1;
    while n < |ranked| && ranked[n].p <= q
      invariant i < n <= |ranked|
      invariant forall k :: i <= k < n ==> ranked[k].p <= q
    {
      n := n + 1;
    }
  }

  lemma ProductGrows(x: real, a: real, b: real)
    requires 0.0 <= x && a <= b
    ensures x * a <= x * b
  {
  }

  lemma ProductGrowsStrictly(x: real, y: real, a: real)
    requires x < y && 0.0 < a
    ensures x * a < y * a
  {
  }

  lemma QuotientTimesRank(p: real, m: nat, rank: nat)
    requires rank > 0
    ensures Quotient(p, m, rank) * rank as real == p * m as real
    ensures 0.0 <= p ==> 0.0 <= Quotient(p, m, rank)
  {
    var x, q := p * m as real, Quotient(p, m, rank);
    assert q * rank as real == x;
    if 0.0 <= p {
      ProductGrows(p, 0.0, m as real);
      if q < 0.0 { ProductGrowsStrictly(q, 0.0, rank as real); }
    }
  }

  lemma QuotientShrinks(p: real, m: nat, a: nat, b: nat)
    requires 0.0 <= p && 0 < a <= b
    ensures Quotient(p, m, b) <= Quotient(p, m, a)
  {
    hide Quotient;
    var u, v := Quotient(p, m, a), Quotient(p, m, b);
    QuotientTimesRank(p, m, a);
    QuotientTimesRank(p, m, b);
    ProductGrows(v, a as real, b as real);
    if u < v { ProductGrowsStrictly(u, v, a as real); }
  }

  /** `last` is the last rank of the tie that rank `i` belongs to. */
  ghost predicate EndsTie(ranked: seq<Test>, i: nat, last: nat) {
    && i <= last < |ranked| && ranked[last].p == ranked[i].p
    && forall k :: 0 <= k < |ranked| ==> (ranked[k].p <= ranked[i].p <==> k <= last)
  }

  /** Every tie ends, and the bound of its tests is the quotient at its last rank. */
  lemma BoundIsLastQuotient(ranked: seq<Test>, i: nat) returns (last: nat)
    requires Proper(ranked) && RankedByP(ranked) && i < |ranked|
    ensures EndsTie(ranked, i, last)
    ensures ranked[i] in AtMost(Members(ranked), ranked[i].p)
    ensures Bound(Members(ranked), ranked[i].p) == Quotient(ranked[last].p, |ranked|, last + 1)
  {
    hide Quotient;
    var n := PrefixLength(ranked, ranked[i].p, i);
    last := n - 1;
    AtMostIsPrefix(ranked, ranked[i].p, n);
    MembersCount(ranked);
    assert ranked[i] in AtMost(Members(ranked), ranked[i].p);
    assert ranked[last].p <= ranked[i].p;
  }

  lemma {:induction false} RunningMinBelow(ranked: seq<Test>, i: nat, j: nat)
    requires i <= j < |ranked|
    ensures RunningMin(ranked, i) <= Quotient(ranked[j].p, |ranked|, j + 1)
    decreases j - i
  {
    hide Quotient;
    if i < j {
      RunningMinBelow(ranked, i + 1, j);
    }
  }

  lemma {:induction false} RunningMinAttained(ranked: seq<Test>, i: nat) returns (j: nat)
    requires i <= |ranked|
    ensures j == |ranked| ==> RunningMin(ranked, i) == 1.0
    ensures j != |ranked| ==> i <= j < |ranked| && RunningMin(ranked, i) == Quotient(ranked[j].p, |ranked|, j + 1)
    decreases |ranked| - i
  {
    hide Quotient;
    if i == |ranked| {
      j := i;
    } else {
      j := RunningMinAttained(ranked, i + 1);
      if Quotient(ranked[i].p, |ranked|, i + 1) < RunningMin(ranked, i + 1) {
        j := i;
      }
    }
  }

  lemma RunningMinBounds(ranked: seq<Test>, i: nat, t: Test)
    requires Proper(ranked) && RankedByP(ranked) && i < |ranked| && t in ranked && ranked[i].p <= t.p
    ensures BoundsAt(Members(ranked), t, RunningMin(ranked, i))
  {
    hide Quotient, RunningMin;
    var k :| 0 <= k < |ranked| && ranked[k] == t;
    var last := BoundIsLastQuotient(ranked, k);
    RunningMinBelow(ranked, i, last);
  }

  lemma RunningMinReached(ranked: seq<Test>, i: nat, j: nat)
    requires Proper(ranked) && RankedByP(ranked) && i <= j < |ranked|
    requires RunningMin(ranked, i) == Quotient(ranked[j].p, |ranked|, j + 1)
    ensures AttainedAt(Members(ranked), ranked[j], RunningMin(ranked, i))
  {
    hide Quotient, RunningMin;
    assert ranked[j] in ranked;
    assert ranked[i].p <= ranked[j].p;
    RunningMinBounds(ranked, i, ranked[j]);
    var last := BoundIsLastQuotient(ranked, j);
    QuotientShrinks(ranked[j].p, |ranked|, j + 1, last + 1);
  }

  /** The backwards running minimum gives every test the order-free quantity: ties share one
      value whatever key broke them. */
  lemma RunningMinIsStepUp(ranked: seq<Test>, i: nat)
    requires Proper(ranked) && RankedByP(ranked) && i < |ranked|
    ensures IsStepUp(Members(ranked), ranked[i].p, RunningMin(ranked, i))
  {
    hide Quotient, RunningMin, AttainedAt, BoundsAt;
    var family, v := Members(ranked), RunningMin(ranked, i);
    forall t | t in family && ranked[i].p <= t.p ensures BoundsAt(family, t, v) {
      RunningMinBounds(ranked, i, t);
    }
    var j := RunningMinAttained(ranked, i);
    if j < |ranked| {
      RunningMinReached(ranked, i, j);
      assert ranked[i].p <= ranked[j].p && AttainedAt(family, ranked[j], v);
    }
  }

  // ----- the classical step-up set -----

  /** Rank `j` (from 1) passes when p(j) is at most j·alpha/m. */
  ghost predicate Passes(ranked: seq<Test>, j: int, alpha: real) {
    1 <= j <= |ranked| && ranked[j - 1].p * |ranked| as real <= alpha * j as real
  }

  lemma PassesByQuotient(ranked: seq<Test>, j: nat, alpha: real)
    requires j < |ranked|
    ensures Passes(ranked, j + 1, alpha) <==> Quotient(ranked[j].p, |ranked|, j + 1) <= alpha
  {
    hide Quotient;
    var q := Quotient(ranked[j].p, |ranked|, j + 1);
    QuotientTimesRank(ranked[j].p, |ranked|, j + 1);
    if alpha < q { ProductGrowsStrictly(alpha, q, (j + 1) as real); }
    if q < alpha { ProductGrowsStrictly(q, alpha, (j + 1) as real); }
  }

  /** The tests whose adjusted value is at most alpha are ranks 1 to k for the largest passing k. */
  lemma AdjustedBelowAlphaIsStepUpSet(ranked: seq<Test>, alpha: real, k: nat)
    requires Proper(ranked) && RankedByP(ranked) && alpha < 1.0
    requires k <= |ranked| && (k > 0 ==> Passes(ranked, k, alpha))
    requires forall j :: k < j <= |ranked| ==> !Passes(ranked, j, alpha)
    ensures forall i, v :: 0 <= i < |ranked| && IsStepUp(Members(ranked), ranked[i].p, v) ==> (v <= alpha <==> i < k)
  {
    hide Quotient, RunningMin, IsStepUp, Passes;
    forall i, v | 0 <= i < |ranked| && IsStepUp(Members(ranked), ranked[i].p, v) ensures v <= alpha <==> i < k {
      RunningMinIsStepUp(ranked, i);
      StepUpIsUnique(Members(ranked), ranked[i].p, v, RunningMin(ranked, i));
      if i < k {
        RunningMinBelow(ranked, i, k - 1);
        PassesByQuotient(ranked, k - 1, alpha);
      }
      var j := RunningMinAttained(ranked, i);
      if j < |ranked| { PassesByQuotient(ranked, j, alpha); }
    }
  }

  // ----- the three corrections -----

  datatype Correction = Uncorrected | Bonferroni | StepUp

  /** A p-value times the number of comparisons, at most 1. */
  function Scaled(p: real, m: nat): real {
    Min(1.0, p * m as real)
  }

  /** What each correction makes of a raw p-value inside its family. */
  ghost predicate IsAdjusted(correction: Correction, family: set<Test>, p: real, v: real) {
    match correction
    case Uncorrected => v == p
    case Bonferroni => v == Scaled(p, |family|)
    case StepUp => IsStepUp(family, p, v)
  }

  /** Every key with what `f` makes of its test. */
  function Tabulate(tests: seq<Test>, f: Test -> real): map<Key, real> {
    if tests == [] then map[] else Tabulate(tests[..|tests| - 1], f)[tests[|tests| - 1].key := f(tests[|tests| - 1])]
  }

  lemma {:induction false} Tabulated(tests: seq<Test>, f: Test -> real)
    requires DistinctKeys(tests)
    ensures forall k :: k in Tabulate(tests, f) <==> exists t :: t in tests && t.key == k
    ensures forall t :: t in tests ==> Tabulate(tests, f)[t.key] == f(t)
  {
    if tests != [] {
      var n := |tests| - 1;
      Tabulated(tests[..n], f);
      assert tests == tests[..n] + [tests[n]];
      assert forall t :: t in tests <==> t in tests[..n] || t == tests[n];
    }
  }

  /** Every test, and nothing else, has its adjusted value. */
  ghost predicate Adjusts(correction: Correction, tests: seq<Test>, adjusted: map<Key, real>) {
    && (forall k :: k in adjusted <==> exists t :: t in tests && t.key == k)
    && (forall t :: t in tests ==> IsAdjusted(correction, Members(tests), t.p, adjusted[t.key]))
  }

  method Adjust(tests: seq<Test>, correction: Correction) returns (adjusted: map<Key, real>)
    requires Proper(tests)
    ensures Adjusts(correction, tests, adjusted)
  {
    hide IsStepUp, Tabulate, Members, Scaled;
    match correction {
      case Uncorrected =>
        var raw := (t: Test) => t.p;
        Tabulated(tests, raw);
        adjusted := Tabulate(tests, raw);
        assert forall t :: t in tests ==> adjusted[t.key] == raw(t);
      case Bonferroni =>
        var scaled := (t: Test) => Scaled(t.p, |tests|);
        MembersCount(tests);
        Tabulated(tests, scaled);
        adjusted := Tabulate(tests, scaled);
        assert forall t :: t in tests ==> adjusted[t.key] == scaled(t);
      case StepUp =>
        adjusted := BenjaminiHochberg(tests);
    }
  }

  ghost predicate Probabilities(family: set<Test>) {
    forall t :: t in family ==> 0.0 <= t.p <= 1.0
  }

  lemma AtMostIsNoMore(family: set<Test>, q: real)
    ensures |AtMost(family, q)| <= |family|
  {
    SubsetCount(AtMost(family, q), family);
  }

  lemma QuotientByAll(p: real, m: nat)
    requires m > 0
    ensures Quotient(p, m, m) == p && Quotient(p, m, 1) == p * m as real
  {
    hide Quotient;
    QuotientTimesRank(p, m, m);
    QuotientTimesRank(p, m, 1);
    var q, rank := Quotient(p, m, m), m as real;
    if q < p { ProductGrowsStrictly(q, p, rank); }
    if p < q { ProductGrowsStrictly(p, q, rank); }
  }

  /** No test's bound is below its own p-value, nor above its Bonferroni product. */
  lemma BoundBetween(family: set<Test>, t: Test)
    requires Probabilities(family) && t in family
    ensures AtMost(family, t.p) != {} && t.p <= Bound(family, t.p) <= t.p * |family| as real
  {
    hide Quotient;
    assert t in AtMost(family, t.p);
    AtMostIsNoMore(family, t.p);
    QuotientByAll(t.p, |family|);
    QuotientShrinks(t.p, |family|, |AtMost(family, t.p)|, |family|);
    QuotientShrinks(t.p, |family|, 1, |AtMost(family, t.p)|);
  }

  /** Raw is at most step-up, step-up at most Bonferroni, pointwise. */
  lemma CorrectionsAreOrdered(family: set<Test>, t: Test, v: real)
    requires Probabilities(family) && t in family && IsStepUp(family, t.p, v)
    ensures t.p <= v <= Scaled(t.p, |family|)
  {
    hide Bound, AtMost;
    BoundBetween(family, t);
    assert BoundsAt(family, t, v);
    if v != 1.0 {
      var u: Test :| t.p <= u.p && AttainedAt(family, u, v);
      BoundBetween(family, u);
    }
  }

  /** Step-up keeps the order of the raw p-values. */
  lemma StepUpKeepsOrder(family: set<Test>, p: real, q: real, v: real, w: real)
    requires p <= q && IsStepUp(family, p, v) && IsStepUp(family, q, w)
    ensures v <= w
  {
    hide Bound, AtMost;
    if w != 1.0 {
      var t: Test :| q <= t.p && AttainedAt(family, t, w);
      assert BoundsAt(family, t, v);
    }
  }

  /** Whatever the correction, an adjusted value is unique and never below the raw one. */
  lemma AdjustedIsUnique(correction: Correction, family: set<Test>, t: Test, v: real, w: real)
    requires Probabilities(family) && t in family
    requires IsAdjusted(correction, family, t.p, v) && IsAdjusted(correction, family, t.p, w)
    ensures v == w && t.p <= v
  {
    hide IsStepUp, Bound, AtMost;
    if correction == StepUp {
      StepUpIsUnique(family, t.p, v, w);
      CorrectionsAreOrdered(family, t, v);
    }
    BoundBetween(family, t);
  }

  /** A test that pays for every test at least as strong as itself: p(t)·m ≤ alpha·rank. */
  ghost predicate Carries(family: set<Test>, t: Test, alpha: real) {
    t in family && t.p * |family| as real <= alpha * |AtMost(family, t.p)| as real
  }

  lemma CarriesByBound(family: set<Test>, t: Test, alpha: real)
    requires t in family
    ensures t in AtMost(family, t.p) && (Carries(family, t, alpha) <==> Bound(family, t.p) <= alpha)
  {
    hide Quotient;
    assert t in AtMost(family, t.p);
    var rank := |AtMost(family, t.p)|;
    var q := Quotient(t.p, |family|, rank);
    QuotientTimesRank(t.p, |family|, rank);
    if alpha < q { ProductGrowsStrictly(alpha, q, rank as real); }
    if q < alpha { ProductGrowsStrictly(q, alpha, rank as real); }
  }

  /** The same set without ranks: adjusted is at most alpha exactly when some test no stronger carries. */
  lemma BelowAlphaWhenCarried(family: set<Test>, p: real, v: real, alpha: real)
    requires IsStepUp(family, p, v) && alpha < 1.0
    ensures v <= alpha <==> exists t: Test :: p <= t.p && Carries(family, t, alpha)
  {
    hide Bound, AtMost;
    if v <= alpha {
      var t: Test :| p <= t.p && AttainedAt(family, t, v);
      CarriesByBound(family, t, alpha);
    }
    if t: Test :| p <= t.p && Carries(family, t, alpha) {
      CarriesByBound(family, t, alpha);
      assert BoundsAt(family, t, v);
    }
  }
}
