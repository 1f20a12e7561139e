/**
 What a patterns report says of the observations themselves, field by field: whom each pattern compares with
 whom, which observations are left over, when a pattern is a finding, and in what order the patterns stand.
 */
module Tables {
  import opened Sequences
  import opened Ordering
  import opened StepUp
  import opened Patterns

  // ----- the fields of an observation -----

  predicate Recorded(o: Observation, d: Dimension, v: string) {
    match d
    case Carrier => o.carrier == Some(v)
    case Lane => o.lane == Some(v)
    case Lot => o.lot == Some(v)
    case DefectClass => o.defectClass == Some(v)
    case TimeBucket => o.timeBucket == Some(v)
  }

  predicate Unrecorded(o: Observation, d: Dimension) {
    match d
    case Carrier => o.carrier == None
    case Lane => o.lane == None
    case Lot => o.lot == None
    case DefectClass => o.defectClass == None
    case TimeBucket => o.timeBucket == None
  }

  /** The observation lies in the stratum: one value of `within`, or everything when there is no `within`. */
  predicate Beside(o: Observation, within: Option<Dimension>, stratum: Option<string>) {
    match within
    case None => stratum == None
    case Some(d) => stratum.Some? && Recorded(o, d, stratum.value)
  }

  function Same(q: Question, k: Key): Property {
    (o: Observation) => Recorded(o, q.dimension, k.0) && Beside(o, q.within, k.1)
  }

  /** In the same stratum, with another value along the dimension. */
  function Others(q: Question, k: Key): Property {
    (o: Observation) =>
      !Unrecorded(o, q.dimension) && !Recorded(o, q.dimension, k.0) && Beside(o, q.within, k.1)
  }

  /** A value is missing along the dimension or along `within`. */
  function Incomplete(q: Question): Property {
    (o: Observation) => Unrecorded(o, q.dimension) || (q.within.Some? && Unrecorded(o, q.within.value))
  }

  function Successful(p: Property): Property {
    (o: Observation) => p(o) && o.outcome
  }

  function Number(p: Property, obs: seq<Observation>): nat {
    |Filter(p, obs)|
  }

  lemma ValueIsTheField(o: Observation, d: Dimension, v: string)
    ensures Recorded(o, d, v) <==> o.Value(d) == Some(v)
    ensures Unrecorded(o, d) <==> o.Value(d) == None
  {
  }

  // ----- what is compared -----

  lemma {:induction false} SameNumber(p: Property, q: Property, s: seq<Observation>)
    requires forall o :: o in s ==> (p(o) <==> q(o))
    ensures Number(p, s) == Number(q, s)
  {
    if s != [] {
      SameNumber(p, q, s[1..]);
    }
  }

  /** Counting inside a stratum is counting the observations that lie in it. */
  lemma NumberInside(obs: seq<Observation>, q: Question, k: Key, p: Property, all: Property)
    requires forall o :: all(o) <==> p(o) && Inside(q, k.1)(o)
    ensures Count(p, Stratum(obs, q, k.1)) == Number(all, obs)
  {
    FilterBoth(p, Inside(q, k.1), all, obs);
  }

  lemma SameIs(q: Question, k: Key, o: Observation)
    requires q.within.None? ==> k.1.None?
    ensures Same(q, k)(o) <==> Is(q.dimension, k.0)(o) && Inside(q, k.1)(o)
    ensures Others(q, k)(o) <==> IsAnother(q.dimension, k.0)(o) && Inside(q, k.1)(o)
  {
    ValueIsTheField(o, q.dimension, k.0);
    if q.within.Some? && k.1.Some? {
      ValueIsTheField(o, q.within.value, k.1.value);
    }
  }

  lemma IncompleteIs(q: Question, o: Observation)
    ensures Incomplete(q)(o) <==> Outside(q)(o)
  {
    ValueIsTheField(o, q.dimension, "");
    if q.within.Some? {
      ValueIsTheField(o, q.within.value, "");
    }
  }

  lemma KeyMeans(q: Question, k: Key, o: Observation)
    requires HasKey(q, k, o)
    ensures Same(q, k)(o) && (q.within.None? <==> k.1.None?)
  {
    ValueIsTheField(o, q.dimension, k.0);
    if q.within.Some? && k.1.Some? {
      ValueIsTheField(o, q.within.value, k.1.value);
    }
  }

  lemma ComparedAt(obs: seq<Observation>, q: Question, k: Key, s: Settings)
    requires q.within.None? ==> k.1.None?
    ensures (var c := ComparisonAt(obs, q, k, s);
             && c.observed == Counts(Number(Successful(Same(q, k)), obs), Number(Same(q, k), obs))
             && c.reference == Counts(Number(Successful(Others(q, k)), obs), Number(Others(q, k), obs)))
  {
    hide Filter, Same, Others, Is, IsAnother, Inside, ComparisonAt;
    forall o ensures Same(q, k)(o) <==> Is(q.dimension, k.0)(o) && Inside(q, k.1)(o)
             ensures Others(q, k)(o) <==> IsAnother(q.dimension, k.0)(o) && Inside(q, k.1)(o) {
      SameIs(q, k, o);
    }
    RestIsEverythingElse(obs, q, k, s);
    NumberInside(obs, q, k, Is(q.dimension, k.0), Same(q, k));
    NumberInside(obs, q, k, Hit(Is(q.dimension, k.0)), Successful(Same(q, k)));
    NumberInside(obs, q, k, IsAnother(q.dimension, k.0), Others(q, k));
    NumberInside(obs, q, k, Hit(IsAnother(q.dimension, k.0)), Successful(Others(q, k)));
  }

  /** Every pattern compares the observations that have its value with those that have another, both of one
      value along `within`; and what lacks either value is unattributed. */
  lemma PatternsCompareLikeWithLike(
    obs: seq<Observation>, q: Question, s: Settings, family: set<Test>, r: Report, p: Pattern)
    requires IsReport(obs, q, s, family, r) && p in r.patterns
    ensures p.comparison.observed == Counts(Number(Successful(Same(q, p.key)), obs), Number(Same(q, p.key), obs))
    ensures p.comparison.reference == Counts(Number(Successful(Others(q, p.key)), obs), Number(Others(q, p.key), obs))
    ensures q.within.None? <==> p.key.1.None?
  {
    hide ComparisonAt, HasKey, Same, Others;
    assert IsPattern(obs, q, s, family, p);
    var o :| o in obs && HasKey(q, p.key, o);
    KeyMeans(q, p.key, o);
    ComparedAt(obs, q, p.key, s);
  }

  lemma IncompleteIsUnattributed(obs: seq<Observation>, q: Question, s: Settings, family: set<Test>, r: Report)
    requires IsReport(obs, q, s, family, r)
    ensures r.unattributed == Number(Incomplete(q), obs)
  {
    hide Incomplete, Outside;
    forall o ensures Incomplete(q)(o) <==> Outside(q)(o) {
      IncompleteIs(q, o);
    }
    SameNumber(Incomplete(q), Outside(q), obs);
  }

  /** Every observation that lacks neither value is in exactly one pattern. */
  lemma CompleteIsCompared(
    obs: seq<Observation>, q: Question, s: Settings, family: set<Test>, r: Report, o: Observation)
    requires IsReport(obs, q, s, family, r) && o in obs && !Incomplete(q)(o)
    ensures exists p :: p in r.patterns && Same(q, p.key)(o)
    ensures forall p, p' :: p in r.patterns && p' in r.patterns && Same(q, p.key)(o) && Same(q, p'.key)(o) ==> p == p'
  {
    hide ComparisonAt, IsPattern, Sorted;
    IncompleteIs(q, o);
    var k := KeyOf(q, o);
    KeyMeans(q, k, o);
    assert KeySeen(obs, q, k);
    forall p | p in r.patterns && Same(q, p.key)(o) ensures p.key == k {
      ValueIsTheField(o, q.dimension, p.key.0);
      if q.within.Some? { ValueIsTheField(o, q.within.value, p.key.1.value); }
    }
  }

  // ----- verdicts -----

  /** What the step-up asks of test `t`: its p-value times the size of the family, over the number of tests
      at least as strong. */
  ghost function Asked(family: set<Test>, t: Test): real
    requires t in family
  {
    t.p * |family| as real / NoWeaker(family, t) as real
  }

  ghost function NoWeaker(family: set<Test>, t: Test): (n: nat)
    requires t in family
    ensures n > 0
  {
    var s := set x | x in family && x.p <= t.p;
    assert t in s;
    |s|
  }

  /** What each correction makes of a raw p-value. */
  ghost predicate Corrected(correction: Correction, family: set<Test>, raw: real, v: real) {
    match correction
    case Uncorrected => v == raw
    case Bonferroni => v == if raw * |family| as real < 1.0 then raw * |family| as real else 1.0
    case StepUp =>
      && v <= 1.0
      && (forall t :: t in family && raw <= t.p ==> v <= Asked(family, t))
      && (v == 1.0 || exists t :: t in family && raw <= t.p && v == Asked(family, t))
  }

  lemma BoundMeans(family: set<Test>, t: Test)
    requires t in family
    ensures t in AtMost(family, t.p) && Bound(family, t.p) == Asked(family, t)
  {
    assert AtMost(family, t.p) == set x | x in family && x.p <= t.p;
  }

  lemma StepUpMeans(family: set<Test>, raw: real, v: real)
    ensures IsStepUp(family, raw, v) <==> Corrected(StepUp, family, raw, v)
  {
    hide Bound, AtMost, Asked;
    forall t | t in family ensures t in AtMost(family, t.p) && Bound(family, t.p) == Asked(family, t) {
      BoundMeans(family, t);
    }
    forall t | t in family ensures BoundsAt(family, t, v) <==> v <= Asked(family, t) {
    }
    forall t ensures AttainedAt(family, t, v) <==> t in family && v == Asked(family, t) {
    }
    hide BoundsAt, AttainedAt;
  }

  lemma AdjustedMeans(correction: Correction, family: set<Test>, raw: real, v: real)
    ensures IsAdjusted(correction, family, raw, v) <==> Corrected(correction, family, raw, v)
  {
    if correction == StepUp {
      hide IsStepUp, Asked;
      StepUpMeans(family, raw, v);
    } else {
      hide IsStepUp, Asked;
    }
  }

  /** A pattern is tested when both its sides are large enough, with the exact test's p-value adjusted over
      the whole family, and is a finding when that is at most alpha. */
  lemma FindingsAreTested(
    obs: seq<Observation>, q: Question, s: Settings, family: set<Test>, r: Report, p: Pattern)
    requires ValidSettings(s) && IsFamily(obs, q, s, family) && IsReport(obs, q, s, family, r) && p in r.patterns
    ensures (var small := p.comparison.observed.trials < s.minimumSample || p.comparison.reference.trials < s.minimumSample;
             && (p.verdict == NotEnoughData <==> small)
             && (p.adjusted.None? <==> small)
             && (!small ==>
                   && p.comparison.pValue == Some(s.exact(p.comparison.observed, p.comparison.reference))
                   && Corrected(s.correction, family, p.comparison.pValue.value, p.adjusted.value)
                   && (p.verdict == Significant <==> p.adjusted.value <= s.alpha)))
  {
    hide IsAdjusted, Corrected, Stratum, CountsOf, KeySeen, Rest;
    assert IsPattern(obs, q, s, family, p);
    if p.comparison.pValue.Some? {
      AdjustedMeans(s.correction, family, p.comparison.pValue.value, p.adjusted.value);
    }
  }

  /** The family is every pattern of the report that was tested, once each. */
  lemma FamilyIsTheTested(obs: seq<Observation>, q: Question, s: Settings, family: set<Test>, r: Report, t: Test)
    requires IsFamily(obs, q, s, family) && IsReport(obs, q, s, family, r)
    ensures t in family <==> exists p :: p in r.patterns && p.key == t.key && p.comparison.pValue == Some(t.p)
  {
    hide ComparisonAt, IsAdjusted, Sorted, OncePerKey;
    if t in family {
      assert InFamily(obs, q, s, t);
      assert KeyPresent(r.patterns, t.key);
      var p :| p in r.patterns && p.key == t.key;
      assert IsPattern(obs, q, s, family, p);
    }
    if p :| p in r.patterns && p.key == t.key && p.comparison.pValue == Some(t.p) {
      assert IsPattern(obs, q, s, family, p);
      assert InFamily(obs, q, s, t);
    }
  }

  // ----- order -----

  /** Among the tested patterns the most convincing first, ties by value and then by stratum; the untested
      ones last, by value and stratum. */
  ghost predicate StandsBefore(a: Pattern, b: Pattern) {
    match (a.adjusted, b.adjusted)
    case (Some(x), None) => true
    case (None, Some(y)) => false
    case (Some(x), Some(y)) => x < y || (x == y && NamedNoLater(a.key, b.key))
    case (None, None) => NamedNoLater(a.key, b.key)
  }

  predicate NamedNoLater(a: Key, b: Key) {
    var x, y := if a.1.Some? then a.1.value else "", if b.1.Some? then b.1.value else "";
    (a.0 != b.0 && StringLe(a.0, b.0)) || (a.0 == b.0 && StringLe(x, y))
  }

  lemma PatternsStandInOrder(
    obs: seq<Observation>, q: Question, s: Settings, family: set<Test>, r: Report, i: int, j: int)
    requires IsReport(obs, q, s, family, r) && 0 <= i < j < |r.patterns|
    ensures StandsBefore(r.patterns[i], r.patterns[j])
  {
    hide IsPattern, KeySeen, KeyPresent, OncePerKey;
    assert PatternLe(r.patterns[i], r.patterns[j]);
  }
}
