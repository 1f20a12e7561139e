/**
 Stratified leave-one-out comparison, after `diagnostics/analysis/src/analysis/patterns.py`.
 The exact test itself is a parameter: any function into [0, 1].
 */
module Patterns {
  import opened Sequences
  import opened Ordering
  import opened StepUp

  datatype Dimension = Carrier | Lane | Lot | DefectClass | TimeBucket

  datatype Observation = Observation(
    outcome: bool, carrier: Option<string>, lane: Option<string>, lot: Option<string>,
    defectClass: Option<string>, timeBucket: Option<string>)
  {
    function Value(d: Dimension): Option<string> {
      match d
      case Carrier => carrier
      case Lane => lane
      case Lot => lot
      case DefectClass => defectClass
      case TimeBucket => timeBucket
    }
  }

  datatype Counts = Counts(successes: int, trials: int)

  datatype Verdict = Significant | NotSignificant | NotEnoughData

  datatype Comparison = Comparison(observed: Counts, reference: Counts, pValue: Option<real>, verdict: Verdict)

  type ExactTest = (Counts, Counts) -> real

  datatype Settings = Settings(alpha: real, minimumSample: int, correction: Correction, exact: ExactTest)

  ghost predicate ValidSettings(s: Settings) {
    && 0.0 < s.alpha < 1.0 && s.minimumSample >= 1
    && forall a, b :: 0.0 <= s.exact(a, b) <= 1.0
  }

  function CompareProportions(observed: Counts, reference: Counts, s: Settings): Comparison {
    if observed.trials < s.minimumSample || reference.trials < s.minimumSample then
      Comparison(observed, reference, None, NotEnoughData)
    else
      var p := s.exact(observed, reference);
      Comparison(observed, reference, Some(p), if p <= s.alpha then Significant else NotSignificant)
  }

  // ----- what is counted -----

  type Property = Observation -> bool

  function Has(d: Dimension): Property { (o: Observation) => o.Value(d).Some? }

  function Is(d: Dimension, v: string): Property { (o: Observation) => o.Value(d) == Some(v) }

  function Hit(p: Property): Property { (o: Observation) => p(o) && o.outcome }

  function Count(p: Property, s: seq<Observation>): nat { |Filter(p, s)| }

  function CountsOf(p: Property, s: seq<Observation>): Counts { Counts(Count(Hit(p), s), Count(p, s)) }

  function Rest(all: Counts, part: Counts): Counts {
    Counts(all.successes - part.successes, all.trials - part.trials)
  }

  /** One value against the pool with that value taken out. */
  function LeaveOneOut(members: seq<Observation>, d: Dimension, v: string, s: Settings): Comparison {
    var observed := CountsOf(Is(d, v), members);
    CompareProportions(observed, Rest(CountsOf(Has(d), members), observed), s)
  }

  // ----- what a report is -----

  datatype Question = Question(dimension: Dimension, within: Option<Dimension>)
  {
    function StratumOf(o: Observation): Option<string> {
      if within.None? then None else o.Value(within.value)
    }

    predicate Attributed(o: Observation) {
      o.Value(dimension).Some? && (within.Some? ==> StratumOf(o).Some?)
    }
  }

  function Outside(q: Question): Property { (o: Observation) => !q.Attributed(o) }

  function Inside(q: Question, stratum: Option<string>): Property {
    (o: Observation) => q.Attributed(o) && q.StratumOf(o) == stratum
  }

  /** The observations compared with one another. */
  function Stratum(obs: seq<Observation>, q: Question, stratum: Option<string>): seq<Observation> {
    Filter(Inside(q, stratum), obs)
  }

  function ComparisonAt(obs: seq<Observation>, q: Question, k: Key, s: Settings): Comparison {
    LeaveOneOut(Stratum(obs, q, k.1), q.dimension, k.0, s)
  }

  predicate HasKey(q: Question, k: Key, o: Observation) {
    q.Attributed(o) && o.Value(q.dimension) == Some(k.0) && q.StratumOf(o) == k.1
  }

  ghost predicate KeySeen(obs: seq<Observation>, q: Question, k: Key) {
    exists o :: o in obs && HasKey(q, k, o)
  }

  datatype Pattern = Pattern(key: Key, comparison: Comparison, adjusted: Option<real>, verdict: Verdict)

  datatype Report = Report(patterns: seq<Pattern>, unattributed: nat)

  function VerdictOf(c: Comparison, adjusted: Option<real>, alpha: real): Verdict {
    if adjusted.None? then c.verdict else if adjusted.value <= alpha then Significant else NotSignificant
  }

  /** The values that could not be tested last, then by adjusted value, then by key. */
  predicate PatternLe(a: Pattern, b: Pattern) {
    if a.adjusted.None? != b.adjusted.None? then a.adjusted.Some?
    else if OrZero(a.adjusted) != OrZero(b.adjusted) then OrZero(a.adjusted) < OrZero(b.adjusted)
    else KeyLe(a.key, b.key)
  }

  function OrZero(v: Option<real>): real {
    if v.Some? then v.value else 0.0
  }

  /** The multiplicity family: every stratum's comparisons that cleared the sample gate. */
  ghost predicate InFamily(obs: seq<Observation>, q: Question, s: Settings, t: Test) {
    KeySeen(obs, q, t.key) && ComparisonAt(obs, q, t.key, s).pValue == Some(t.p)
  }

  ghost predicate IsFamily(obs: seq<Observation>, q: Question, s: Settings, family: set<Test>) {
    forall t :: t in family <==> InFamily(obs, q, s, t)
  }

  ghost function KeyOf(q: Question, o: Observation): Key
    requires q.Attributed(o)
  {
    (o.Value(q.dimension).value, q.StratumOf(o))
  }

  /** The family as a set; `FamilyIs` says that it is one. */
  ghost function Family(obs: seq<Observation>, q: Question, s: Settings): set<Test> {
    var keys := set o | o in obs && q.Attributed(o) :: KeyOf(q, o);
    set k | k in keys && ComparisonAt(obs, q, k, s).pValue.Some? :: Test(k, ComparisonAt(obs, q, k, s).pValue.value)
  }

  lemma FamilyIs(obs: seq<Observation>, q: Question, s: Settings)
    ensures IsFamily(obs, q, s, Family(obs, q, s))
  {
    hide ComparisonAt;
    forall t ensures t in Family(obs, q, s) <==> InFamily(obs, q, s, t) {
      if InFamily(obs, q, s, t) {
        var o :| o in obs && HasKey(q, t.key, o);
        assert KeyOf(q, o) == t.key;
      }
    }
  }

  ghost predicate IsPattern(obs: seq<Observation>, q: Question, s: Settings, family: set<Test>, p: Pattern) {
    var c := ComparisonAt(obs, q, p.key, s);
    && KeySeen(obs, q, p.key)
    && p.comparison == c
    && (p.adjusted.None? <==> c.pValue.None?)
    && (c.pValue.Some? ==> IsAdjusted(s.correction, family, c.pValue.value, p.adjusted.value))
    && p.verdict == VerdictOf(c, p.adjusted, s.alpha)
  }

  ghost predicate OncePerKey(patterns: seq<Pattern>) {
    forall i, j :: 0 <= i < j < |patterns| ==> patterns[i].key != patterns[j].key
  }

  ghost predicate KeyPresent(patterns: seq<Pattern>, k: Key) {
    exists p :: p in patterns && p.key == k
  }

  /** What the answer is, with no word about the order anything was computed in. */
  ghost predicate IsReport(obs: seq<Observation>, q: Question, s: Settings, family: set<Test>, r: Report) {
    && Sorted(PatternLe, r.patterns)
    && OncePerKey(r.patterns)
    && (forall k :: KeySeen(obs, q, k) <==> KeyPresent(r.patterns, k))
    && (forall p :: p in r.patterns ==> IsPattern(obs, q, s, family, p))
    && r.unattributed == Count(Outside(q), obs)
  }

  // ----- the report depends on the multiset of observations only -----

  lemma KeyLeAntisymmetric(a: Key, b: Key)
    requires KeyLe(a, b) && KeyLe(b, a)
    ensures a.0 == b.0 && Text(a.1) == Text(b.1)
  {
    if a.0 == b.0 {
      StringLeAntisymmetric(Text(a.1), Text(b.1));
    } else {
      StringLeAntisymmetric(a.0, b.0);
    }
  }

  lemma CountPermutation(p: Property, a: seq<Observation>, b: seq<Observation>)
    requires multiset(a) == multiset(b)
    ensures Count(p, a) == Count(p, b)
  {
    FilterPermutation(p, a, b);
    assert |multiset(Filter(p, a))| == |Filter(p, a)| && |multiset(Filter(p, b))| == |Filter(p, b)|;
  }

  lemma ComparisonPermutation(a: seq<Observation>, b: seq<Observation>, q: Question, k: Key, s: Settings)
    requires multiset(a) == multiset(b)
    ensures ComparisonAt(a, q, k, s) == ComparisonAt(b, q, k, s)
    ensures KeySeen(a, q, k) == KeySeen(b, q, k)
  {
    hide Filter, CompareProportions, Has, Is, Hit, Inside, Count, HasKey;
    var x, y := Stratum(a, q, k.1), Stratum(b, q, k.1);
    FilterPermutation(Inside(q, k.1), a, b);
    CountPermutation(Is(q.dimension, k.0), x, y);
    CountPermutation(Hit(Is(q.dimension, k.0)), x, y);
    CountPermutation(Has(q.dimension), x, y);
    CountPermutation(Hit(Has(q.dimension)), x, y);
    PermutationMembers(a, b);
  }

  lemma PatternsAgree(
    obs: seq<Observation>, q: Question, s: Settings, family: set<Test>, a: Pattern, b: Pattern)
    requires ValidSettings(s) && IsFamily(obs, q, s, family) && a.key == b.key
    requires IsPattern(obs, q, s, family, a) && IsPattern(obs, q, s, family, b)
    ensures a == b
  {
    hide ComparisonAt, KeySeen, IsAdjusted;
    var c := a.comparison;
    if c.pValue.Some? {
      var t := Test(a.key, c.pValue.value);
      assert InFamily(obs, q, s, t);
      FamilyHoldsProbabilities(obs, q, s, family);
      AdjustedIsUnique(s.correction, family, t, a.adjusted.value, b.adjusted.value);
    }
  }

  lemma FamilyHoldsProbabilities(obs: seq<Observation>, q: Question, s: Settings, family: set<Test>)
    requires ValidSettings(s) && IsFamily(obs, q, s, family)
    ensures Probabilities(family)
  {
    hide Count, Stratum, KeySeen, CountsOf;
    forall t | t in family ensures 0.0 <= t.p <= 1.0 {
      assert InFamily(obs, q, s, t);
    }
  }

  lemma NoTwoPatternsTie(obs: seq<Observation>, q: Question, s: Settings, family: set<Test>, patterns: seq<Pattern>)
    requires ValidSettings(s) && IsFamily(obs, q, s, family)
    requires forall p :: p in patterns ==> IsPattern(obs, q, s, family, p)
    ensures NoTies(PatternLe, patterns)
  {
    hide ComparisonAt, IsFamily, ValidSettings, IsAdjusted, KeyLe;
    forall a, b | a in patterns && b in patterns && PatternLe(a, b) && PatternLe(b, a) ensures a == b {
      KeyLeAntisymmetric(a.key, b.key);
      assert a.key.1.Some? == b.key.1.Some? == q.within.Some?;
      PatternsAgree(obs, q, s, family, a, b);
    }
  }

  lemma PatternsContained(
    obs: seq<Observation>, q: Question, s: Settings, family: set<Test>, a: Report, b: Report, p: Pattern)
    requires ValidSettings(s) && IsFamily(obs, q, s, family)
    requires IsReport(obs, q, s, family, a) && IsReport(obs, q, s, family, b) && p in a.patterns
    ensures p in b.patterns
  {
    hide IsFamily, ValidSettings, IsAdjusted, KeySeen, ComparisonAt, Count, Sorted;
    assert KeyPresent(b.patterns, p.key);
    var other :| other in b.patterns && other.key == p.key;
    PatternsAgree(obs, q, s, family, p, other);
  }

  /** There is one answer to a question. */
  lemma ReportIsUnique(obs: seq<Observation>, q: Question, s: Settings, family: set<Test>, a: Report, b: Report)
    requires ValidSettings(s) && IsFamily(obs, q, s, family)
    requires IsReport(obs, q, s, family, a) && IsReport(obs, q, s, family, b)
    ensures a == b
  {
    hide IsFamily, ValidSettings, PatternLe, IsPattern, KeySeen, Sorted, Count;
    forall p ensures p in a.patterns <==> p in b.patterns {
      if p in a.patterns { PatternsContained(obs, q, s, family, a, b, p); }
      if p in b.patterns { PatternsContained(obs, q, s, family, b, a, p); }
    }
    assert Distinct(a.patterns) && Distinct(b.patterns);
    SameMembersSameMultiset(a.patterns, b.patterns);
    NoTwoPatternsTie(obs, q, s, family, a.patterns);
    SortedUnique(PatternLe, a.patterns, b.patterns);
  }

  lemma ReportPermutation(
    a: seq<Observation>, b: seq<Observation>, q: Question, s: Settings, family: set<Test>, r: Report)
    requires multiset(a) == multiset(b)
    requires IsFamily(a, q, s, family) && IsReport(a, q, s, family, r)
    ensures IsFamily(b, q, s, family) && IsReport(b, q, s, family, r)
  {
    hide ComparisonAt, KeySeen, Sorted, PatternLe, KeyPresent, IsAdjusted, Count, OncePerKey;
    forall k ensures ComparisonAt(a, q, k, s) == ComparisonAt(b, q, k, s) && KeySeen(a, q, k) == KeySeen(b, q, k) {
      ComparisonPermutation(a, b, q, k, s);
    }
    CountPermutation(Outside(q), a, b);
  }

  /** Permuting the observations changes nothing in the report: not a verdict, not an adjusted
      value, not the order of the findings. */
  lemma ReportIgnoresOrder(
    a: seq<Observation>, b: seq<Observation>, q: Question, s: Settings,
    fa: set<Test>, fb: set<Test>, ra: Report, rb: Report)
    requires ValidSettings(s) && multiset(a) == multiset(b)
    requires IsFamily(a, q, s, fa) && IsReport(a, q, s, fa, ra)
    requires IsFamily(b, q, s, fb) && IsReport(b, q, s, fb, rb)
    ensures ra == rb
  {
    ReportPermutation(b, a, q, s, fb, rb);
    assert fa == fb by {
      hide InFamily;
    }
    ReportIsUnique(a, q, s, fa, ra, rb);
  }

  // ----- every observation is counted once -----

  lemma {:induction false} CountSplit(p: Property, part: Property, rest: Property, s: seq<Observation>)
    requires forall o :: o in s ==> (p(o) <==> part(o) || rest(o)) && !(part(o) && rest(o))
    ensures Count(p, s) == Count(part, s) + Count(rest, s)
  {
    if s != [] {
      CountSplit(p, part, rest, s[1..]);
    }
  }

  /** A value and its leave-one-out rest make up the stratum, in trials and in successes, and
      both sides are counts: nothing negative, no more successes than trials. */
  lemma RestIsEverythingElse(obs: seq<Observation>, q: Question, k: Key, s: Settings)
    ensures (
      var c := ComparisonAt(obs, q, k, s);
      var stratum := Stratum(obs, q, k.1);
      && c.observed == CountsOf(Is(q.dimension, k.0), stratum)
      && c.reference == CountsOf(IsAnother(q.dimension, k.0), stratum)
      && c.observed.trials + c.reference.trials == |stratum|
      && c.observed.successes + c.reference.successes == Count(Hit(Has(q.dimension)), stratum)
      && 0 <= c.observed.successes <= c.observed.trials
      && 0 <= c.reference.successes <= c.reference.trials)
  {
    hide Filter;
    var stratum := Stratum(obs, q, k.1);
    var has, one, others := Has(q.dimension), Is(q.dimension, k.0), IsAnother(q.dimension, k.0);
    CountSplit(has, one, others, stratum);
    CountSplit(Hit(has), Hit(one), Hit(others), stratum);
    CountEverything(has, stratum);
    CountFewer(Hit(one), one, stratum);
    CountFewer(Hit(others), others, stratum);
  }

  /** Observations with a value along the dimension, but not this one. */
  function IsAnother(d: Dimension, v: string): Property {
    (o: Observation) => o.Value(d).Some? && o.Value(d) != Some(v)
  }

  lemma {:induction false} CountEverything(p: Property, s: seq<Observation>)
    requires forall o :: o in s ==> p(o)
    ensures Count(p, s) == |s|
  {
    if s != [] {
      CountEverything(p, s[1..]);
    }
  }

  lemma {:induction false} CountFewer(p: Property, q: Property, s: seq<Observation>)
    requires forall o :: o in s && p(o) ==> q(o)
    ensures Count(p, s) <= Count(q, s)
  {
    if s != [] {
      CountFewer(p, q, s[1..]);
    }
  }

  function Trials(patterns: seq<Pattern>): int {
    if patterns == [] then 0 else Trials(patterns[1..]) + patterns[0].comparison.observed.trials
  }

  function WithKey(q: Question, k: Key): Property { (o: Observation) => HasKey(q, k, o) }

  ghost function WithKeyIn(q: Question, patterns: seq<Pattern>): Property {
    (o: Observation) => exists p :: p in patterns && HasKey(q, p.key, o)
  }

  lemma TrialsOfOne(obs: seq<Observation>, q: Question, k: Key, s: Settings)
    ensures ComparisonAt(obs, q, k, s).observed.trials == Count(WithKey(q, k), obs)
  {
    FilterBoth(Is(q.dimension, k.0), Inside(q, k.1), WithKey(q, k), obs);
  }

  lemma {:induction false} TrialsAreKeyed(
    obs: seq<Observation>, q: Question, s: Settings, family: set<Test>, patterns: seq<Pattern>)
    requires OncePerKey(patterns) && forall p :: p in patterns ==> IsPattern(obs, q, s, family, p)
    ensures Trials(patterns) == Count(WithKeyIn(q, patterns), obs)
  {
    hide ComparisonAt, KeySeen, IsAdjusted, CompareProportions, Count;
    if patterns == [] {
      CountNothing(WithKeyIn(q, patterns), obs);
    } else {
      var head, tail := patterns[0], patterns[1..];
      TrialsAreKeyed(obs, q, s, family, tail);
      assert head.comparison == ComparisonAt(obs, q, head.key, s) by { assert IsPattern(obs, q, s, family, head); }
      TrialsOfOne(obs, q, head.key, s);
      forall o ensures WithKeyIn(q, patterns)(o) <==> WithKey(q, head.key)(o) || WithKeyIn(q, tail)(o) {
        assert forall p :: p in patterns <==> p == head || p in tail;
      }
      forall o ensures !(WithKey(q, head.key)(o) && WithKeyIn(q, tail)(o)) {
        assert forall p :: p in tail ==> p.key != head.key;
      }
      CountSplit(WithKeyIn(q, patterns), WithKey(q, head.key), WithKeyIn(q, tail), obs);
    }
  }

  lemma {:induction false} CountNothing(p: Property, s: seq<Observation>)
    requires forall o :: o in s ==> !p(o)
    ensures Count(p, s) == 0
  {
    if s != [] {
      CountNothing(p, s[1..]);
    }
  }

  /** Trials over all patterns plus the unattributed are the observations. */
  lemma EveryObservationIsCounted(obs: seq<Observation>, q: Question, s: Settings, family: set<Test>, r: Report)
    requires IsReport(obs, q, s, family, r)
    ensures Trials(r.patterns) + r.unattributed == |obs|
  {
    hide ComparisonAt, IsPattern, Count, Sorted, OncePerKey;
    TrialsAreKeyed(obs, q, s, family, r.patterns);
    var all := (o: Observation) => true;
    forall o | o in obs ensures WithKeyIn(q, r.patterns)(o) <==> !Outside(q)(o) {
      if q.Attributed(o) {
        var k := (o.Value(q.dimension).value, q.StratumOf(o));
        assert HasKey(q, k, o);
        assert KeySeen(obs, q, k);
      }
    }
    CountSplit(all, WithKeyIn(q, r.patterns), Outside(q), obs);
    CountEverything(all, obs);
  }

  // ----- verdicts -----

  /** Correction only ever takes findings away, and a value that missed the sample gate is said
      to have missed it. */
  lemma VerdictIsNeverStronger(
    obs: seq<Observation>, q: Question, s: Settings, family: set<Test>, r: Report, p: Pattern)
    requires ValidSettings(s) && IsFamily(obs, q, s, family) && IsReport(obs, q, s, family, r) && p in r.patterns
    ensures p.verdict == Significant ==> p.comparison.verdict == Significant
    ensures p.verdict == NotEnoughData <==> p.comparison.verdict == NotEnoughData
    ensures p.verdict == NotEnoughData <==> p.adjusted.None?
  {
    hide KeySeen, IsAdjusted, Count, KeyPresent, OncePerKey, Sorted, CountsOf, Stratum;
    assert IsPattern(obs, q, s, family, p);
    if p.comparison.pValue.Some? {
      var t := Test(p.key, p.comparison.pValue.value);
      assert InFamily(obs, q, s, t);
      FamilyHoldsProbabilities(obs, q, s, family);
      AdjustedIsUnique(s.correction, family, t, p.adjusted.value, p.adjusted.value);
    }
  }

  /** Under the step-up, a value is a finding exactly when some test no stronger than it carries:
      ranks 1 to k for the largest k with p(k) at most k·alpha/m. */
  lemma FindingsAreTheStepUpSet(
    obs: seq<Observation>, q: Question, s: Settings, family: set<Test>, r: Report, p: Pattern)
    requires ValidSettings(s) && s.correction == StepUp
    requires IsFamily(obs, q, s, family) && IsReport(obs, q, s, family, r) && p in r.patterns
    ensures p.verdict == Significant <==>
              p.comparison.pValue.Some? &&
              exists t: Test :: p.comparison.pValue.value <= t.p && Carries(family, t, s.alpha)
  {
    hide KeySeen, Count, KeyPresent, OncePerKey, Sorted, CountsOf, Stratum, IsStepUp, Carries;
    assert IsPattern(obs, q, s, family, p);
    if p.comparison.pValue.Some? {
      BelowAlphaWhenCarried(family, p.comparison.pValue.value, p.adjusted.value, s.alpha);
    }
  }

  // ----- the counters of one stratum -----

  type Counter = map<string, nat>

  function Lookup(c: Counter, v: string): nat {
    if v in c then c[v] else 0
  }

  function Total(values: seq<string>, c: Counter): nat {
    if values == [] then 0 else Total(values[1..], c) + Lookup(c, values[0])
  }

  ghost predicate Tallies(c: Counter, d: Dimension, hit: bool, seen: seq<Observation>) {
    forall v :: Lookup(c, v) == Count(Chosen(Is(d, v), hit), seen)
  }

  function Chosen(p: Property, hit: bool): Property {
    if hit then Hit(p) else p
  }

  ghost predicate Valued(values: seq<string>, d: Dimension, seen: seq<Observation>) {
    Distinct(values) && forall v :: v in values <==> Count(Is(d, v), seen) > 0
  }

  lemma CountOneMore(p: Property, s: seq<Observation>, o: Observation)
    ensures Count(p, s + [o]) == Count(p, s) + if p(o) then 1 else 0
  {
    FilterOneMore(p, s, o);
  }

  lemma CountSome(p: Property, s: seq<Observation>, o: Observation)
    requires o in s && p(o)
    ensures Count(p, s) > 0
  {
    assert o in Filter(p, s);
  }

  function OneOf(d: Dimension, values: seq<string>): Property {
    (o: Observation) => o.Value(d).Some? && o.Value(d).value in values
  }

  lemma {:induction false} TotalCounts(values: seq<string>, c: Counter, d: Dimension, hit: bool, seen: seq<Observation>)
    requires Distinct(values) && Tallies(c, d, hit, seen)
    ensures Total(values, c) == Count(Chosen(OneOf(d, values), hit), seen)
  {
    hide Count;
    var all := Chosen(OneOf(d, values), hit);
    if values == [] {
      CountNothing(all, seen);
    } else {
      var one, rest := Chosen(Is(d, values[0]), hit), Chosen(OneOf(d, values[1..]), hit);
      TotalCounts(values[1..], c, d, hit, seen);
      forall o ensures (all(o) <==> one(o) || rest(o)) && !(one(o) && rest(o)) {
        assert values == [values[0]] + values[1..];
      }
      CountSplit(all, one, rest, seen);
    }
  }

  /** Every value that occurs is counted, so the counters add up to the whole stratum. */
  lemma TotalIsEverything(values: seq<string>, c: Counter, d: Dimension, hit: bool, seen: seq<Observation>)
    requires Valued(values, d, seen) && Tallies(c, d, hit, seen)
    ensures Total(values, c) == Count(Chosen(Has(d), hit), seen)
  {
    hide Total;
    TotalCounts(values, c, d, hit, seen);
    forall o | o in seen && Has(d)(o) ensures o.Value(d).value in values {
      CountSome(Is(d, o.Value(d).value), seen, o);
    }
    CountFewer(Chosen(Has(d), hit), Chosen(OneOf(d, values), hit), seen);
    CountFewer(Chosen(OneOf(d, values), hit), Chosen(Has(d), hit), seen);
  }

  lemma TallyOneMore(c: Counter, d: Dimension, hit: bool, seen: seq<Observation>, o: Observation, next: Counter)
    requires Tallies(c, d, hit, seen)
    requires next == if Chosen(Has(d), hit)(o) then c[o.Value(d).value := Lookup(c, o.Value(d).value) + 1] else c
    ensures Tallies(next, d, hit, seen + [o])
  {
    hide Count;
    forall v ensures Lookup(next, v) == Count(Chosen(Is(d, v), hit), seen + [o]) {
      CountOneMore(Chosen(Is(d, v), hit), seen, o);
    }
  }

  lemma ValuedOneMore(values: seq<string>, d: Dimension, seen: seq<Observation>, o: Observation, next: seq<string>)
    requires Valued(values, d, seen)
    requires next == if o.Value(d).Some? && o.Value(d).value !in values then values + [o.Value(d).value] else values
    ensures Valued(next, d, seen + [o])
  {
    hide Count;
    forall v ensures v in next <==> Count(Is(d, v), seen + [o]) > 0 {
      CountOneMore(Is(d, v), seen, o);
    }
  }

  /** One stratum: every value against the rest. `values` is the order the table was filled in. */
  method Compare(members: seq<Observation>, d: Dimension, s: Settings)
    returns (values: seq<string>, comparisons: map<string, Comparison>)
    ensures Valued(values, d, members)
    ensures forall v :: v in values <==> v in comparisons
    ensures forall v :: v in values ==> comparisons[v] == LeaveOneOut(members, d, v, s)
  {
    hide Count, LeaveOneOut, Total, Tallies, Valued;
    var successes: Counter, trials: Counter := map[], map[];
    values := [];
    NothingTallied(d);
    for i := 0 to |members|
      invariant Valued(values, d, members[..i])
      invariant Tallies(trials, d, false, members[..i]) && Tallies(successes, d, true, members[..i])
      invariant forall v :: v in values <==> v in trials
    {
      var o := members[i];
      ghost var seen, oldValues, oldTrials, oldSuccesses := members[..i], values, trials, successes;
      var value := o.Value(d);
      if value.Some? {
        values := if value.value in trials then values else values + [value.value];
        trials := trials[value.value := Lookup(trials, value.value) + 1];
        if o.outcome {
          successes := successes[value.value := Lookup(successes, value.value) + 1];
        }
      }
      assert members[..i + 1] == seen + [o];
      ValuedOneMore(oldValues, d, seen, o, values);
      TallyOneMore(oldTrials, d, false, seen, o, trials);
      TallyOneMore(oldSuccesses, d, true, seen, o, successes);
    }
    assert members[..|members|] == members;
    var all := Counts(Total(values, successes), Total(values, trials));
    TotalIsEverything(values, successes, d, true, members);
    TotalIsEverything(values, trials, d, false, members);
    comparisons := map v | v in trials :: Against(Counts(Lookup(successes, v), trials[v]), all, s);
    forall v | v in values ensures comparisons[v] == LeaveOneOut(members, d, v, s) {
      TalliedIsLeaveOneOut(members, d, v, s, trials, successes, all);
    }
  }

  function Against(observed: Counts, all: Counts, s: Settings): Comparison {
    CompareProportions(observed, Rest(all, observed), s)
  }

  lemma NothingTallied(d: Dimension)
    ensures Valued([], d, []) && Tallies(map[], d, false, []) && Tallies(map[], d, true, [])
  {
  }

  lemma TalliedIsLeaveOneOut(
    members: seq<Observation>, d: Dimension, v: string, s: Settings, trials: Counter, successes: Counter, all: Counts)
    requires Tallies(trials, d, false, members) && Tallies(successes, d, true, members)
    requires v in trials && all == CountsOf(Has(d), members)
    ensures Against(Counts(Lookup(successes, v), trials[v]), all, s) == LeaveOneOut(members, d, v, s)
  {
    hide Count, CompareProportions;
    assert Lookup(trials, v) == Count(Chosen(Is(d, v), false), members);
    assert Lookup(successes, v) == Count(Chosen(Is(d, v), true), members);
  }

  // ----- the whole question -----

  type Strata = map<Option<string>, seq<Observation>>

  ghost predicate StratumSeen(obs: seq<Observation>, q: Question, stratum: Option<string>) {
    Count(Inside(q, stratum), obs) > 0
  }

  ghost predicate Grouped(
    seen: seq<Observation>, q: Question, order: seq<Option<string>>, strata: Strata, unattributed: nat)
  {
    && (forall t :: t in order <==> t in strata)
    && (forall t :: t in strata <==> StratumSeen(seen, q, t))
    && (forall t :: t in strata ==> strata[t] == Stratum(seen, q, t))
    && Distinct(order)
    && unattributed == Count(Outside(q), seen)
  }

  /** The list an observation's stratum grows by: the dictionary's entry, or a new empty one. */
  function Entry(strata: Strata, t: Option<string>): seq<Observation> {
    if t in strata then strata[t] else []
  }

  lemma StratumOneMore(seen: seq<Observation>, q: Question, t: Option<string>, o: Observation)
    ensures Stratum(seen + [o], q, t) == Stratum(seen, q, t) + if Inside(q, t)(o) then [o] else []
    ensures StratumSeen(seen + [o], q, t) <==> StratumSeen(seen, q, t) || Inside(q, t)(o)
    ensures !StratumSeen(seen, q, t) ==> Stratum(seen, q, t) == []
  {
    FilterOneMore(Inside(q, t), seen, o);
  }

  lemma GroupOneMore(
    seen: seq<Observation>, q: Question, order: seq<Option<string>>, strata: Strata, unattributed: nat, o: Observation)
    requires Grouped(seen, q, order, strata, unattributed)
    ensures q.Attributed(o) ==>
              var t := q.StratumOf(o);
              Grouped(seen + [o], q, if t in strata then order else order + [t], strata[t := Entry(strata, t) + [o]], unattributed)
    ensures !q.Attributed(o) ==> Grouped(seen + [o], q, order, strata, unattributed + 1)
  {
    hide Distinct, Count, StratumSeen, Stratum;
    CountOneMore(Outside(q), seen, o);
    forall t
      ensures Stratum(seen + [o], q, t) == Stratum(seen, q, t) + if Inside(q, t)(o) then [o] else []
      ensures StratumSeen(seen + [o], q, t) <==> StratumSeen(seen, q, t) || Inside(q, t)(o)
      ensures !StratumSeen(seen, q, t) ==> Stratum(seen, q, t) == []
    {
      StratumOneMore(seen, q, t, o);
    }
    var t := q.StratumOf(o);
    if t !in order {
      DistinctSnoc(order, t);
    }
  }

  type Comparisons = map<Key, Comparison>

  ghost predicate Compared(
    obs: seq<Observation>, q: Question, s: Settings, done: set<Key>, keys: seq<Key>, comparisons: Comparisons)
  {
    && Distinct(keys)
    && (forall k :: k in keys <==> k in comparisons)
    && (forall k :: k in comparisons <==> k in done)
    && (forall k :: k in comparisons ==> comparisons[k] == ComparisonAt(obs, q, k, s))
  }

  lemma CompareOneMore(
    obs: seq<Observation>, q: Question, s: Settings, done: set<Key>, keys: seq<Key>, comparisons: Comparisons, k: Key)
    requires Compared(obs, q, s, done, keys, comparisons) && k !in done
    ensures Compared(obs, q, s, done + {k}, keys + [k], comparisons[k := ComparisonAt(obs, q, k, s)])
  {
    hide ComparisonAt, Distinct;
    DistinctSnoc(keys, k);
  }

  /** Every value of every stratum, once, with its comparison. */
  ghost predicate AllCompared(
    obs: seq<Observation>, q: Question, s: Settings, keys: seq<Key>, comparisons: Comparisons)
  {
    && Distinct(keys)
    && (forall k :: k in keys <==> k in comparisons)
    && (forall k :: k in comparisons <==> KeySeen(obs, q, k))
    && (forall k :: k in comparisons ==> comparisons[k] == ComparisonAt(obs, q, k, s))
  }

  ghost function KeysIn(stratum: Option<string>, values: seq<string>): set<Key> {
    set v | v in values :: (v, stratum)
  }

  /** The keys of the first strata: those strata's values. */
  ghost predicate KeysSeen(obs: seq<Observation>, q: Question, strata: seq<Option<string>>, keys: set<Key>) {
    forall k :: k in keys <==> k.1 in strata && KeySeen(obs, q, k)
  }

  lemma ValuesAreKeys(obs: seq<Observation>, q: Question, t: Option<string>, values: seq<string>)
    requires Valued(values, q.dimension, Stratum(obs, q, t))
    ensures forall v :: v in values <==> KeySeen(obs, q, (v, t))
  {
    forall v ensures v in values <==> KeySeen(obs, q, (v, t)) {
      var stratum, one := Stratum(obs, q, t), Is(q.dimension, v);
      if v in values {
        var o := Filter(one, stratum)[0];
        assert o in Filter(one, stratum);
        assert HasKey(q, (v, t), o);
      }
      if KeySeen(obs, q, (v, t)) {
        var o :| o in obs && HasKey(q, (v, t), o);
        CountSome(one, stratum, o);
      }
    }
  }

  function Tested(keys: seq<Key>, comparisons: Comparisons): seq<Test>
    requires forall k :: k in keys ==> k in comparisons
  {
    if keys == [] then
      []
    else
      var p := comparisons[keys[0]].pValue;
      (if p.Some? then [Test(keys[0], p.value)] else []) + Tested(keys[1..], comparisons)
  }

  lemma {:induction false} TestedAre(keys: seq<Key>, comparisons: Comparisons)
    requires Distinct(keys) && forall k :: k in keys ==> k in comparisons
    ensures forall t: Test :: t in Tested(keys, comparisons) <==> t.key in keys && comparisons[t.key].pValue == Some(t.p)
    ensures DistinctKeys(Tested(keys, comparisons))
  {
    if keys != [] {
      TestedAre(keys[1..], comparisons);
      assert keys == [keys[0]] + keys[1..];
    }
  }

  lemma TestedIsFamily(
    obs: seq<Observation>, q: Question, s: Settings, keys: seq<Key>, comparisons: Comparisons)
    requires ValidSettings(s) && AllCompared(obs, q, s, keys, comparisons)
    ensures Proper(Tested(keys, comparisons)) && IsFamily(obs, q, s, Members(Tested(keys, comparisons)))
  {
    hide KeySeen, Tested, Stratum, LeaveOneOut, ValidSettings;
    TestedAre(keys, comparisons);
    var family := Members(Tested(keys, comparisons));
    FamilyHoldsProbabilities(obs, q, s, family);
  }

  function PatternOf(k: Key, c: Comparison, adjusted: map<Key, real>, alpha: real): Pattern {
    var a := if k in adjusted then Some(adjusted[k]) else None;
    Pattern(k, c, a, VerdictOf(c, a, alpha))
  }

  lemma PatternIsRight(
    obs: seq<Observation>, q: Question, s: Settings, tests: seq<Test>, adjusted: map<Key, real>, k: Key)
    requires Proper(tests) && IsFamily(obs, q, s, Members(tests)) && KeySeen(obs, q, k)
    requires Adjusts(s.correction, tests, adjusted)
    ensures IsPattern(obs, q, s, Members(tests), PatternOf(k, ComparisonAt(obs, q, k, s), adjusted, s.alpha))
  {
    hide ComparisonAt, KeySeen, IsAdjusted, Proper;
    var c := ComparisonAt(obs, q, k, s);
    if c.pValue.Some? {
      var t := Test(k, c.pValue.value);
      assert InFamily(obs, q, s, t);
      assert t in tests;
    }
    if k in adjusted {
      var t :| t in tests && t.key == k;
      assert t in Members(tests);
      assert InFamily(obs, q, s, t);
    }
  }

  lemma PatternLeIsTotalPreorder()
    ensures TotalPreorder(PatternLe)
  {
    forall x, y ensures PatternLe(x, y) || PatternLe(y, x) {
      KeyLeTotal(x.key, y.key);
    }
    hide KeyLe;
    forall x, y, z | PatternLe(x, y) && PatternLe(y, z) ensures PatternLe(x, z) {
      if KeyLe(x.key, y.key) && KeyLe(y.key, z.key) { KeyLeTransitive(x.key, y.key, z.key); }
    }
  }

  /** A list of right patterns, one per key, is a report once it is sorted. */
  lemma SortedPatternsAreReport(
    obs: seq<Observation>, q: Question, s: Settings, family: set<Test>, patterns: seq<Pattern>, unattributed: nat)
    requires OncePerKey(patterns) && unattributed == Count(Outside(q), obs)
    requires forall k :: KeySeen(obs, q, k) <==> KeyPresent(patterns, k)
    requires forall p :: p in patterns ==> IsPattern(obs, q, s, family, p)
    ensures IsReport(obs, q, s, family, Report(Sort(PatternLe, patterns), unattributed))
  {
    hide KeySeen, IsPattern, Count, PatternLe, Sorted, Sort, OncePerKey;
    var sorted := Sort(PatternLe, patterns);
    PatternLeIsTotalPreorder();
    SortSorts(PatternLe, patterns);
    SortKeepsKeysOnce(patterns);
    forall k ensures KeyPresent(sorted, k) <==> KeyPresent(patterns, k) {
    }
  }

  lemma SortKeepsKeysOnce(patterns: seq<Pattern>)
    requires OncePerKey(patterns)
    ensures OncePerKey(Sort(PatternLe, patterns))
  {
    hide Sort;
    var sorted := Sort(PatternLe, patterns);
    assert Distinct(patterns);
    DistinctCount(patterns);
    DistinctCount(sorted);
    forall i, j | 0 <= i < j < |sorted| ensures sorted[i].key != sorted[j].key {
      assert sorted[i] in patterns && sorted[j] in patterns && sorted[i] != sorted[j];
    }
  }

  lemma NoStratumYet(q: Question)
    ensures Grouped([], q, [], map[], 0)
  {
  }

  method Group(obs: seq<Observation>, q: Question)
    returns (order: seq<Option<string>>, strata: Strata, unattributed: nat)
    ensures Grouped(obs, q, order, strata, unattributed)
  {
    hide Grouped;
    order, strata, unattributed := [], map[], 0;
    NoStratumYet(q);
    for i := 0 to |obs|
      invariant Grouped(obs[..i], q, order, strata, unattributed)
    {
      var o := obs[i];
      assert obs[..i + 1] == obs[..i] + [o];
      GroupOneMore(obs[..i], q, order, strata, unattributed, o);
      if !q.Attributed(o) {
        unattributed := unattributed + 1;
      } else {
        var t := q.StratumOf(o);
        order := if t in strata then order else order + [t];
        strata := strata[t := Entry(strata, t) + [o]];
      }
    }
    assert obs[..|obs|] == obs;
  }

  lemma NothingCompared(obs: seq<Observation>, q: Question, s: Settings)
    ensures Compared(obs, q, s, {}, [], map[]) && KeysSeen(obs, q, [], {})
  {
  }

  /** A stratum is gone through once, and each of its values once. */
  lemma KeyIsNew(
    obs: seq<Observation>, q: Question, order: seq<Option<string>>, i: nat, values: seq<string>, j: nat, before: set<Key>)
    requires i < |order| && j < |values| && Distinct(order) && Distinct(values)
    requires KeysSeen(obs, q, order[..i], before)
    ensures (values[j], order[i]) !in before + KeysIn(order[i], values[..j])
  {
  }

  lemma StratumIsDone(
    obs: seq<Observation>, q: Question, order: seq<Option<string>>, i: nat, values: seq<string>, before: set<Key>)
    requires i < |order| && KeysSeen(obs, q, order[..i], before)
    requires Valued(values, q.dimension, Stratum(obs, q, order[i]))
    ensures KeysSeen(obs, q, order[..i + 1], before + KeysIn(order[i], values))
  {
    hide KeySeen, Valued;
    ValuesAreKeys(obs, q, order[i], values);
    assert order[..i + 1] == order[..i] + [order[i]];
    forall k ensures k in KeysIn(order[i], values) <==> k.1 == order[i] && k.0 in values {
    }
  }

  lemma SeenKeysHaveStrata(obs: seq<Observation>, q: Question, k: Key)
    requires KeySeen(obs, q, k)
    ensures StratumSeen(obs, q, k.1)
  {
    var o :| o in obs && HasKey(q, k, o);
    CountSome(Inside(q, k.1), obs, o);
  }

  lemma EveryStratumDone(
    obs: seq<Observation>, q: Question, s: Settings, order: seq<Option<string>>, strata: Strata, unattributed: nat,
    done: set<Key>, keys: seq<Key>, comparisons: Comparisons)
    requires Grouped(obs, q, order, strata, unattributed) && KeysSeen(obs, q, order, done)
    requires Compared(obs, q, s, done, keys, comparisons)
    ensures AllCompared(obs, q, s, keys, comparisons)
  {
    hide KeySeen, StratumSeen, Stratum, ComparisonAt, Distinct;
    forall k | KeySeen(obs, q, k) ensures k.1 in order {
      SeenKeysHaveStrata(obs, q, k);
    }
  }

  lemma ComparisonInStratum(
    obs: seq<Observation>, q: Question, order: seq<Option<string>>, strata: Strata, unattributed: nat, k: Key, s: Settings)
    requires Grouped(obs, q, order, strata, unattributed) && k.1 in order
    ensures Distinct(order) && k.1 in strata && strata[k.1] == Stratum(obs, q, k.1)
    ensures LeaveOneOut(strata[k.1], q.dimension, k.0, s) == ComparisonAt(obs, q, k, s)
  {
  }

  method CompareStrata(
      ghost obs: seq<Observation>, q: Question, s: Settings,
      order: seq<Option<string>>, strata: Strata, ghost unattributed: nat)
    returns (keys: seq<Key>, comparisons: Comparisons)
    requires Grouped(obs, q, order, strata, unattributed)
    ensures AllCompared(obs, q, s, keys, comparisons)
  {
    hide ComparisonAt, LeaveOneOut, KeySeen, KeysSeen, KeysIn, Compared, AllCompared, Count, Stratum, StratumSeen;
    keys, comparisons := [], map[];
    ghost var done: set<Key> := {};
    NothingCompared(obs, q, s);
    for i := 0 to |order|
      invariant Compared(obs, q, s, done, keys, comparisons)
      invariant KeysSeen(obs, q, order[..i], done)
    {
      var t := order[i];
      var values, here := Compare(strata[t], q.dimension, s);
      ghost var before := done;
      NoKeys(t, values, before);
      for j := 0 to |values|
        invariant Compared(obs, q, s, done, keys, comparisons)
        invariant done == before + KeysIn(t, values[..j])
      {
        var k := (values[j], t);
        ComparisonInStratum(obs, q, order, strata, unattributed, k, s);
        KeyIsNew(obs, q, order, i, values, j, before);
        CompareOneMore(obs, q, s, done, keys, comparisons, k);
        OneMoreKey(t, values, j);
        keys := keys + [k];
        comparisons := comparisons[k := here[values[j]]];
        done := done + {k};
      }
      assert values[..|values|] == values;
      StratumIsDone(obs, q, order, i, values, before);
    }
    assert order[..|order|] == order;
    EveryStratumDone(obs, q, s, order, strata, unattributed, done, keys, comparisons);
  }

  lemma NoKeys(t: Option<string>, values: seq<string>, before: set<Key>)
    ensures before == before + KeysIn(t, values[..0])
  {
  }

  lemma OneMoreKey(t: Option<string>, values: seq<string>, j: nat)
    requires j < |values|
    ensures KeysIn(t, values[..j + 1]) == KeysIn(t, values[..j]) + {(values[j], t)}
  {
    assert values[..j + 1] == values[..j] + [values[j]];
  }

  lemma PatternsAreRight(
    obs: seq<Observation>, q: Question, s: Settings, keys: seq<Key>, comparisons: Comparisons,
    adjusted: map<Key, real>, patterns: seq<Pattern>, unattributed: nat)
    requires ValidSettings(s) && AllCompared(obs, q, s, keys, comparisons)
    requires Adjusts(s.correction, Tested(keys, comparisons), adjusted)
    requires |patterns| == |keys| && unattributed == Count(Outside(q), obs)
    requires forall i :: 0 <= i < |keys| ==> patterns[i] == PatternOf(keys[i], comparisons[keys[i]], adjusted, s.alpha)
    ensures IsFamily(obs, q, s, Members(Tested(keys, comparisons)))
    ensures IsReport(obs, q, s, Members(Tested(keys, comparisons)), Report(Sort(PatternLe, patterns), unattributed))
  {
    hide ComparisonAt, KeySeen, Adjusts, IsReport, Tested, Members, Count, IsPattern, Proper;
    var tests := Tested(keys, comparisons);
    TestedIsFamily(obs, q, s, keys, comparisons);
    forall p | p in patterns ensures IsPattern(obs, q, s, Members(tests), p) {
      var i :| 0 <= i < |keys| && patterns[i] == p;
      PatternIsRight(obs, q, s, tests, adjusted, keys[i]);
    }
    forall k ensures KeySeen(obs, q, k) <==> KeyPresent(patterns, k) {
      if k in keys {
        var i :| 0 <= i < |keys| && keys[i] == k;
        assert patterns[i] in patterns && patterns[i].key == k;
      }
    }
    SortedPatternsAreReport(obs, q, s, Members(tests), patterns, unattributed);
  }

  lemma OneFamily(obs: seq<Observation>, q: Question, s: Settings, a: set<Test>, b: set<Test>)
    requires IsFamily(obs, q, s, a) && IsFamily(obs, q, s, b)
    ensures a == b
  {
    hide InFamily;
  }

  method FindPatterns(obs: seq<Observation>, q: Question, s: Settings) returns (r: Report)
    requires ValidSettings(s)
    ensures IsReport(obs, q, s, Family(obs, q, s), r)
  {
    hide KeySeen, Adjusts, IsReport, Members, IsPattern, Proper, IsFamily, ValidSettings, Tested, Family;
    var order, strata, unattributed := Group(obs, q);
    var keys, comparisons := CompareStrata(obs, q, s, order, strata, unattributed);
    var tests := Tested(keys, comparisons);
    TestedIsFamily(obs, q, s, keys, comparisons);
    var adjusted := Adjust(tests, s.correction);
    var patterns := seq(|keys|, i requires 0 <= i < |keys| => PatternOf(keys[i], comparisons[keys[i]], adjusted, s.alpha));
    PatternsAreRight(obs, q, s, keys, comparisons, adjusted, patterns, unattributed);
    FamilyIs(obs, q, s);
    OneFamily(obs, q, s, Family(obs, q, s), Members(tests));
    r := Report(Sort(PatternLe, patterns), unattributed);
  }
}
