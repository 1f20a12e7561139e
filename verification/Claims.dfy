/**
 What a delivered answer may rest on, kind by kind: the rows the service was asked for, and the parts of a
 finding, a contradiction and a question that make them acceptable.
 */
module Claims {
  import opened Sequences
  import opened Answers
  import opened Citations
  import opened Passes
  import opened Compose
  import opened Preparation
  import opened Pipeline
  import opened Guarantees

  // ----- stamping -----

  /** Stamping changes nothing but windows: no claim, no citation and no referent. */
  lemma StampingKeepsClaims(findings: seq<Finding>, w: Window)
    ensures |Stamped(findings, w)| == |findings|
    ensures forall i :: 0 <= i < |findings| ==> FindingsSameButWindow(findings[i], Stamped(findings, w)[i])
  {
    forall i | 0 <= i < |findings| ensures FindingsSameButWindow(findings[i], Stamped(findings, w)[i]) {
      var f, g := findings[i], StampedFinding(findings[i], w);
      assert f == g.(citations := f.citations);
    }
  }

  // ----- what was found -----

  ghost predicate OpenedAt(analysis: Analysis, asked: nat, lookup: Lookup, w: Window) {
    exists k :: 0 <= k < asked && analysis(k).opens(lookup, w)
  }

  ghost predicate SectionHolds(report: seq<Section>, dimension: string, key: string) {
    exists s :: s in report && s.dimension == dimension && key in s.values
  }

  /** One of the first `asked` questions found the referent; a scope, each of its parts. */
  ghost predicate Found(r: Referent, analysis: Analysis, asked: nat, w: Window, loaded: seq<string>, calls: seq<CallRecord>) {
    match r
    case Part(serial) => OpenedAt(analysis, asked, PartExists(serial), w)
    case Serial(serial) => OpenedAt(analysis, asked, ComponentExists(serial), w)
    case Stop(id) => OpenedAt(analysis, asked, StopExists(id), w)
    case Lot(code) => OpenedAt(analysis, asked, LotExists(code), w)
    case Signal(station, signal) => OpenedAt(analysis, asked, SignalExists(station, signal), w)
    case Sop(id) => id in loaded && exists k :: 0 <= k < asked && analysis(k).knowledge(id)
    case Alarm(id) => exists k :: 0 <= k < asked && id in analysis(k).alarms(w)
    case Pattern(dimension, key) => exists k :: 0 <= k < asked && SectionHolds(analysis(k).patterns(w), dimension, key)
    case Containment(serials) => forall s :: s in serials ==> OpenedAt(analysis, asked, PartExists(s), w)
    case Chart(_, _, _) => ReadsAnswers(calls, r)
  }

  lemma PatternIsInASection(report: seq<Section>, dimension: string, key: string)
    ensures PatternIn(report, dimension, key) <==> SectionHolds(report, dimension, key)
  {
    if s :| s in report && s.dimension == dimension && key in s.values {
      var i :| 0 <= i < |report| && report[i] == s;
    }
  }

  lemma JustifiedIsFound(c: Citation, analysis: Analysis, p: Prepared, calls: seq<CallRecord>, pass: Pass)
    requires Justified(c, analysis, RunOf(p, calls), pass, true)
    ensures Found(c.referent, analysis, pass.asked, p.window, p.sops, calls)
  {
    hide ReadsAnswers, Answered, PatternIn, SectionHolds, ById;
    match c.referent
    case Pattern(dimension, key) =>
      PatternIsInASection(analysis(pass.patterns.value).patterns(p.window), dimension, key);
    case Containment(serials) =>
      var k :| 0 <= k && PartsAnswered(serials, analysis, p.window, k, pass.asked, true);
      forall s | s in serials ensures OpenedAt(analysis, pass.asked, PartExists(s), p.window) {
        var i :| 0 <= i < |serials| && serials[i] == s;
        assert analysis(k + i).opens(PartExists(serials[i]), p.window);
      }
    case Chart(_, _, _) =>
      ChartAnsweredExactly(p, calls, c.referent);
    case _ =>
  }

  /** Whatever a delivered finding cites was found when this run's verification asked for it. */
  lemma EveryKindWasFound(
    p: Prepared, s: Settings, others: Others, said: seq<string>, a: Answer, t: Trace, f: Finding, c: Citation)
    requires IsRun(p, s, others, said, a, t) && f in a.findings && c in f.citations
    ensures Whole(p, s, others).final.Some?
    ensures (var pass := PassOf(p, others, t.turns, t.calls, Whole(p, s, others).final.value);
             Found(c.referent, others.service(t.turns), pass.asked, p.window, p.sops, t.calls))
  {
    hide IsRun, Whole, PassOf, Found, Justified;
    NoUnverifiedClaimShips(p, s, others, said, a, t);
    assert Grounded(p, s, others, t, c);
    JustifiedIsFound(c, others.service(t.turns), p, t.calls,
                     PassOf(p, others, t.turns, t.calls, Whole(p, s, others).final.value));
  }

  // ----- what is stated rightly -----

  ghost predicate Blank(s: string) {
    forall c :: c in s ==> Space(c)
  }

  /** A hypothesis without its strength, or a contradiction without two different roots and a reason. */
  ghost predicate StatedWrongly(final: Final) {
    || (exists f :: f in final.findings && f.basis == Hypothesis && (f.evidenceStrength == None || f.evidenceStrength == Some("")))
    || (final.contradiction.Some? &&
          var c := final.contradiction.value;
          Blank(c.derivedRoot) || Blank(c.agentRoot) || Blank(c.reasoning) || c.derivedRoot == c.agentRoot)
  }

  lemma StatedMeans(s: string)
    ensures Stated(s) <==> !Blank(s)
  {
    if !Blank(s) {
      var c :| c in s && !Space(c);
      var i :| 0 <= i < |s| && s[i] == c;
    }
  }

  lemma WronglyMeans(final: Final)
    ensures StatedWrongly(final) <==> !ValidFindings(final.findings) || Refused(final)
  {
    hide Stated, Blank;
    if final.contradiction.Some? {
      StatedMeans(final.contradiction.value.derivedRoot);
      StatedMeans(final.contradiction.value.agentRoot);
      StatedMeans(final.contradiction.value.reasoning);
    }
    forall f ensures ValidFinding(f) <==> !(f.basis == Hypothesis && (f.evidenceStrength == None || f.evidenceStrength == Some(""))) {
    }
    hide ValidFinding;
  }

  /** The loop stops with an error only over a final turn that is stated wrongly, and delivers none such. */
  lemma OnlyRightStatementsAreDelivered(p: Prepared, s: Settings, others: Others)
    ensures (var e := Whole(p, s, others);
             && (e.exit == Raised ==> e.final.Some? && StatedWrongly(e.final.value))
             && (e.exit == Delivered ==> e.final.Some? && !StatedWrongly(e.final.value)))
  {
    hide Whole, StatedWrongly, ValidFindings, Refused, Check, Coherent, TooManyFailures;
    WholeEndsWell(p, s, others);
    if Whole(p, s, others).final.Some? {
      WronglyMeans(Whole(p, s, others).final.value);
    }
  }
}
