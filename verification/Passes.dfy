/**
 One verification pass, after `diagnostics/agent/src/agent/citations.py`: every citation is decided once and
 each report is fetched once, from a service that may answer every question differently; a finding goes when
 one of its own citations is decided against.
 */
module Passes {
  import opened Sequences
  import opened Ordering
  import opened Answers
  import opened Citations

  // ----- what a verification is -----

  /** What was decided of each citation. */
  type Decided = map<Citation, bool>

  predicate Holds(decided: Decided, c: Citation) {
    c in decided && decided[c]
  }

  ghost predicate Sound(f: Finding, decided: Decided) {
    forall c :: c in f.citations ==> Holds(decided, c)
  }

  ghost function Surviving(decided: Decided): Finding -> bool {
    (f: Finding) => Sound(f, decided)
  }

  /** Some citation with this label was decided against. */
  ghost predicate FailedLabel(findings: seq<Finding>, decided: Decided, name: string) {
    exists f, c :: f in findings && c in f.citations && !Holds(decided, c) && Label(c) == name
  }

  /** Kept are the findings none of whose citations was decided against, in order; failed is the sorted
      distinct labels of those that were. */
  ghost predicate IsVerification(findings: seq<Finding>, decided: Decided, v: Verification) {
    && v.kept == Filter(Surviving(decided), findings)
    && v.removed == |findings| - |v.kept|
    && Sorted(StringLe, v.failed) && Distinct(v.failed)
    && forall name :: name in v.failed <==> FailedLabel(findings, decided, name)
  }

  // ----- a pass over a service that may change -----

  /** How the service answers the questions of a pass, one by one: no two need be answered alike. */
  type Analysis = nat -> Service

  /** A pass so far: how many questions it put, which of them fetched the two reports, what it decided. */
  datatype Pass = Pass(asked: nat, alarms: Option<nat>, patterns: Option<nat>, decided: Decided)

  const BEGUN := Pass(0, None, None, map[])

  function FetchingAlarms(p: Pass): Pass {
    if p.alarms.Some? then p else p.(alarms := Some(p.asked), asked := p.asked + 1)
  }

  function FetchingPatterns(p: Pass): Pass {
    if p.patterns.Some? then p else p.(patterns := Some(p.asked), asked := p.asked + 1)
  }

  /** One part after another, until one is missing; and the next question. */
  function AskParts(serials: seq<string>, analysis: Analysis, w: Window, k: nat): (bool, nat) {
    if serials == [] then (true, k)
    else if !analysis(k).opens(PartExists(serials[0]), w) then (false, k + 1)
    else AskParts(serials[1..], analysis, w, k + 1)
  }

  function LookupOf(r: Referent): Option<Lookup> {
    match r
    case Part(serial) => Some(PartExists(serial))
    case Serial(serial) => Some(ComponentExists(serial))
    case Stop(id) => Some(StopExists(id))
    case Lot(code) => Some(LotExists(code))
    case Signal(station, signal) => Some(SignalExists(station, signal))
    case _ => None
  }

  /** What a citation is decided to be, and the pass after its questions. */
  function Decide(c: Citation, analysis: Analysis, run: Run, p: Pass): (bool, Pass) {
    var next := p.(asked := p.asked + 1);
    match c.referent
    case Chart(_, _, _) => (Answered(c.referent, run), p)
    case Sop(id) => if id in run.loaded then (analysis(p.asked).knowledge(id), next) else (false, p)
    case Alarm(id) =>
      var q := FetchingAlarms(p);
      (id in analysis(q.alarms.value).alarms(run.window), q)
    case Pattern(dimension, key) =>
      var q := FetchingPatterns(p);
      (PatternIn(analysis(q.patterns.value).patterns(run.window), dimension, key), q)
    case Containment(serials) =>
      var (ok, after) := AskParts(serials, analysis, run.window, p.asked);
      (ok, p.(asked := after))
    case _ => (analysis(p.asked).opens(LookupOf(c.referent).value, run.window), next)
  }

  function DecideOnce(c: Citation, analysis: Analysis, run: Run, p: Pass): Pass {
    if c in p.decided then p
    else
      var (ok, q) := Decide(c, analysis, run, p);
      q.(decided := p.decided[c := ok])
  }

  function DecideAll(citations: seq<Citation>, analysis: Analysis, run: Run): Pass {
    if citations == [] then BEGUN
    else
      var n := |citations| - 1;
      DecideOnce(citations[n], analysis, run, DecideAll(citations[..n], analysis, run))
  }

  function AllCitations(findings: seq<Finding>): seq<Citation> {
    if findings == [] then [] else AllCitations(findings[..|findings| - 1]) + findings[|findings| - 1].citations
  }

  function PassOver(findings: seq<Finding>, analysis: Analysis, run: Run): Pass {
    DecideAll(AllCitations(findings), analysis, run)
  }

  // ----- what a decision rests on -----

  /** Consecutive questions, one for each serial up to the first that is missing. */
  ghost predicate PartsAnswered(serials: seq<string>, analysis: Analysis, w: Window, k: nat, asked: nat, ok: bool) {
    if ok then
      k + |serials| <= asked && forall i :: 0 <= i < |serials| ==> analysis(k + i).opens(PartExists(serials[i]), w)
    else
      exists i :: 0 <= i < |serials| && k + i < asked && !analysis(k + i).opens(PartExists(serials[i]), w)
  }

  /** `ok` is what the service said when it was asked: to the citation's own question, to one for every serial
      of a scope, or to the one question that fetched the report all citations of its kind are read off. */
  ghost predicate Justified(c: Citation, analysis: Analysis, run: Run, p: Pass, ok: bool) {
    match c.referent
    case Chart(_, _, _) => ok == Answered(c.referent, run)
    case Sop(id) =>
      if id in run.loaded then exists k :: 0 <= k < p.asked && analysis(k).knowledge(id) == ok else !ok
    case Alarm(id) =>
      p.alarms.Some? && p.alarms.value < p.asked && ok == (id in analysis(p.alarms.value).alarms(run.window))
    case Pattern(dimension, key) =>
      && p.patterns.Some? && p.patterns.value < p.asked
      && ok == PatternIn(analysis(p.patterns.value).patterns(run.window), dimension, key)
    case Containment(serials) => exists k :: 0 <= k && PartsAnswered(serials, analysis, run.window, k, p.asked, ok)
    case _ => exists k :: 0 <= k < p.asked && analysis(k).opens(LookupOf(c.referent).value, run.window) == ok
  }

  /** Later in the pass: no question is taken back, and no report fetched again. */
  ghost predicate Later(p: Pass, q: Pass) {
    && p.asked <= q.asked
    && (p.alarms.Some? ==> q.alarms == p.alarms) && (p.patterns.Some? ==> q.patterns == p.patterns)
    && (forall c :: c in p.decided ==> c in q.decided && q.decided[c] == p.decided[c])
  }

  ghost predicate InTime(p: Pass) {
    (p.alarms.Some? ==> p.alarms.value < p.asked) && (p.patterns.Some? ==> p.patterns.value < p.asked)
  }

  lemma {:induction false} PartsAsked(serials: seq<string>, analysis: Analysis, w: Window, k: nat)
    ensures (var (ok, after) := AskParts(serials, analysis, w, k);
             k <= after <= k + |serials| && PartsAnswered(serials, analysis, w, k, after, ok))
  {
    if serials != [] && analysis(k).opens(PartExists(serials[0]), w) {
      var (ok, after) := AskParts(serials[1..], analysis, w, k + 1);
      PartsAsked(serials[1..], analysis, w, k + 1);
      if ok {
        forall i | 0 <= i < |serials| ensures analysis(k + i).opens(PartExists(serials[i]), w) {
          assert i > 0 ==> serials[i] == serials[1..][i - 1] && analysis(k + i) == analysis(k + 1 + (i - 1));
        }
      } else {
        var i :| 0 <= i < |serials[1..]| && k + 1 + i < after && !analysis(k + 1 + i).opens(PartExists(serials[1..][i]), w);
        assert !analysis(k + (i + 1)).opens(PartExists(serials[i + 1]), w);
      }
    } else if serials != [] {
      assert !analysis(k + 0).opens(PartExists(serials[0]), w);
    }
  }

  lemma DecideIsJustified(c: Citation, analysis: Analysis, run: Run, p: Pass)
    requires InTime(p)
    ensures (var (ok, q) := Decide(c, analysis, run, p);
             q.decided == p.decided && Later(p, q) && InTime(q) && Justified(c, analysis, run, q, ok))
  {
    hide PatternIn, Answered;
    if c.referent.Containment? {
      hide PartsAnswered;
      PartsAsked(c.referent.serials, analysis, run.window, p.asked);
    }
  }

  lemma JustifiedLater(c: Citation, analysis: Analysis, run: Run, p: Pass, q: Pass, ok: bool)
    requires Justified(c, analysis, run, p, ok) && Later(p, q)
    ensures Justified(c, analysis, run, q, ok)
  {
    hide PatternIn, Answered;
    if c.referent.Containment? {
      var k :| 0 <= k && PartsAnswered(c.referent.serials, analysis, run.window, k, p.asked, ok);
      assert PartsAnswered(c.referent.serials, analysis, run.window, k, q.asked, ok);
    }
  }

  ghost predicate AllJustified(citations: seq<Citation>, analysis: Analysis, run: Run, p: Pass) {
    && InTime(p)
    && (forall c :: c in p.decided <==> c in citations)
    && forall c :: c in p.decided ==> Justified(c, analysis, run, p, p.decided[c])
  }

  lemma OneMoreJustified(citations: seq<Citation>, c: Citation, analysis: Analysis, run: Run, p: Pass)
    requires AllJustified(citations, analysis, run, p)
    ensures Later(p, DecideOnce(c, analysis, run, p))
    ensures AllJustified(citations + [c], analysis, run, DecideOnce(c, analysis, run, p))
  {
    hide Justified, Decide;
    var q := DecideOnce(c, analysis, run, p);
    assert forall x :: x in citations + [c] <==> x in citations || x == c;
    if c !in p.decided {
      var (ok, after) := Decide(c, analysis, run, p);
      DecideIsJustified(c, analysis, run, p);
      JustifiedLater(c, analysis, run, after, q, ok);
      forall x | x in p.decided ensures Justified(x, analysis, run, q, p.decided[x]) {
        JustifiedLater(x, analysis, run, p, q, p.decided[x]);
      }
    }
  }

  /** Every citation is decided once, and by what the service said when it was asked. */
  lemma {:induction false} DecisionsAreAnswers(citations: seq<Citation>, analysis: Analysis, run: Run)
    ensures AllJustified(citations, analysis, run, DecideAll(citations, analysis, run))
  {
    hide DecideOnce, Justified;
    if citations != [] {
      var n := |citations| - 1;
      DecisionsAreAnswers(citations[..n], analysis, run);
      OneMoreJustified(citations[..n], citations[n], analysis, run, DecideAll(citations[..n], analysis, run));
      assert citations == citations[..n] + [citations[n]];
    }
  }

  /** What was decided stands for the rest of the pass. */
  lemma {:induction false} DecisionsStand(done: seq<Citation>, rest: seq<Citation>, analysis: Analysis, run: Run)
    ensures Later(DecideAll(done, analysis, run), DecideAll(done + rest, analysis, run))
  {
    hide DecideOnce, Justified, AllJustified;
    if rest == [] {
      assert done + rest == done;
    } else {
      var n := |rest| - 1;
      var before := done + rest[..n];
      DecisionsStand(done, rest[..n], analysis, run);
      DecisionsAreAnswers(before, analysis, run);
      OneMoreJustified(before, rest[n], analysis, run, DecideAll(before, analysis, run));
      assert (done + rest)[..|done + rest| - 1] == before;
      assert (done + rest)[|done + rest| - 1] == rest[n];
    }
  }

  // ----- how many questions -----

  /** The citations in order of their first appearance. */
  function Firsts(citations: seq<Citation>): seq<Citation> {
    if citations == [] then []
    else
      var n := |citations| - 1;
      Firsts(citations[..n]) + if citations[n] in citations[..n] then [] else [citations[n]]
  }

  /** The most questions a citation needs of its own, beside the two reports. */
  function OwnQuestions(c: Citation): nat {
    match c.referent
    case Chart(_, _, _) => 0
    case Alarm(_) => 0
    case Pattern(_, _) => 0
    case Containment(serials) => |serials|
    case _ => 1
  }

  function Questions(citations: seq<Citation>): nat {
    if citations == [] then 0 else Questions(citations[..|citations| - 1]) + OwnQuestions(citations[|citations| - 1])
  }

  function ReportsFetched(p: Pass): nat {
    (if p.alarms.Some? then 1 else 0) + if p.patterns.Some? then 1 else 0
  }

  /** However often a referent is cited and however many alarms and patterns are: its own questions are put
      once, and each report is fetched once. */
  lemma {:induction false} QuestionsAreFew(citations: seq<Citation>, analysis: Analysis, run: Run)
    ensures (var p := DecideAll(citations, analysis, run);
             p.asked <= Questions(Firsts(citations)) + ReportsFetched(p))
  {
    if citations != [] {
      var n := |citations| - 1;
      var before, c := citations[..n], citations[n];
      var p := DecideAll(before, analysis, run);
      QuestionsAreFew(before, analysis, run);
      DecisionsAreAnswers(before, analysis, run);
      if c !in before {
        assert Firsts(citations)[..|Firsts(before)|] == Firsts(before);
        if c.referent.Containment? {
          PartsAsked(c.referent.serials, analysis, run.window, p.asked);
        }
        AsksItsOwn(c, analysis, run, p);
      } else {
        assert Firsts(before) + [] == Firsts(before);
      }
    }
  }

  lemma AsksItsOwn(c: Citation, analysis: Analysis, run: Run, p: Pass)
    ensures (var (_, q) := Decide(c, analysis, run, p);
             q.asked - ReportsFetched(q) <= p.asked - ReportsFetched(p) + OwnQuestions(c))
  {
    if c.referent.Containment? {
      PartsAsked(c.referent.serials, analysis, run.window, p.asked);
    }
  }

  // ----- a service that stands still -----

  lemma SteadyDecision(c: Citation, analysis: Analysis, run: Run, p: Pass, ok: bool, service: Service)
    requires Justified(c, analysis, run, p, ok) && forall k :: 0 <= k < p.asked ==> analysis(k) == service
    ensures ok == Resolves(c, service, run)
  {
    if c.referent.Containment? {
      SteadyParts(c, analysis, run, p, ok, service);
    }
  }

  lemma SteadyParts(c: Citation, analysis: Analysis, run: Run, p: Pass, ok: bool, service: Service)
    requires c.referent.Containment? && Justified(c, analysis, run, p, ok)
    requires forall k :: 0 <= k < p.asked ==> analysis(k) == service
    ensures ok == Resolves(c, service, run)
  {
    var serials := c.referent.serials;
    var k :| 0 <= k && PartsAnswered(serials, analysis, run.window, k, p.asked, ok);
    if ok {
      forall s | s in serials ensures service.opens(PartExists(s), run.window) {
        var i :| 0 <= i < |serials| && serials[i] == s;
        assert analysis(k + i).opens(PartExists(serials[i]), run.window);
      }
    } else {
      var i :| 0 <= i < |serials| && k + i < p.asked && !analysis(k + i).opens(PartExists(serials[i]), run.window);
      assert serials[i] in serials;
    }
  }

  /** While the service stands still, a pass decides every citation as direct resolution does. */
  lemma SteadyServiceResolves(citations: seq<Citation>, analysis: Analysis, run: Run, service: Service)
    requires forall k :: 0 <= k < DecideAll(citations, analysis, run).asked ==> analysis(k) == service
    ensures forall c :: c in citations ==>
              (Holds(DecideAll(citations, analysis, run).decided, c) <==> Resolves(c, service, run))
  {
    hide Justified, Resolves, DecideAll;
    var p := DecideAll(citations, analysis, run);
    DecisionsAreAnswers(citations, analysis, run);
    forall c | c in citations ensures Holds(p.decided, c) <==> Resolves(c, service, run) {
      assert c in p.decided;
      SteadyDecision(c, analysis, run, p, p.decided[c], service);
    }
  }

  // ----- labels -----
  ghost predicate LabelsOf(
    failed: seq<string>, citations: seq<Citation>, before: seq<string>, decided: Decided)
  {
    && Distinct(failed)
    && forall name :: name in failed <==>
                      name in before || exists c :: c in citations && !Holds(decided, c) && Label(c) == name
  }

  lemma LabelOneMore(
    failed: seq<string>, citations: seq<Citation>, before: seq<string>, decided: Decided, c: Citation)
    requires LabelsOf(failed, citations, before, decided)
    ensures Holds(decided, c) ==> LabelsOf(failed, citations + [c], before, decided)
    ensures !Holds(decided, c) ==>
              LabelsOf(if Label(c) in failed then failed else failed + [Label(c)], citations + [c], before, decided)
  {
    hide Holds, Label;
    assert forall x :: x in citations + [c] <==> x in citations || x == c;
  }

  lemma LabelsOfFindings(
    failed: seq<string>, done: seq<Finding>, f: Finding, before: seq<string>, decided: Decided)
    requires forall name :: name in before <==> FailedLabel(done, decided, name)
    requires LabelsOf(failed, f.citations, before, decided)
    ensures forall name :: name in failed <==> FailedLabel(done + [f], decided, name)
  {
    hide Holds, Label;
    forall name ensures name in failed <==> FailedLabel(done + [f], decided, name) {
      assert forall g :: g in done + [f] <==> g in done || g == f;
      if FailedLabel(done + [f], decided, name) {
        var g, c :| g in done + [f] && c in g.citations && !Holds(decided, c) && Label(c) == name;
        assert g in done ==> FailedLabel(done, decided, name);
      }
    }
  }

  lemma KeptOneMore(done: seq<Finding>, f: Finding, decided: Decided)
    ensures Filter(Surviving(decided), done + [f])
            == Filter(Surviving(decided), done) + if Sound(f, decided) then [f] else []
  {
    FilterOneMore(Surviving(decided), done, f);
  }

  lemma StringLeIsTotalPreorder()
    ensures TotalPreorder(StringLe)
  {
    forall a, b ensures StringLe(a, b) || StringLe(b, a) {
      StringLeTotal(a, b);
    }
    forall a, b, c | StringLe(a, b) && StringLe(b, c) ensures StringLe(a, c) {
      StringLeTransitive(a, b, c);
    }
  }

  // ----- the pass itself -----

  /** Each report as it was fetched when first needed. */
  datatype Reports = Reports(alarms: Option<seq<string>>, patterns: Option<seq<Section>>)

  ghost predicate Fetched(reports: Reports, p: Pass, analysis: Analysis, w: Window) {
    && (reports.alarms.Some? <==> p.alarms.Some?) && (reports.patterns.Some? <==> p.patterns.Some?)
    && (p.alarms.Some? ==> reports.alarms.value == analysis(p.alarms.value).alarms(w))
    && (p.patterns.Some? ==> reports.patterns.value == analysis(p.patterns.value).patterns(w))
  }

  lemma {:induction false} PartsSoFar(serials: seq<string>, analysis: Analysis, w: Window, k: nat, i: nat)
    requires i <= |serials| && forall j :: 0 <= j < i ==> analysis(k + j).opens(PartExists(serials[j]), w)
    ensures AskParts(serials, analysis, w, k) == AskParts(serials[i..], analysis, w, k + i)
    decreases i
  {
    if i > 0 {
      PartsSoFar(serials, analysis, w, k, i - 1);
      assert analysis(k + (i - 1)).opens(PartExists(serials[i - 1]), w);
      assert serials[i - 1..][1..] == serials[i..];
    } else {
      assert serials[0..] == serials;
    }
  }

  /** One citation, with the reports fetched at most once each; `asked` questions were put before it. */
  method ResolveOnce(c: Citation, analysis: Analysis, run: Run, reports: Reports, asked: nat, ghost p: Pass)
    returns (ok: bool, memo: Reports, after: nat)
    requires asked == p.asked && Fetched(reports, p, analysis, run.window)
    ensures ok == Decide(c, analysis, run, p).0 && after == Decide(c, analysis, run, p).1.asked
    ensures Fetched(memo, Decide(c, analysis, run, p).1, analysis, run.window)
    ensures c.referent.Alarm? && reports.alarms.Some? ==> after == asked && memo == reports
    ensures c.referent.Pattern? && reports.patterns.Some? ==> after == asked && memo == reports
  {
    hide PatternIn;
    memo, after := reports, asked;
    if c.referent.Chart? {
      ok := Answered(c.referent, run);
    } else if c.referent.Sop? {
      ok := false;
      if c.referent.id in run.loaded {
        ok, after := analysis(after).knowledge(c.referent.id), after + 1;
      }
    } else if c.referent.Alarm? {
      if memo.alarms.None? {
        memo, after := memo.(alarms := Some(analysis(after).alarms(run.window))), after + 1;
      }
      ok := c.referent.id in memo.alarms.value;
    } else if c.referent.Pattern? {
      if memo.patterns.None? {
        memo, after := memo.(patterns := Some(analysis(after).patterns(run.window))), after + 1;
      }
      ok := PatternIn(memo.patterns.value, c.referent.dimension, c.referent.key);
    } else if c.referent.Containment? {
      ok, after := AskEach(c.referent.serials, analysis, run.window, after);
    } else {
      ok, after := analysis(after).opens(LookupOf(c.referent).value, run.window), after + 1;
    }
  }

  method AskEach(serials: seq<string>, analysis: Analysis, w: Window, asked: nat) returns (ok: bool, after: nat)
    ensures (ok, after) == AskParts(serials, analysis, w, asked)
  {
    ok, after := true, asked;
    for i := 0 to |serials|
      invariant ok && after == asked + i
      invariant forall j :: 0 <= j < i ==> analysis(asked + j).opens(PartExists(serials[j]), w)
    {
      PartsSoFar(serials, analysis, w, asked, i);
      after := after + 1;
      if !analysis(asked + i).opens(PartExists(serials[i]), w) {
        ok := false;
        return;
      }
    }
    PartsSoFar(serials, analysis, w, asked, |serials|);
  }

  lemma OneMoreCitation(citations: seq<Citation>, c: Citation, analysis: Analysis, run: Run)
    ensures DecideAll(citations + [c], analysis, run)
         == DecideOnce(c, analysis, run, DecideAll(citations, analysis, run))
  {
    hide DecideOnce;
    assert (citations + [c])[..|citations|] == citations;
  }

  lemma OneMoreFinding(findings: seq<Finding>, i: nat)
    requires i < |findings|
    ensures AllCitations(findings[..i + 1]) == AllCitations(findings[..i]) + findings[i].citations
  {
    assert findings[..i + 1][..i] == findings[..i];
  }

  lemma {:induction false} CitationsStart(findings: seq<Finding>, i: nat)
    requires i <= |findings|
    ensures AllCitations(findings[..i]) <= AllCitations(findings)
    decreases |findings| - i
  {
    if i < |findings| {
      OneMoreFinding(findings, i);
      CitationsStart(findings, i + 1);
    } else {
      assert findings[..i] == findings;
    }
  }

  /** What is decided by citation `j` of finding `i` is what the whole pass decides of it. */
  lemma DecidedForGood(findings: seq<Finding>, i: nat, j: nat, analysis: Analysis, run: Run)
    requires i < |findings| && j < |findings[i].citations|
    ensures (var done := AllCitations(findings[..i]) + findings[i].citations[..j + 1];
             var c := findings[i].citations[j];
             && c in DecideAll(done, analysis, run).decided
             && (Holds(PassOver(findings, analysis, run).decided, c) <==> DecideAll(done, analysis, run).decided[c]))
  {
    hide DecideAll, AllCitations, AllJustified;
    var all, f := AllCitations(findings), findings[i];
    var done := AllCitations(findings[..i]) + f.citations[..j + 1];
    OneMoreFinding(findings, i);
    CitationsStart(findings, i + 1);
    assert f.citations == f.citations[..j + 1] + f.citations[j + 1..];
    assert done <= all;
    assert all == done + all[|done|..];
    assert done[|done| - 1] == f.citations[j];
    DecisionsStand(done, all[|done|..], analysis, run);
    DecidedAre(done, analysis, run);
  }

  lemma DecidedAre(citations: seq<Citation>, analysis: Analysis, run: Run)
    ensures forall c :: c in DecideAll(citations, analysis, run).decided <==> c in citations
  {
    DecisionsAreAnswers(citations, analysis, run);
  }

  method Keep(findings: seq<Finding>, analysis: Analysis, run: Run) returns (v: Verification)
    ensures IsVerification(findings, PassOver(findings, analysis, run).decided, v)
  {
    hide Resolves, Label, Filter, Sound, FailedLabel, LabelsOf, Decide, Holds, Fetched, DecideAll, AllCitations;
    ghost var final := PassOver(findings, analysis, run).decided;
    var reports, asked: nat, decided: Decided := Reports(None, None), 0, map[];
    var kept: seq<Finding>, failed: seq<string> := [], [];
    NothingFailed(final);
    NothingAsked(analysis, run);
    for i := 0 to |findings|
      invariant Stands(reports, asked, decided, AllCitations(findings[..i]), analysis, run)
      invariant kept == Filter(Surviving(final), findings[..i])
      invariant Distinct(failed)
      invariant forall name :: name in failed <==> FailedLabel(findings[..i], final, name)
    {
      var f := findings[i];
      var survives := true;
      ghost var before := failed;
      NoCitationYet(failed, final);
      assert AllCitations(findings[..i]) + f.citations[..0] == AllCitations(findings[..i]);
      for j := 0 to |f.citations|
        invariant Stands(reports, asked, decided, AllCitations(findings[..i]) + f.citations[..j], analysis, run)
        invariant survives <==> forall c :: c in f.citations[..j] ==> Holds(final, c)
        invariant LabelsOf(failed, f.citations[..j], before, final)
      {
        var c := f.citations[j];
        ghost var done := AllCitations(findings[..i]) + f.citations[..j];
        assert f.citations[..j + 1] == f.citations[..j] + [c];
        assert done + [c] == AllCitations(findings[..i]) + f.citations[..j + 1];
        LabelOneMore(failed, f.citations[..j], before, final, c);
        OneMoreCitation(done, c, analysis, run);
        if c !in decided {
          ghost var p := DecideAll(done, analysis, run);
          var ok, memo, after := ResolveOnce(c, analysis, run, reports, asked, p);
          reports, asked := memo, after;
          decided := decided[c := ok];
          DecidedNow(done, c, analysis, run, reports, asked, decided);
        }
        DecidedForGood(findings, i, j, analysis, run);
        if !decided[c] {
          survives := false;
          failed := if Label(c) in failed then failed else failed + [Label(c)];
        }
      }
      assert f.citations[..|f.citations|] == f.citations;
      assert survives <==> Sound(f, final) by { SoundMeans(f, final); }
      assert findings[..i + 1] == findings[..i] + [f];
      OneMoreFinding(findings, i);
      LabelsAreDistinct(failed, f.citations, before, final);
      LabelsOfFindings(failed, findings[..i], f, before, final);
      KeptOneMore(findings[..i], f, final);
      if survives {
        kept := kept + [f];
      }
    }
    assert findings[..|findings|] == findings;
    StringLeIsTotalPreorder();
    SortSorts(StringLe, failed);
    DistinctCount(failed);
    DistinctCount(Sort(StringLe, failed));
    v := Verification(kept, Sort(StringLe, failed), |findings| - |kept|);
  }

  /** The variables of the loop are the pass over the citations done. */
  ghost predicate Stands(
    reports: Reports, asked: nat, decided: Decided, done: seq<Citation>, analysis: Analysis, run: Run)
  {
    var p := DecideAll(done, analysis, run);
    asked == p.asked && decided == p.decided && Fetched(reports, p, analysis, run.window)
  }

  lemma NothingAsked(analysis: Analysis, run: Run)
    ensures AllCitations([]) == [] && Stands(Reports(None, None), 0, map[], [], analysis, run)
  {
  }

  lemma DecidedNow(done: seq<Citation>, c: Citation, analysis: Analysis, run: Run,
                   reports: Reports, asked: nat, decided: Decided)
    requires (var p := DecideAll(done, analysis, run);
              var (ok, q) := Decide(c, analysis, run, p);
              && c !in p.decided && asked == q.asked && Fetched(reports, q, analysis, run.window)
              && decided == p.decided[c := ok])
    ensures Stands(reports, asked, decided, done + [c], analysis, run)
  {
    hide Decide, DecideAll;
    OneMoreCitation(done, c, analysis, run);
  }

  lemma SoundMeans(f: Finding, decided: Decided)
    ensures Sound(f, decided) <==> forall c :: c in f.citations ==> Holds(decided, c)
  {
  }

  lemma NothingFailed(decided: Decided)
    ensures Filter(Surviving(decided), []) == []
    ensures forall name :: !FailedLabel([], decided, name)
  {
  }

  lemma NoCitationYet(failed: seq<string>, decided: Decided)
    requires Distinct(failed)
    ensures LabelsOf(failed, [], failed, decided)
  {
  }

  lemma LabelsAreDistinct(
    failed: seq<string>, citations: seq<Citation>, before: seq<string>, decided: Decided)
    requires LabelsOf(failed, citations, before, decided)
    ensures Distinct(failed)
  {
  }

  // ----- what a verification says -----

  /** A removal is never quiet, and nothing is reported failed without one. */
  lemma FailuresAreReported(findings: seq<Finding>, decided: Decided, v: Verification)
    requires IsVerification(findings, decided, v)
    ensures v.failed == [] <==> v.removed == 0
    ensures v.removed == 0 <==> v.kept == findings
  {
    hide Holds, Label;
    FilterKeepsAll(Surviving(decided), findings);
    if v.removed != 0 {
      var f :| f in findings && !Sound(f, decided);
      var c :| c in f.citations && !Holds(decided, c);
      assert FailedLabel(findings, decided, Label(c));
    }
    if v.failed != [] {
      assert FailedLabel(findings, decided, v.failed[0]);
    }
  }

  lemma VerificationIsUnique(findings: seq<Finding>, decided: Decided, a: Verification, b: Verification)
    requires IsVerification(findings, decided, a) && IsVerification(findings, decided, b)
    ensures a == b
  {
    hide FailedLabel, Filter;
    SameMembersSameMultiset(a.failed, b.failed);
    forall x, y | x in a.failed && y in a.failed && StringLe(x, y) && StringLe(y, x) ensures x == y {
      StringLeAntisymmetric(x, y);
    }
    SortedUnique(StringLe, a.failed, b.failed);
  }

  /** One citation is never both kept and dropped: every finding that went has a citation that none of the
      kept ones has, and every label reported belongs to one. */
  lemma NoCitationIsKeptAndDropped(findings: seq<Finding>, decided: Decided, v: Verification)
    requires IsVerification(findings, decided, v)
    ensures forall f :: f in findings && f !in v.kept ==>
              exists c :: c in f.citations && forall g :: g in v.kept ==> c !in g.citations
    ensures forall name :: name in v.failed ==>
              exists f, c :: f in findings && c in f.citations && Label(c) == name && forall g :: g in v.kept ==> c !in g.citations
  {
    hide Label, Holds;
    forall c, g | g in v.kept && c in g.citations ensures Holds(decided, c) {
      assert Surviving(decided)(g);
    }
    forall f | f in findings && f !in v.kept
      ensures exists c :: c in f.citations && forall g :: g in v.kept ==> c !in g.citations
    {
      assert !Surviving(decided)(f);
      var c :| c in f.citations && !Holds(decided, c);
    }
    forall name | name in v.failed
      ensures exists f, c :: f in findings && c in f.citations && Label(c) == name && forall g :: g in v.kept ==> c !in g.citations
    {
      assert FailedLabel(findings, decided, name);
      var f, c :| f in findings && c in f.citations && !Holds(decided, c) && Label(c) == name;
    }
  }

  // ----- the verification as a function -----

  lemma {:induction false} AddLabels(before: seq<string>, citations: seq<Citation>, decided: Decided)
    returns (failed: seq<string>)
    requires Distinct(before)
    ensures LabelsOf(failed, citations, before, decided)
  {
    hide LabelsOf;
    failed := before;
    if citations == [] {
      NoCitationYet(before, decided);
    } else {
      var n := |citations| - 1;
      failed := AddLabels(before, citations[..n], decided);
      LabelOneMore(failed, citations[..n], before, decided, citations[n]);
      assert citations == citations[..n] + [citations[n]];
      if !Holds(decided, citations[n]) && Label(citations[n]) !in failed {
        failed := failed + [Label(citations[n])];
      }
    }
  }

  lemma {:induction false} LabelsExist(findings: seq<Finding>, decided: Decided) returns (failed: seq<string>)
    ensures Distinct(failed)
    ensures forall name :: name in failed <==> FailedLabel(findings, decided, name)
  {
    hide LabelsOf, FailedLabel;
    failed := [];
    if findings == [] {
      NothingFailed(decided);
    } else {
      var n := |findings| - 1;
      var before := LabelsExist(findings[..n], decided);
      failed := AddLabels(before, findings[n].citations, decided);
      LabelsAreDistinct(failed, findings[n].citations, before, decided);
      LabelsOfFindings(failed, findings[..n], findings[n], before, decided);
      assert findings == findings[..n] + [findings[n]];
    }
  }

  lemma VerificationExists(findings: seq<Finding>, decided: Decided)
    ensures exists v :: IsVerification(findings, decided, v)
  {
    hide FailedLabel, Filter;
    var failed := LabelsExist(findings, decided);
    StringLeIsTotalPreorder();
    SortSorts(StringLe, failed);
    DistinctCount(failed);
    DistinctCount(Sort(StringLe, failed));
    var kept := Filter(Surviving(decided), findings);
    assert IsVerification(findings, decided, Verification(kept, Sort(StringLe, failed), |findings| - |kept|));
  }

  ghost function VerificationOf(findings: seq<Finding>, decided: Decided): (v: Verification)
    ensures IsVerification(findings, decided, v)
  {
    VerificationExists(findings, decided);
    var v :| IsVerification(findings, decided, v);
    v
  }
}
