/**
 Arranging verified findings into an answer, after `diagnostics/agent/src/agent/compose.py`.
 The composer arranges; it adds no claim and no citation.
 */
module Compose {
  import opened Sequences
  import opened Answers

  function Certainty(b: Basis): nat {
    match b
    case Measured => 0
    case Derived => 1
    case Hypothesis => 2
  }

  function Statements(findings: seq<Finding>): set<string> {
    set f | f in findings :: f.statement
  }

  /** The first finding of each statement, in order. */
  function Collapsed(findings: seq<Finding>): (r: seq<Finding>) {
    if findings == [] then
      []
    else
      var earlier, last := findings[..|findings| - 1], findings[|findings| - 1];
      if last.statement in Statements(earlier) then Collapsed(earlier) else Collapsed(earlier) + [last]
  }

  method Collapse(findings: seq<Finding>) returns (out: seq<Finding>)
    ensures out == Collapsed(findings)
  {
    var seen: set<string> := {};
    out := [];
    for i := 0 to |findings|
      invariant out == Collapsed(findings[..i]) && seen == Statements(findings[..i])
    {
      assert findings[..i + 1][..i] == findings[..i];
      assert findings[..i + 1] == findings[..i] + [findings[i]];
      if findings[i].statement !in seen {
        seen := seen + {findings[i].statement};
        out := out + [findings[i]];
      }
    }
    assert findings[..|findings|] == findings;
  }

  ghost predicate EachStatementOnce(findings: seq<Finding>) {
    forall i, j :: 0 <= i < j < |findings| ==> findings[i].statement != findings[j].statement
  }

  lemma NoStatements()
    ensures Statements([]) == {} && EachStatementOnce([])
  {
  }

  lemma OneMoreStatement(findings: seq<Finding>, f: Finding)
    ensures Statements(findings + [f]) == Statements(findings) + {f.statement}
  {
    assert forall g :: g in findings + [f] <==> g in findings || g == f;
  }

  lemma NewStatementOnce(findings: seq<Finding>, f: Finding)
    requires EachStatementOnce(findings) && f.statement !in Statements(findings)
    ensures EachStatementOnce(findings + [f])
  {
    assert forall g :: g in findings ==> g.statement in Statements(findings);
  }

  /** Collapsing loses no statement, repeats none, and adds no finding. */
  lemma {:induction false} CollapsedKeepsStatements(findings: seq<Finding>)
    ensures Statements(Collapsed(findings)) == Statements(findings)
    ensures EachStatementOnce(Collapsed(findings))
    ensures forall f :: f in Collapsed(findings) ==> f in findings
  {
    hide Statements, EachStatementOnce;
    NoStatements();
    if findings != [] {
      var earlier, last := findings[..|findings| - 1], findings[|findings| - 1];
      CollapsedKeepsStatements(earlier);
      assert findings == earlier + [last];
      OneMoreStatement(earlier, last);
      if last.statement !in Statements(earlier) {
        OneMoreStatement(Collapsed(earlier), last);
        NewStatementOnce(Collapsed(earlier), last);
      }
    }
  }

  // ----- the summary -----

  const SUMMARY_PREFIX := "In short:"

  function Join(parts: seq<string>, separator: string): string {
    if parts == [] then "" else if |parts| == 1 then parts[0] else parts[0] + separator + Join(parts[1..], separator)
  }

  function StatementsInOrder(findings: seq<Finding>): seq<string> {
    seq(|findings|, i requires 0 <= i < |findings| => findings[i].statement)
  }

  function Strengths(findings: seq<Finding>): seq<string> {
    if findings == [] then
      []
    else
      (if findings[0].evidenceStrength.Some? && findings[0].evidenceStrength.value != ""
       then [findings[0].evidenceStrength.value] else []) + Strengths(findings[1..])
  }

  ghost predicate CitedBy(findings: seq<Finding>, c: Citation) {
    exists f :: f in findings && c in f.citations
  }

  /** Exactly the citations of `findings`, each once. */
  ghost predicate IsUnion(citations: seq<Citation>, findings: seq<Finding>) {
    Distinct(citations) && forall c :: c in citations <==> CitedBy(findings, c)
  }

  method GatherCitations(findings: seq<Finding>) returns (citations: seq<Citation>)
    ensures IsUnion(citations, findings)
  {
    citations := [];
    for i := 0 to |findings|
      invariant IsUnion(citations, findings[..i])
    {
      var f := findings[i];
      ghost var before := citations;
      for j := 0 to |f.citations|
        invariant Distinct(citations)
        invariant forall c :: c in citations <==> c in before || c in f.citations[..j]
      {
        assert f.citations[..j + 1] == f.citations[..j] + [f.citations[j]];
        if f.citations[j] !in citations {
          citations := citations + [f.citations[j]];
        }
      }
      assert f.citations[..|f.citations|] == f.citations;
      CitedOneMore(findings[..i], f);
      assert findings[..i + 1] == findings[..i] + [f];
    }
    assert findings[..|findings|] == findings;
  }

  lemma CitedOneMore(findings: seq<Finding>, f: Finding)
    ensures forall c :: CitedBy(findings + [f], c) <==> CitedBy(findings, c) || c in f.citations
  {
    forall c ensures CitedBy(findings + [f], c) <==> CitedBy(findings, c) || c in f.citations {
      assert forall g :: g in findings + [f] <==> g in findings || g == f;
    }
  }

  /** The least certain basis of all. */
  function LeastCertain(findings: seq<Finding>): Basis
    requires findings != []
  {
    if |findings| == 1 || Certainty(findings[0].basis) >= Certainty(LeastCertain(findings[1..])) then findings[0].basis
    else LeastCertain(findings[1..])
  }

  ghost predicate IsSummary(leads: seq<Finding>, s: Finding) {
    && leads != []
    && s.statement == SUMMARY_PREFIX + " " + Join(StatementsInOrder(leads), " ")
    && IsUnion(s.citations, leads)
    && (forall f :: f in leads ==> Certainty(f.basis) <= Certainty(s.basis))
    && (exists f :: f in leads && f.basis == s.basis)
    && s.evidenceStrength == if s.basis == Hypothesis then Some(Join(Strengths(leads), "; ")) else None
  }

  lemma {:induction false} LeastCertainIsMax(findings: seq<Finding>)
    requires findings != []
    ensures forall f :: f in findings ==> Certainty(f.basis) <= Certainty(LeastCertain(findings))
    ensures exists f :: f in findings && f.basis == LeastCertain(findings)
  {
    if |findings| == 1 {
      assert findings[0] in findings;
    } else {
      LeastCertainIsMax(findings[1..]);
      assert findings == [findings[0]] + findings[1..];
      var f :| f in findings[1..] && f.basis == LeastCertain(findings[1..]);
      assert f in findings && findings[0] in findings;
    }
  }

  method Summarise(leads: seq<Finding>) returns (s: Option<Finding>)
    ensures s.None? <==> leads == []
    ensures s.Some? ==> IsSummary(leads, s.value)
  {
    if leads == [] {
      return None;
    }
    var citations := GatherCitations(leads);
    var basis := LeastCertain(leads);
    LeastCertainIsMax(leads);
    s := Some(Finding(
      SUMMARY_PREFIX + " " + Join(StatementsInOrder(leads), " "), basis, citations,
      if basis == Hypothesis then Some(Join(Strengths(leads), "; ")) else None));
  }

  // ----- composing -----

  function Cited(): Finding -> bool { (f: Finding) => f.citations != [] }

  function NotIn(leads: seq<Finding>): Finding -> bool { (f: Finding) => f !in leads }

  /** The findings that lead: the ones that can be opened, or else the first. */
  function Leads(ordered: seq<Finding>): seq<Finding> {
    var cited := Filter(Cited(), ordered);
    if cited != [] then cited else ordered[..if |ordered| > 0 then 1 else 0]
  }

  function Support(ordered: seq<Finding>): seq<Finding> {
    Filter(NotIn(Leads(ordered)), ordered)
  }

  datatype Composition = Composition(shipped: seq<Finding>, lines: seq<string>)

  function Bulleted(findings: seq<Finding>): seq<string> {
    seq(|findings|, i requires 0 <= i < |findings| => "- " + findings[i].statement)
  }

  function Emphasised(caveats: seq<string>): seq<string> {
    seq(|caveats|, i requires 0 <= i < |caveats| => "_" + caveats[i] + "_")
  }

  /** What is shipped and what is printed: with a summary it leads both, and the leads it sums up are
      not printed again. */
  ghost predicate IsComposition(
    findings: seq<Finding>, caveats: seq<string>, summaryAfter: int, summary: Option<Finding>, r: Composition)
  {
    var ordered := Collapsed(findings);
    var leads, support := Leads(ordered), Support(ordered);
    && (summary.Some? <==> |ordered| >= summaryAfter && leads != [])
    && (summary.Some? ==> IsSummary(leads, summary.value))
    && r.shipped == (if summary.Some? then [summary.value] else []) + leads + support
    && r.lines == StatementsInOrder(if summary.Some? then [summary.value] else leads)
                  + Bulleted(support) + Emphasised(caveats)
  }

  ghost predicate IsComposed(findings: seq<Finding>, caveats: seq<string>, summaryAfter: int, r: Composition) {
    exists summary :: IsComposition(findings, caveats, summaryAfter, summary, r)
  }

  method Compose(findings: seq<Finding>, caveats: seq<string>, summaryAfter: int) returns (r: Composition)
    ensures IsComposed(findings, caveats, summaryAfter, r)
  {
    hide IsSummary, StatementsInOrder, Bulleted, Emphasised, Collapsed, Leads, Support, Filter;
    var ordered := Collapse(findings);
    var leads, support := Leads(ordered), Support(ordered);
    var made: Option<Finding> := None;
    if |ordered| >= summaryAfter {
      made := Summarise(leads);
    }
    var head := if made.Some? then [made.value] else leads;
    var lines := StatementsInOrder(head) + Bulleted(support) + Emphasised(caveats);
    var shipped := if made.Some? then [made.value] + leads + support else leads + support;
    assert [] + leads + support == leads + support;
    r := Composition(shipped, lines);
    assert IsComposition(findings, caveats, summaryAfter, made, r);
  }

  lemma {:induction false} UnionExists(findings: seq<Finding>) returns (citations: seq<Citation>)
    ensures IsUnion(citations, findings)
  {
    citations := [];
    if findings != [] {
      var n := |findings| - 1;
      var before := UnionExists(findings[..n]);
      citations := WithCitations(before, findings[n].citations);
      CitedOneMore(findings[..n], findings[n]);
      assert findings == findings[..n] + [findings[n]];
    }
  }

  lemma {:induction false} WithCitations(before: seq<Citation>, more: seq<Citation>) returns (citations: seq<Citation>)
    requires Distinct(before)
    ensures Distinct(citations) && forall c :: c in citations <==> c in before || c in more
  {
    citations := before;
    if more != [] {
      var n := |more| - 1;
      citations := WithCitations(before, more[..n]);
      assert more == more[..n] + [more[n]];
      if more[n] !in citations {
        citations := citations + [more[n]];
      }
    }
  }

  lemma CompositionExists(findings: seq<Finding>, caveats: seq<string>, summaryAfter: int) returns (r: Composition)
    ensures IsComposed(findings, caveats, summaryAfter, r)
  {
    hide IsUnion, StatementsInOrder, Bulleted, Emphasised, Collapsed, Leads, Support, Filter, Strengths, Join,
         LeastCertain;
    var ordered := Collapsed(findings);
    var leads, support := Leads(ordered), Support(ordered);
    var made: Option<Finding> := None;
    if |ordered| >= summaryAfter && leads != [] {
      var citations := UnionExists(leads);
      LeastCertainIsMax(leads);
      var basis := LeastCertain(leads);
      made := Some(Finding(SUMMARY_PREFIX + " " + Join(StatementsInOrder(leads), " "), basis, citations,
                           if basis == Hypothesis then Some(Join(Strengths(leads), "; ")) else None));
    }
    r := Composition((if made.Some? then [made.value] else []) + leads + support,
                     StatementsInOrder(if made.Some? then [made.value] else leads) + Bulleted(support) + Emphasised(caveats));
    assert IsComposition(findings, caveats, summaryAfter, made, r);
  }

  // ----- what composing guarantees -----

  lemma SplitKeepsAll(leads: seq<Finding>, ordered: seq<Finding>)
    requires Distinct(leads) && Distinct(ordered) && forall f :: f in leads ==> f in ordered
    ensures multiset(leads + Filter(NotIn(leads), ordered)) == multiset(ordered)
  {
    hide Filter;
    DistinctCount(leads);
    DistinctCount(ordered);
    forall f ensures multiset(leads + Filter(NotIn(leads), ordered))[f] == multiset(ordered)[f] {
      FilterCount(NotIn(leads), ordered, f);
      assert f in leads <==> f in multiset(leads);
      assert f in ordered <==> f in multiset(ordered);
    }
  }

  lemma OnceMeansDistinct(findings: seq<Finding>)
    requires EachStatementOnce(findings)
    ensures Distinct(findings)
  {
    forall i, j | 0 <= i < j < |findings| ensures findings[i] != findings[j] {
      assert findings[i].statement != findings[j].statement;
    }
  }

  /** The findings that can be opened lead and the rest support them; with none to open, the first leads. */
  lemma LeadsAreTheCited(ordered: seq<Finding>)
    requires EachStatementOnce(ordered)
    ensures (exists f :: f in ordered && f.citations != []) ==>
              forall f :: f in ordered ==> (f in Leads(ordered) <==> f.citations != [])
                                           && (f in Support(ordered) <==> f.citations == [])
    ensures (forall f :: f in ordered ==> f.citations == []) && ordered != [] ==>
              Leads(ordered) == [ordered[0]] && Support(ordered) == Filter(NotIn([ordered[0]]), ordered)
  {
    FilterIsEmpty(Cited(), ordered);
  }

  /** Leads and support are the collapsed findings again, in another order. */
  lemma ArrangementLosesNothing(findings: seq<Finding>)
    ensures (var ordered := Collapsed(findings);
             multiset(Leads(ordered) + Support(ordered)) == multiset(ordered))
    ensures (var ordered := Collapsed(findings);
             Statements(Leads(ordered) + Support(ordered)) == Statements(findings))
  {
    hide Collapsed, Leads, Filter, EachStatementOnce, Distinct;
    var ordered := Collapsed(findings);
    var leads, support := Leads(ordered), Support(ordered);
    CollapsedKeepsStatements(findings);
    OnceMeansDistinct(ordered);
    LeadsAreOrdered(ordered);
    SplitKeepsAll(leads, ordered);
    PermutationMembers(leads + support, ordered);
  }

  lemma LeadsAreOrdered(ordered: seq<Finding>)
    requires Distinct(ordered)
    ensures Distinct(Leads(ordered))
    ensures forall f :: f in Leads(ordered) ==> f in ordered
    ensures Leads(ordered) == [] <==> ordered == []
  {
    var cited := Filter(Cited(), ordered);
    if cited != [] {
      DistinctCount(ordered);
      forall f ensures multiset(cited)[f] <= 1 {
        FilterCount(Cited(), ordered, f);
      }
      DistinctCount(cited);
    }
  }

  lemma ShippedComeFromFindings(
    findings: seq<Finding>, caveats: seq<string>, summaryAfter: int, summary: Option<Finding>, r: Composition)
    requires IsComposition(findings, caveats, summaryAfter, summary, r)
    ensures forall f :: f in r.shipped ==> f in findings || (summary == Some(f) && IsSummary(Leads(Collapsed(findings)), f))
    ensures forall f :: f in Leads(Collapsed(findings)) ==> f in findings
  {
    hide IsSummary, Filter, StatementsInOrder, Bulleted, Emphasised;
    CollapsedKeepsStatements(findings);
    var ordered := Collapsed(findings);
    assert forall f :: f in Leads(ordered) ==> f in ordered;
  }

  /** Every citation in the answer is a citation of a finding that was handed in. */
  lemma NoCitationIsInvented(
    findings: seq<Finding>, caveats: seq<string>, summaryAfter: int, summary: Option<Finding>, r: Composition)
    requires IsComposition(findings, caveats, summaryAfter, summary, r)
    ensures forall f, c :: f in r.shipped && c in f.citations ==> CitedBy(findings, c)
  {
    hide IsComposition, Collapsed, Leads, Join, StatementsInOrder, Strengths;
    ShippedComeFromFindings(findings, caveats, summaryAfter, summary, r);
    var leads := Leads(Collapsed(findings));
    forall f, c | f in r.shipped && c in f.citations ensures CitedBy(findings, c) {
      if f !in findings {
        assert CitedBy(leads, c);
        var g :| g in leads && c in g.citations;
        assert g in findings;
      }
    }
  }

  lemma {:induction false} StrengthOfHypothesis(findings: seq<Finding>, f: Finding)
    requires f in findings && ValidFinding(f) && f.basis == Hypothesis
    ensures Strengths(findings) != [] && Join(Strengths(findings), "; ") != ""
  {
    StrengthsAreSaid(findings);
    if f != findings[0] {
      assert findings == [findings[0]] + findings[1..];
      StrengthOfHypothesis(findings[1..], f);
    }
    assert Strengths(findings)[0] != "";
  }

  lemma {:induction false} StrengthsAreSaid(findings: seq<Finding>)
    ensures forall i :: 0 <= i < |Strengths(findings)| ==> Strengths(findings)[i] != ""
  {
    if findings != [] { StrengthsAreSaid(findings[1..]); }
  }

  /** Composing valid findings never makes one the constructor refuses, so a hypothesis cannot be
      summed up without what supports it. */
  lemma ShippedAreValid(
    findings: seq<Finding>, caveats: seq<string>, summaryAfter: int, summary: Option<Finding>, r: Composition)
    requires forall f :: f in findings ==> ValidFinding(f)
    requires IsComposition(findings, caveats, summaryAfter, summary, r)
    ensures forall f :: f in r.shipped ==> ValidFinding(f)
  {
    hide IsComposition, Collapsed, Leads, Join, StatementsInOrder, Strengths, IsUnion;
    ShippedComeFromFindings(findings, caveats, summaryAfter, summary, r);
    var leads := Leads(Collapsed(findings));
    forall s | s in r.shipped && s !in findings ensures ValidFinding(s) {
      if s.basis == Hypothesis {
        var f :| f in leads && f.basis == s.basis;
        StrengthOfHypothesis(leads, f);
      }
    }
  }

  /** Nothing handed in goes unsaid, and no finding but the summary is anything else. */
  lemma EveryStatementIsShipped(
    findings: seq<Finding>, caveats: seq<string>, summaryAfter: int, summary: Option<Finding>, r: Composition)
    requires IsComposition(findings, caveats, summaryAfter, summary, r)
    ensures Statements(findings) <= Statements(r.shipped)
    ensures summary.Some? <==> findings != [] && |Collapsed(findings)| >= summaryAfter
  {
    hide IsSummary, StatementsInOrder, Bulleted, Emphasised;
    ArrangementLosesNothing(findings);
    var ordered := Collapsed(findings);
    var arranged := Leads(ordered) + Support(ordered);
    assert forall f :: f in arranged ==> f in r.shipped;
    CollapsedKeepsStatements(findings);
    if findings != [] {
      assert findings[0].statement in Statements(ordered);
    }
    assert Leads(ordered) == [] <==> ordered == [];
  }

  /** A summary is a hypothesis as soon as one lead is, measured only when all are, and derived otherwise. */
  lemma SummaryIsAsCertainAsItsLeads(leads: seq<Finding>, s: Finding)
    requires IsSummary(leads, s)
    ensures s.basis == Hypothesis <==> exists f :: f in leads && f.basis == Hypothesis
    ensures s.basis == Measured <==> forall f :: f in leads ==> f.basis == Measured
    ensures s.basis == Hypothesis <==> s.evidenceStrength.Some?
  {
    hide IsUnion, Join, StatementsInOrder, Strengths;
    var g :| g in leads && g.basis == s.basis;
    forall f | f in leads ensures Certainty(f.basis) <= Certainty(s.basis) {
    }
  }
}
