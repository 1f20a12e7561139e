/**
 A run that loses what it verified: a budget of one turn, a provider that answers at once with two
 claims, and a database that holds the part one of them cites and not the other's.
 */
module LostAnswer {
  import opened Sequences
  import opened Answers
  import opened Citations
  import opened Passes
  import opened Preparation
  import opened Pipeline
  import opened Guarantees

  const HERE := Finding("part A was scrapped", Measured, [Citation(Part("A"), None)], None)
  const NOWHERE := Finding("part B was scrapped", Measured, [Citation(Part("B"), None)], None)
  const ANSWERED := Final([HERE, NOWHERE], [], None)

  const HOLDS_A: Service := Service((l: Lookup, w: Window) => l == PartExists("A"), (id: string) => false,
                                    (w: Window) => [], (w: Window) => [])

  const STEADY: Analysis := (k: nat) => HOLDS_A

  const AT_ONCE: Others := Others((turn: nat, messages: seq<Message>) => Reply([], Some(ANSWERED)),
                                  (turn: nat, i: nat, call: ToolCall) => Outcome("", false, None),
                                  (turn: nat) => STEADY)

  lemma FilterFirstOfTwo<T(!new)>(p: T -> bool, x: T, y: T)
    requires p(x) && !p(y)
    ensures Filter(p, [x, y]) == [x]
  {
    assert [x, y][1..] == [y] && [y][1..] == [];
  }

  ghost function Decisions(run: Run, w: Window): Decided {
    PassOver(Stamped(ANSWERED.findings, w), STEADY, run).decided
  }

  lemma OneHolds(run: Run, w: Window)
    ensures forall c :: c in StampedFinding(HERE, w).citations ==> Holds(Decisions(run, w), c)
    ensures StampedFinding(NOWHERE, w).citations == [StampedCitation(NOWHERE.citations[0], w)]
    ensures StampedFinding(HERE, w).citations == [StampedCitation(HERE.citations[0], w)]
    ensures !Holds(Decisions(run, w), StampedCitation(NOWHERE.citations[0], w))
  {
    hide DecideAll;
    var stated := Stamped(ANSWERED.findings, w);
    var x, y := StampedFinding(HERE, w), StampedFinding(NOWHERE, w);
    assert stated == [x, y];
    assert x.citations == [StampedCitation(HERE.citations[0], w)];
    assert y.citations == [StampedCitation(NOWHERE.citations[0], w)];
    assert x in stated && y in stated;
    CitedAmongAll(stated, x, x.citations[0]);
    CitedAmongAll(stated, y, y.citations[0]);
    SteadyServiceResolves(AllCitations(stated), STEADY, run, HOLDS_A);
    assert Resolves(x.citations[0], HOLDS_A, run) && !Resolves(y.citations[0], HOLDS_A, run);
  }

  /** One claim resolves and one does not, whatever the run's window and calls. */
  lemma OneOfTwoResolves(run: Run, w: Window)
    ensures (var v := VerificationOf(Stamped(ANSWERED.findings, w), Decisions(run, w));
             v.kept == [StampedFinding(HERE, w)] && v.failed == ["part:B"] && v.removed == 1)
  {
    hide Decisions, Holds;
    var stated := Stamped(ANSWERED.findings, w);
    var x, y := StampedFinding(HERE, w), StampedFinding(NOWHERE, w);
    assert stated == [x, y];
    OneHolds(run, w);
    assert StampedCitation(NOWHERE.citations[0], w) in y.citations;
    FilterFirstOfTwo(Surviving(Decisions(run, w)), x, y);
    OnlyPartB(stated, run, w);
    var v := VerificationOf(stated, Decisions(run, w));
    SortedSingleton(v.failed, "part:B");
  }

  lemma OnlyPartB(stated: seq<Finding>, run: Run, w: Window)
    requires stated == [StampedFinding(HERE, w), StampedFinding(NOWHERE, w)]
    ensures forall name :: FailedLabel(stated, Decisions(run, w), name) <==> name == "part:B"
  {
    hide Decisions, Holds;
    var y := stated[1];
    var c := StampedCitation(NOWHERE.citations[0], w);
    OneHolds(run, w);
    assert c in y.citations && y in stated && Label(c) == "part:" + "B" == "part:B";
    assert FailedLabel(stated, Decisions(run, w), "part:B");
  }

  lemma SortedSingleton(s: seq<string>, x: string)
    requires Distinct(s) && forall y :: y in s <==> y == x
    ensures s == [x]
  {
    SameMembersSameMultiset(s, [x]);
    assert |s| == |multiset(s)| == |multiset([x])| == 1;
    assert s[0] in s;
  }

  /** Any question that reaches the loop, with one turn to answer it: the run ends as exhausted and says
      nothing of the part that was verified. */
  lemma OneTurnLosesTheVerifiedClaim(p: Prepared, s: Settings) returns (said: seq<string>, a: Answer, t: Trace)
    requires ReachesLoop(p) && s.toolBudget == 1
    ensures IsRun(p, s, AT_ONCE, said, a, t) && a.findings == [] && t.turns == 1
    ensures Check(p, AT_ONCE, Asked(Begin(p, Opened(p))), ANSWERED).kept == [StampedFinding(HERE, p.window)]
  {
    hide Check, Plain, IsVerification, TakeTurn, Conclude, Loop, PassOf, Unfinished, ExhaustedNote;
    var st := Begin(p, Opened(p));
    ChecksA(p, st);
    LastTurn(p, s, AT_ONCE, st, ANSWERED);
    LastTurnState(p, s, AT_ONCE, st, ANSWERED);
    var e := Whole(p, s, AT_ONCE);
    said, t := e.state.said, Trace(p.sops, e.state.calls, e.state.turns, s.toolBudget);
    a := Plain(Unfinished(e.state.called), e.state.caveats, Method(p.sops, e.state.called, s.toolBudget),
               e.state.caveats + [ExhaustedNote(s.toolBudget)]);
    assert a.findings == [] by { PlainHasNoFindings(e.state, p, s); }
  }

  lemma PlainHasNoFindings(st: State, p: Prepared, s: Settings)
    ensures Plain(Unfinished(st.called), st.caveats, Method(p.sops, st.called, s.toolBudget),
                  st.caveats + [ExhaustedNote(s.toolBudget)]).findings == []
  {
  }

  lemma ChecksA(p: Prepared, st: State)
    ensures Check(p, AT_ONCE, Asked(st), ANSWERED).kept == [StampedFinding(HERE, p.window)]
    ensures Check(p, AT_ONCE, Asked(st), ANSWERED).failed != []
  {
    OneOfTwoResolves(RunOf(p, st.calls), p.window);
  }
}
