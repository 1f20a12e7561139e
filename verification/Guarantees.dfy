/**
 What every run of the agent guarantees, for every provider, tool and service, on every door out
 (`diagnostics/agent/src/agent/pipeline.py`).
 */
module Guarantees {
  import opened Sequences
  import opened Answers
  import opened Citations
  import opened Passes
  import opened Compose
  import opened Pipeline
  import opened Preparation
  import Routing

  // ----- the loop, from its beginning -----

  lemma WholeEndsWell(p: Prepared, s: Settings, others: Others)
    ensures EndsWell(p, s, others, Whole(p, s, others))
    ensures Whole(p, s, others).state.turns <= if s.toolBudget < 0 then 0 else s.toolBudget
    ensures Whole(p, s, others).exit == Exhausted ==>
              Whole(p, s, others).state.turns == if s.toolBudget < 0 then 0 else s.toolBudget
  {
    hide Loop, EndsWell, NeverBefore;
    var st := Begin(p, Opened(p));
    BeginsCoherent(p, s);
    LoopEndsWell(p, s, others, st);
    ExhaustedMeans(p, s, others);
  }

  lemma ExhaustedMeans(p: Prepared, s: Settings, others: Others)
    requires EndsWell(p, s, others, Whole(p, s, others))
    ensures Whole(p, s, others).exit == Exhausted ==> Whole(p, s, others).state.turns >= s.toolBudget
  {
    hide Loop;
  }

  lemma BeginsCoherent(p: Prepared, s: Settings)
    ensures Coherent(s, Begin(p, Opened(p))) && !TooManyFailures(s, [])
  {
    assert [Question(p.question)][..0] == [];
  }

  /** Turns never exceed the budget, on any door. */
  lemma TurnsStayInBudget(p: Prepared, s: Settings, others: Others, said: seq<string>, a: Answer, t: Trace)
    requires IsRun(p, s, others, said, a, t)
    ensures t.turns <= if s.toolBudget < 0 then 0 else s.toolBudget
  {
    hide Loop, EndsWell, IsAnswer;
    WholeEndsWell(p, s, others);
  }

  /** The citation correction is asked at most once. */
  lemma CorrectedAtMostOnce(p: Prepared, s: Settings, others: Others)
    ensures Corrections(Whole(p, s, others).state.messages) <= 1
  {
    hide Loop, Check;
    WholeEndsWell(p, s, others);
  }

  lemma {:induction false} TrailingMeans(calls: seq<CallRecord>, n: nat)
    ensures Trailing(calls) >= n <==> n <= |calls| && forall i :: |calls| - n <= i < |calls| ==> calls[i].failed
  {
    if n > 0 && calls != [] {
      var before := calls[..|calls| - 1];
      TrailingMeans(before, n - 1);
      if calls[|calls| - 1].failed && n <= |calls| {
        assert forall i :: |calls| - n <= i < |calls| - 1 ==> calls[i] == before[i];
      }
    }
  }

  /** The number of failures in a row that stops a run. */
  function Limit(s: Settings): nat {
    if s.toolFailureLimit < 1 then 1 else s.toolFailureLimit
  }

  ghost predicate LastAllFailed(s: Settings, calls: seq<CallRecord>) {
    Limit(s) <= |calls| && forall i :: |calls| - Limit(s) <= i < |calls| ==> calls[i].failed
  }

  /** A run aborts exactly when its last `limit` recorded calls all failed, and at the first such call. */
  lemma AbortsAtTheFirstFullRunOfFailures(p: Prepared, s: Settings, others: Others)
    ensures (var e := Whole(p, s, others);
             && (e.exit == Aborted <==> LastAllFailed(s, e.state.calls))
             && forall k :: 0 <= k < |e.state.calls| ==> !LastAllFailed(s, e.state.calls[..k]))
  {
    hide Loop, Check, Trailing;
    WholeEndsWell(p, s, others);
    var calls := Whole(p, s, others).state.calls;
    TrailingMeans(calls, Limit(s));
    forall k | 0 <= k < |calls| ensures !LastAllFailed(s, calls[..k]) {
      TrailingMeans(calls[..k], Limit(s));
      assert !TooManyFailures(s, calls[..k]);
    }
  }

  /** Through the loop, the answer's tool names are the recorded calls', and its turns the recorded
      turns unless a negative budget was exhausted before it began. */
  lemma MethodMatchesTheTrace(p: Prepared, s: Settings, others: Others, said: seq<string>, a: Answer, t: Trace)
    requires IsRun(p, s, others, said, a, t) && ReachesLoop(p)
    ensures a.how.toolsCalled == Names(t.calls)
    ensures a.how.budgetUsed == t.turns <==> s.toolBudget >= 0
  {
    hide Loop, Check, NeverBefore, TooManyFailures, IsComposed, RemovalNote, AbortNote, Unfinished, ExhaustedNote,
         Emphasised;
    WholeEndsWell(p, s, others);
    if s.toolBudget < 0 {
      NoBudgetIsExhausted(p, s, others);
    }
  }

  lemma NoBudgetIsExhausted(p: Prepared, s: Settings, others: Others)
    requires s.toolBudget < 0
    ensures Whole(p, s, others) == Ended(Begin(p, Opened(p)), Exhausted, None, None)
  {
  }

  /** The tools an answer names are the calls the trace records on every door but one: a window with no
      data, whose answer names the status it read, which the trace does not hold. */
  lemma ToolsMatchTheTraceExactly(p: Prepared, s: Settings, others: Others, said: seq<string>, a: Answer, t: Trace)
    requires IsRun(p, s, others, said, a, t)
    ensures a.how.toolsCalled == Names(t.calls) <==> p.askedBack.Some? || p.outOfScope || p.observed != 0
  {
    hide Whole, IsAnswer;
    if ReachesLoop(p) {
      MethodMatchesTheTrace(p, s, others, said, a, t);
    }
  }

  lemma DoorAnswers(p: Prepared, s: Settings, e: Ended) returns (a: Answer)
    requires e.exit != Raised
    requires e.exit == Aborted ==> e.state.calls != []
    requires e.exit == Delivered ==> e.final.Some? && e.checked.Some?
    ensures IsAnswer(p, s, e, a)
  {
    hide IsComposed, AbortNote, Unfinished, ExhaustedNote, Emphasised, RemovalNote;
    var st := e.state;
    match e.exit
    case Delivered =>
      var r := CompositionExists(e.checked.value.kept, DeliveredCaveats(e), s.summaryAfter);
      a := Answer(r.shipped, r.lines, Method(p.sops, st.called, st.turns), DeliveredCaveats(e),
                  e.final.value.contradiction, None);
    case Aborted =>
      var last := st.calls[|st.calls| - 1];
      var caveats := st.caveats + [AbortNote(st.failures, last.name, last.result)];
      a := Plain(UNREACHABLE, caveats, Method(p.sops, st.called, st.turns), caveats);
    case Exhausted =>
      a := Plain(Unfinished(st.called), st.caveats, Method(p.sops, st.called, s.toolBudget),
                 st.caveats + [ExhaustedNote(s.toolBudget)]);
  }

  lemma WholeAnswers(p: Prepared, s: Settings, others: Others) returns (a: Answer)
    requires Whole(p, s, others).exit != Raised
    ensures IsAnswer(p, s, Whole(p, s, others), a)
  {
    hide Whole, IsAnswer, Check, NeverBefore, Refused;
    WholeEndsWell(p, s, others);
    TrailingMeans(Whole(p, s, others).state.calls, 1);
    a := DoorAnswers(p, s, Whole(p, s, others));
  }

  lemma RaisedIsNoAnswer(p: Prepared, s: Settings, e: Ended, a: Answer)
    ensures e.exit == Raised ==> !IsAnswer(p, s, e, a)
  {
    hide IsComposed;
  }

  ghost predicate HasAnswer(p: Prepared, s: Settings, others: Others) {
    exists said, a, t :: IsRun(p, s, others, said, a, t)
  }

  /** A run has an answer exactly when it does not stop with an error, and it does that only over a calendar
      that refuses its own default, a finding or a contradiction that is stated wrongly. */
  lemma RaisesOverWrongStatements(p: Prepared, s: Settings, others: Others)
    ensures Raises(p, s, others) <==> !HasAnswer(p, s, others)
    ensures Raises(p, s, others) && p.resolved ==>
              var e := Whole(p, s, others);
              e.final.Some? && (!ValidFindings(e.final.value.findings) || Refused(e.final.value))
  {
    hide Whole, Check, Coherent, IsAnswer, Plain;
    WholeEndsWell(p, s, others);
    forall a ensures Whole(p, s, others).exit == Raised ==> !IsAnswer(p, s, Whole(p, s, others), a) {
      RaisedIsNoAnswer(p, s, Whole(p, s, others), a);
    }
    if !Raises(p, s, others) {
      var untouched := Trace(p.sops, [], 0, s.toolBudget);
      if p.askedBack.Some? {
        var a := Plain(p.askedBack.value, p.routed, Method(p.sops, [], 0), p.routed)
                 .(clarification := Some(Clarification(p.askedBack.value, p.readings)));
        assert IsRun(p, s, others, Routed(p), a, untouched);
      } else if p.outOfScope {
        var caveats := p.routed + Noted(p.reading);
        assert IsRun(p, s, others, Routed(p), Plain(DECLINE, caveats, Method(p.sops, [], 0), caveats), untouched);
      } else if p.observed == 0 {
        var caveats := LoopCaveats(p) + [p.noData];
        assert IsRun(p, s, others, Opened(p), Plain(EMPTY_WINDOW, caveats, Method(p.sops, [LINE_STATUS], 0), caveats), untouched);
      } else {
        var a := WholeAnswers(p, s, others);
        var st := Whole(p, s, others).state;
        assert IsRun(p, s, others, st.said, a, Trace(p.sops, st.calls, st.turns, s.toolBudget));
      }
    }
  }

  // ----- no unverified claim -----

  /** The finding's citations were decided for in this run's verification, each by what the service said when
      it was asked, and carry the run's window exactly when their kind takes one. */
  ghost predicate Grounded(p: Prepared, s: Settings, others: Others, t: Trace, c: Citation) {
    && ReachesLoop(p) && Whole(p, s, others).final.Some?
    && var pass := PassOf(p, others, t.turns, t.calls, Whole(p, s, others).final.value);
       Justified(c, others.service(t.turns), RunOf(p, t.calls), pass, true) && CarriesRunWindow(c, p.window)
  }

  lemma {:induction false} CitedAmongAll(findings: seq<Finding>, f: Finding, c: Citation)
    requires f in findings && c in f.citations
    ensures c in AllCitations(findings)
  {
    var n := |findings| - 1;
    assert findings == findings[..n] + [findings[n]];
    if f in findings[..n] {
      CitedAmongAll(findings[..n], f, c);
    }
  }

  lemma KeptIsGrounded(p: Prepared, others: Others, t: Trace, final: Final, v: Verification, c: Citation)
    requires IsVerification(Stamped(final.findings, p.window),
                            PassOf(p, others, t.turns, t.calls, final).decided, v)
    requires CitedBy(v.kept, c)
    ensures Justified(c, others.service(t.turns), RunOf(p, t.calls), PassOf(p, others, t.turns, t.calls, final), true)
    ensures CarriesRunWindow(c, p.window)
  {
    hide Justified, FailedLabel, Stamped, CarriesRunWindow, DecideAll;
    var stated := Stamped(final.findings, p.window);
    var pass := PassOf(p, others, t.turns, t.calls, final);
    StampingWritesTheRunWindow(final.findings, p.window);
    var f :| f in v.kept && c in f.citations;
    assert Sound(f, pass.decided);
    CitedAmongAll(stated, f, c);
    DecisionsAreAnswers(AllCitations(stated), others.service(t.turns), RunOf(p, t.calls));
  }

  /** Every citation of every finding delivered, the summary's included, was found in this run when the service
      was asked, over this run's window, and carries that window exactly when its kind takes one. */
  lemma NoUnverifiedClaimShips(p: Prepared, s: Settings, others: Others, said: seq<string>, a: Answer, t: Trace)
    requires IsRun(p, s, others, said, a, t)
    ensures forall f, c :: f in a.findings && c in f.citations ==> Grounded(p, s, others, t, c)
  {
    hide Loop, Justified, CarriesRunWindow, Coherent, TooManyFailures, IsVerification, IsComposition, RemovalNote,
         PassOf;
    WholeEndsWell(p, s, others);
    var e := Whole(p, s, others);
    if ReachesLoop(p) && e.exit == Delivered {
      var kept, caveats := e.checked.value.kept, DeliveredCaveats(e);
      var summary :| IsComposition(kept, caveats, s.summaryAfter, summary, Composition(a.findings, a.lines));
      NoCitationIsInvented(kept, caveats, s.summaryAfter, summary, Composition(a.findings, a.lines));
      forall f, c | f in a.findings && c in f.citations ensures Grounded(p, s, others, t, c) {
        KeptIsGrounded(p, others, t, e.final.value, e.checked.value, c);
      }
    }
  }

  /** Call `i` is the last one recorded under its id, and it answered. */
  ghost predicate AnsweredBy(calls: seq<CallRecord>, i: int, id: string) {
    && 0 <= i < |calls| && calls[i].id == id && !calls[i].failed
    && forall j :: i < j < |calls| ==> calls[j].id != id
  }

  lemma {:induction false} ByIdKeepsTheLast(calls: seq<CallRecord>, id: string) returns (i: nat)
    requires id in ById(calls)
    ensures i < |calls| && calls[i] == ById(calls)[id] && calls[i].id == id
    ensures forall j :: i < j < |calls| ==> calls[j].id != id
  {
    var n := |calls| - 1;
    if calls[n].id == id {
      i := n;
    } else {
      i := ByIdKeepsTheLast(calls[..n], id);
      assert forall j :: i < j < n ==> calls[j] == calls[..n][j];
    }
  }

  /** Some call recorded under `id` answered, and it is the last one under it. */
  ghost predicate CallAnswered(calls: seq<CallRecord>, id: string) {
    exists i :: AnsweredBy(calls, i, id)
  }

  /** Its series and the bands behind it come from calls that answered; an empty id reads nothing. */
  ghost predicate ReadsAnswers(calls: seq<CallRecord>, r: Referent)
    requires r.Chart?
  {
    && (r.source != "" ==> CallAnswered(calls, r.source))
    && (r.bands.Some? && r.bands.value != "" ==> CallAnswered(calls, r.bands.value))
  }

  lemma {:induction false} ByIdHoldsEvery(calls: seq<CallRecord>, i: nat)
    requires i < |calls|
    ensures calls[i].id in ById(calls)
  {
    var n := |calls| - 1;
    if i < n {
      ByIdHoldsEvery(calls[..n], i);
    }
  }

  lemma AnsweredExactly(calls: seq<CallRecord>, id: string)
    ensures CallAnswered(calls, id) <==> id in ById(calls) && !ById(calls)[id].failed
  {
    if i :| AnsweredBy(calls, i, id) {
      ByIdHoldsEvery(calls, i);
      var j := ByIdKeepsTheLast(calls, id);
    }
    if id in ById(calls) && !ById(calls)[id].failed {
      var j := ByIdKeepsTheLast(calls, id);
      assert AnsweredBy(calls, j, id);
    }
  }

  lemma ChartAnsweredExactly(p: Prepared, calls: seq<CallRecord>, r: Referent)
    requires r.Chart?
    ensures Answered(r, RunOf(p, calls)) <==> ReadsAnswers(calls, r)
  {
    hide CallAnswered, ById;
    AnsweredExactly(calls, r.source);
    if r.bands.Some? {
      AnsweredExactly(calls, r.bands.value);
    }
  }

  /** A chart is decided for exactly when the calls its series and its bands come from answered, so such a
      chart is never the reason a finding goes. */
  lemma ChartsHoldExactly(p: Prepared, others: Others, turns: nat, calls: seq<CallRecord>, final: Final, f: Finding, c: Citation)
    requires f in Stamped(final.findings, p.window) && c in f.citations && c.referent.Chart?
    ensures Holds(PassOf(p, others, turns, calls, final).decided, c) <==> ReadsAnswers(calls, c.referent)
  {
    hide DecideAll, Stamped, ReadsAnswers, Answered;
    var stated := Stamped(final.findings, p.window);
    CitedAmongAll(stated, f, c);
    DecisionsAreAnswers(AllCitations(stated), others.service(turns), RunOf(p, calls));
    ChartAnsweredExactly(p, calls, c.referent);
  }

  /** A delivered chart reads only calls this run recorded and that answered, for its series and for its
      bands; where an id was used twice, it is the later call that must have. */
  lemma ChartsRestOnRecordedAnswers(
    p: Prepared, s: Settings, others: Others, said: seq<string>, a: Answer, t: Trace, f: Finding, c: Citation)
    requires IsRun(p, s, others, said, a, t) && f in a.findings && c in f.citations && c.referent.Chart?
    ensures c.referent.source != "" ==> exists i :: AnsweredBy(t.calls, i, c.referent.source)
    ensures c.referent.bands.Some? && c.referent.bands.value != "" ==>
              exists i :: AnsweredBy(t.calls, i, c.referent.bands.value)
  {
    hide IsRun, Answered, PassOf;
    NoUnverifiedClaimShips(p, s, others, said, a, t);
    assert Grounded(p, s, others, t, c);
    ChartAnsweredExactly(p, t.calls, c.referent);
  }

  /** A delivered procedure was loaded by routing, and existed when the verification asked for it. */
  lemma ProceduresWereLoaded(
    p: Prepared, s: Settings, others: Others, said: seq<string>, a: Answer, t: Trace, f: Finding, c: Citation)
    requires IsRun(p, s, others, said, a, t) && f in a.findings && c in f.citations && c.referent.Sop?
    ensures c.referent.id in p.sops && Whole(p, s, others).final.Some?
    ensures exists k :: 0 <= k < PassOf(p, others, t.turns, t.calls, Whole(p, s, others).final.value).asked
                        && others.service(t.turns)(k).knowledge(c.referent.id)
  {
    hide IsRun, PassOf;
    NoUnverifiedClaimShips(p, s, others, said, a, t);
    assert Grounded(p, s, others, t, c);
  }

  // ----- the answer is one its own constructor accepts -----

  lemma StampingKeepsValidity(findings: seq<Finding>, w: Window)
    requires forall f :: f in findings ==> ValidFinding(f)
    ensures forall f :: f in Stamped(findings, w) ==> ValidFinding(f)
  {
    forall f | f in Stamped(findings, w) ensures ValidFinding(f) {
      var i :| 0 <= i < |findings| && Stamped(findings, w)[i] == f;
      assert findings[i] in findings;
    }
  }

  /** No run builds an answer that is refused: hypotheses keep their strength, windowed citations their
      window, a question asked back carries no finding and two readings at least, and a contradiction
      that ships is one. */
  lemma EveryAnswerIsAccepted(
    a: Asking, selection: Routing.Selection, s: Settings, others: Others, said: seq<string>, answer: Answer, t: Trace)
    requires IsRun(Prepare(a, selection), s, others, said, answer, t)
    ensures ValidAnswer(answer)
  {
    hide Loop, Whole, EndsWell, Coherent, TooManyFailures, IsComposed, RemovalNote, Stamped, ValidFinding,
         AbortNote, Unfinished, ExhaustedNote, Emphasised, Grounded, Prepare, Refused;
    var p := Prepare(a, selection);
    AskingBackNeedsTwoReadings(a, selection);
    WholeEndsWell(p, s, others);
    NoUnverifiedClaimShips(p, s, others, said, answer, t);
    forall f, c | f in answer.findings && c in f.citations ensures Windowed(c.referent) ==> c.window.Some? {
      GroundedCarriesWindow(p, s, others, t, c);
    }
    var e := Whole(p, s, others);
    if ReachesLoop(p) && e.exit == Delivered {
      DeliveredAreValid(p, s, others, e, answer);
    }
  }

  lemma GroundedCarriesWindow(p: Prepared, s: Settings, others: Others, t: Trace, c: Citation)
    requires Grounded(p, s, others, t, c)
    ensures Windowed(c.referent) ==> c.window.Some?
  {
    hide Justified, PassOf, Whole;
  }

  lemma DeliveredAreValid(p: Prepared, s: Settings, others: Others, e: Ended, a: Answer)
    requires EndsWell(p, s, others, e) && e.exit == Delivered && IsAnswer(p, s, e, a)
    ensures forall f :: f in a.findings ==> ValidFinding(f)
    ensures a.contradiction.Some? ==> ValidContradiction(a.contradiction.value)
    ensures a.clarification.None?
  {
    hide Coherent, TooManyFailures, IsComposition, RemovalNote, Stamped, ValidFinding;
    var kept, caveats := e.checked.value.kept, DeliveredCaveats(e);
    StampingKeepsValidity(e.final.value.findings, p.window);
    var summary :| IsComposition(kept, caveats, s.summaryAfter, summary, Composition(a.findings, a.lines));
    ShippedAreValid(kept, caveats, s.summaryAfter, summary, Composition(a.findings, a.lines));
  }

  // ----- what the model types into a window reaches nothing -----

  ghost predicate FinalsSameButWindow(a: Option<Final>, b: Option<Final>) {
    && (a.Some? <==> b.Some?)
    && (a.Some? ==>
          && a.value.caveats == b.value.caveats && a.value.contradiction == b.value.contradiction
          && |a.value.findings| == |b.value.findings|
          && forall i :: 0 <= i < |a.value.findings| ==> FindingsSameButWindow(a.value.findings[i], b.value.findings[i]))
  }

  /** Two worlds that differ at most in the windows their provider writes into its citations. */
  ghost predicate SameButWindows(a: Others, b: Others) {
    && a.tool == b.tool && a.service == b.service
    && forall turn, messages ::
         && a.provider(turn, messages).toolCalls == b.provider(turn, messages).toolCalls
         && FinalsSameButWindow(a.provider(turn, messages).final, b.provider(turn, messages).final)
  }

  ghost predicate EndsAlike(a: Ended, b: Ended) {
    && a.state == b.state && a.exit == b.exit && a.checked == b.checked
    && FinalsSameButWindow(a.final, b.final)
  }

  lemma {:induction false} MakeCallsAlike(
    p: Prepared, s: Settings, a: Others, b: Others, st: State, calls: seq<ToolCall>, i: nat)
    requires a.tool == b.tool && i <= |calls|
    ensures MakeCalls(p, s, a, st, calls, i) == MakeCalls(p, s, b, st, calls, i)
    decreases |calls| - i
  {
    if i < |calls| {
      MakeCallsAlike(p, s, a, b, AfterCall(p, st, calls[i], a.tool(st.turns, i, calls[i])), calls, i + 1);
    }
  }

  lemma CheckAlike(p: Prepared, a: Others, b: Others, st: State, f: Final, g: Final)
    requires a.service == b.service && FinalsSameButWindow(Some(f), Some(g))
    ensures Check(p, a, st, f) == Check(p, b, st, g)
  {
    ModelWindowsAreOverwritten(f.findings, g.findings, p.window);
  }

  lemma ValidAlike(f: Final, g: Final)
    requires FinalsSameButWindow(Some(f), Some(g))
    ensures ValidFindings(f.findings) == ValidFindings(g.findings) && Refused(f) == Refused(g)
  {
    forall i | 0 <= i < |f.findings| ensures ValidFinding(f.findings[i]) == ValidFinding(g.findings[i]) {
      assert FindingsSameButWindow(f.findings[i], g.findings[i]);
    }
    assert forall i :: 0 <= i < |f.findings| ==> f.findings[i] in f.findings && g.findings[i] in g.findings;
  }

  ghost predicate NextAlike(a: Next, b: Next) {
    match a
    case On(st) => b == On(st)
    case Done(e) => b.Done? && EndsAlike(e, b.ended)
  }

  lemma TurnsAlike(p: Prepared, s: Settings, a: Others, b: Others, st: State)
    requires SameButWindows(a, b)
    ensures NextAlike(TakeTurn(p, s, a, st), TakeTurn(p, s, b, st))
  {
    hide Check, MakeCalls, ValidFindings, Refused;
    var asked := Asked(st);
    var x, y := a.provider(asked.turns, asked.messages), b.provider(asked.turns, asked.messages);
    assert FinalsSameButWindow(x.final, y.final);
    if x.final.Some? {
      CheckAlike(p, a, b, asked, x.final.value, y.final.value);
      ValidAlike(x.final.value, y.final.value);
    } else {
      MakeCallsAlike(p, s, a, b, asked, x.toolCalls, 0);
    }
  }

  lemma {:induction false} LoopsAlike(p: Prepared, s: Settings, a: Others, b: Others, st: State)
    requires SameButWindows(a, b)
    ensures EndsAlike(Loop(p, s, a, st), Loop(p, s, b, st))
    decreases s.toolBudget - st.turns
  {
    hide TakeTurn, SameButWindows;
    if st.turns < s.toolBudget {
      TurnsAlike(p, s, a, b, st);
      var next := TakeTurn(p, s, a, st);
      if next.On? { LoopsAlike(p, s, a, b, next.state); }
    } else {
      assert FinalsSameButWindow(None, None);
    }
  }

  /** Whatever interval a model claims, the run, its answer and its trace are the same. */
  lemma NoWindowFromTheModelReachesTheAnswer(
    p: Prepared, s: Settings, a: Others, b: Others, said: seq<string>, answer: Answer, t: Trace)
    requires SameButWindows(a, b) && IsRun(p, s, a, said, answer, t)
    ensures IsRun(p, s, b, said, answer, t)
  {
    hide Loop, IsComposed, SameButWindows;
    LoopsAlike(p, s, a, b, Begin(p, Opened(p)));
  }

  // ----- a correction needs a turn to be answered in -----

  /** The state the run's loop is in after `n` turns, if it gets that far. */
  ghost function StateAfter(p: Prepared, s: Settings, others: Others, n: nat): Option<State> {
    if n == 0 then
      Some(Begin(p, Opened(p)))
    else
      match StateAfter(p, s, others, n - 1)
      case None => None
      case Some(st) =>
        if st.turns >= s.toolBudget then None
        else
          match TakeTurn(p, s, others, st)
          case On(next) => Some(next)
          case Done(_) => None
  }

  lemma {:induction false} LoopGoesThrough(p: Prepared, s: Settings, others: Others, n: nat)
    requires StateAfter(p, s, others, n).Some?
    ensures StateAfter(p, s, others, n).value.turns == n
    ensures Loop(p, s, others, StateAfter(p, s, others, n).value) == Whole(p, s, others)
  {
    hide TakeTurn;
    if n > 0 {
      LoopGoesThrough(p, s, others, n - 1);
    }
  }

  lemma LastTurn(p: Prepared, s: Settings, others: Others, st: State, final: Final)
    requires st.turns + 1 == s.toolBudget && ValidFindings(final.findings) && !Refused(final)
    requires others.provider(s.toolBudget, st.messages).final == Some(final)
    ensures (var e := Loop(p, s, others, st);
             var checked := Check(p, others, Asked(st), final);
             && (e.exit == Delivered <==> checked.failed == [] || st.retried)
             && (e.exit != Delivered ==> e.exit == Exhausted && e.state.retried))
  {
    hide Check, MakeCalls, ValidFindings, Refused;
    var again := Corrected(Verifying(Asked(st)), Check(p, others, Asked(st), final).failed);
    assert Loop(p, s, others, again) == Ended(again, Exhausted, None, None);
  }

  /** A run whose final answer comes on the last turn of its budget delivers it exactly when all its
      citations resolve or the correction was spent before. Otherwise the correction is asked and never
      answered: the run ends as exhausted, without any finding, those that did resolve included. */
  lemma CorrectionOnTheLastTurnLosesTheAnswer(
    p: Prepared, s: Settings, others: Others, said: seq<string>, a: Answer, t: Trace, st: State, final: Final)
    requires IsRun(p, s, others, said, a, t) && ReachesLoop(p) && s.toolBudget >= 1
    requires StateAfter(p, s, others, s.toolBudget - 1) == Some(st)
    requires others.provider(s.toolBudget, st.messages).final == Some(final)
    requires ValidFindings(final.findings) && !Refused(final)
    ensures (var checked := Check(p, others, Asked(st), final);
             if checked.failed == [] || st.retried then
               Whole(p, s, others).exit == Delivered && a.how.budgetUsed == s.toolBudget
             else
               Whole(p, s, others).exit == Exhausted && a.findings == [] && CORRECTING in said)
  {
    hide TakeTurn, Check, IsComposed, ValidFindings, Refused, Coherent, RemovalNote, Unfinished, ExhaustedNote,
         Emphasised;
    LoopGoesThrough(p, s, others, s.toolBudget - 1);
    LastTurn(p, s, others, st, final);
    WholeEndsWell(p, s, others);
    assert st.turns + 1 == s.toolBudget;
    LastTurnState(p, s, others, st, final);
  }

  lemma LastTurnState(p: Prepared, s: Settings, others: Others, st: State, final: Final)
    requires st.turns + 1 == s.toolBudget && ValidFindings(final.findings) && !Refused(final)
    requires others.provider(s.toolBudget, st.messages).final == Some(final)
    ensures Loop(p, s, others, st).state.turns == s.toolBudget
    ensures Loop(p, s, others, st).exit == Exhausted ==> CORRECTING in Loop(p, s, others, st).state.said
  {
    hide Check, MakeCalls, ValidFindings, Refused;
    var again := Corrected(Verifying(Asked(st)), Check(p, others, Asked(st), final).failed);
    assert Loop(p, s, others, again) == Ended(again, Exhausted, None, None);
    assert again.said[|again.said| - 1] == CORRECTING;
  }
}
