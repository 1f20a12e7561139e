/**
 One run of the agent as it happens, after `diagnostics/agent/src/agent/pipeline.py`: the recorder,
 the stages and the stream, yielding each step, the answer and the trace where the source yields it.
 */
module Running {
  import opened Sequences
  import opened Answers
  import opened Citations
  import opened Passes
  import opened Compose
  import opened Preparation
  import opened Pipeline
  import Routing

  datatype Item = Progress(message: string) | Said(answer: Answer) | Traced(trace: Trace)

  // ----- what has been yielded -----

  function Spoken(items: seq<Item>): seq<string> {
    if items == [] then []
    else if items[|items| - 1].Progress? then Spoken(items[..|items| - 1]) + [items[|items| - 1].message]
    else Spoken(items[..|items| - 1])
  }

  function Saids(items: seq<Item>): nat {
    if items == [] then 0 else Saids(items[..|items| - 1]) + if items[|items| - 1].Said? then 1 else 0
  }

  function Traceds(items: seq<Item>): nat {
    if items == [] then 0 else Traceds(items[..|items| - 1]) + if items[|items| - 1].Traced? then 1 else 0
  }

  /** Only steps so far. */
  predicate Unanswered(items: seq<Item>) {
    Saids(items) == 0 && Traceds(items) == 0
  }

  lemma OneMoreItem(items: seq<Item>, item: Item)
    ensures Spoken(items + [item]) == if item.Progress? then Spoken(items) + [item.message] else Spoken(items)
    ensures Saids(items + [item]) == Saids(items) + if item.Said? then 1 else 0
    ensures Traceds(items + [item]) == Traceds(items) + if item.Traced? then 1 else 0
  {
    assert (items + [item])[..|items|] == items;
  }

  lemma {:induction false} NoneCounted(items: seq<Item>)
    ensures Saids(items) == 0 <==> forall i :: 0 <= i < |items| ==> !items[i].Said?
    ensures Traceds(items) == 0 <==> forall i :: 0 <= i < |items| ==> !items[i].Traced?
  {
    if items != [] {
      NoneCounted(items[..|items| - 1]);
      assert items == items[..|items| - 1] + [items[|items| - 1]];
    }
  }

  /** Item `i` is the one answer when it is the last but one, and the one trace when it is last. */
  ghost predicate InPlace(items: seq<Item>, i: int)
    requires 0 <= i < |items|
  {
    (items[i].Said? <==> i == |items| - 2) && (items[i].Traced? <==> i == |items| - 1)
  }

  /** Exactly one answer, then exactly one trace, and nothing but steps before. */
  ghost predicate AnsweredThenTraced(items: seq<Item>) {
    |items| >= 2 && forall i :: 0 <= i < |items| ==> InPlace(items, i)
  }

  /** One answer at the end of the stages and one trace after it leave steps everywhere before. */
  lemma CountsFixPlaces(staged: seq<Item>, t: Trace)
    requires staged != [] && staged[|staged| - 1].Said? && Saids(staged) == 1 && Traceds(staged) == 0
    ensures AnsweredThenTraced(staged + [Traced(t)])
  {
    var items, front := staged + [Traced(t)], staged[..|staged| - 1];
    NoneCounted(front);
    NoneCounted(staged);
    forall i | 0 <= i < |items| ensures InPlace(items, i) {
      if i < |front| { assert items[i] == front[i]; }
    }
  }

  // ----- the recorder -----

  /** What the run has done so far; the trace is read off it at the end, whichever door was taken. */
  class Recorder {
    const turnsLimit: int
    var sops: seq<string>
    var calls: seq<CallRecord>
    var turns: nat

    constructor (limit: int)
      ensures turnsLimit == limit && sops == [] && calls == [] && turns == 0
    {
      turnsLimit := limit;
      sops, calls, turns := [], [], 0;
    }

    function AsTrace(): Trace
      reads this
    {
      Trace(sops, calls, turns, turnsLimit)
    }
  }

  // ----- the tool loop -----

  method Deliver(p: Prepared, s: Settings, ghost e: Ended, final: Final, checked: Verification,
                 caveats: seq<string>, called: seq<string>, turns: nat)
    returns (a: Answer)
    requires e.exit == Delivered && e.final == Some(final) && e.checked == Some(checked)
    requires caveats == e.state.caveats && called == e.state.called && turns == e.state.turns
    ensures IsAnswer(p, s, e, a)
  {
    var all := caveats + Noted(RemovalNote(checked)) + final.caveats;
    var r := Compose.Compose(checked.kept, all, s.summaryAfter);
    a := Answer(r.shipped, r.lines, Method(p.sops, called, turns), all, final.contradiction, None);
  }

  /** What a stage leaves behind: either the error it raised and steps only, or one answer, last. */
  ghost predicate Left(items: seq<Item>, raised: bool) {
    && Traceds(items) == 0
    && Saids(items) == (if raised then 0 else 1)
    && (!raised ==> items != [] && items[|items| - 1].Said?)
  }

  method Investigate(p: Prepared, s: Settings, others: Others, opening: seq<Item>, recorded: Recorder)
    returns (items: seq<Item>, raised: bool)
    requires recorded.calls == [] && recorded.turns == 0 && Unanswered(opening)
    modifies recorded`calls, recorded`turns
    ensures Left(items, raised)
    ensures var e := Loop(p, s, others, Begin(p, Spoken(opening)));
            && Spoken(items) == e.state.said && recorded.calls == e.state.calls && recorded.turns == e.state.turns
            && (raised <==> e.exit == Raised)
            && (!raised ==> IsAnswer(p, s, e, items[|items| - 1].answer))
  {
    hide MakeCalls, IsAnswer, Check, RunOf, Stamped, IsVerification, Plain, Unfinished, AbortNote, ExhaustedNote, Join,
         Spoken, Saids, Traceds, ValidFindings, Refused, PassOf, PassOver, IsComposed, ById, Label;
    var messages, called: seq<string>, failures: nat, retried := [Question(p.question)], [], 0, false;
    var turns: nat, caveats := 0, LoopCaveats(p);
    items, raised := opening, false;
    ghost var whole := Loop(p, s, others, Begin(p, Spoken(opening)));
    while turns < s.toolBudget
      invariant recorded.turns == turns && Unanswered(items)
      invariant Loop(p, s, others, State(turns, recorded.calls, called, failures, retried, messages, caveats, Spoken(items)))
             == whole
      decreases s.toolBudget - turns
    {
      ghost var before := State(turns, recorded.calls, called, failures, retried, messages, caveats, Spoken(items));
      turns := turns + 1;
      recorded.turns := turns;
      var reply := others.provider(turns, messages);
      if reply.final.Some? {
        var final := reply.final.value;
        OneMoreItem(items, Progress(VERIFYING));
        items := items + [Progress(VERIFYING)];
        if !ValidFindings(final.findings) {
          raised := true;
          return;
        }
        var stated := Stamped(final.findings, p.window);
        var run := RunOf(p, recorded.calls);
        var checked := Keep(stated, others.service(turns), run);
        CheckIs(p, others, Asked(before), final, checked);
        if checked.failed != [] && !retried {
          retried := true;
          messages := messages + [Correction(checked.failed)];
          OneMoreItem(items, Progress(CORRECTING));
          items := items + [Progress(CORRECTING)];
          continue;
        }
        if Refused(final) {
          raised := true;
          return;
        }
        var a := Deliver(p, s, whole, final, checked, caveats, called, turns);
        OneMoreItem(items, Said(a));
        items := items + [Said(a)];
        return;
      }

      ghost var asked := Asked(before);
      var stopped := false;
      var last: string, detail: string := "", "";
      var i := 0;
      CallsKeepTurns(p, s, others, asked, reply.toolCalls, 0);
      while i < |reply.toolCalls| && !stopped
        invariant 0 <= i <= |reply.toolCalls| && recorded.turns == turns && Unanswered(items)
        invariant (var st := State(turns, recorded.calls, called, failures, retried, messages, caveats, Spoken(items));
                   MakeCalls(p, s, others, asked, reply.toolCalls, 0)
                   == if stopped then Turned(st, true) else MakeCalls(p, s, others, st, reply.toolCalls, i))
        invariant stopped ==> LastCall(recorded.calls, last, detail)
        decreases |reply.toolCalls| - i, !stopped
      {
        ghost var st := State(turns, recorded.calls, called, failures, retried, messages, caveats, Spoken(items));
        var call := reply.toolCalls[i];
        OneMoreItem(items, Progress("calling " + call.name));
        items := items + [Progress("calling " + call.name)];
        var o := others.tool(turns, i, call);
        if call.name == LIST_STOPS && p.singular && o.note.Some? {
          caveats := caveats + [o.note.value];
        }
        recorded.calls := recorded.calls + [CallRecord(call.id, call.name, call.arguments, o.result, o.failed)];
        called := called + [call.name];
        messages := messages + [Used(call), Result(call.id, o.result)];
        OneCall(p, s, others, st, reply.toolCalls, i);
        if o.failed {
          failures := failures + 1;
          if failures >= s.toolFailureLimit {
            stopped, last, detail := true, call.name, o.result;
          }
        } else {
          failures := 0;
        }
        i := i + 1;
      }
      NoCallsLeft(p, s, others, State(turns, recorded.calls, called, failures, retried, messages, caveats, Spoken(items)),
                  reply.toolCalls);
      if stopped {
        var shown := caveats + [AbortNote(failures, last, detail)];
        var a := Plain(UNREACHABLE, shown, Method(p.sops, called, turns), shown);
        AbortedAnswer(p, s, whole, a, last, detail);
        OneMoreItem(items, Said(a));
        items := items + [Said(a)];
        return;
      }
    }
    var a := Plain(Unfinished(called), caveats, Method(p.sops, called, s.toolBudget), caveats + [ExhaustedNote(s.toolBudget)]);
    ExhaustedAnswer(p, s, whole, a);
    OneMoreItem(items, Said(a));
    items := items + [Said(a)];
  }

  predicate LastCall(calls: seq<CallRecord>, name: string, result: string) {
    calls != [] && calls[|calls| - 1].name == name && calls[|calls| - 1].result == result
  }

  lemma CheckIs(p: Prepared, others: Others, asked: State, final: Final, checked: Verification)
    requires (var stated := Stamped(final.findings, p.window);
              IsVerification(stated, PassOver(stated, others.service(asked.turns), RunOf(p, asked.calls)).decided, checked))
    ensures Check(p, others, asked, final) == checked
  {
    hide IsVerification;
    VerificationIsUnique(Stamped(final.findings, p.window), PassOf(p, others, asked.turns, asked.calls, final).decided,
                         checked, Check(p, others, asked, final));
  }

  lemma OneCall(p: Prepared, s: Settings, others: Others, st: State, calls: seq<ToolCall>, i: nat)
    requires i < |calls|
    ensures (var o := others.tool(st.turns, i, calls[i]);
             var next := AfterCall(p, st, calls[i], o);
             MakeCalls(p, s, others, st, calls, i)
             == if o.failed && next.failures >= s.toolFailureLimit then Turned(next, true)
                else MakeCalls(p, s, others, next, calls, i + 1))
  {
  }

  lemma NoCallsLeft(p: Prepared, s: Settings, others: Others, st: State, calls: seq<ToolCall>)
    ensures MakeCalls(p, s, others, st, calls, |calls|) == Turned(st, false)
  {
  }

  lemma AbortedAnswer(p: Prepared, s: Settings, e: Ended, a: Answer, last: string, detail: string)
    requires e.exit == Aborted && LastCall(e.state.calls, last, detail)
    requires (var caveats := e.state.caveats + [AbortNote(e.state.failures, last, detail)];
              a == Plain(UNREACHABLE, caveats, Method(p.sops, e.state.called, e.state.turns), caveats))
    ensures IsAnswer(p, s, e, a)
  {
  }

  lemma ExhaustedAnswer(p: Prepared, s: Settings, e: Ended, a: Answer)
    requires e.exit == Exhausted
    requires a == Plain(Unfinished(e.state.called), e.state.caveats, Method(p.sops, e.state.called, s.toolBudget),
                        e.state.caveats + [ExhaustedNote(s.toolBudget)])
    ensures IsAnswer(p, s, e, a)
  {
  }

  // ----- the stages -----

  /** What routing chose for the question. */
  ghost predicate Chose(a: Asking, selection: Routing.Selection) {
    exists kept :: Routing.IsSelection(a.index, a.classification.facets, a.budget, kept, selection)
  }

  lemma ItChose(a: Asking, selection: Routing.Selection)
    requires exists kept :: Routing.IsSelection(a.index, a.classification.facets, a.budget, kept, selection)
    ensures Chose(a, selection)
  {
  }

  /** The run of a question: what was yielded is one of its runs, or it raised where it should. */
  ghost predicate Ran(a: Asking, s: Settings, others: Others, items: seq<Item>, raised: bool, t: Trace) {
    exists selection ::
      && Chose(a, selection)
      && (raised <==> Raises(Prepare(a, selection), s, others))
      && (!raised ==> items != [] && items[|items| - 1].Said?
                      && IsRun(Prepare(a, selection), s, others, Spoken(items), items[|items| - 1].answer, t))
  }

  lemma AskedBackEnds(p: Prepared, s: Settings, others: Others, said: seq<string>, a: Answer, t: Trace)
    requires p.askedBack.Some? && said == Routed(p) && t == Trace(p.sops, [], 0, s.toolBudget)
    requires a == Plain(p.askedBack.value, p.routed, Method(p.sops, [], 0), p.routed)
                  .(clarification := Some(Clarification(p.askedBack.value, p.readings)))
    ensures IsRun(p, s, others, said, a, t) && !Raises(p, s, others)
  {
  }

  lemma DeclinedEnds(p: Prepared, s: Settings, others: Others, said: seq<string>, a: Answer, t: Trace)
    requires p.askedBack.None? && p.outOfScope && said == Routed(p) && t == Trace(p.sops, [], 0, s.toolBudget)
    requires a == Plain(DECLINE, p.routed + Noted(p.reading), Method(p.sops, [], 0), p.routed + Noted(p.reading))
    ensures IsRun(p, s, others, said, a, t) && !Raises(p, s, others)
  {
  }

  lemma EmptyEnds(p: Prepared, s: Settings, others: Others, said: seq<string>, a: Answer, t: Trace)
    requires p.askedBack.None? && !p.outOfScope && p.resolved && p.observed == 0
    requires said == Opened(p) && t == Trace(p.sops, [], 0, s.toolBudget)
    requires (var noted := LoopCaveats(p) + [p.noData];
              a == Plain(EMPTY_WINDOW, noted, Method(p.sops, [LINE_STATUS], 0), noted))
    ensures IsRun(p, s, others, said, a, t) && !Raises(p, s, others)
  {
  }

  lemma LoopEnds(p: Prepared, s: Settings, others: Others, said: seq<string>, raised: bool, a: Option<Answer>, t: Trace)
    requires ReachesLoop(p)
    requires (var e := Loop(p, s, others, Begin(p, Opened(p)));
              && said == e.state.said && t == Trace(p.sops, e.state.calls, e.state.turns, s.toolBudget)
              && (raised <==> e.exit == Raised)
              && (!raised ==> a.Some? && IsAnswer(p, s, e, a.value)))
    ensures raised <==> Raises(p, s, others)
    ensures !raised ==> IsRun(p, s, others, said, a.value, t)
  {
    hide Loop, IsAnswer;
  }

  lemma UnresolvedRaises(p: Prepared, s: Settings, others: Others)
    requires p.askedBack.None? && !p.outOfScope && !p.resolved
    ensures Raises(p, s, others)
  {
  }

  lemma Witnessed(
    a: Asking, selection: Routing.Selection, s: Settings, others: Others, items: seq<Item>, raised: bool, t: Trace)
    requires Chose(a, selection) && (raised <==> Raises(Prepare(a, selection), s, others))
    requires !raised ==> items != [] && items[|items| - 1].Said?
                         && IsRun(Prepare(a, selection), s, others, Spoken(items), items[|items| - 1].answer, t)
    ensures Ran(a, s, others, items, raised, t)
  {
    hide IsRun, Raises, Prepare;
  }

  /** The last answer yielded, when there is one. */
  function LastSaid(items: seq<Item>): Option<Answer> {
    if items != [] && items[|items| - 1].Said? then Some(items[|items| - 1].answer) else None
  }

  method Stages(a: Asking, s: Settings, others: Others, recorded: Recorder) returns (items: seq<Item>, raised: bool)
    requires Routing.IdsDiffer(a.index)
    requires recorded.sops == [] && recorded.calls == [] && recorded.turns == 0 && recorded.turnsLimit == s.toolBudget
    modifies recorded
    ensures Left(items, raised)
    ensures Ran(a, s, others, items, raised, recorded.AsTrace())
  {
    hide Loop, IsAnswer, IsRun, Raises, Ran, Chose, Routing.IsSelection, Saids, Traceds, Spoken, WindowOf,
         AskingBack, ReadAs, RoutedCaveats,
         Described, Plain, Gaps, NothingRecorded, Ids, Join;
    items, raised := [], false;
    NothingYielded();
    var c := a.classification;
    OneMoreItem(items, Progress("classifying the question"));
    items := items + [Progress("classifying the question")];
    var selection := Routing.Route(a.index, c.facets, a.budget);
    ghost var p := Prepare(a, selection);
    var sops := Ids(selection.documents);
    recorded.sops := sops;
    OneMoreItem(items, Progress("consulting " + Join(sops, ", ")));
    items := items + [Progress("consulting " + Join(sops, ", "))];
    var caveats := RoutedCaveats(a, selection);
    assert Spoken(items) == Routed(p);
    ItChose(a, selection);

    if c.AsksBack() {
      var asked := AskingBack(a);
      var answer := Plain(asked, caveats, Method(sops, [], 0), caveats)
                    .(clarification := Some(Clarification(asked, Described(c.readings))));
      OneMoreItem(items, Said(answer));
      items := items + [Said(answer)];
      AskedBackEnds(p, s, others, Spoken(items), answer, recorded.AsTrace());
      Witnessed(a, selection, s, others, items, raised, recorded.AsTrace());
      return;
    }

    caveats := caveats + Noted(ReadAs(c.readings));
    if c.questionType == OUT_OF_SCOPE {
      var answer := Plain(DECLINE, caveats, Method(sops, [], 0), caveats);
      OneMoreItem(items, Said(answer));
      items := items + [Said(answer)];
      DeclinedEnds(p, s, others, Spoken(items), answer, recorded.AsTrace());
      Witnessed(a, selection, s, others, items, raised, recorded.AsTrace());
      return;
    }

    var found := WindowOf(a);
    if found.None? {
      raised := true;
      UnresolvedRaises(p, s, others);
      Witnessed(a, selection, s, others, items, raised, recorded.AsTrace());
      return;
    }
    var (window, assumption) := found.value;
    caveats := caveats + Noted(assumption);
    OneMoreItem(items, Progress("the window is " + window.title));
    items := items + [Progress("the window is " + window.title)];
    OneMoreItem(items, Progress("checking coverage over the window"));
    items := items + [Progress("checking coverage over the window")];
    var coverage := a.coverage(window);
    caveats := caveats + Noted(Gaps(coverage.gaps));
    assert Spoken(items) == Opened(p) && caveats == LoopCaveats(p);
    if coverage.events == 0 {
      var noted := caveats + [NothingRecorded(window, a.latest(window))];
      var answer := Plain(EMPTY_WINDOW, noted, Method(sops, [LINE_STATUS], 0), noted);
      OneMoreItem(items, Said(answer));
      items := items + [Said(answer)];
      EmptyEnds(p, s, others, Spoken(items), answer, recorded.AsTrace());
      Witnessed(a, selection, s, others, items, raised, recorded.AsTrace());
      return;
    }
    items, raised := Investigate(Prepare(a, selection), s, others, items, recorded);
    LoopEnds(p, s, others, Spoken(items), raised, LastSaid(items), recorded.AsTrace());
    Witnessed(a, selection, s, others, items, raised, recorded.AsTrace());
  }

  lemma NothingYielded()
    ensures Spoken([]) == [] && Unanswered([])
  {
  }

  /** Steps, one answer, one trace, and they are those of a run of the question. */
  ghost predicate Streamed(a: Asking, s: Settings, others: Others, items: seq<Item>) {
    && AnsweredThenTraced(items) && items[|items| - 1].Traced?
    && Ran(a, s, others, items[..|items| - 1], false, items[|items| - 1].trace)
  }

  /** A run that raises yields steps only. */
  method Stream(a: Asking, s: Settings, others: Others) returns (items: seq<Item>, raised: bool)
    requires Routing.IdsDiffer(a.index)
    ensures !raised ==> Streamed(a, s, others, items)
    ensures raised ==> Unanswered(items) && exists t :: Ran(a, s, others, items, true, t)
  {
    hide Ran, Saids, Traceds;
    var recorded := new Recorder(s.toolBudget);
    items, raised := Stages(a, s, others, recorded);
    if raised {
      assert Ran(a, s, others, items, true, recorded.AsTrace());
      return;
    }
    ghost var staged := items;
    CountsFixPlaces(items, recorded.AsTrace());
    items := items + [Traced(recorded.AsTrace())];
    assert items[..|items| - 1] == staged;
  }
}
