/**
 What a run tells its provider and what it keeps: the question, and every tool call with its result, in the
 order they were made; and nothing said, recorded or noted is ever taken back.
 */
module Transcript {
  import opened Sequences
  import Answers
  import Compose
  import opened Citations
  import opened Preparation
  import opened Pipeline
  import opened Guarantees

  // ----- the calls of one turn -----

  /** What is recorded of a call and its outcome. */
  function Recording(call: ToolCall, o: Outcome): CallRecord {
    CallRecord(call.id, call.name, call.arguments, o.result, o.failed)
  }

  function Exchange(r: CallRecord): seq<Message> {
    [Used(ToolCall(r.id, r.name, r.arguments)), Result(r.id, r.result)]
  }

  function Exchanges(calls: seq<CallRecord>): seq<Message> {
    if calls == [] then [] else Exchanges(calls[..|calls| - 1]) + Exchange(calls[|calls| - 1])
  }

  /** The records of calls `i` to `j` of a turn. */
  function Records(others: Others, turn: nat, calls: seq<ToolCall>, i: nat, j: nat): seq<CallRecord>
    requires i <= j <= |calls|
  {
    seq(j - i, (k: nat) requires k < j - i => Recording(calls[i + k], others.tool(turn, i + k, calls[i + k])))
  }

  /** The assumptions noted by calls `i` to `j`: of the list of stops, when the question was about one. */
  function Notes(p: Prepared, others: Others, turn: nat, calls: seq<ToolCall>, i: nat, j: nat): seq<string>
    requires i <= j <= |calls|
    decreases j - i
  {
    if i == j then []
    else
      var note := others.tool(turn, i, calls[i]).note;
      (if p.singular && calls[i].name == "list_stops" && note.Some? then [note.value] else [])
      + Notes(p, others, turn, calls, i + 1, j)
  }

  lemma OneMoreExchange(calls: seq<CallRecord>, r: CallRecord)
    ensures Exchanges(calls + [r]) == Exchanges(calls) + Exchange(r)
  {
    assert (calls + [r])[..|calls|] == calls;
  }

  lemma {:induction false} ExchangesAppend(a: seq<CallRecord>, b: seq<CallRecord>)
    ensures Exchanges(a + b) == Exchanges(a) + Exchanges(b)
  {
    hide Exchange;
    if b == [] {
      assert a + b == a;
    } else {
      var n := |b| - 1;
      ExchangesAppend(a, b[..n]);
      OneMoreExchange(a + b[..n], b[n]);
      OneMoreExchange(b[..n], b[n]);
      hide Exchanges;
      assert a + b == (a + b[..n]) + [b[n]] && b == b[..n] + [b[n]];
    }
  }

  lemma RecordsBegin(others: Others, turn: nat, calls: seq<ToolCall>, i: nat, j: nat)
    requires i < j <= |calls|
    ensures Records(others, turn, calls, i, j)
         == [Recording(calls[i], others.tool(turn, i, calls[i]))] + Records(others, turn, calls, i + 1, j)
  {
  }

  /** The calls a turn made, `n` of them from `i` on: recorded with what each tool answered, told to the
      provider, and all of them unless the run stopped. */
  ghost predicate Made(p: Prepared, others: Others, st: State, calls: seq<ToolCall>, i: nat, j: nat, t: Turned)
    requires i <= j <= |calls|
  {
    var records := Records(others, st.turns, calls, i, j);
    && t.state.calls == st.calls + records
    && t.state.messages == st.messages + Exchanges(records)
    && t.state.caveats == st.caveats + Notes(p, others, st.turns, calls, i, j)
    && t.state.turns == st.turns && t.state.retried == st.retried
    && (!t.stopped ==> j == |calls|)
    && (t.stopped ==> j > i && records[j - i - 1].failed)
  }

  /** One call and what it left behind. */
  lemma CallMade(p: Prepared, st: State, call: ToolCall, o: Outcome)
    ensures (var next := AfterCall(p, st, call, o);
             && next.calls == st.calls + [Recording(call, o)]
             && next.messages == st.messages + Exchange(Recording(call, o))
             && next.turns == st.turns && next.retried == st.retried
             && next.caveats == st.caveats
                                + if p.singular && call.name == "list_stops" && o.note.Some? then [o.note.value] else [])
  {
  }

  lemma MadeOneMore(p: Prepared, others: Others, st: State, calls: seq<ToolCall>, i: nat, j: nat, t: Turned)
    requires i < j <= |calls|
    requires Made(p, others, AfterCall(p, st, calls[i], others.tool(st.turns, i, calls[i])), calls, i + 1, j, t)
    ensures Made(p, others, st, calls, i, j, t)
  {
    hide AfterCall, Exchanges, Recording, Exchange;
    var o := others.tool(st.turns, i, calls[i]);
    var first, rest := Recording(calls[i], o), Records(others, st.turns, calls, i + 1, j);
    CallMade(p, st, calls[i], o);
    RecordsBegin(others, st.turns, calls, i, j);
    ExchangesAppend([first], rest);
    OneExchange(first);
  }

  lemma OneExchange(r: CallRecord)
    ensures Exchanges([r]) == Exchange(r)
  {
    assert [r][..0] == [];
  }

  lemma MadeLast(p: Prepared, others: Others, st: State, calls: seq<ToolCall>, i: nat)
    requires i < |calls| && others.tool(st.turns, i, calls[i]).failed
    ensures Made(p, others, st, calls, i, i + 1,
                 Turned(AfterCall(p, st, calls[i], others.tool(st.turns, i, calls[i])), true))
  {
    hide AfterCall, Exchanges, Exchange;
    var o := others.tool(st.turns, i, calls[i]);
    CallMade(p, st, calls[i], o);
    assert Records(others, st.turns, calls, i, i + 1) == [Recording(calls[i], o)];
    OneExchange(Recording(calls[i], o));
    assert Notes(p, others, st.turns, calls, i + 1, i + 1) == [];
  }

  lemma {:induction false} TurnMakesItsCalls(
    p: Prepared, s: Settings, others: Others, st: State, calls: seq<ToolCall>, i: nat) returns (j: nat)
    requires i <= |calls|
    ensures i <= j <= |calls| && Made(p, others, st, calls, i, j, MakeCalls(p, s, others, st, calls, i))
    decreases |calls| - i
  {
    hide Made, AfterCall;
    if i < |calls| {
      var o := others.tool(st.turns, i, calls[i]);
      var next := AfterCall(p, st, calls[i], o);
      if o.failed && next.failures >= s.toolFailureLimit {
        j := i + 1;
        MadeLast(p, others, st, calls, i);
      } else {
        j := TurnMakesItsCalls(p, s, others, next, calls, i + 1);
        MadeOneMore(p, others, st, calls, i, j, MakeCalls(p, s, others, next, calls, i + 1));
      }
    } else {
      j := i;
      NothingMade(p, others, st, calls);
    }
  }

  lemma NothingMade(p: Prepared, others: Others, st: State, calls: seq<ToolCall>)
    ensures Made(p, others, st, calls, |calls|, |calls|, Turned(st, false))
  {
  }

  // ----- the whole conversation -----

  /** A conversation without the requests for correction. */
  function Dialogue(messages: seq<Message>): seq<Message> {
    if messages == [] then []
    else
      var n := |messages| - 1;
      Dialogue(messages[..n]) + if messages[n].Correction? then [] else [messages[n]]
  }

  lemma {:induction false} DialogueAppend(a: seq<Message>, b: seq<Message>)
    ensures Dialogue(a + b) == Dialogue(a) + Dialogue(b)
  {
    if b == [] {
      assert a + b == a;
    } else {
      var n := |b| - 1;
      DialogueAppend(a, b[..n]);
      assert (a + b)[..|a + b| - 1] == a + b[..n];
    }
  }

  lemma {:induction false} ExchangesAreDialogue(calls: seq<CallRecord>)
    ensures Dialogue(Exchanges(calls)) == Exchanges(calls)
  {
    if calls != [] {
      var n := |calls| - 1;
      ExchangesAreDialogue(calls[..n]);
      DialogueAppend(Exchanges(calls[..n]), Exchange(calls[n]));
      TwoMessages(calls[n]);
    }
  }

  lemma TwoMessages(r: CallRecord)
    ensures Dialogue(Exchange(r)) == Exchange(r)
  {
    assert Exchange(r)[..1][..0] == [];
    assert Dialogue(Exchange(r)[..1]) == Exchange(r)[..1];
  }

  /** A record is of a call some turn asked for, with what the tool answered. */
  ghost predicate Answered(others: Others, r: CallRecord) {
    exists turn: nat, i: nat, call :: r == Recording(call, others.tool(turn, i, call))
  }

  /** The provider has been told the question, and every call with its result, in order. */
  ghost predicate Told(p: Prepared, others: Others, st: State) {
    && Dialogue(st.messages) == [Question(p.question)] + Exchanges(st.calls)
    && forall r :: r in st.calls ==> Answered(others, r)
  }

  /** Nothing is taken back. */
  ghost predicate Grows(a: State, b: State) {
    && a.said <= b.said && a.calls <= b.calls && a.caveats <= b.caveats && a.messages <= b.messages
  }

  lemma GrowsFurther(a: State, b: State, c: State)
    requires Grows(a, b) && Grows(b, c)
    ensures Grows(a, c)
  {
  }

  lemma {:induction false} CallsGrow(p: Prepared, s: Settings, others: Others, st: State, calls: seq<ToolCall>, i: nat)
    requires i <= |calls|
    ensures Grows(st, MakeCalls(p, s, others, st, calls, i).state)
    decreases |calls| - i
  {
    if i < |calls| {
      var o := others.tool(st.turns, i, calls[i]);
      var next := AfterCall(p, st, calls[i], o);
      assert Grows(st, next);
      if !(o.failed && next.failures >= s.toolFailureLimit) {
        CallsGrow(p, s, others, next, calls, i + 1);
        GrowsFurther(st, next, MakeCalls(p, s, others, next, calls, i + 1).state);
      }
    }
  }

  lemma CallsTell(p: Prepared, s: Settings, others: Others, st: State, calls: seq<ToolCall>)
    requires Told(p, others, st)
    ensures Told(p, others, MakeCalls(p, s, others, st, calls, 0).state)
  {
    hide MakeCalls, Recording, Exchanges, Dialogue, Notes;
    var j := TurnMakesItsCalls(p, s, others, st, calls, 0);
    var records := Records(others, st.turns, calls, 0, j);
    DialogueAppend(st.messages, Exchanges(records));
    ExchangesAreDialogue(records);
    ExchangesAppend(st.calls, records);
    forall r | r in records ensures Answered(others, r) {
      var k :| 0 <= k < |records| && records[k] == r;
      assert r == Recording(calls[k], others.tool(st.turns, k, calls[k]));
    }
  }

  lemma CorrectionTells(p: Prepared, others: Others, st: State, failed: seq<string>)
    requires Told(p, others, st)
    ensures Told(p, others, Corrected(Verifying(Asked(st)), failed))
  {
    hide Answered;
    DialogueAppend(st.messages, [Correction(failed)]);
    assert Dialogue([Correction(failed)][..0]) == [];
  }

  lemma TurnTells(p: Prepared, s: Settings, others: Others, st: State)
    requires Told(p, others, st)
    ensures (match TakeTurn(p, s, others, st)
             case On(next) => Told(p, others, next) && Grows(st, next)
             case Done(e) => Told(p, others, e.state) && Grows(st, e.state))
  {
    hide MakeCalls, Check, Answers.ValidFindings, Refused, Answered, Dialogue;
    var asked := Asked(st);
    assert Told(p, others, asked) && Told(p, others, Verifying(asked));
    var reply := others.provider(asked.turns, asked.messages);
    if reply.final.Some? {
      CorrectionTells(p, others, st, Check(p, others, asked, reply.final.value).failed);
    } else {
      CallsTell(p, s, others, asked, reply.toolCalls);
      CallsGrow(p, s, others, asked, reply.toolCalls, 0);
    }
  }

  lemma {:induction false} LoopTells(p: Prepared, s: Settings, others: Others, st: State)
    requires Told(p, others, st)
    ensures Told(p, others, Loop(p, s, others, st).state) && Grows(st, Loop(p, s, others, st).state)
    decreases s.toolBudget - st.turns
  {
    hide TakeTurn, Told;
    if st.turns < s.toolBudget {
      TurnTells(p, s, others, st);
      var next := TakeTurn(p, s, others, st);
      if next.On? {
        LoopTells(p, s, others, next.state);
        GrowsFurther(st, next.state, Loop(p, s, others, next.state).state);
      }
    }
  }

  lemma BeginTells(p: Prepared, others: Others)
    ensures Told(p, others, Begin(p, Opened(p)))
  {
    assert Dialogue([Question(p.question)][..0]) == [];
  }

  lemma OneCorrection(p: Prepared, s: Settings, others: Others, n: nat)
    requires StateAfter(p, s, others, n).Some?
    ensures Corrections(StateAfter(p, s, others, n).value.messages) <= 1
  {
    hide Loop, TakeTurn;
    var st := StateAfter(p, s, others, n).value;
    LoopGoesThrough(p, s, others, n);
    CorrectedAtMostOnce(p, s, others);
    StateGrows(p, s, others, n);
    FewerCorrections(st.messages, Whole(p, s, others).state.messages);
  }

  lemma StateGrows(p: Prepared, s: Settings, others: Others, n: nat)
    requires StateAfter(p, s, others, n).Some?
    ensures Grows(StateAfter(p, s, others, n).value, Whole(p, s, others).state)
  {
    hide Loop, TakeTurn;
    LoopGoesThrough(p, s, others, n);
    StateTold(p, s, others, n);
    LoopTells(p, s, others, StateAfter(p, s, others, n).value);
  }

  lemma {:induction false} StateTold(p: Prepared, s: Settings, others: Others, n: nat)
    requires StateAfter(p, s, others, n).Some?
    ensures Told(p, others, StateAfter(p, s, others, n).value)
  {
    hide TakeTurn, Told;
    if n == 0 {
      BeginTells(p, others);
    } else {
      StateTold(p, s, others, n - 1);
      TurnTells(p, s, others, StateAfter(p, s, others, n - 1).value);
    }
  }

  lemma {:induction false} FewerCorrections(a: seq<Message>, b: seq<Message>)
    requires a <= b
    ensures Corrections(a) <= Corrections(b)
    decreases |b|
  {
    if |a| < |b| {
      FewerCorrections(a, b[..|b| - 1]);
    } else {
      assert a == b;
    }
  }

  /** On every turn a run reaches, what the provider is given is the question and every call so far with its
      result, and besides it only the one request for correction. */
  lemma EveryTurnIsToldEverything(p: Prepared, s: Settings, others: Others, n: nat)
    requires StateAfter(p, s, others, n).Some?
    ensures Told(p, others, StateAfter(p, s, others, n).value)
    ensures Corrections(StateAfter(p, s, others, n).value.messages) <= 1
  {
    hide TakeTurn, Told, Loop;
    StateTold(p, s, others, n);
    OneCorrection(p, s, others, n);
  }

  /** And so over the whole run: what was told is what was recorded, and what was said and noted before the
      loop stands in front of all that came after. */
  lemma WholeRunIsTold(p: Prepared, s: Settings, others: Others)
    ensures Told(p, others, Whole(p, s, others).state)
    ensures Opened(p) <= Whole(p, s, others).state.said && LoopCaveats(p) <= Whole(p, s, others).state.caveats
  {
    hide Loop, Told;
    BeginTells(p, others);
    LoopTells(p, s, others, Begin(p, Opened(p)));
  }

  // ----- turns that state an answer -----

  /** A final turn is raised over, sent back once with the labels that failed, or delivered as verified. */
  ghost predicate Settles(
    p: Prepared, s: Settings, others: Others, n: nat, st: State, final: Final, checked: Verification)
  {
    var e := Whole(p, s, others);
    if !Answers.ValidFindings(final.findings) then
      e.exit == Raised
    else if checked.failed != [] && !st.retried then
      && StateAfter(p, s, others, n + 1).Some?
      && var next := StateAfter(p, s, others, n + 1).value;
         && next.messages == st.messages + [Correction(checked.failed)] && next.retried
         && next.turns == st.turns + 1 && next.calls == st.calls && next.caveats == st.caveats
    else if Refused(final) then
      e.exit == Raised
    else
      && e.exit == Delivered && e.final == Some(final) && e.checked == Some(checked)
      && e.state.calls == st.calls && e.state.turns == st.turns + 1 && e.state.caveats == st.caveats
  }

  lemma FinalTurnsAreSettled(p: Prepared, s: Settings, others: Others, n: nat, st: State, final: Final)
    requires StateAfter(p, s, others, n) == Some(st) && st.turns < s.toolBudget
    requires others.provider(st.turns + 1, st.messages).final == Some(final)
    ensures Settles(p, s, others, n, st, final, Check(p, others, Asked(st), final))
  {
    hide Check, Answers.ValidFindings, Refused, MakeCalls, Whole;
    LoopGoesThrough(p, s, others, n);
  }

  /** What a delivered answer adds to what the loop noted: what was removed, and what the provider noted; and
      it carries the provider's disagreement as it was stated. */
  lemma DeliveredSaysEverything(
    p: Prepared, s: Settings, others: Others, said: seq<string>, a: Answers.Answer, t: Trace)
    requires IsRun(p, s, others, said, a, t) && ReachesLoop(p) && Whole(p, s, others).exit == Delivered
    ensures (var e := Whole(p, s, others);
             && e.final.Some? && e.checked.Some?
             && e.state.caveats <= a.caveats
             && (forall c :: c in e.final.value.caveats ==> c in a.caveats)
             && (e.checked.value.failed != [] ==> RemovalNote(e.checked.value).Some?
                                                  && RemovalNote(e.checked.value).value in a.caveats)
             && a.contradiction == e.final.value.contradiction)
  {
    hide Whole, Compose.IsComposed, RemovalNote;
    DeliveredCaveatsHold(Whole(p, s, others));
  }

  lemma DeliveredCaveatsHold(e: Ended)
    requires e.exit == Delivered && e.final.Some? && e.checked.Some?
    ensures e.state.caveats <= DeliveredCaveats(e)
    ensures forall c :: c in e.final.value.caveats ==> c in DeliveredCaveats(e)
    ensures e.checked.value.failed != [] ==> RemovalNote(e.checked.value).Some?
                                             && RemovalNote(e.checked.value).value in DeliveredCaveats(e)
  {
    hide RemovalNote;
    FailuresAreNoted(e.checked.value);
    var note := RemovalNote(e.checked.value);
    if note.Some? { assert note.value in Noted(note); }
  }

  lemma FailuresAreNoted(v: Verification)
    ensures RemovalNote(v).Some? <==> v.failed != []
  {
    hide Compose.Join, Signed;
  }

  /** The documents an answer names are those the trace keeps, on every door. */
  lemma DocumentsAreTraced(p: Prepared, s: Settings, others: Others, said: seq<string>, a: Answers.Answer, t: Trace)
    requires IsRun(p, s, others, said, a, t)
    ensures a.how.sopsUsed == t.sops == p.sops && t.turnsLimit == s.toolBudget
  {
    hide Loop, Compose.IsComposed, AbortNote, Unfinished, ExhaustedNote, Compose.Emphasised;
  }
}
