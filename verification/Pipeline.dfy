/**
 What one run of the agent comes to, after `diagnostics/agent/src/agent/pipeline.py`: the doors out
 before the tool loop and the budgeted loop itself. The provider, the tools and the service behind
 verification are arbitrary functions.
 */
module Pipeline {
  import opened Sequences
  import opened Answers
  import opened Citations
  import opened Passes
  import opened Compose
  import opened Preparation

  // ----- what the run is given -----

  datatype ToolCall = ToolCall(id: string, name: string, arguments: string)

  datatype Final = Final(findings: seq<Finding>, caveats: seq<string>, contradiction: Option<Contradiction>)

  datatype Reply = Reply(toolCalls: seq<ToolCall>, final: Option<Final>)

  /** What a tool answered; `note` is the assumption made when several stops answered a question
      about one. */
  datatype Outcome = Outcome(result: string, failed: bool, note: Option<string>)

  datatype Message =
    | Question(text: string)
    | Correction(failed: seq<string>)
    | Used(call: ToolCall)
    | Result(id: string, result: string)

  /** The other side: any provider, any tools on any turn, any service at any question of a verification. */
  datatype Others = Others(
    provider: (nat, seq<Message>) -> Reply,
    tool: (nat, nat, ToolCall) -> Outcome,
    service: nat -> Analysis)

  datatype Settings = Settings(toolBudget: int, toolFailureLimit: int, summaryAfter: int)

  // ----- the state of the loop -----

  datatype State = State(
    turns: nat, calls: seq<CallRecord>, called: seq<string>, failures: nat, retried: bool,
    messages: seq<Message>, caveats: seq<string>, said: seq<string>)

  /** The doors out of the loop; `Raised` is the run that stops with an error. */
  datatype Exit = Delivered | Aborted | Exhausted | Raised

  /** After the calls of one turn: carry on, or stop. */
  datatype Turned = Turned(state: State, stopped: bool)

  function ById(calls: seq<CallRecord>): map<string, CallRecord> {
    if calls == [] then map[] else ById(calls[..|calls| - 1])[calls[|calls| - 1].id := calls[|calls| - 1]]
  }

  function RunOf(p: Prepared, calls: seq<CallRecord>): Run {
    Run(p.window, (set s | s in p.sops), ById(calls))
  }

  const LIST_STOPS := "list_stops"

  /** One tool call, whatever it answers. */
  function AfterCall(p: Prepared, st: State, call: ToolCall, o: Outcome): State {
    st.(
      said := st.said + ["calling " + call.name],
      caveats := if call.name == LIST_STOPS && p.singular && o.note.Some? then st.caveats + [o.note.value] else st.caveats,
      calls := st.calls + [CallRecord(call.id, call.name, call.arguments, o.result, o.failed)],
      called := st.called + [call.name],
      messages := st.messages + [Used(call), Result(call.id, o.result)],
      failures := if o.failed then st.failures + 1 else 0)
  }

  /** The calls of one turn from `i` on. */
  function MakeCalls(p: Prepared, s: Settings, others: Others, st: State, calls: seq<ToolCall>, i: nat): Turned
    requires i <= |calls|
    decreases |calls| - i
  {
    if i == |calls| then
      Turned(st, false)
    else
      var o := others.tool(st.turns, i, calls[i]);
      var next := AfterCall(p, st, calls[i], o);
      if o.failed && next.failures >= s.toolFailureLimit then Turned(next, true)
      else MakeCalls(p, s, others, next, calls, i + 1)
  }

  // ----- the loop -----

  /** How the loop ended: on which state, by which door, with which final turn and verification. */
  datatype Ended = Ended(state: State, exit: Exit, final: Option<Final>, checked: Option<Verification>)

  function Begin(p: Prepared, said: seq<string>): State {
    State(0, [], [], 0, false, [Question(p.question)], LoopCaveats(p), said)
  }

  function Asked(st: State): State {
    st.(turns := st.turns + 1)
  }

  const VERIFYING := "verifying every citation against the database"
  const CORRECTING := "asking for the unverifiable citations to be corrected"

  function Verifying(st: State): State {
    st.(said := st.said + [VERIFYING])
  }

  /** The one retry: the failed labels go back to the model. */
  function Corrected(st: State, failed: seq<string>): State {
    st.(retried := true, messages := st.messages + [Correction(failed)], said := st.said + [CORRECTING])
  }

  /** The verification pass of one turn. */
  function PassOf(p: Prepared, others: Others, turns: nat, calls: seq<CallRecord>, final: Final): Pass {
    PassOver(Stamped(final.findings, p.window), others.service(turns), RunOf(p, calls))
  }

  ghost function Check(p: Prepared, others: Others, st: State, final: Final): Verification {
    VerificationOf(Stamped(final.findings, p.window), PassOf(p, others, st.turns, st.calls, final).decided)
  }

  /** After one turn: another one, or the end. */
  datatype Next = On(state: State) | Done(ended: Ended)

  predicate Refused(final: Final) {
    final.contradiction.Some? && !ValidContradiction(final.contradiction.value)
  }

  /** The turn that opens with the final answer: stated wrongly, sent back once, refused or delivered. */
  ghost function Conclude(p: Prepared, others: Others, asked: State, retried: bool, final: Final): Next {
    var verified := Verifying(asked);
    if !ValidFindings(final.findings) then
      Done(Ended(verified, Raised, Some(final), None))
    else
      var checked := Check(p, others, asked, final);
      if checked.failed != [] && !retried then On(Corrected(verified, checked.failed))
      else if Refused(final) then Done(Ended(verified, Raised, Some(final), Some(checked)))
      else Done(Ended(verified, Delivered, Some(final), Some(checked)))
  }

  ghost function TakeTurn(p: Prepared, s: Settings, others: Others, st: State): (next: Next)
    ensures next.On? ==> next.state.turns == st.turns + 1
  {
    var asked := Asked(st);
    var reply := others.provider(asked.turns, asked.messages);
    if reply.final.Some? then
      Conclude(p, others, asked, st.retried, reply.final.value)
    else
      var turned := MakeCalls(p, s, others, asked, reply.toolCalls, 0);
      CallsKeepTurns(p, s, others, asked, reply.toolCalls, 0);
      if turned.stopped then Done(Ended(turned.state, Aborted, None, None)) else On(turned.state)
  }

  ghost function Loop(p: Prepared, s: Settings, others: Others, st: State): Ended
    decreases s.toolBudget - st.turns
  {
    if st.turns >= s.toolBudget then
      Ended(st, Exhausted, None, None)
    else
      match TakeTurn(p, s, others, st)
      case On(next) => Loop(p, s, others, next)
      case Done(ended) => ended
  }

  lemma {:induction false} CallsKeepTurns(
    p: Prepared, s: Settings, others: Others, st: State, calls: seq<ToolCall>, i: nat)
    requires i <= |calls|
    ensures MakeCalls(p, s, others, st, calls, i).state.turns == st.turns
    ensures MakeCalls(p, s, others, st, calls, i).state.retried == st.retried
    decreases |calls| - i
  {
    if i < |calls| {
      CallsKeepTurns(p, s, others, AfterCall(p, st, calls[i], others.tool(st.turns, i, calls[i])), calls, i + 1);
    }
  }

  // ----- what the loop keeps -----

  /** How many calls at the end of the record failed in a row. */
  function Trailing(calls: seq<CallRecord>): nat {
    if calls == [] || !calls[|calls| - 1].failed then 0 else 1 + Trailing(calls[..|calls| - 1])
  }

  /** At the limit or past it; a limit below one still takes one failure. */
  predicate TooManyFailures(s: Settings, calls: seq<CallRecord>) {
    Trailing(calls) > 0 && Trailing(calls) >= s.toolFailureLimit
  }

  function Names(calls: seq<CallRecord>): seq<string> {
    seq(|calls|, i requires 0 <= i < |calls| => calls[i].name)
  }

  function Corrections(messages: seq<Message>): nat {
    if messages == [] then 0
    else Corrections(messages[..|messages| - 1]) + if messages[|messages| - 1].Correction? then 1 else 0
  }

  ghost predicate NeverBefore(s: Settings, calls: seq<CallRecord>) {
    forall k :: 0 <= k < |calls| ==> !TooManyFailures(s, calls[..k])
  }

  /** What holds of the state after every call and every turn. */
  ghost predicate Coherent(s: Settings, st: State) {
    && st.called == Names(st.calls)
    && st.failures == Trailing(st.calls)
    && NeverBefore(s, st.calls)
    && Corrections(st.messages) == if st.retried then 1 else 0
  }

  lemma OneMoreRecord(s: Settings, calls: seq<CallRecord>, r: CallRecord)
    requires NeverBefore(s, calls) && !TooManyFailures(s, calls)
    ensures NeverBefore(s, calls + [r]) && Names(calls + [r]) == Names(calls) + [r.name]
    ensures Trailing(calls + [r]) == if r.failed then Trailing(calls) + 1 else 0
  {
    hide TooManyFailures;
    var next := calls + [r];
    assert next[..|calls|] == calls;
    forall k | 0 <= k < |next| ensures !TooManyFailures(s, next[..k]) {
      assert k < |calls| ==> next[..k] == calls[..k];
    }
  }

  lemma TwoMoreMessages(messages: seq<Message>, a: Message, b: Message)
    requires !a.Correction? && !b.Correction?
    ensures Corrections(messages + [a, b]) == Corrections(messages)
  {
    assert (messages + [a, b])[..|messages| + 1] == messages + [a];
    assert (messages + [a])[..|messages|] == messages;
  }

  lemma CallKeepsCoherent(p: Prepared, s: Settings, st: State, call: ToolCall, o: Outcome)
    requires Coherent(s, st) && !TooManyFailures(s, st.calls)
    ensures Coherent(s, AfterCall(p, st, call, o))
    ensures TooManyFailures(s, AfterCall(p, st, call, o).calls)
            <==> o.failed && AfterCall(p, st, call, o).failures >= s.toolFailureLimit
  {
    hide TooManyFailures, NeverBefore, Names, Trailing, Corrections;
    OneMoreRecord(s, st.calls, CallRecord(call.id, call.name, call.arguments, o.result, o.failed));
    TwoMoreMessages(st.messages, Used(call), Result(call.id, o.result));
    TooManyMeans(s, AfterCall(p, st, call, o).calls);
  }

  lemma TooManyMeans(s: Settings, calls: seq<CallRecord>)
    ensures TooManyFailures(s, calls) <==> Trailing(calls) > 0 && Trailing(calls) >= s.toolFailureLimit
  {
  }

  lemma {:induction false} CallsKeepCoherent(
    p: Prepared, s: Settings, others: Others, st: State, calls: seq<ToolCall>, i: nat)
    requires i <= |calls| && Coherent(s, st) && !TooManyFailures(s, st.calls)
    ensures (var t := MakeCalls(p, s, others, st, calls, i);
             && Coherent(s, t.state)
             && (t.stopped <==> TooManyFailures(s, t.state.calls))
             && st.calls <= t.state.calls)
    decreases |calls| - i
  {
    hide Coherent, TooManyFailures;
    if i < |calls| {
      var o := others.tool(st.turns, i, calls[i]);
      CallKeepsCoherent(p, s, st, calls[i], o);
      var next := AfterCall(p, st, calls[i], o);
      if !TooManyFailures(s, next.calls) { CallsKeepCoherent(p, s, others, next, calls, i + 1); }
    }
  }

  lemma CorrectionKeepsCoherent(s: Settings, st: State, failed: seq<string>)
    requires Coherent(s, st) && !st.retried
    ensures Coherent(s, Corrected(Verifying(Asked(st)), failed))
  {
    hide NeverBefore;
    var next := Corrected(Verifying(Asked(st)), failed);
    assert next.messages[..|st.messages|] == st.messages;
  }

  /** Everything the loop guarantees about the state it stops in. */
  ghost predicate EndsWell(p: Prepared, s: Settings, others: Others, e: Ended) {
    && Coherent(s, e.state)
    && (e.exit == Aborted <==> TooManyFailures(s, e.state.calls))
    && (e.exit == Exhausted ==> e.state.turns >= s.toolBudget)
    && (e.exit == Delivered ==>
          && e.final.Some? && e.checked == Some(Check(p, others, e.state, e.final.value))
          && (e.checked.value.failed == [] || e.state.retried)
          && ValidFindings(e.final.value.findings) && !Refused(e.final.value))
    && (e.exit == Raised ==>
          e.final.Some? && (!ValidFindings(e.final.value.findings) || Refused(e.final.value)))
  }

  lemma ConcludesWell(p: Prepared, s: Settings, others: Others, st: State, final: Final)
    requires Coherent(s, st) && !TooManyFailures(s, st.calls)
    ensures (var next := Conclude(p, others, Asked(st), st.retried, final);
             match next
             case On(after) => Coherent(s, after) && after.calls == st.calls
             case Done(e) => EndsWell(p, s, others, e) && e.state.turns == st.turns + 1)
  {
    hide Coherent, TooManyFailures, Check;
    AskingKeepsCoherent(s, st);
    var asked := Asked(st);
    CheckIgnoresWords(p, others, asked, final);
    var checked := Check(p, others, asked, final);
    if checked.failed != [] && !st.retried {
      CorrectionKeepsCoherent(s, st, checked.failed);
    }
  }

  lemma {:induction false} LoopEndsWell(p: Prepared, s: Settings, others: Others, st: State)
    requires Coherent(s, st) && !TooManyFailures(s, st.calls)
    ensures EndsWell(p, s, others, Loop(p, s, others, st))
    ensures (var e := Loop(p, s, others, st);
             st.turns <= e.state.turns && (e.state.turns <= s.toolBudget || e.state.turns == st.turns))
    decreases s.toolBudget - st.turns
  {
    hide Coherent, TooManyFailures, Check, Conclude, Refused;
    if st.turns < s.toolBudget {
      var asked := Asked(st);
      AskingKeepsCoherent(s, st);
      var reply := others.provider(asked.turns, asked.messages);
      if reply.final.Some? {
        ConcludesWell(p, s, others, st, reply.final.value);
      } else {
        CallsKeepTurns(p, s, others, asked, reply.toolCalls, 0);
        CallsKeepCoherent(p, s, others, asked, reply.toolCalls, 0);
      }
      var next := TakeTurn(p, s, others, st);
      if next.On? { LoopEndsWell(p, s, others, next.state); }
    }
  }

  lemma AskingKeepsCoherent(s: Settings, st: State)
    requires Coherent(s, st)
    ensures Coherent(s, Asked(st)) && Coherent(s, Verifying(Asked(st)))
  {
  }

  lemma CheckIgnoresWords(p: Prepared, others: Others, st: State, final: Final)
    ensures Check(p, others, Verifying(st), final) == Check(p, others, st, final)
  {
  }

  // ----- the answers -----

  function AbortNote(failures: nat, name: string, detail: string): string {
    "I stopped after " + Decimal(failures) + " consecutive tool failures; the last was " + name + ": " + detail + "."
  }

  function RemovalNote(v: Verification): Option<string> {
    if v.failed == [] then None
    else Some(Signed(v.removed) + " claim(s) were removed because their citations could not be verified against the database: "
              + Join(v.failed, ", ") + ".")
  }

  function Signed(n: int): string {
    if n < 0 then "-" + Decimal(-n) else Decimal(n)
  }

  const DECLINE :=
    "I can't change anything on the line — this system is read-only and only reads from the plant. "
    + "I can show you what the line has recorded instead."

  const UNREACHABLE := "I could not reach the analysis service well enough to answer this."
  const EMPTY_WINDOW := "I have no data for that window."
  const LINE_STATUS := "line_status"

  function Unfinished(called: seq<string>): string {
    "I ran out of tool budget after " + (if Join(called, ", ") == "" then "no calls" else Join(called, ", "))
    + " and did not reach an answer."
  }

  function ExhaustedNote(budget: int): string {
    "The tool budget of " + Signed(budget) + " step(s) was exhausted; this answer is incomplete."
  }

  /** A door that answers without findings: one line, and the caveats. */
  function Plain(line: string, shown: seq<string>, how: Method, caveats: seq<string>): Answer {
    Answer([], [line] + Emphasised(shown), how, caveats, None, None)
  }

  function DeliveredCaveats(e: Ended): seq<string>
    requires e.exit == Delivered && e.final.Some? && e.checked.Some?
  {
    e.state.caveats + Noted(RemovalNote(e.checked.value)) + e.final.value.caveats
  }

  ghost predicate IsAnswer(p: Prepared, s: Settings, e: Ended, a: Answer) {
    var st := e.state;
    match e.exit
    case Delivered =>
      && e.final.Some? && e.checked.Some?
      && IsComposed(e.checked.value.kept, DeliveredCaveats(e), s.summaryAfter, Composition(a.findings, a.lines))
      && a.how == Method(p.sops, st.called, st.turns) && a.caveats == DeliveredCaveats(e)
      && a.contradiction == e.final.value.contradiction && a.clarification.None?
    case Aborted =>
      && st.calls != []
      && var last := st.calls[|st.calls| - 1];
         var caveats := st.caveats + [AbortNote(st.failures, last.name, last.result)];
         a == Plain(UNREACHABLE, caveats, Method(p.sops, st.called, st.turns), caveats)
    case Exhausted =>
      a == Plain(Unfinished(st.called), st.caveats, Method(p.sops, st.called, s.toolBudget),
                 st.caveats + [ExhaustedNote(s.toolBudget)])
    case Raised => false
  }

  // ----- the run -----

  datatype Trace = Trace(sops: seq<string>, calls: seq<CallRecord>, turns: nat, turnsLimit: int)

  function Routed(p: Prepared): seq<string> {
    ["classifying the question", "consulting " + Join(p.sops, ", ")]
  }

  function Opened(p: Prepared): seq<string> {
    Routed(p) + ["the window is " + p.window.title, "checking coverage over the window"]
  }

  predicate ReachesLoop(p: Prepared) {
    p.askedBack.None? && !p.outOfScope && p.resolved && p.observed != 0
  }

  ghost function Whole(p: Prepared, s: Settings, others: Others): Ended {
    Loop(p, s, others, Begin(p, Opened(p)))
  }

  /** The run stops with an error and no answer: the calendar refuses even the default phrase, or a final
      turn states something its own constructor refuses. */
  ghost predicate Raises(p: Prepared, s: Settings, others: Others) {
    && p.askedBack.None? && !p.outOfScope
    && (!p.resolved || (p.observed != 0 && Whole(p, s, others).exit == Raised))
  }

  /** What a run says, answers and records, door by door. */
  ghost predicate IsRun(p: Prepared, s: Settings, others: Others, said: seq<string>, a: Answer, t: Trace) {
    var untouched := Trace(p.sops, [], 0, s.toolBudget);
    if p.askedBack.Some? then
      && said == Routed(p) && t == untouched
      && a == Plain(p.askedBack.value, p.routed, Method(p.sops, [], 0), p.routed)
              .(clarification := Some(Clarification(p.askedBack.value, p.readings)))
    else if p.outOfScope then
      && said == Routed(p) && t == untouched
      && var caveats := p.routed + Noted(p.reading);
         a == Plain(DECLINE, caveats, Method(p.sops, [], 0), caveats)
    else if !p.resolved then
      false
    else if p.observed == 0 then
      && said == Opened(p) && t == untouched
      && var caveats := LoopCaveats(p) + [p.noData];
         a == Plain(EMPTY_WINDOW, caveats, Method(p.sops, [LINE_STATUS], 0), caveats)
    else
      var e := Whole(p, s, others);
      && said == e.state.said
      && t == Trace(p.sops, e.state.calls, e.state.turns, s.toolBudget)
      && IsAnswer(p, s, e, a)
  }
}
