/** Findings, citations and answers, after `diagnostics/agent/src/agent/answer.py`. */
module Answers {
  import opened Sequences

  datatype Basis = Measured | Derived | Hypothesis

  datatype CitationWindow = CitationWindow(fromTs: int, toTs: int, title: string)

  /** One constructor per kind, with the payload that kind carries. */
  datatype Referent =
    | Part(serial: string)
    | Stop(id: string)
    | Alarm(id: string)
    | Signal(station: string, signal: string)
    | Pattern(dimension: string, key: string)
    | Sop(id: string)
    | Serial(serial: string)
    | Lot(code: string)
    | Containment(serials: seq<string>)
    | Chart(chartType: string, source: string, bands: Option<string>)

  datatype Citation = Citation(referent: Referent, window: Option<CitationWindow>)

  datatype Finding = Finding(statement: string, basis: Basis, citations: seq<Citation>, evidenceStrength: Option<string>)

  datatype Method = Method(sopsUsed: seq<string>, toolsCalled: seq<string>, budgetUsed: int)

  /** A question asked back, with the readings it would decide between. */
  datatype Clarification = Clarification(question: string, readings: seq<string>)

  /** A disagreement with the computed root. */
  datatype Contradiction = Contradiction(derivedRoot: string, agentRoot: string, reasoning: string)

  datatype Answer = Answer(
    findings: seq<Finding>, lines: seq<string>, how: Method, caveats: seq<string>,
    contradiction: Option<Contradiction>, clarification: Option<Clarification>)

  /** The kinds whose referent needs an interval to exist. */
  predicate Windowed(r: Referent) {
    r.Pattern? || r.Signal? || r.Chart?
  }

  /** A hypothesis states what supports it. */
  predicate ValidFinding(f: Finding) {
    f.basis == Hypothesis ==> f.evidenceStrength.Some? && f.evidenceStrength.value != ""
  }

  predicate ValidFindings(findings: seq<Finding>) {
    forall f :: f in findings ==> ValidFinding(f)
  }

  /** White space as the language's `strip` takes it off. */
  predicate Space(c: char) {
    || '\t' <= c <= '\r' || '\U{1C}' <= c <= ' ' || c == '\U{85}' || c == '\U{A0}' || c == '\U{1680}'
    || '\U{2000}' <= c <= '\U{200A}' || c == '\U{2028}' || c == '\U{2029}' || c == '\U{202F}'
    || c == '\U{205F}' || c == '\U{3000}'
  }

  predicate Stated(s: string) {
    exists i :: 0 <= i < |s| && !Space(s[i])
  }

  /** A contradiction states two different roots and a reason. */
  predicate ValidContradiction(c: Contradiction) {
    Stated(c.derivedRoot) && Stated(c.agentRoot) && Stated(c.reasoning) && c.derivedRoot != c.agentRoot
  }

  /** One reading is an assumption to state, not a question to ask. */
  predicate ValidClarification(c: Clarification) {
    |c.readings| >= 2
  }

  ghost predicate WindowsPresent(f: Finding) {
    forall c :: c in f.citations && Windowed(c.referent) ==> c.window.Some?
  }

  /** What the constructors accept: windows where they belong, no findings beside a question, and
      parts that are valid themselves. */
  ghost predicate ValidAnswer(a: Answer) {
    && (a.clarification.Some? ==> a.findings == [] && ValidClarification(a.clarification.value))
    && (a.contradiction.Some? ==> ValidContradiction(a.contradiction.value))
    && forall f :: f in a.findings ==> ValidFinding(f) && WindowsPresent(f)
  }

  // ----- chart specifications -----

  /** A specification as JSON: an object's members in order, a list's items, anything else. */
  datatype Json = Object(members: seq<(string, Json)>) | List(items: seq<Json>) | Scalar

  datatype Step = Key(key: string) | Position(index: nat)

  predicate IsDataKey(key: string) {
    key == "data" || key == "datasets"
  }

  /** The path to the first data key, depth first, as a list of steps. */
  function CarriesData(value: Json): Option<seq<Step>>
    decreases value, 1, 0
  {
    match value
    case Object(members) => FirstInMembers(value, 0)
    case List(items) => FirstInItems(value, 0)
    case Scalar => None
  }

  function FirstInMembers(value: Json, i: nat): Option<seq<Step>>
    requires value.Object? && i <= |value.members|
    decreases value, 0, |value.members| - i
  {
    if i == |value.members| then
      None
    else
      var (key, nested) := value.members[i];
      if IsDataKey(key) then
        Some([Key(key)])
      else
        var found := CarriesData(nested);
        if found.Some? then Some([Key(key)] + found.value) else FirstInMembers(value, i + 1)
  }

  function FirstInItems(value: Json, i: nat): Option<seq<Step>>
    requires value.List? && i <= |value.items|
    decreases value, 0, |value.items| - i
  {
    if i == |value.items| then
      None
    else
      var found := CarriesData(value.items[i]);
      if found.Some? then Some([Position(i)] + found.value) else FirstInItems(value, i + 1)
  }

  /** Walking `path` down from `value` ends on a data key. */
  ghost predicate LeadsToData(value: Json, path: seq<Step>)
    decreases |path|, 1
  {
    && path != []
    && match path[0]
       case Key(key) => value.Object? && exists i :: 0 <= i < |value.members| && Opens(value, i, path)
       case Position(index) =>
         value.List? && index < |value.items| && LeadsToData(value.items[index], path[1..])
  }

  /** Member `i` of an object opens the path. */
  ghost predicate Opens(value: Json, i: nat, path: seq<Step>)
    requires value.Object? && i < |value.members|
    decreases |path|, 0
  {
    && path != [] && path[0] == Key(value.members[i].0)
    && if |path| == 1 then value.members[i].0 == "data" || value.members[i].0 == "datasets"
       else LeadsToData(value.members[i].1, path[1..])
  }

  lemma {:induction false} FoundLeadsToData(value: Json)
    ensures CarriesData(value).Some? ==> LeadsToData(value, CarriesData(value).value)
    decreases value, 1, 0
  {
    match value
    case Object(members) => FoundInMembers(value, 0);
    case List(items) => FoundInItems(value, 0);
    case Scalar =>
  }

  lemma {:induction false} FoundInMembers(value: Json, i: nat)
    requires value.Object? && i <= |value.members|
    ensures var found := FirstInMembers(value, i); found.Some? ==> LeadsToData(value, found.value)
    decreases value, 0, |value.members| - i
  {
    if i < |value.members| {
      var (key, nested) := value.members[i];
      if IsDataKey(key) {
        assert Opens(value, i, [Key(key)]);
      } else {
        FoundLeadsToData(nested);
        var found := CarriesData(nested);
        if found.Some? {
          assert ([Key(key)] + found.value)[1..] == found.value;
          assert Opens(value, i, [Key(key)] + found.value);
        } else {
          FoundInMembers(value, i + 1);
        }
      }
    }
  }

  lemma {:induction false} FoundInItems(value: Json, i: nat)
    requires value.List? && i <= |value.items|
    ensures var found := FirstInItems(value, i); found.Some? ==> LeadsToData(value, found.value)
    decreases value, 0, |value.items| - i
  {
    if i < |value.items| {
      FoundLeadsToData(value.items[i]);
      var found := CarriesData(value.items[i]);
      if found.Some? {
        assert ([Position(i)] + found.value)[1..] == found.value;
      } else {
        FoundInItems(value, i + 1);
      }
    }
  }

  lemma {:induction false} NothingMissed(value: Json, path: seq<Step>)
    requires LeadsToData(value, path)
    ensures CarriesData(value).Some?
    decreases |path|
  {
    match path[0]
    case Key(key) =>
      var i :| 0 <= i < |value.members| && Opens(value, i, path);
      if |path| > 1 { NothingMissed(value.members[i].1, path[1..]); }
      MemberFound(value, 0, i);
    case Position(index) =>
      NothingMissed(value.items[index], path[1..]);
      ItemFound(value, 0, index);
  }

  lemma {:induction false} MemberFound(value: Json, from: nat, i: nat)
    requires value.Object? && from <= i < |value.members|
    requires IsDataKey(value.members[i].0) || CarriesData(value.members[i].1).Some?
    ensures FirstInMembers(value, from).Some?
    decreases i - from
  {
    if from < i { MemberFound(value, from + 1, i); }
  }

  lemma {:induction false} ItemFound(value: Json, from: nat, i: nat)
    requires value.List? && from <= i < |value.items| && CarriesData(value.items[i]).Some?
    ensures FirstInItems(value, from).Some?
    decreases i - from
  {
    if from < i { ItemFound(value, from + 1, i); }
  }

  /** A specification is refused exactly when some path in it ends on a data key, at any depth,
      and the path the refusal names is one. */
  lemma RefusedExactlyWhenDataIsCarried(value: Json)
    ensures CarriesData(value).Some? <==> exists path :: LeadsToData(value, path)
    ensures CarriesData(value).Some? ==> LeadsToData(value, CarriesData(value).value)
  {
    FoundLeadsToData(value);
    if CarriesData(value).Some? {
      var path := CarriesData(value).value;
      assert LeadsToData(value, path);
    }
    forall path | LeadsToData(value, path) ensures CarriesData(value).Some? {
      NothingMissed(value, path);
    }
  }

  /** Of the ASCII characters the space, the tabs, line ends and separators are white space, and no other. */
  lemma BlanksAreSpace(c: char)
    requires c < '\U{80}'
    ensures Space(c) <==> c == ' ' || '\U{09}' <= c <= '\U{0D}' || '\U{1C}' <= c <= '\U{1F}'
  {
  }
}
