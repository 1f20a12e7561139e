/**
 What a run settles before its tool loop, after `diagnostics/agent/src/agent/pipeline.py`: how the
 question was read, which documents it gets, which window it is about, and the sentences each of
 those adds to the answer. The classification, the calendar and the coverage of a window are given.
 */
module Preparation {
  import opened Sequences
  import opened Citations
  import opened Compose
  import Routing

  datatype Reading = Reading(questionType: string, description: string)

  datatype Classification = Classification(
    questionType: string, facets: Routing.Facets, timePhrase: string, singular: bool,
    readings: seq<Reading>, ranked: bool, fallback: bool, corrections: seq<string>)
  {
    /** Readings that would lead to different investigations, and none more likely. */
    predicate AsksBack() {
      !ranked && |set r | r in readings :: r.questionType| > 1
    }
  }

  datatype Coverage = Coverage(gaps: nat, events: int)

  datatype Asking = Asking(
    question: string, scripted: bool, classification: Classification,
    index: seq<Routing.Document>, budget: Routing.Budget,
    calendar: string -> Option<Window>, defaultPhrase: string,
    coverage: Window -> Coverage, latest: Window -> Option<string>)

  /** What the stages before the loop settled, and the sentences they settled on. */
  datatype Prepared = Prepared(
    question: string, sops: seq<string>, routed: seq<string>,
    askedBack: Option<string>, readings: seq<string>, reading: Option<string>, outOfScope: bool,
    resolved: bool, window: Window, assumption: Option<string>, gaps: Option<string>,
    observed: int, noData: string, singular: bool)

  function Noted(note: Option<string>): seq<string> {
    if note.Some? then [note.value] else []
  }

  /** The caveats standing when the loop begins. */
  function LoopCaveats(p: Prepared): seq<string> {
    p.routed + Noted(p.reading) + Noted(p.assumption) + Noted(p.gaps)
  }

  // ----- sentences -----

  const DISCLOSURE :=
    "This answer was produced by the scripted provider, not by a model. The figures and citations are real "
    + "— they come from the database — but the reasoning is fixed."

  const UNCLASSIFIED :=
    "I could not classify this question, so I read it as a knowledge question. "
    + "If it was about the line's data, say which part and I will look there."

  const OUT_OF_SCOPE := "out_of_scope"

  function Dropped(n: nat): string {
    Decimal(n) + " further document(s) matched but did not fit the retrieval budget."
  }

  function Quoted(s: string): string {
    "'" + s + "'"
  }

  /** Without the question marks it ends in. */
  function Unasked(question: string): string {
    if question != "" && question[|question| - 1] == '?' then Unasked(question[..|question| - 1]) else question
  }

  /** A reading by its description, or by its type when it has none. */
  function Described(readings: seq<Reading>): seq<string> {
    seq(|readings|, i requires 0 <= i < |readings| =>
      if readings[i].description != "" then readings[i].description else readings[i].questionType)
  }

  function Descriptions(readings: seq<Reading>): seq<string> {
    if readings == [] then []
    else (if readings[0].description != "" then [readings[0].description] else []) + Descriptions(readings[1..])
  }

  function AskingBack(a: Asking): string {
    Unasked(a.question) + "? — I can read that two ways, and they lead to different investigations: "
    + Join(Described(a.classification.readings), "; or ") + ". Which did you mean?"
  }

  function ReadAs(readings: seq<Reading>): Option<string> {
    if |readings| <= 1 then None
    else Some("I read this as " + Quoted(readings[0].description) + ". It could also have been read as: "
              + Join(Descriptions(readings[1..]), ", ") + ".")
  }

  function Gaps(n: nat): Option<string> {
    if n == 0 then None
    else Some("The window contains " + Decimal(n) + " ingest gap(s), so anything counted over it is incomplete.")
  }

  function NothingRecorded(w: Window, latest: Option<string>): string {
    "Nothing at all was recorded in " + w.title +
    if latest.Some? && latest.value != "" then
      ". The most recent data in the database is at " + latest.value + " — ask again for the shift around it."
    else
      ", and the database holds no data at any other time either."
  }

  // ----- the window -----

  /** The window and, when one was assumed, the sentence that says so; nothing when the calendar refuses
      even the configured default. */
  function WindowOf(a: Asking): Option<(Window, Option<string>)> {
    var phrase := a.classification.timePhrase;
    var named := if phrase != "" then a.calendar(phrase) else None;
    if named.Some? then Some((named.value, None))
    else
      match a.calendar(a.defaultPhrase)
      case None => None
      case Some(w) =>
        var assumed := Quoted(a.defaultPhrase) + " — " + w.title + ".";
        Some((w, Some(
          if phrase != "" then
            "I could not resolve " + Quoted(phrase) + " against the shift calendar, so I assumed " + assumed
          else
            "The question names no time expression, so I assumed " + assumed)))
  }

  // ----- together -----

  function Ids(documents: seq<Routing.Document>): seq<string> {
    seq(|documents|, i requires 0 <= i < |documents| => documents[i].id)
  }

  function RoutedCaveats(a: Asking, selection: Routing.Selection): seq<string> {
    (if a.scripted then [DISCLOSURE] else []) + (if a.classification.fallback then [UNCLASSIFIED] else [])
    + a.classification.corrections + (if selection.dropped != [] then [Dropped(|selection.dropped|)] else [])
  }

  function Prepare(a: Asking, selection: Routing.Selection): Prepared {
    var c, found := a.classification, WindowOf(a);
    var window := if found.Some? then found.value.0 else Window(0, 0, "");
    Prepared(
      a.question, Ids(selection.documents), RoutedCaveats(a, selection),
      if c.AsksBack() then Some(AskingBack(a)) else None, Described(c.readings), ReadAs(c.readings),
      c.questionType == OUT_OF_SCOPE,
      found.Some?, window, if found.Some? then found.value.1 else None, Gaps(a.coverage(window).gaps),
      a.coverage(window).events, NothingRecorded(window, a.latest(window)), c.singular)
  }

  lemma TypesAmongReadings(readings: seq<Reading>)
    ensures |set r | r in readings :: r.questionType| <= |readings|
  {
    if readings == [] {
      assert (set r | r in readings :: r.questionType) == {};
    } else {
      var n := |readings| - 1;
      TypesAmongReadings(readings[..n]);
      assert readings == readings[..n] + [readings[n]];
      assert (set r | r in readings :: r.questionType)
          == (set r | r in readings[..n] :: r.questionType) + {readings[n].questionType};
    }
  }

  /** A question is asked back only between two readings or more. */
  lemma AskingBackNeedsTwoReadings(a: Asking, selection: Routing.Selection)
    ensures Prepare(a, selection).askedBack.Some? ==> |Prepare(a, selection).readings| >= 2
  {
    TypesAmongReadings(a.classification.readings);
  }
}
