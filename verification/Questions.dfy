/**
 How a question steers its run, said of the classification and the calendar: when it is asked back or
 declined, which window it is answered over, and what is said of a window that had to be assumed.
 */
module Questions {
  import opened Sequences
  import opened Answers
  import opened Citations
  import opened Compose
  import opened Preparation
  import opened Pipeline
  import opened Guarantees
  import opened Transcript
  import Routing

  // ----- doors before the window -----

  /** Two readings would lead to different investigations, and none is more likely. */
  ghost predicate Undecided(c: Classification) {
    !c.ranked && exists r, x :: r in c.readings && x in c.readings && r.questionType != x.questionType
  }

  lemma AsksBackExactly(c: Classification)
    ensures c.AsksBack() <==> Undecided(c)
  {
    var types := set r | r in c.readings :: r.questionType;
    if exists r, x :: r in c.readings && x in c.readings && r.questionType != x.questionType {
      var r, x :| r in c.readings && x in c.readings && r.questionType != x.questionType;
      assert types == (types - {r.questionType}) + {r.questionType} && x.questionType in types - {r.questionType};
      assert |types - {r.questionType}| > 0;
    } else if c.readings != [] {
      assert c.readings[0] in c.readings;
      assert types == {c.readings[0].questionType};
    } else {
      assert types == {};
    }
  }

  ghost predicate Investigates(c: Classification) {
    !Undecided(c) && c.questionType != "out_of_scope"
  }

  // ----- the window -----

  /** The question names `w`. */
  ghost predicate Names(a: Asking, w: Window) {
    a.classification.timePhrase != "" && a.calendar(a.classification.timePhrase) == Some(w)
  }

  /** The question names no time the calendar reads, and its default is `w`. */
  ghost predicate Falls(a: Asking, w: Window) {
    && (a.classification.timePhrase == "" || a.calendar(a.classification.timePhrase) == None)
    && a.calendar(a.defaultPhrase) == Some(w)
  }

  /** What is said of a window that was assumed. */
  function Assumption(a: Asking, w: Window): string {
    var assumed := "'" + a.defaultPhrase + "'" + " — " + w.title + ".";
    if a.classification.timePhrase == "" then
      "The question names no time expression, so I assumed " + assumed
    else
      "I could not resolve " + ("'" + a.classification.timePhrase + "'") + " against the shift calendar, so I assumed "
      + assumed
  }

  /** A run that got past its first two doors is over `w`: it announces it, its caveats state `assumed` and
      the gaps of `w` behind what routing and reading noted, it has data exactly when `w` has, and every
      citation delivered carries `w` exactly when its kind takes a window. */
  ghost predicate IsOver(
    a: Asking, selection: Routing.Selection, said: seq<string>, answer: Answer, w: Window, assumed: seq<string>)
  {
    && |said| >= 4 && said[2] == "the window is " + w.title
    && RoutedCaveats(a, selection) + Noted(ReadAs(a.classification.readings)) + assumed + Noted(Gaps(a.coverage(w).gaps))
       <= answer.caveats
    && (a.coverage(w).events == 0 ==> answer.findings == [] && answer.how.toolsCalled == ["line_status"])
    && forall f, c :: f in answer.findings && c in f.citations ==> RightlyWindowed(c, w)
  }

  predicate RightlyWindowed(c: Citation, w: Window) {
    match c.referent
    case Pattern(_, _) => c.window == Some(CitationWindow(w.start, w.end, w.title))
    case Signal(_, _) => c.window == Some(CitationWindow(w.start, w.end, w.title))
    case Chart(_, _, _) => c.window == Some(CitationWindow(w.start, w.end, w.title))
    case _ => c.window == None
  }

  lemma PreparedOver(a: Asking, selection: Routing.Selection, w: Window)
    requires Names(a, w) || Falls(a, w)
    ensures (var p := Prepare(a, selection);
             && p.resolved && p.window == w && p.observed == a.coverage(w).events
             && p.assumption == (if Names(a, w) then None else Some(Assumption(a, w)))
             && p.gaps == Gaps(a.coverage(w).gaps))
  {
    hide WindowOf, Assumption, Gaps, RoutedCaveats, ReadAs, AskingBack, NothingRecorded, Described, Ids;
    WindowIs(a, w);
  }

  lemma WindowIs(a: Asking, w: Window)
    requires Names(a, w) || Falls(a, w)
    ensures WindowOf(a) == Some((w, if Names(a, w) then None else Some(Assumption(a, w))))
  {
  }

  lemma PreparedDoors(a: Asking, selection: Routing.Selection)
    ensures (var p := Prepare(a, selection);
             && (p.askedBack.Some? <==> Undecided(a.classification))
             && (p.outOfScope <==> a.classification.questionType == "out_of_scope")
             && (p.resolved <==> exists w :: Names(a, w) || Falls(a, w))
             && p.routed == RoutedCaveats(a, selection) && p.reading == ReadAs(a.classification.readings))
  {
    hide RoutedCaveats, ReadAs, AskingBack, Described, WindowOf, Gaps, NothingRecorded, Ids, Undecided, Names, Falls,
         Classification.AsksBack;
    AsksBackExactly(a.classification);
    WindowWhenRead(a);
  }

  lemma WindowWhenRead(a: Asking)
    ensures WindowOf(a).Some? <==> exists w :: Names(a, w) || Falls(a, w)
  {
    var phrase := a.classification.timePhrase;
    if phrase != "" && a.calendar(phrase).Some? {
      assert Names(a, a.calendar(phrase).value);
    } else if a.calendar(a.defaultPhrase).Some? {
      assert Falls(a, a.calendar(a.defaultPhrase).value);
    }
  }

  lemma CaveatsStandFirst(p: Prepared, s: Settings, others: Others, said: seq<string>, answer: Answer, t: Trace)
    requires IsRun(p, s, others, said, answer, t) && p.askedBack.None? && !p.outOfScope
    ensures LoopCaveats(p) <= answer.caveats && Opened(p) <= said
    ensures p.observed == 0 ==> answer.findings == [] && answer.how.toolsCalled == [LINE_STATUS]
  {
    hide Loop, LoopCaveats, IsComposed, AbortNote, Unfinished, ExhaustedNote, Emphasised, RemovalNote, Told, Opened;
    WholeRunIsTold(p, s, others);
  }

  /** Every run that investigates is over the window its question names; when it names none that the calendar
      reads, it is over the default, and says so. */
  lemma RunsAreOverTheWindowAsked(
    a: Asking, selection: Routing.Selection, s: Settings, others: Others, said: seq<string>, answer: Answer, t: Trace,
    w: Window)
    requires IsRun(Prepare(a, selection), s, others, said, answer, t) && Investigates(a.classification)
    ensures Names(a, w) ==> IsOver(a, selection, said, answer, w, [])
    ensures Falls(a, w) ==> IsOver(a, selection, said, answer, w, [Assumption(a, w)])
  {
    hide IsRun, Prepare, RoutedCaveats, ReadAs, Gaps, Assumption, Whole, PassOf;
    var p := Prepare(a, selection);
    PreparedDoors(a, selection);
    CaveatsStandFirst(p, s, others, said, answer, t);
    NoUnverifiedClaimShips(p, s, others, said, answer, t);
    if Names(a, w) || Falls(a, w) {
      PreparedOver(a, selection, w);
      forall f, c | f in answer.findings && c in f.citations ensures CarriesRunWindow(c, w) {
        assert Grounded(p, s, others, t, c);
      }
      IsOverItsWindow(a, selection, p, said, answer, w);
    }
  }

  lemma IsOverItsWindow(
    a: Asking, selection: Routing.Selection, p: Prepared, said: seq<string>, answer: Answer, w: Window)
    requires LoopCaveats(p) <= answer.caveats && Opened(p) <= said && p.window == w
    requires p.routed == RoutedCaveats(a, selection) && p.reading == ReadAs(a.classification.readings)
    requires p.gaps == Gaps(a.coverage(w).gaps)
    requires a.coverage(w).events == 0 ==> answer.findings == [] && answer.how.toolsCalled == [LINE_STATUS]
    requires forall f, c :: f in answer.findings && c in f.citations ==> CarriesRunWindow(c, w)
    ensures IsOver(a, selection, said, answer, w, Noted(p.assumption))
  {
    hide RoutedCaveats, ReadAs, Gaps, Join;
    assert Opened(p)[2] == said[2];
    forall f, c | f in answer.findings && c in f.citations ensures RightlyWindowed(c, w) {
      assert CarriesRunWindow(c, w);
    }
  }

  /** A run stops with an error before its loop exactly when it investigates and the calendar reads neither what
      the question names nor the default. */
  lemma NoWindowRaisesExactly(a: Asking, selection: Routing.Selection, s: Settings, others: Others)
    ensures (var p := Prepare(a, selection);
             Raises(p, s, others) && !ReachesLoop(p)
             <==> Investigates(a.classification) && forall w :: !Names(a, w) && !Falls(a, w))
  {
    hide Prepare, Whole;
    PreparedDoors(a, selection);
  }

  /** A question is asked back exactly when its readings are undecided, with every reading offered, and
      declined exactly when it is out of scope; neither runs a tool. */
  lemma FirstDoorsExactly(
    a: Asking, selection: Routing.Selection, s: Settings, others: Others, said: seq<string>, answer: Answer, t: Trace)
    requires IsRun(Prepare(a, selection), s, others, said, answer, t)
    ensures answer.clarification.Some? <==> Undecided(a.classification)
    ensures answer.clarification.Some? ==>
              answer.clarification.value.readings == Described(a.classification.readings) && |a.classification.readings| >= 2
    ensures !Investigates(a.classification) ==> t.calls == [] && answer.findings == []
    ensures !Undecided(a.classification) && a.classification.questionType == "out_of_scope" ==>
              answer.lines != [] && answer.lines[0] == DECLINE
  {
    hide Loop, Whole, IsComposed, RoutedCaveats, ReadAs, Gaps, Described, AskingBack, NothingRecorded, WindowOf;
    PreparedDoors(a, selection);
    if Undecided(a.classification) {
      UndecidedIsBetweenTwo(a.classification);
    }
  }

  /** The documents a run consults are those routing selected, by their ids and in that order. */
  lemma DocumentsAreTheSelected(
    a: Asking, selection: Routing.Selection, s: Settings, others: Others, said: seq<string>, answer: Answer, t: Trace)
    requires IsRun(Prepare(a, selection), s, others, said, answer, t)
    ensures |t.sops| == |selection.documents|
    ensures forall i :: 0 <= i < |t.sops| ==> t.sops[i] == selection.documents[i].id
    ensures answer.how.sopsUsed == t.sops
  {
    hide IsRun, WindowOf, RoutedCaveats, ReadAs, Gaps, AskingBack, NothingRecorded, Described;
    DocumentsAreTraced(Prepare(a, selection), s, others, said, answer, t);
  }

  lemma UndecidedIsBetweenTwo(c: Classification)
    requires Undecided(c)
    ensures |c.readings| >= 2
  {
    var r, x :| r in c.readings && x in c.readings && r.questionType != x.questionType;
    var i :| 0 <= i < |c.readings| && c.readings[i] == r;
    var j :| 0 <= j < |c.readings| && c.readings[j] == x;
    assert i != j;
  }
}
