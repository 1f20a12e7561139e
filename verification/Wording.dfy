/**
 What the sentences of a run say: the number, the name or the reading each of them is about, and in which
 case it is said at all.
 */
module Wording {
  import opened Sequences
  import opened Answers
  import opened Citations
  import opened Passes
  import opened Compose
  import opened Preparation
  import opened Pipeline
  import opened Guarantees
  import Routing

  // ----- mentioning -----

  ghost predicate MentionedAt(text: string, part: string, i: int) {
    0 <= i && i + |part| <= |text| && text[i..i + |part|] == part
  }

  ghost predicate Mentions(text: string, part: string) {
    exists i :: MentionedAt(text, part, i)
  }

  lemma Middle(a: string, part: string, b: string)
    ensures Mentions(a + part + b, part) && Mentions(a + part, part) && Mentions(part, part)
  {
    assert MentionedAt(a + part + b, part, |a|);
    assert MentionedAt(a + part, part, |a|);
    assert MentionedAt(part, part, 0);
  }

  lemma MentionsMore(a: string, b: string, part: string)
    ensures Mentions(a, part) ==> Mentions(a + b, part)
    ensures Mentions(b, part) ==> Mentions(a + b, part)
  {
    if i :| MentionedAt(a, part, i) {
      assert (a + b)[i..i + |part|] == a[i..i + |part|];
      assert MentionedAt(a + b, part, i);
    }
    if i :| MentionedAt(b, part, i) {
      assert (a + b)[|a| + i..|a| + i + |part|] == b[i..i + |part|];
      assert MentionedAt(a + b, part, |a| + i);
    }
  }

  /** Three parts after one another, and what each mentions. */
  lemma MentionsFour(a: string, b: string, c: string, d: string, part: string)
    ensures Mentions(a + b + c + d, a) && Mentions(a + b + c + d, b) && Mentions(a + b + c + d, c)
    ensures Mentions(b, part) || Mentions(c, part) ==> Mentions(a + b + c + d, part)
  {
    Middle("", a, "");
    Middle(a, b, "");
    Middle(a + b, c, d);
    assert "" + a + "" == a && a + b + "" == a + b;
    MentionsMore(a, b, a);
    MentionsMore(a, b, part);
    MentionsMore(a + b, c, a);
    MentionsMore(a + b, c, b);
    MentionsMore(a + b, c, part);
    MentionsMore(a + b + c, d, a);
    MentionsMore(a + b + c, d, b);
    MentionsMore(a + b + c, d, part);
  }

  // ----- numbers -----

  predicate IsFigure(c: char) { '0' <= c <= '9' }

  function Figure(c: char): int { c as int - '0' as int }

  function ValueOf(s: string): int {
    if s == "" then 0 else 10 * ValueOf(s[..|s| - 1]) + Figure(s[|s| - 1])
  }

  /** A number is written in figures that read back as it, without a leading zero. */
  lemma {:induction false} DecimalReadsBack(n: nat)
    ensures Decimal(n) != "" && ValueOf(Decimal(n)) == n
    ensures forall i :: 0 <= i < |Decimal(n)| ==> IsFigure(Decimal(n)[i])
    ensures Decimal(n)[0] == '0' <==> n == 0
  {
    var last := '0' + (n % 10) as char;
    assert Figure(last) == n % 10;
    if n >= 10 {
      DecimalReadsBack(n / 10);
      assert Decimal(n) == Decimal(n / 10) + [last];
      assert Decimal(n)[..|Decimal(n)| - 1] == Decimal(n / 10);
    } else {
      assert Decimal(n) == [last];
      assert [last][..0] == "";
    }
  }

  lemma SignedReadsBack(n: int)
    ensures n >= 0 ==> Signed(n) == Decimal(n)
    ensures n < 0 ==> Signed(n) == "-" + Decimal(-n)
    ensures n < 0 <==> Signed(n)[0] == '-'
  {
    DecimalReadsBack(if n < 0 then -n else n);
  }

  // ----- lists -----

  /** Parts are joined by the separator, one after the other. */
  lemma {:induction false} JoinIsInOrder(parts: seq<string>, last: string, separator: string)
    ensures Join([], separator) == "" && Join([last], separator) == last
    ensures parts != [] ==> Join(parts + [last], separator) == Join(parts, separator) + separator + last
  {
    if |parts| > 1 {
      JoinIsInOrder(parts[1..], last, separator);
      assert (parts + [last])[1..] == parts[1..] + [last];
    } else if |parts| == 1 {
      assert (parts + [last])[1..] == [last];
    }
  }

  lemma {:induction false} JoinMentions(parts: seq<string>, separator: string, i: nat)
    requires i < |parts|
    ensures Mentions(Join(parts, separator), parts[i])
  {
    if |parts| == 1 {
      Middle("", parts[0], "");
    } else if i == 0 {
      Middle("", parts[0], separator + Join(parts[1..], separator));
      assert "" + parts[0] + (separator + Join(parts[1..], separator)) == Join(parts, separator);
    } else {
      JoinMentions(parts[1..], separator, i - 1);
      MentionsMore(parts[0] + separator, Join(parts[1..], separator), parts[i]);
    }
  }

  // ----- labels -----

  /** The kinds whose label is a word and one id. */
  ghost predicate SingleId(r: Referent, word: string, id: string) {
    match r
    case Part(x) => word == "part:" && id == x
    case Stop(x) => word == "stop:" && id == x
    case Alarm(x) => word == "alarm:" && id == x
    case Sop(x) => word == "sop:" && id == x
    case Serial(x) => word == "serial:" && id == x
    case Lot(x) => word == "lot:" && id == x
    case _ => false
  }

  /** Of these kinds, a label names the kind and the id, so that no two citations share one. */
  lemma LabelsTellApart(a: Citation, b: Citation, word: string, id: string, word': string, id': string)
    requires SingleId(a.referent, word, id) && SingleId(b.referent, word', id')
    ensures Label(a) == word + id
    ensures Label(a) == Label(b) <==> a.referent == b.referent
  {
    var x, y := word + id, word' + id';
    assert x[0] == word[0] && x[1] == word[1] && y[0] == word'[0] && y[1] == word'[1];
    assert x[|word|..] == id && y[|word'|..] == id';
    assert Label(b) == y;
  }

  /** The others name what they are about. */
  lemma LabelsMention(c: Citation)
    ensures c.referent.Signal? ==> Mentions(Label(c), c.referent.station) && Mentions(Label(c), c.referent.signal)
    ensures c.referent.Pattern? ==> Mentions(Label(c), c.referent.dimension) && Mentions(Label(c), c.referent.key)
    ensures c.referent.Containment? ==> Mentions(Label(c), Decimal(|c.referent.serials|))
    ensures c.referent.Chart? ==> Mentions(Label(c), c.referent.chartType) && Mentions(Label(c), c.referent.source)
  {
    match c.referent
    case Signal(station, signal) =>
      Middle("signal:", station, "/" + signal);
      assert "signal:" + station + ("/" + signal) == Label(c);
      Middle("signal:" + station + "/", signal, "");
    case Pattern(dimension, key) =>
      Middle("pattern:", dimension, "=" + key);
      assert "pattern:" + dimension + ("=" + key) == Label(c);
      Middle("pattern:" + dimension + "=", key, "");
    case Containment(serials) =>
      Middle("containment:", Decimal(|serials|), " serial(s)");
    case Chart(chartType, source, _) =>
      Middle("chart:", chartType, " from " + source);
      assert "chart:" + chartType + (" from " + source) == Label(c);
      Middle("chart:" + chartType + " from ", source, "");
    case _ =>
  }

  /** Two different citations can share a label all the same: two scopes of one size, say. */
  lemma LabelsCanBeShared(a: string, b: string)
    requires a != b
    ensures Label(Citation(Containment([a]), None)) == Label(Citation(Containment([b]), None))
    ensures Citation(Containment([a]), None) != Citation(Containment([b]), None)
  {
    assert [a][0] != [b][0];
  }

  // ----- notes -----

  /** Nothing is said of a pass that removed nothing; else how many claims went, and every label that failed. */
  lemma RemovalIsTold(v: Verification)
    ensures RemovalNote(v).None? <==> v.failed == []
    ensures RemovalNote(v).Some? ==>
              && Mentions(RemovalNote(v).value, Signed(v.removed))
              && forall name :: name in v.failed ==> Mentions(RemovalNote(v).value, name)
  {
    if v.failed != [] {
      var note := RemovalNote(v).value;
      var before := Signed(v.removed) + " claim(s) were removed because their citations could not be verified against the database: ";
      assert note == before + Join(v.failed, ", ") + ".";
      Middle("", Signed(v.removed), note[|Signed(v.removed)|..]);
      assert "" + Signed(v.removed) + note[|Signed(v.removed)|..] == note;
      forall name | name in v.failed ensures Mentions(note, name) {
        var i :| 0 <= i < |v.failed| && v.failed[i] == name;
        JoinMentions(v.failed, ", ", i);
        MentionsMore(before, Join(v.failed, ", "), name);
        MentionsMore(before + Join(v.failed, ", "), ".", name);
      }
    }
  }

  lemma AbortIsTold(failures: nat, name: string, detail: string)
    ensures Mentions(AbortNote(failures, name, detail), Decimal(failures))
    ensures Mentions(AbortNote(failures, name, detail), name) && Mentions(AbortNote(failures, name, detail), detail)
  {
    var middle := " consecutive tool failures; the last was ";
    Middle("I stopped after ", Decimal(failures), middle + name + ": " + detail + ".");
    assert AbortNote(failures, name, detail) == "I stopped after " + Decimal(failures) + (middle + name + ": " + detail + ".");
    Middle("I stopped after " + Decimal(failures) + middle, name, ": " + detail + ".");
    assert AbortNote(failures, name, detail) == ("I stopped after " + Decimal(failures) + middle) + name + (": " + detail + ".");
    Middle("I stopped after " + Decimal(failures) + middle + name + ": ", detail, ".");
  }

  /** An exhausted run names its budget, and the calls it made if it made any. */
  lemma ExhaustionIsTold(called: seq<string>, budget: int)
    ensures Mentions(ExhaustedNote(budget), Signed(budget))
    ensures called == [] ==> Mentions(Unfinished(called), "no calls")
    ensures forall name :: name in called && name != "" ==> Mentions(Unfinished(called), name)
  {
    Middle("The tool budget of ", Signed(budget), " step(s) was exhausted; this answer is incomplete.");
    var joined := if Join(called, ", ") == "" then "no calls" else Join(called, ", ");
    Middle("I ran out of tool budget after ", joined, " and did not reach an answer.");
    forall name | name in called && name != "" ensures Mentions(Unfinished(called), name) {
      var i :| 0 <= i < |called| && called[i] == name;
      JoinMentions(called, ", ", i);
      NothingInNothing(name);
      MentionsMore("I ran out of tool budget after ", joined, name);
      MentionsMore("I ran out of tool budget after " + joined, " and did not reach an answer.", name);
    }
  }

  lemma NothingInNothing(part: string)
    ensures part != "" ==> !Mentions("", part)
  {
  }

  // ----- what was read, and what was not -----

  /** A question with more than one reading is told which one was taken and what the others were. */
  lemma ReadingIsTold(readings: seq<Reading>)
    ensures ReadAs(readings).None? <==> |readings| < 2
    ensures |readings| >= 2 ==>
              && Mentions(ReadAs(readings).value, readings[0].description)
              && forall i :: 1 <= i < |readings| ==> Mentions(ReadAs(readings).value, readings[i].description)
  {
    if |readings| >= 2 {
      hide Mentions, Join, Descriptions;
      var first, others := readings[0].description, Descriptions(readings[1..]);
      QuotedMentions(first);
      ReadingsFollow(Quoted(first), others, first);
      forall i | 1 <= i < |readings| ensures Mentions(ReadAs(readings).value, readings[i].description) {
        assert readings[1..][i - 1] == readings[i];
        OthersMentioned(readings[1..], i - 1);
        ReadingsFollow(Quoted(first), others, readings[i].description);
      }
    }
  }

  lemma QuotedMentions(s: string)
    ensures Mentions(Quoted(s), s)
  {
    Middle("'", s, "'");
  }

  lemma ReadingsFollow(first: string, others: seq<string>, part: string)
    ensures (var note := "I read this as " + first + ". It could also have been read as: " + Join(others, ", ") + ".";
             (Mentions(first, part) || Mentions(Join(others, ", "), part) ==> Mentions(note, part)))
  {
    hide Mentions, Join;
    var a, b, c := "I read this as ", ". It could also have been read as: ", Join(others, ", ");
    MentionsMore(a, first, part);
    MentionsFour(a + first, b, c, ".", part);
    MentionsMore(a + first, b, part);
    MentionsMore(a + first + b, c, part);
    MentionsMore(a + first + b + c, ".", part);
  }

  lemma OthersMentioned(readings: seq<Reading>, i: nat)
    requires i < |readings|
    ensures Mentions(Join(Descriptions(readings), ", "), readings[i].description)
  {
    var others := Descriptions(readings);
    if readings[i].description == "" {
      assert MentionedAt(Join(others, ", "), "", 0);
    } else {
      DescriptionsHold(readings, i);
      var k :| 0 <= k < |others| && others[k] == readings[i].description;
      JoinMentions(others, ", ", k);
    }
  }

  lemma {:induction false} DescriptionsHold(readings: seq<Reading>, i: nat)
    requires i < |readings| && readings[i].description != ""
    ensures readings[i].description in Descriptions(readings)
  {
    if i > 0 {
      DescriptionsHold(readings[1..], i - 1);
    }
  }

  /** A reading is offered by its description, or by its type when it has none. */
  lemma ReadingsAreOffered(readings: seq<Reading>, i: nat)
    requires i < |readings|
    ensures |Described(readings)| == |readings|
    ensures readings[i].description != "" ==> Described(readings)[i] == readings[i].description
    ensures readings[i].description == "" ==> Described(readings)[i] == readings[i].questionType
  {
  }

  /** What is asked back is the question, and every reading. */
  lemma AskingBackIsTold(a: Asking, i: nat)
    requires i < |a.classification.readings|
    ensures Mentions(AskingBack(a), Described(a.classification.readings)[i])
    ensures Mentions(AskingBack(a), Unasked(a.question))
  {
    hide Mentions, Join, Unasked;
    var offered := Described(a.classification.readings);
    JoinMentions(offered, "; or ", i);
    MentionsFour(Unasked(a.question), "? — I can read that two ways, and they lead to different investigations: ",
                 Join(offered, "; or "), ". Which did you mean?", offered[i]);
  }

  /** Only the question marks at the end are taken off. */
  lemma {:induction false} UnaskedTakesMarks(question: string)
    ensures Unasked(question) <= question
    ensures forall i :: |Unasked(question)| <= i < |question| ==> question[i] == '?'
    ensures Unasked(question) != "" ==> Unasked(question)[|Unasked(question)| - 1] != '?'
  {
    if question != "" && question[|question| - 1] == '?' {
      UnaskedTakesMarks(question[..|question| - 1]);
    }
  }

  /** Gaps are told exactly when there are some, with their number. */
  lemma GapsAreTold(n: nat)
    ensures Gaps(n).None? <==> n == 0
    ensures n > 0 ==> Mentions(Gaps(n).value, Decimal(n))
  {
    Middle("The window contains ", Decimal(n), " ingest gap(s), so anything counted over it is incomplete.");
  }

  /** An empty window is named, with the last data there is, if there is any. */
  lemma EmptinessIsTold(w: Window, latest: Option<string>)
    ensures Mentions(NothingRecorded(w, latest), w.title)
    ensures latest.Some? ==> Mentions(NothingRecorded(w, latest), latest.value)
    ensures latest == None || latest == Some("") ==>
              Mentions(NothingRecorded(w, latest), ", and the database holds no data at any other time either.")
  {
    hide Mentions;
    if latest.Some? && latest.value != "" {
      MentionsNested("Nothing at all was recorded in ", w.title, ". The most recent data in the database is at ", latest.value,
                     " — ask again for the shift around it.");
    } else {
      var none := ", and the database holds no data at any other time either.";
      Middle("Nothing at all was recorded in ", w.title, none);
      Middle("Nothing at all was recorded in " + w.title, none, "");
      MentionsNothing(NothingRecorded(w, latest));
    }
  }

  lemma MentionsNothing(text: string)
    ensures Mentions(text, "")
  {
    assert MentionedAt(text, "", 0);
  }

  lemma MentionsNested(a: string, b: string, c: string, d: string, e: string)
    ensures Mentions(a + b + (c + d + e), b) && Mentions(a + b + (c + d + e), d)
  {
    hide Mentions;
    Middle(a, b, c + d + e);
    Middle(c, d, e);
    MentionsMore(a + b, c + d + e, d);
  }

  /** What routing and classification add: who answered, that a question was not understood, every correction,
      and how many documents did not fit; each when it is so, and nothing else. */
  lemma RoutingIsTold(a: Asking, selection: Routing.Selection)
    ensures (var told := RoutedCaveats(a, selection);
             && (a.scripted ==> DISCLOSURE in told) && (a.classification.fallback ==> UNCLASSIFIED in told)
             && (forall c :: c in a.classification.corrections ==> c in told)
             && (selection.dropped != [] ==> exists c :: c in told && Mentions(c, Decimal(|selection.dropped|)))
             && |told| == |a.classification.corrections| + (if a.scripted then 1 else 0)
                          + (if a.classification.fallback then 1 else 0) + (if selection.dropped != [] then 1 else 0))
  {
    var n := |selection.dropped|;
    if selection.dropped != [] {
      Middle("", Decimal(n), " further document(s) matched but did not fit the retrieval budget.");
      assert "" + Decimal(n) + " further document(s) matched but did not fit the retrieval budget." == Dropped(n);
      assert Dropped(n) in RoutedCaveats(a, selection);
    }
  }

  // ----- what is printed -----

  /** A composed answer prints every caveat, every statement that supports, and the summary or else every lead. */
  lemma EverythingIsPrinted(
    findings: seq<Finding>, caveats: seq<string>, summaryAfter: int, summary: Option<Finding>, r: Composition)
    requires IsComposition(findings, caveats, summaryAfter, summary, r)
    ensures forall c :: c in caveats ==> ("_" + c + "_") in r.lines
    ensures (var ordered := Collapsed(findings);
             && (forall f :: f in Support(ordered) ==> ("- " + f.statement) in r.lines)
             && (if summary.Some? then summary.value.statement in r.lines
                 else forall f :: f in Leads(ordered) ==> f.statement in r.lines))
  {
    hide Collapsed, Leads, Support, IsSummary;
    var ordered := Collapsed(findings);
    var support, shown := Support(ordered), Emphasised(caveats);
    var head := StatementsInOrder(if summary.Some? then [summary.value] else Leads(ordered));
    assert r.lines == head + Bulleted(support) + shown;
    forall c | c in caveats ensures ("_" + c + "_") in r.lines {
      var i :| 0 <= i < |caveats| && caveats[i] == c;
      assert shown[i] == "_" + c + "_" && shown[i] in shown;
    }
    forall f | f in support ensures ("- " + f.statement) in r.lines {
      var i :| 0 <= i < |support| && support[i] == f;
      assert Bulleted(support)[i] == "- " + f.statement && Bulleted(support)[i] in Bulleted(support);
    }
    if summary.Some? {
      assert head[0] == summary.value.statement && head[0] in head;
    } else {
      forall f | f in Leads(ordered) ensures f.statement in r.lines {
        var i :| 0 <= i < |Leads(ordered)| && Leads(ordered)[i] == f;
        assert head[i] == f.statement && head[i] in head;
      }
    }
  }

  /** An answer without findings prints its line first and then every caveat shown. */
  lemma PlainIsPrinted(line: string, shown: seq<string>, how: Method, caveats: seq<string>, i: nat)
    requires i < |shown|
    ensures (var a := Plain(line, shown, how, caveats);
             && |a.lines| == |shown| + 1 && a.lines[0] == line && a.lines[i + 1] == "_" + shown[i] + "_"
             && a.caveats == caveats && a.how == how && a.findings == [])
  {
  }
}
