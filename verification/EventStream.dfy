/**
 The answer stream: what `diagnostics/agent/src/agent/app.py` prints and what
 `diagnostics/ui/src/api.ts` reads back, however the text is cut into chunks. A subset of
 section 9.2 (Server-sent events) of the WHATWG HTML standard.
 */
module EventStream {
  import opened Sequences

  datatype Event = Event(name: string, data: string)

  // ----- text -----

  /** White space and line terminators, as ECMAScript's `trim` takes them off. */
  predicate Blank(c: char) {
    || c == '\t' || c == '\n' || c == '\U{0B}' || c == '\U{0C}' || c == '\r' || c == ' '
    || c == '\U{A0}' || c == '\U{1680}' || '\U{2000}' <= c <= '\U{200A}' || c == '\U{2028}' || c == '\U{2029}'
    || c == '\U{202F}' || c == '\U{205F}' || c == '\U{3000}' || c == '\U{FEFF}'
  }

  function Trim(s: string): (r: string)
    decreases |s|
  {
    if s == "" then s
    else if Blank(s[0]) then Trim(s[1..])
    else if Blank(s[|s| - 1]) then Trim(s[..|s| - 1])
    else s
  }

  predicate Trimmed(s: string) {
    s == "" || !(Blank(s[0]) || Blank(s[|s| - 1]))
  }

  predicate OneLine(s: string) {
    '\n' !in s
  }

  /** Where the first newline is, or the end. */
  function LineEnd(s: string): (n: nat)
    ensures n <= |s|
  {
    if s == "" || s[0] == '\n' then 0 else 1 + LineEnd(s[1..])
  }

  function Lines(s: string): seq<string>
    decreases |s|
  {
    var n := LineEnd(s);
    if n == |s| then [s] else [s[..n]] + Lines(s[n + 1..])
  }

  const FIELD_EVENT := "event:"
  const FIELD_DATA := "data:"

  predicate StartsWith(line: string, field: string) {
    field <= line
  }

  function FieldValue(line: string, field: string): string
    requires StartsWith(line, field)
  {
    Trim(line[|field|..])
  }

  /** The trimmed value of the last line that starts with `field`, or empty. */
  function LastValue(lines: seq<string>, field: string): string {
    if lines == [] then ""
    else if StartsWith(lines[|lines| - 1], field) then FieldValue(lines[|lines| - 1], field)
    else LastValue(lines[..|lines| - 1], field)
  }

  function Parsed(block: string): Option<Event> {
    var lines := Lines(block);
    var name := LastValue(lines, FIELD_EVENT);
    if name == "" then None else Some(Event(name, LastValue(lines, FIELD_DATA)))
  }

  method ParseBlock(block: string) returns (r: Option<Event>)
    ensures r == Parsed(block)
  {
    var event, data := "", "";
    var lines := Lines(block);
    for i := 0 to |lines|
      invariant event == LastValue(lines[..i], FIELD_EVENT)
      invariant data == LastValue(lines[..i], FIELD_DATA)
    {
      assert lines[..i + 1] == lines[..i] + [lines[i]];
      FieldsDiffer(lines[i]);
      if StartsWith(lines[i], FIELD_EVENT) {
        event := FieldValue(lines[i], FIELD_EVENT);
      } else if StartsWith(lines[i], FIELD_DATA) {
        data := FieldValue(lines[i], FIELD_DATA);
      }
    }
    assert lines[..|lines|] == lines;
    r := if event == "" then None else Some(Event(event, data));
  }

  lemma FieldsDiffer(line: string)
    ensures !(StartsWith(line, FIELD_EVENT) && StartsWith(line, FIELD_DATA))
  {
    if StartsWith(line, FIELD_EVENT) {
      assert line[0] == FIELD_EVENT[0] == 'e';
      assert FIELD_DATA[0] == 'd';
    }
  }

  /** Line `i` begins with the field, its rest trimmed is `v`, and no later line begins with it. */
  ghost predicate SaidLast(lines: seq<string>, field: string, v: string, i: int) {
    && 0 <= i < |lines| && |field| <= |lines[i]| && lines[i][..|field|] == field
    && v == Trim(lines[i][|field|..])
    && forall j :: i < j < |lines| ==> !(|field| <= |lines[j]| && lines[j][..|field|] == field)
  }

  ghost predicate Says(lines: seq<string>, field: string, v: string) {
    || (exists i :: SaidLast(lines, field, v, i))
    || (v == "" && forall j :: 0 <= j < |lines| ==> !(|field| <= |lines[j]| && lines[j][..|field|] == field))
  }

  lemma {:induction false} LastValueIsSaid(lines: seq<string>, field: string)
    ensures Says(lines, field, LastValue(lines, field))
  {
    if lines != [] {
      var n := |lines| - 1;
      if StartsWith(lines[n], field) {
        assert SaidLast(lines, field, LastValue(lines, field), n);
      } else {
        LastValueIsSaid(lines[..n], field);
        if i :| SaidLast(lines[..n], field, LastValue(lines, field), i) {
          assert SaidLast(lines, field, LastValue(lines, field), i);
        }
      }
    }
  }

  /** A block is an event exactly when some value of `event:` is left, and it is the last one given, with the
      last one of `data:`; a field given without a value takes the earlier one back. */
  lemma BlocksMean(block: string)
    ensures exists name, data ::
              && Says(Lines(block), "event:", name) && Says(Lines(block), "data:", data)
              && Parsed(block) == if name == "" then None else Some(Event(name, data))
  {
    hide Lines, LastValue, Says;
    LastValueIsSaid(Lines(block), FIELD_EVENT);
    LastValueIsSaid(Lines(block), FIELD_DATA);
  }

  // ----- the batch parse -----

  predicate BreakAt(s: string, i: int) {
    0 <= i && i + 1 < |s| && s[i] == '\n' && s[i + 1] == '\n'
  }

  /** Where the first blank line starts, or |s|. */
  function Break(s: string): (n: nat)
    ensures n <= |s|
    ensures n < |s| ==> BreakAt(s, n)
  {
    if s == "" then 0 else if BreakAt(s, 0) then 0 else 1 + Break(s[1..])
  }

  lemma {:induction false} BreakIsFirst(s: string, i: int)
    requires 0 <= i < Break(s)
    ensures !BreakAt(s, i)
  {
    if s != "" && !BreakAt(s, 0) && i > 0 {
      BreakIsFirst(s[1..], i - 1);
    }
  }

  lemma {:induction false} BreakByPosition(s: string, n: nat)
    requires BreakAt(s, n) && forall i :: 0 <= i < n ==> !BreakAt(s, i)
    ensures Break(s) == n
  {
    if n > 0 {
      forall i | 0 <= i < n - 1 ensures !BreakAt(s[1..], i) {
        assert !BreakAt(s, i + 1);
      }
      BreakByPosition(s[1..], n - 1);
    }
  }

  function Listed(e: Option<Event>): seq<Event> {
    if e.Some? then [e.value] else []
  }

  /** All the text at once, split at each leftmost blank line. */
  function Batch(text: string): seq<Event>
    decreases |text|
  {
    var n := Break(text);
    if n == |text| then [] else Listed(Parsed(text[..n])) + Batch(text[n + 2..])
  }

  /** What is left after the last blank line. */
  function Rest(text: string): string
    decreases |text|
  {
    var n := Break(text);
    if n == |text| then text else Rest(text[n + 2..])
  }

  // ----- the incremental parse -----

  lemma BreakSurvives(a: string, b: string)
    requires Break(a) < |a|
    ensures Break(a + b) == Break(a)
    ensures (a + b)[..Break(a)] == a[..Break(a)] && (a + b)[Break(a) + 2..] == a[Break(a) + 2..] + b
  {
    var n := Break(a);
    assert BreakAt(a + b, n);
    forall i | 0 <= i < n ensures !BreakAt(a + b, i) {
      BreakIsFirst(a, i);
    }
    BreakByPosition(a + b, n);
  }

  /** Text that arrives later only ever meets what is left. */
  lemma {:induction false} BatchContinues(a: string, b: string)
    ensures Batch(a + b) == Batch(a) + Batch(Rest(a) + b)
    ensures Rest(a + b) == Rest(Rest(a) + b)
    decreases |a|
  {
    hide Parsed, Break;
    var n := Break(a);
    if n < |a| {
      BreakSurvives(a, b);
      BatchContinues(a[n + 2..], b);
      assert Batch(a + b) == Listed(Parsed(a[..n])) + (Batch(a[n + 2..]) + Batch(Rest(a) + b));
    }
  }

  function Concat(chunks: seq<string>): string {
    if chunks == [] then "" else Concat(chunks[..|chunks| - 1]) + chunks[|chunks| - 1]
  }

  lemma FirstBlock(text: string)
    requires Break(text) < |text|
    ensures Batch(text) == Listed(Parsed(text[..Break(text)])) + Batch(text[Break(text) + 2..])
    ensures Rest(text) == Rest(text[Break(text) + 2..])
  {
    hide Parsed, Break;
  }

  lemma NoBlock(text: string)
    requires Break(text) == |text|
    ensures Batch(text) == [] && Rest(text) == text
  {
    hide Parsed, Break;
  }

  /** Drains every complete block from the front of the buffer. */
  method Drain(buffer: string, yielded: seq<Event>) returns (rest: string, out: seq<Event>)
    ensures rest == Rest(buffer) && out == yielded + Batch(buffer)
  {
    hide Parsed, Break, Batch, Rest;
    rest, out := buffer, yielded;
    var split := Break(rest);
    while split != |rest|
      invariant split == Break(rest)
      invariant Rest(rest) == Rest(buffer)
      invariant out + Batch(rest) == yielded + Batch(buffer)
      decreases |rest|
    {
      var parsed := ParseBlock(rest[..split]);
      ghost var before, soFar := rest, out;
      rest := rest[split + 2..];
      if parsed.Some? {
        out := out + [parsed.value];
      }
      FirstBlock(before);
      assert out == soFar + Listed(parsed);
      assert out + Batch(rest) == soFar + (Listed(parsed) + Batch(rest));
      split := Break(rest);
    }
    NoBlock(rest);
    assert out + [] == out;
  }

  /** However the text is cut, the events are those of the whole text. */
  method Events(chunks: seq<string>) returns (out: seq<Event>)
    ensures out == Batch(Concat(chunks))
  {
    hide Batch, Rest;
    var buffer := "";
    out := [];
    NothingRead();
    for i := 0 to |chunks|
      invariant out == Batch(Concat(chunks[..i])) && buffer == Rest(Concat(chunks[..i]))
    {
      assert chunks[..i + 1][..i] == chunks[..i];
      BatchContinues(Concat(chunks[..i]), chunks[i]);
      buffer, out := Drain(buffer + chunks[i], out);
    }
    assert chunks[..|chunks|] == chunks;
  }

  lemma NothingRead()
    ensures Batch("") == [] && Rest("") == ""
  {
  }

  // ----- the printer -----

  function Print(e: Event): string {
    FIELD_EVENT + " " + e.name + "\n" + FIELD_DATA + " " + e.data + "\n\n"
  }

  function PrintAll(events: seq<Event>): string {
    if events == [] then "" else PrintAll(events[..|events| - 1]) + Print(events[|events| - 1])
  }

  predicate Printable(e: Event) {
    && e.name != "" && Trimmed(e.name) && OneLine(e.name)
    && Trimmed(e.data) && OneLine(e.data)
  }

  // ----- what a parse can give -----

  lemma {:induction false} TrimTrims(s: string)
    ensures Trimmed(Trim(s))
    ensures OneLine(s) ==> OneLine(Trim(s))
    decreases |s|
  {
    if s != "" {
      if Blank(s[0]) {
        TrimTrims(s[1..]);
      } else if Blank(s[|s| - 1]) {
        TrimTrims(s[..|s| - 1]);
      }
    }
  }

  predicate AllBlank(s: string) {
    forall i :: 0 <= i < |s| ==> Blank(s[i])
  }

  lemma OneMoreBefore(s: string, before: string, middle: string, after: string)
    requires s != "" && s[1..] == before + middle + after
    ensures s == ([s[0]] + before) + middle + after
  {
    assert s == [s[0]] + s[1..];
  }

  lemma OneMoreAfter(s: string, before: string, middle: string, after: string)
    requires s != "" && s[..|s| - 1] == before + middle + after
    ensures s == before + middle + (after + [s[|s| - 1]])
  {
    assert s == s[..|s| - 1] + [s[|s| - 1]];
  }

  /** Trimming takes off blanks at both ends and nothing else. */
  lemma {:induction false} TrimTakesOnlyBlanks(s: string) returns (before: string, after: string)
    ensures s == before + Trim(s) + after && AllBlank(before) && AllBlank(after)
    decreases |s|
  {
    hide Blank;
    before, after := "", "";
    if s != "" {
      if Blank(s[0]) {
        before, after := TrimTakesOnlyBlanks(s[1..]);
        OneMoreBefore(s, before, Trim(s[1..]), after);
        before := [s[0]] + before;
      } else if Blank(s[|s| - 1]) {
        before, after := TrimTakesOnlyBlanks(s[..|s| - 1]);
        OneMoreAfter(s, before, Trim(s[..|s| - 1]), after);
        after := after + [s[|s| - 1]];
      }
    }
  }

  lemma {:induction false} LineEndIsFirst(s: string)
    ensures OneLine(s[..LineEnd(s)])
    ensures LineEnd(s) < |s| ==> s[LineEnd(s)] == '\n'
  {
    if s != "" && s[0] != '\n' {
      LineEndIsFirst(s[1..]);
      assert s[..LineEnd(s)] == [s[0]] + s[1..][..LineEnd(s[1..])];
    }
  }

  lemma {:induction false} LinesAreLines(s: string)
    ensures forall i :: 0 <= i < |Lines(s)| ==> OneLine(Lines(s)[i])
    decreases |s|
  {
    hide LineEnd, OneLine;
    var n := LineEnd(s);
    LineEndIsFirst(s);
    if n == |s| {
      assert s[..n] == s;
    } else {
      LinesAreLines(s[n + 1..]);
    }
  }

  lemma {:induction false} ValueIsClean(lines: seq<string>, field: string)
    requires forall i :: 0 <= i < |lines| ==> OneLine(lines[i])
    ensures Trimmed(LastValue(lines, field)) && OneLine(LastValue(lines, field))
  {
    hide Trim;
    if lines != [] {
      var last := lines[|lines| - 1];
      if StartsWith(last, field) {
        TrimTrims(last[|field|..]);
      } else {
        ValueIsClean(lines[..|lines| - 1], field);
      }
    }
  }

  /** Whatever the text, an event that comes out has a name, and no newline or outer blank. */
  lemma {:induction false} BatchIsPrintable(text: string)
    ensures forall i :: 0 <= i < |Batch(text)| ==> Printable(Batch(text)[i])
    decreases |text|
  {
    hide Break, Lines, LastValue, Trimmed, OneLine;
    var n := Break(text);
    if n < |text| {
      var lines := Lines(text[..n]);
      LinesAreLines(text[..n]);
      ValueIsClean(lines, FIELD_EVENT);
      ValueIsClean(lines, FIELD_DATA);
      BatchIsPrintable(text[n + 2..]);
    }
  }

  // ----- printing and parsing undo each other -----

  lemma {:induction false} LineEndByPosition(s: string, n: nat)
    requires n <= |s| && OneLine(s[..n]) && (n == |s| || s[n] == '\n')
    ensures LineEnd(s) == n
  {
    if n > 0 {
      assert s[..n][0] == s[0];
      assert s[1..][..n - 1] == s[..n][1..];
      LineEndByPosition(s[1..], n - 1);
    }
  }

  lemma TwoLines(first: string, second: string)
    requires OneLine(first) && OneLine(second)
    ensures Lines(first + "\n" + second) == [first, second]
  {
    var both := first + "\n" + second;
    assert both[..|first|] == first && both[|first|] == '\n';
    LineEndByPosition(both, |first|);
    assert both[|first| + 1..] == second;
    assert second[..|second|] == second;
    LineEndByPosition(second, |second|);
  }

  lemma TrimsBack(x: string, field: string)
    requires Trimmed(x)
    ensures StartsWith(field + " " + x, field) && FieldValue(field + " " + x, field) == x
  {
    var line := field + " " + x;
    assert line[|field|..] == " " + x;
    assert (" " + x)[1..] == x;
    assert Trim(x) == x;
  }

  function Block(e: Event): string {
    FIELD_EVENT + " " + e.name + "\n" + (FIELD_DATA + " " + e.data)
  }

  lemma BlockParsesBack(e: Event)
    requires Printable(e)
    ensures Parsed(Block(e)) == Some(e)
  {
    hide Trim, Trimmed, Lines, OneLine;
    var first, second := FIELD_EVENT + " " + e.name, FIELD_DATA + " " + e.data;
    FieldsAreOneLine(e);
    TwoLines(first, second);
    TrimsBack(e.name, FIELD_EVENT);
    TrimsBack(e.data, FIELD_DATA);
    FieldsDiffer(first);
    FieldsDiffer(second);
    assert [first, second][..1] == [first];
    assert LastValue([first], FIELD_EVENT) == e.name;
    assert LastValue([first, second], FIELD_EVENT) == e.name;
  }

  lemma FieldsAreOneLine(e: Event)
    requires OneLine(e.name) && OneLine(e.data)
    ensures OneLine(FIELD_EVENT + " " + e.name) && OneLine(FIELD_DATA + " " + e.data)
  {
    assert OneLine(FIELD_EVENT) && OneLine(FIELD_DATA);
  }

  /** The first blank line of a printed event is the one that ends it. */
  lemma BreakOfPrinted(e: Event)
    requires Printable(e)
    ensures Break(Print(e)) == |Block(e)| && Print(e)[..|Block(e)|] == Block(e)
  {
    hide Break, Trimmed;
    FieldsAreOneLine(e);
    var first, second := FIELD_EVENT + " " + e.name, FIELD_DATA + " " + e.data;
    var s, n := Print(e), |Block(e)|;
    assert s == first + "\n" + second + "\n\n";
    assert forall i :: 0 <= i < |first| ==> s[i] == first[i];
    assert forall i :: 0 <= i < |second| ==> s[|first| + 1 + i] == second[i];
    assert s[|first| + 1] == second[0] == 'd';
    assert BreakAt(s, n);
    forall i | 0 <= i < n ensures !BreakAt(s, i) {
      if i < |first| {
        assert first[i] in first;
      } else if i > |first| {
        assert second[i - |first| - 1] in second;
      }
    }
    BreakByPosition(s, n);
  }

  lemma PrintedParsesBack(e: Event)
    requires Printable(e)
    ensures Batch(Print(e)) == [e] && Rest(Print(e)) == ""
  {
    hide Break, Parsed, Block;
    BreakOfPrinted(e);
    BlockParsesBack(e);
    assert |Print(e)| == |Block(e)| + 2 by { PrintIsBlock(e); }
    NothingRead();
  }

  lemma PrintIsBlock(e: Event)
    ensures Print(e) == Block(e) + "\n\n"
  {
  }

  lemma {:induction false} AllParseBack(events: seq<Event>)
    requires forall i :: 0 <= i < |events| ==> Printable(events[i])
    ensures Batch(PrintAll(events)) == events && Rest(PrintAll(events)) == ""
  {
    hide Printable, Batch, Rest, Print;
    NothingRead();
    if events != [] {
      var n := |events| - 1;
      AllParseBack(events[..n]);
      BatchContinues(PrintAll(events[..n]), Print(events[n]));
      assert "" + Print(events[n]) == Print(events[n]);
      PrintedParsesBack(events[n]);
      assert events == events[..n] + [events[n]];
    }
  }

  /** A list of events comes back as printed exactly when each has a name and neither field holds
      a newline or an outer blank. */
  lemma RoundTrip(events: seq<Event>)
    ensures Batch(PrintAll(events)) == events <==> forall i :: 0 <= i < |events| ==> Printable(events[i])
  {
    hide Printable, Batch, PrintAll;
    if forall i :: 0 <= i < |events| ==> Printable(events[i]) {
      AllParseBack(events);
    }
    if Batch(PrintAll(events)) == events {
      BatchIsPrintable(PrintAll(events));
    }
  }

  /** What has been reported is never taken back by text still to come. */
  lemma ReportedIsFinal(a: string, b: string)
    ensures Batch(a) <= Batch(a + b)
  {
    BatchContinues(a, b);
  }

  // ----- one exchange, end to end -----

  /** What the pipeline yields, its payloads already JSON text. */
  datatype Item = Step(message: string) | Answered(answer: string) | Traced(trace: string)
  {
    function Payload(): string {
      match this
      case Step(m) => m
      case Answered(a) => a
      case Traced(t) => t
    }
  }

  /** JSON text as the serialisers write it: one line, starting and ending with a mark. */
  predicate Compact(data: string) {
    Trimmed(data) && OneLine(data)
  }

  const SESSION := "session"
  const PROGRESS := "progress"
  const ANSWER := "answer"

  function LastAnswer(items: seq<Item>): Option<string> {
    if items == [] then None
    else if items[|items| - 1].Answered? then Some(items[|items| - 1].answer)
    else LastAnswer(items[..|items| - 1])
  }

  predicate HasTrace(items: seq<Item>) {
    exists i :: 0 <= i < |items| && items[i].Traced?
  }

  function StepsOf(items: seq<Item>): seq<string> {
    if items == [] then []
    else if items[|items| - 1].Step? then StepsOf(items[..|items| - 1]) + [items[|items| - 1].message]
    else StepsOf(items[..|items| - 1])
  }

  function Progressing(steps: seq<string>): seq<Event> {
    seq(|steps|, i requires 0 <= i < |steps| => Event(PROGRESS, steps[i]))
  }

  /** The answer event is sent only when the run gave both an answer and a trace. */
  function Closing(items: seq<Item>): seq<Event> {
    if LastAnswer(items).Some? && HasTrace(items) then [Event(ANSWER, LastAnswer(items).value)] else []
  }

  /** The session first, then the steps in order, then at most one answer. */
  function Sent(exchange: string, items: seq<Item>): seq<Event> {
    [Event(SESSION, exchange)] + Progressing(StepsOf(items)) + Closing(items)
  }

  /** `broken` is the run that ended without an answer and a trace. */
  method Send(exchange: string, items: seq<Item>) returns (text: string, broken: bool)
    ensures text == PrintAll(Sent(exchange, items))
    ensures broken <==> LastAnswer(items).None? || !HasTrace(items)
  {
    hide Print;
    var answer: Option<string>, trace: Option<string> := None, None;
    ghost var head := [Event(SESSION, exchange)];
    text := Print(Event(SESSION, exchange));
    PrintOneMore([], head[0]);
    assert [] + head == head && head + Progressing([]) == head;
    for i := 0 to |items|
      invariant text == PrintAll(head + Progressing(StepsOf(items[..i])))
      invariant answer == LastAnswer(items[..i])
      invariant trace.Some? <==> HasTrace(items[..i])
    {
      ghost var steps := StepsOf(items[..i]);
      assert items[..i + 1] == items[..i] + [items[i]];
      assert items[..i + 1][..i] == items[..i];
      assert HasTrace(items[..i + 1]) <==> HasTrace(items[..i]) || items[i].Traced?;
      match items[i] {
        case Step(message) =>
          PrintOneMore(head + Progressing(steps), Event(PROGRESS, message));
          assert head + Progressing(steps) + [Event(PROGRESS, message)] == head + Progressing(steps + [message]);
          text := text + Print(Event(PROGRESS, message));
        case Answered(a) => answer := Some(a);
        case Traced(t) => trace := Some(t);
      }
    }
    assert items[..|items|] == items;
    broken := answer.None? || trace.None?;
    ghost var sent := head + Progressing(StepsOf(items));
    assert sent + [] == sent;
    if !broken {
      PrintOneMore(head + Progressing(StepsOf(items)), Event(ANSWER, answer.value));
      text := text + Print(Event(ANSWER, answer.value));
    }
  }

  lemma PrintOneMore(events: seq<Event>, e: Event)
    ensures PrintAll(events + [e]) == PrintAll(events) + Print(e)
  {
    assert (events + [e])[..|events|] == events;
  }

  /** The payloads of the events with one name, in order. */
  function DataOf(events: seq<Event>, name: string): seq<string> {
    if events == [] then []
    else if events[|events| - 1].name == name then DataOf(events[..|events| - 1], name) + [events[|events| - 1].data]
    else DataOf(events[..|events| - 1], name)
  }

  function LastOf(s: seq<string>): Option<string> {
    if s == [] then None else Some(s[|s| - 1])
  }

  /** No answer is the error the reader is shown. */
  method Ask(chunks: seq<string>)
    returns (answer: Option<string>, progress: seq<string>, exchanges: seq<string>)
    ensures progress == DataOf(Batch(Concat(chunks)), PROGRESS)
    ensures exchanges == DataOf(Batch(Concat(chunks)), SESSION)
    ensures answer == LastOf(DataOf(Batch(Concat(chunks)), ANSWER))
  {
    hide Batch;
    answer, progress, exchanges := None, [], [];
    var events := Events(chunks);
    for i := 0 to |events|
      invariant progress == DataOf(events[..i], PROGRESS)
      invariant exchanges == DataOf(events[..i], SESSION)
      invariant answer == LastOf(DataOf(events[..i], ANSWER))
    {
      assert events[..i + 1][..i] == events[..i];
      var e := events[i];
      if e.name == PROGRESS {
        progress := progress + [e.data];
      } else if e.name == SESSION {
        exchanges := exchanges + [e.data];
      } else if e.name == ANSWER {
        answer := Some(e.data);
      }
    }
    assert events[..|events|] == events;
  }

  lemma {:induction false} DataAppend(a: seq<Event>, b: seq<Event>, name: string)
    ensures DataOf(a + b, name) == DataOf(a, name) + DataOf(b, name)
  {
    if b == [] {
      assert a + b == a;
    } else {
      var n := |b| - 1;
      assert (a + b)[..|a| + n] == a + b[..n];
      DataAppend(a, b[..n], name);
    }
  }

  lemma {:induction false} DataOfSteps(steps: seq<string>, name: string)
    ensures DataOf(Progressing(steps), name) == if name == PROGRESS then steps else []
  {
    if steps != [] {
      var n := |steps| - 1;
      assert Progressing(steps)[..n] == Progressing(steps[..n]);
      DataOfSteps(steps[..n], name);
    }
  }

  lemma NamesDiffer()
    ensures SESSION != PROGRESS && SESSION != ANSWER && PROGRESS != ANSWER
  {
    assert SESSION[0] != PROGRESS[0] && SESSION[0] != ANSWER[0] && PROGRESS[0] != ANSWER[0];
  }

  lemma SentIsPrintable(exchange: string, items: seq<Item>)
    requires Compact(exchange) && forall i :: 0 <= i < |items| ==> Compact(items[i].Payload())
    ensures forall i :: 0 <= i < |Sent(exchange, items)| ==> Printable(Sent(exchange, items)[i])
  {
    hide Compact;
    PayloadsAreCompact(items);
    var sent := Sent(exchange, items);
    forall i | 0 <= i < |sent| ensures Printable(sent[i]) {
      NamedIsPrintable(sent[i]);
    }
  }

  lemma NamedIsPrintable(e: Event)
    requires e.name in {SESSION, PROGRESS, ANSWER} && Compact(e.data)
    ensures Printable(e)
  {
  }

  lemma {:induction false} PayloadsAreCompact(items: seq<Item>)
    requires forall i :: 0 <= i < |items| ==> Compact(items[i].Payload())
    ensures forall i :: 0 <= i < |StepsOf(items)| ==> Compact(StepsOf(items)[i])
    ensures LastAnswer(items).Some? ==> Compact(LastAnswer(items).value)
  {
    hide Compact;
    if items != [] {
      PayloadsAreCompact(items[..|items| - 1]);
      assert Compact(items[|items| - 1].Payload());
    }
  }

  /** Whatever the pipeline yields and however the text is cut on the way, the client reports the
      exchange, every step in order, and the answer exactly when the run closed properly. */
  lemma ClientSeesTheRun(exchange: string, items: seq<Item>, chunks: seq<string>)
    requires Compact(exchange) && forall i :: 0 <= i < |items| ==> Compact(items[i].Payload())
    requires Concat(chunks) == PrintAll(Sent(exchange, items))
    ensures DataOf(Batch(Concat(chunks)), SESSION) == [exchange]
    ensures DataOf(Batch(Concat(chunks)), PROGRESS) == StepsOf(items)
    ensures LastOf(DataOf(Batch(Concat(chunks)), ANSWER)) == if HasTrace(items) then LastAnswer(items) else None
  {
    hide Batch, Printable, PrintAll, Concat, StepsOf, LastAnswer, Compact, DataOf, LastOf, Sent, HasTrace, Rest, Closing;
    SentIsPrintable(exchange, items);
    AllParseBack(Sent(exchange, items));
    NamesDiffer();
    DataSent(exchange, items, SESSION);
    DataSent(exchange, items, PROGRESS);
    DataSent(exchange, items, ANSWER);
    DataOfClosing(items, ANSWER);
  }

  /** What the events sent under one name carry. */
  function SentUnder(exchange: string, items: seq<Item>, name: string): seq<string> {
    if name == SESSION then [exchange] else if name == PROGRESS then StepsOf(items)
    else if name == ANSWER then DataOf(Closing(items), ANSWER) else []
  }

  lemma DataSent(exchange: string, items: seq<Item>, name: string)
    ensures DataOf(Sent(exchange, items), name) == SentUnder(exchange, items, name)
  {
    hide StepsOf, LastAnswer, HasTrace, Progressing, Closing;
    var first, steps := [Event(SESSION, exchange)], Progressing(StepsOf(items));
    DataAppend(first + steps, Closing(items), name);
    DataAppend(first, steps, name);
    DataOfSteps(StepsOf(items), name);
    DataOfOne(Event(SESSION, exchange), name);
    DataOfClosing(items, name);
    NamesDiffer();
  }

  lemma DataOfOne(e: Event, name: string)
    ensures DataOf([e], name) == if e.name == name then [e.data] else []
  {
    assert [e][..0] == [];
  }

  lemma DataOfClosing(items: seq<Item>, name: string)
    ensures name != ANSWER ==> DataOf(Closing(items), name) == []
    ensures LastOf(DataOf(Closing(items), ANSWER)) == if HasTrace(items) then LastAnswer(items) else None
  {
    hide DataOf, HasTrace, LastAnswer;
    if Closing(items) != [] {
      DataOfOne(Closing(items)[0], name);
      DataOfOne(Closing(items)[0], ANSWER);
    } else {
      NoData(name);
      NoData(ANSWER);
    }
  }

  lemma NoData(name: string)
    ensures DataOf([], name) == []
  {
  }
}
