/**
 Citations and the windows they carry, after `diagnostics/agent/src/agent/citations.py`: what each kind
 needs of the analysis service in order to resolve, and how a run stamps its window onto them.
 */
module Citations {
  import opened Sequences
  import opened Answers

  datatype Window = Window(start: int, end: int, title: string)

  /** One call the run made, as the trace keeps it. */
  datatype CallRecord = CallRecord(id: string, name: string, arguments: string, result: string, failed: bool)

  /** What a citation asks of the analysis service by id. */
  datatype Lookup =
    | PartExists(serial: string)
    | ComponentExists(serial: string)
    | StopExists(id: string)
    | LotExists(code: string)
    | SignalExists(station: string, signal: string)

  /** One section of the patterns report: a dimension and the values it holds. */
  datatype Section = Section(dimension: string, values: seq<string>)

  /** How the service answers at one moment. */
  datatype Service = Service(
    opens: (Lookup, Window) -> bool,
    knowledge: string -> bool,
    alarms: Window -> seq<string>,
    patterns: Window -> seq<Section>)

  /** What the run knows: its window, the documents routing loaded, and its calls by id. */
  datatype Run = Run(window: Window, loaded: set<string>, calls: map<string, CallRecord>)

  datatype Verification = Verification(kept: seq<Finding>, failed: seq<string>, removed: int)

  // ----- one citation -----

  function Sources(r: Referent): seq<string>
    requires r.Chart?
  {
    (if r.source != "" then [r.source] else []) +
    (if r.bands.Some? && r.bands.value != "" then [r.bands.value] else [])
  }

  predicate PatternIn(report: seq<Section>, dimension: string, key: string) {
    exists i :: 0 <= i < |report| && report[i].dimension == dimension && key in report[i].values
  }

  /** Every call a chart reads is one this run made and one that answered. */
  predicate Answered(r: Referent, run: Run)
    requires r.Chart?
  {
    forall id :: id in Sources(r) ==> id in run.calls && !run.calls[id].failed
  }

  /** What a citation needs of a service that stands still. */
  predicate Resolves(c: Citation, service: Service, run: Run) {
    match c.referent
    case Chart(_, _, _) => Answered(c.referent, run)
    case Part(serial) => service.opens(PartExists(serial), run.window)
    case Serial(serial) => service.opens(ComponentExists(serial), run.window)
    case Stop(id) => service.opens(StopExists(id), run.window)
    case Lot(code) => service.opens(LotExists(code), run.window)
    case Signal(station, signal) => service.opens(SignalExists(station, signal), run.window)
    case Sop(id) => id in run.loaded && service.knowledge(id)
    case Alarm(id) => id in service.alarms(run.window)
    case Pattern(dimension, key) => PatternIn(service.patterns(run.window), dimension, key)
    case Containment(serials) => forall s :: s in serials ==> service.opens(PartExists(s), run.window)
  }

  function Decimal(n: nat): string {
    (if n < 10 then "" else Decimal(n / 10)) + ['0' + (n % 10) as char]
  }

  /** How a note names the citation. Not an identifier. */
  function Label(c: Citation): string {
    match c.referent
    case Part(id) => "part:" + id
    case Stop(id) => "stop:" + id
    case Alarm(id) => "alarm:" + id
    case Signal(station, signal) => "signal:" + station + "/" + signal
    case Pattern(dimension, key) => "pattern:" + dimension + "=" + key
    case Sop(id) => "sop:" + id
    case Serial(id) => "serial:" + id
    case Lot(id) => "lot:" + id
    case Containment(serials) => "containment:" + Decimal(|serials|) + " serial(s)"
    case Chart(chartType, source, _) => "chart:" + chartType + " from " + source
  }

  // ----- stamping -----

  function Carried(w: Window): CitationWindow {
    CitationWindow(w.start, w.end, w.title)
  }

  function StampedCitation(c: Citation, w: Window): Citation {
    c.(window := if Windowed(c.referent) then Some(Carried(w)) else None)
  }

  function StampedFinding(f: Finding, w: Window): Finding {
    f.(citations := seq(|f.citations|, i requires 0 <= i < |f.citations| => StampedCitation(f.citations[i], w)))
  }

  function Stamped(findings: seq<Finding>, w: Window): seq<Finding> {
    seq(|findings|, i requires 0 <= i < |findings| => StampedFinding(findings[i], w))
  }

  /** The window is the run's exactly on the kinds that take one, and absent from the rest. */
  predicate CarriesRunWindow(c: Citation, w: Window) {
    c.window == if Windowed(c.referent) then Some(Carried(w)) else None
  }

  ghost predicate AllCarry(findings: seq<Finding>, w: Window) {
    forall f, c :: f in findings && c in f.citations ==> CarriesRunWindow(c, w)
  }

  lemma StampingWritesTheRunWindow(findings: seq<Finding>, w: Window)
    ensures AllCarry(Stamped(findings, w), w)
    ensures Stamped(Stamped(findings, w), w) == Stamped(findings, w)
  {
    forall f, c | f in Stamped(findings, w) && c in f.citations ensures CarriesRunWindow(c, w) {
      var i :| 0 <= i < |findings| && Stamped(findings, w)[i] == f;
      var j :| 0 <= j < |f.citations| && f.citations[j] == c;
      assert c == StampedCitation(findings[i].citations[j], w);
    }
    forall i | 0 <= i < |findings|
      ensures StampedFinding(StampedFinding(findings[i], w), w) == StampedFinding(findings[i], w)
    {
      var once := StampedFinding(findings[i], w);
      assert StampedFinding(once, w).citations == once.citations;
    }
  }

  /** Two citations that differ at most in the window somebody typed into them. */
  predicate SameButWindow(a: Citation, b: Citation) {
    a.referent == b.referent
  }

  ghost predicate FindingsSameButWindow(a: Finding, b: Finding) {
    && a == b.(citations := a.citations)
    && |a.citations| == |b.citations|
    && forall i :: 0 <= i < |a.citations| ==> SameButWindow(a.citations[i], b.citations[i])
  }

  /** No window the model writes can reach the answer. */
  lemma ModelWindowsAreOverwritten(a: seq<Finding>, b: seq<Finding>, w: Window)
    requires |a| == |b| && forall i :: 0 <= i < |a| ==> FindingsSameButWindow(a[i], b[i])
    ensures Stamped(a, w) == Stamped(b, w)
  {
    forall i | 0 <= i < |a| ensures StampedFinding(a[i], w) == StampedFinding(b[i], w) {
      assert FindingsSameButWindow(a[i], b[i]);
      assert StampedFinding(a[i], w).citations == StampedFinding(b[i], w).citations;
    }
  }
}
