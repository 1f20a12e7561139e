/**
 The propagation walk of `diagnostics/analysis/src/analysis/propagation.py`: from a stopped
 station backwards along the buffers that starved or blocked it.

 Instants and durations are integer microseconds. The sentence an unfinished derivation
 carries is kept as the constructor of `Why` and the values the sentence quotes.
 */
module Propagation {
  import opened Sequences

  const CARRIER_RETURN := "carrier-return"

  /** The four state names the walk tells apart, and any other. */
  datatype State = Execute | Suspended | Held | Aborted | OtherState(name: string)
  datatype Direction = Starved | Blocked
  datatype EpisodeKind = Consequence | CauseCandidate | Other
  datatype Termination = AtCause | AtLineEdge | Unfinished
  datatype Category = Internal | ExternalUpstream | ExternalDownstream | Ambiguous

  // ----- episodes -----

  /** The position of the first colon. */
  function Colon(s: string): (r: Option<nat>)
    ensures r.Some? ==> r.value < |s|
  {
    if s == [] then None
    else if s[0] == ':' then Some(0)
    else
      match Colon(s[1..])
      case None => None
      case Some(i) => Some(i + 1)
  }

  lemma {:induction false} ColonIsFirst(s: string)
    ensures Colon(s).None? <==> ':' !in s
    ensures Colon(s).Some? ==> s[Colon(s).value] == ':' && ':' !in s[..Colon(s).value]
  {
    if s != [] && s[0] != ':' {
      ColonIsFirst(s[1..]);
      if Colon(s).Some? {
        assert s[..Colon(s).value] == [s[0]] + s[1..][..Colon(s).value - 1];
      }
    }
  }

  datatype Episode = Episode(
    station: string,
    state: State,
    fromTs: int,
    toTs: Option<int>,
    reason: Option<string>,
    reasonBuffer: Option<string>)
  {
    function Kind(): EpisodeKind {
      match state
      case Suspended => Consequence
      case Held => CauseCandidate
      case Aborted => CauseCandidate
      case _ => Other
    }

    function Direction(): Option<Direction> {
      if reason.None? then
        None
      else
        var colon := Colon(reason.value);
        var recorded := if colon.None? then reason.value else reason.value[..colon.value];
        if recorded == "starved" then Some(Starved)
        else if recorded == "blocked" then Some(Blocked)
        else None
    }

    function ReasonDetail(): Option<string> {
      if reason.None? then
        None
      else
        var colon := Colon(reason.value);
        if colon.None? then None else Some(reason.value[colon.value + 1..])
    }

    predicate Covers(moment: int) {
      fromTs <= moment && (toTs.None? || moment < toTs.value)
    }

    predicate Overlaps(begins: int, ends: int) {
      fromTs <= ends && (toTs.None? || toTs.value > begins)
    }

    /** What the walk remembers of an episode it used. */
    function Step(): (string, int) {
      (station, fromTs)
    }
  }

  datatype Sample = Sample(buffer: string, at: int, level: int)

  // ----- topology -----

  datatype BufferLink = BufferLink(buffer: string, upstream: string, downstream: string, capacity: int)

  function NamedBuffer(buffer: string): BufferLink -> bool { (l: BufferLink) => l.buffer == buffer }
  function FeedingInto(station: string): BufferLink -> bool { (l: BufferLink) => l.downstream == station }
  function DrawingFrom(station: string): BufferLink -> bool { (l: BufferLink) => l.upstream == station }

  lemma SingletonSet(s: set<string>, x: string, y: string)
    requires |s| == 1 && x in s && y in s
    ensures x == y
  {
    var rest := s - {x};
    assert |rest| == 0;
    assert y !in rest;
  }

  /** The only member of `s`, when there is exactly one. */
  function Sole(s: set<string>): (r: Option<string>)
    ensures r.Some? ==> s == {r.value}
    ensures r.None? ==> |s| != 1
  {
    if |s| == 1 then
      assert s != {};
      assert forall x, y :: x in s && y in s ==> x == y by {
        forall x, y | x in s && y in s ensures x == y { SingletonSet(s, x, y); }
      }
      var x :| x in s;
      assert s == {x};
      Some(x)
    else
      None
  }

  datatype Topology = Topology(links: seq<BufferLink>) {
    function Link(buffer: string): Option<BufferLink> {
      First(NamedBuffer(buffer), links)
    }

    function UpstreamBufferOf(station: string): Option<BufferLink> {
      First(FeedingInto(station), links)
    }

    function DownstreamBufferOf(station: string): Option<BufferLink> {
      First(DrawingFrom(station), links)
    }

    function Stations(): set<string> {
      (set l | l in links :: l.upstream) + (set l | l in links :: l.downstream)
    }

    function Head(): Option<string> {
      Sole(set s | s in Stations() && UpstreamBufferOf(s).None?)
    }

    function Tail(): Option<string> {
      Sole(set s | s in Stations() && DownstreamBufferOf(s).None?)
    }

    /** The closed loop the carriers travel, as one more link: from the tail back to the head. */
    function CarrierLoop(): Option<BufferLink> {
      var head, tail := Head(), Tail();
      if head.None? || tail.None? || head == tail then
        None
      else
        Some(BufferLink(CARRIER_RETURN, tail.value, head.value, 0))
    }
  }

  // ----- derivations -----

  datatype ChainLink = ChainLink(episode: Episode, buffer: Option<string>, since: Option<int>)

  datatype Why =
    | NoSeed(at: int)
    | ReturnsToUsedEpisode
    | NeitherCauseNorConsequence(state: State)
    | WrongSide(direction: Direction)
    | ConditionNotRecorded(reason: Option<string>)
    | NoExplainingEpisode(since: int)
    | NoCarrierLoop
    | NotAtThatEnd(reason: Option<string>)

  datatype Unexplained = Unexplained(station: string, buffer: Option<string>, why: Why)

  datatype Derivation = Derivation(
    links: seq<ChainLink>,
    termination: Termination,
    candidates: seq<Episode>,
    unexplained: Option<Unexplained>)
  {
    function Root(): Option<ChainLink> {
      if termination == Unfinished || links == [] then None else Some(links[|links| - 1])
    }

    function Category(): Option<Category> {
      if termination == Unfinished || links == [] then
        None
      else if |candidates| > 1 then
        Some(Ambiguous)
      else if termination == AtCause then
        Some(Internal)
      else
        match links[|links| - 1].episode.Direction()
        case Some(Starved) => Some(ExternalUpstream)
        case Some(Blocked) => Some(ExternalDownstream)
        case None => None
    }
  }

  /** Everything one walk reads. */
  datatype Evidence = Evidence(
    timeline: seq<Episode>,
    samples: seq<Sample>,
    topology: Topology,
    leadIn: int)

  // ----- which episode -----

  function CoveringAt(station: string, moment: int): Episode -> bool {
    (e: Episode) => e.station == station && e.Covers(moment)
  }

  function AccountableIn(station: string, since: int, leadIn: int): Episode -> bool {
    (e: Episode) => e.station == station && e.state != Execute && e.Overlaps(since - leadIn, since)
  }

  function CoveringInstant(moment: int): Episode -> bool { (e: Episode) => e.Covers(moment) }
  function AnyEpisode(): Episode -> bool { _ => true }
  function CauseEpisode(): Episode -> bool { (e: Episode) => e.Kind() == CauseCandidate }

  /** The position of the latest-starting episode satisfying `p`; the first one among equals. */
  function LatestWhere(p: Episode -> bool, es: seq<Episode>): (r: Option<nat>)
    ensures r.Some? ==> r.value < |es|
  {
    if es == [] then
      None
    else
      var n := |es| - 1;
      var earlier := LatestWhere(p, es[..n]);
      if p(es[n]) && (earlier.None? || es[earlier.value].fromTs < es[n].fromTs) then Some(n) else earlier
  }

  ghost predicate IsLatestWhere(p: Episode -> bool, es: seq<Episode>, r: Option<nat>) {
    match r
    case None => forall e :: e in es ==> !p(e)
    case Some(k) =>
      && k < |es| && p(es[k])
      && (forall i :: 0 <= i < |es| && p(es[i]) ==> es[i].fromTs <= es[k].fromTs)
      && (forall i :: 0 <= i < k && p(es[i]) ==> es[i].fromTs < es[k].fromTs)
  }

  lemma {:induction false} LatestWhereIs(p: Episode -> bool, es: seq<Episode>)
    ensures IsLatestWhere(p, es, LatestWhere(p, es))
  {
    if es != [] {
      var n := |es| - 1;
      LatestWhereIs(p, es[..n]);
      assert es == es[..n] + [es[n]];
    }
  }

  /** The first episode with the greatest start. */
  function LatestIndex(es: seq<Episode>): (k: nat)
    requires es != []
    ensures k < |es|
  {
    LatestWhereIs(AnyEpisode(), es);
    assert AnyEpisode()(es[0]) && es[0] in es;
    LatestWhere(AnyEpisode(), es).value
  }

  lemma LatestIndexIsLatest(es: seq<Episode>)
    requires es != []
    ensures forall e :: e in es ==> e.fromTs <= es[LatestIndex(es)].fromTs
  {
    LatestWhereIs(AnyEpisode(), es);
    assert forall i :: 0 <= i < |es| ==> AnyEpisode()(es[i]);
  }

  function EpisodeCovering(timeline: seq<Episode>, station: string, moment: int): Option<Episode> {
    Latest(Filter(CoveringAt(station, moment), timeline))
  }

  function Latest(es: seq<Episode>): (r: Option<Episode>)
    ensures r.None? <==> es == []
    ensures r.Some? ==> r.value in es
  {
    if es == [] then None else Some(es[LatestIndex(es)])
  }

  predicate StartsNoLater(a: Episode, b: Episode) { a.fromTs <= b.fromTs }

  /** The latest episode covering `since`, or the latest of all when none covers it. */
  function Chosen(overlapping: seq<Episode>, since: int): (k: nat)
    requires overlapping != []
    ensures k < |overlapping|
  {
    var covering := LatestWhere(CoveringInstant(since), overlapping);
    if covering.Some? then covering.value else LatestIndex(overlapping)
  }

  function ChooseFrom(overlapping: seq<Episode>, since: int): (Option<Episode>, seq<Episode>) {
    if overlapping == [] then
      (None, [])
    else
      var k := Chosen(overlapping, since);
      var others := overlapping[..k] + overlapping[k + 1..];
      (Some(overlapping[k]), Sort(StartsNoLater, Filter(CauseEpisode(), others)))
  }

  /** The episode that accounts for a condition begun at `since`, and the other cause
      candidates of the same station in the lead-in. */
  function ExplainingEpisode(timeline: seq<Episode>, station: string, since: int, leadIn: int)
    : (Option<Episode>, seq<Episode>)
  {
    ChooseFrom(Filter(AccountableIn(station, since, leadIn), timeline), since)
  }

  // ----- since when -----

  predicate Satisfies(s: Sample, link: BufferLink, direction: Direction) {
    if direction == Starved then s.level <= 0 else s.level >= link.capacity
  }

  function WithinHorizon(buffer: string, before: int, leadIn: int): Sample -> bool {
    (s: Sample) => s.buffer == buffer && before - leadIn <= s.at <= before
  }

  predicate TakenNoLater(a: Sample, b: Sample) { a.at <= b.at }

  function InHorizon(samples: seq<Sample>, link: BufferLink, before: int, leadIn: int): seq<Sample> {
    Sort(TakenNoLater, Filter(WithinHorizon(link.buffer, before, leadIn), samples))
  }

  function LastSatisfying(s: seq<Sample>, link: BufferLink, direction: Direction): (r: Option<nat>)
    ensures r.Some? ==> r.value < |s| && Satisfies(s[r.value], link, direction)
  {
    if s == [] then None
    else if Satisfies(s[|s| - 1], link, direction) then Some(|s| - 1)
    else LastSatisfying(s[..|s| - 1], link, direction)
  }

  lemma {:induction false} LastSatisfyingIsLast(s: seq<Sample>, link: BufferLink, direction: Direction)
    ensures var r := LastSatisfying(s, link, direction);
            forall i :: 0 <= i < |s| && (r.None? || r.value < i) ==> !Satisfies(s[i], link, direction)
  {
    if s != [] && !Satisfies(s[|s| - 1], link, direction) {
      LastSatisfyingIsLast(s[..|s| - 1], link, direction);
    }
  }

  function RunStart(s: seq<Sample>, link: BufferLink, direction: Direction, index: nat): (r: nat)
    requires index < |s| && Satisfies(s[index], link, direction)
    ensures r <= index
  {
    if index > 0 && Satisfies(s[index - 1], link, direction) then RunStart(s, link, direction, index - 1) else index
  }

  lemma {:induction false} RunStartIsStart(s: seq<Sample>, link: BufferLink, direction: Direction, index: nat)
    requires index < |s| && Satisfies(s[index], link, direction)
    ensures var r := RunStart(s, link, direction, index);
            && (forall k :: r <= k <= index ==> Satisfies(s[k], link, direction))
            && (r == 0 || !Satisfies(s[r - 1], link, direction))
  {
    if index > 0 && Satisfies(s[index - 1], link, direction) {
      RunStartIsStart(s, link, direction, index - 1);
    }
  }

  function ConditionSince(samples: seq<Sample>, link: BufferLink, direction: Direction, before: int, leadIn: int)
    : Option<int>
  {
    var inHorizon := InHorizon(samples, link, before, leadIn);
    match LastSatisfying(inHorizon, link, direction)
    case None => None
    case Some(index) => Some(inHorizon[RunStart(inHorizon, link, direction, index)].at)
  }

  /** `t` is the first instant of the latest run of samples that meet the condition. */
  ghost predicate BeginsLatestRun(inHorizon: seq<Sample>, link: BufferLink, direction: Direction, t: int) {
    exists i, j :: 0 <= i <= j < |inHorizon| && RunSpans(inHorizon, link, direction, i, j) && inHorizon[i].at == t
  }

  ghost predicate RunSpans(s: seq<Sample>, link: BufferLink, direction: Direction, i: int, j: int)
    requires 0 <= i <= j < |s|
  {
    && (forall k :: i <= k <= j ==> Satisfies(s[k], link, direction))
    && (forall k :: j < k < |s| ==> !Satisfies(s[k], link, direction))
    && (i == 0 || !Satisfies(s[i - 1], link, direction))
  }

  method FindConditionSince(samples: seq<Sample>, link: BufferLink, direction: Direction, before: int, leadIn: int)
    returns (since: Option<int>)
    ensures since == ConditionSince(samples, link, direction, before, leadIn)
  {
    var inHorizon := InHorizon(samples, link, before, leadIn);
    hide InHorizon;
    LastSatisfyingIsLast(inHorizon, link, direction);
    var position := |inHorizon|;
    while position > 0 && !Satisfies(inHorizon[position - 1], link, direction)
      invariant 0 <= position <= |inHorizon|
      invariant forall i :: position <= i < |inHorizon| ==> !Satisfies(inHorizon[i], link, direction)
    {
      position := position - 1;
    }
    if position == 0 {
      return None;
    }
    var index := position - 1;
    assert LastSatisfying(inHorizon, link, direction) == Some(index);
    while index > 0 && Satisfies(inHorizon[index - 1], link, direction)
      invariant 0 <= index <= position - 1
      invariant Satisfies(inHorizon[index], link, direction)
      invariant RunStart(inHorizon, link, direction, index) == RunStart(inHorizon, link, direction, position - 1)
    {
      index := index - 1;
    }
    since := Some(inHorizon[index].at);
  }

  // ----- one step of the walk -----

  function ConnectingLink(topology: Topology, e: Episode, direction: Option<Direction>): Option<BufferLink> {
    if e.reasonBuffer.Some? then topology.Link(e.reasonBuffer.value)
    else if direction == Some(Starved) && e.ReasonDetail() == Some(CARRIER_RETURN) then topology.CarrierLoop()
    else None
  }

  function FarSide(link: BufferLink, direction: Direction): string {
    if direction == Starved then link.upstream else link.downstream
  }

  predicate AtTheEdge(topology: Topology, e: Episode, direction: Option<Direction>) {
    || (direction == Some(Starved) && topology.UpstreamBufferOf(e.station).None?)
    || (direction == Some(Blocked) && topology.DownstreamBufferOf(e.station).None?)
  }

  /** What the walk does at one episode: stop there, or follow a buffer to the next. */
  datatype Move =
    | Stop(link: ChainLink, termination: Termination, unexplained: Option<Unexplained>)
    | Follow(link: ChainLink, next: Episode, extra: seq<Episode>)

  function OutsideTheLine(topology: Topology, e: Episode, direction: Option<Direction>): Move {
    var link := ChainLink(e, None, None);
    if direction == Some(Starved) && e.ReasonDetail() == Some(CARRIER_RETURN) then
      Stop(link, Unfinished, Some(Unexplained(e.station, Some(CARRIER_RETURN), NoCarrierLoop)))
    else if AtTheEdge(topology, e, direction) then
      Stop(link, AtLineEdge, None)
    else
      Stop(link, Unfinished, Some(Unexplained(e.station, e.reasonBuffer, NotAtThatEnd(e.reason))))
  }

  function SinceWhen(ev: Evidence, e: Episode, link: BufferLink, direction: Direction): Option<int> {
    if link.buffer == CARRIER_RETURN then Some(e.fromTs)
    else ConditionSince(ev.samples, link, direction, e.fromTs, ev.leadIn)
  }

  function FollowBuffer(ev: Evidence, e: Episode, link: BufferLink, direction: Direction): Move {
    var next := FarSide(link, direction);
    if next == e.station then
      Stop(ChainLink(e, Some(link.buffer), None), Unfinished,
           Some(Unexplained(e.station, Some(link.buffer), WrongSide(direction))))
    else
      match SinceWhen(ev, e, link, direction)
      case None =>
        Stop(ChainLink(e, Some(link.buffer), None), Unfinished,
             Some(Unexplained(next, Some(link.buffer), ConditionNotRecorded(e.reason))))
      case Some(since) =>
        var (explaining, extra) := ExplainingEpisode(ev.timeline, next, since, ev.leadIn);
        var chained := ChainLink(e, Some(link.buffer), Some(since));
        if explaining.None? then
          Stop(chained, Unfinished, Some(Unexplained(next, Some(link.buffer), NoExplainingEpisode(since))))
        else
          Follow(chained, explaining.value, extra)
  }

  function MoveFrom(ev: Evidence, e: Episode): Move {
    match e.Kind()
    case CauseCandidate => Stop(ChainLink(e, None, None), AtCause, None)
    case Other =>
      Stop(ChainLink(e, None, None), Unfinished,
           Some(Unexplained(e.station, None, NeitherCauseNorConsequence(e.state))))
    case Consequence =>
      var link := ConnectingLink(ev.topology, e, e.Direction());
      if link.None? || e.Direction().None? then OutsideTheLine(ev.topology, e, e.Direction())
      else FollowBuffer(ev, e, link.value, e.Direction().value)
  }

  lemma NextIsOnTheTimeline(ev: Evidence, e: Episode)
    requires MoveFrom(ev, e).Follow?
    ensures MoveFrom(ev, e).next in ev.timeline
  {
  }

  // ----- the walk -----

  function Steps(timeline: seq<Episode>): set<(string, int)> {
    set e | e in timeline :: e.Step()
  }

  /** The walk from `current`, having used `seen` and collected `links` and `candidates`. */
  function Walk(ev: Evidence, current: Episode, seen: set<(string, int)>, links: seq<ChainLink>, candidates: seq<Episode>)
    : Derivation
    requires current in ev.timeline
    decreases |Steps(ev.timeline) - seen|
  {
    if current.Step() in seen then
      Derivation(links, Unfinished, candidates, Some(Unexplained(current.station, None, ReturnsToUsedEpisode)))
    else
      match MoveFrom(ev, current)
      case Stop(link, termination, unexplained) =>
        Derivation(links + [link], termination,
                   if termination == AtCause then candidates + [current] else candidates, unexplained)
      case Follow(link, next, extra) =>
        NextIsOnTheTimeline(ev, current);
        FewerSteps(ev.timeline, seen, current);
        Walk(ev, next, seen + {current.Step()}, links + [link], candidates + extra)
  }

  lemma FewerSteps(timeline: seq<Episode>, seen: set<(string, int)>, e: Episode)
    requires e in timeline && e.Step() !in seen
    ensures |Steps(timeline) - (seen + {e.Step()})| < |Steps(timeline) - seen|
  {
    var before, after := Steps(timeline) - seen, Steps(timeline) - (seen + {e.Step()});
    assert after == before - {e.Step()};
    assert e.Step() in before;
  }

  function Derive(ev: Evidence, station: string, at: int): Derivation {
    match EpisodeCovering(ev.timeline, station, at)
    case None => Derivation([], Unfinished, [], Some(Unexplained(station, None, NoSeed(at))))
    case Some(seed) => Walk(ev, seed, {}, [], [])
  }

  /** One turn of the loop in `derive_chain`, branch by branch. */
  method TakeStep(ev: Evidence, current: Episode) returns (move: Move)
    ensures move == MoveFrom(ev, current)
  {
    if current.Kind() == CauseCandidate {
      return Stop(ChainLink(current, None, None), AtCause, None);
    }
    if current.Kind() == Other {
      return Stop(ChainLink(current, None, None), Unfinished,
                  Some(Unexplained(current.station, None, NeitherCauseNorConsequence(current.state))));
    }
    var direction := current.Direction();
    var bufferLink := ConnectingLink(ev.topology, current, direction);
    if bufferLink.None? || direction.None? {
      return OutsideTheLine(ev.topology, current, direction);
    }
    var buffer := bufferLink.value.buffer;
    var next := if direction.value == Starved then bufferLink.value.upstream else bufferLink.value.downstream;
    if next == current.station {
      return Stop(ChainLink(current, Some(buffer), None), Unfinished,
                  Some(Unexplained(current.station, Some(buffer), WrongSide(direction.value))));
    }
    var since;
    if buffer == CARRIER_RETURN {
      since := Some(current.fromTs);
    } else {
      since := FindConditionSince(ev.samples, bufferLink.value, direction.value, current.fromTs, ev.leadIn);
    }
    if since.None? {
      return Stop(ChainLink(current, Some(buffer), None), Unfinished,
                  Some(Unexplained(next, Some(buffer), ConditionNotRecorded(current.reason))));
    }
    var link := ChainLink(current, Some(buffer), since);
    var (explaining, extra) := ExplainingEpisode(ev.timeline, next, since.value, ev.leadIn);
    if explaining.None? {
      return Stop(link, Unfinished, Some(Unexplained(next, Some(buffer), NoExplainingEpisode(since.value))));
    }
    return Follow(link, explaining.value, extra);
  }

  method DeriveChain(ev: Evidence, station: string, at: int) returns (d: Derivation)
    ensures d == Derive(ev, station, at)
  {
    var seed := EpisodeCovering(ev.timeline, station, at);
    if seed.None? {
      return Derivation([], Unfinished, [], Some(Unexplained(station, None, NoSeed(at))));
    }
    var links: seq<ChainLink>, candidates: seq<Episode>, seen := [], [], {};
    var current := seed.value;
    while true
      invariant current in ev.timeline
      invariant Walk(ev, current, seen, links, candidates) == Derive(ev, station, at)
      decreases |Steps(ev.timeline) - seen|
    {
      if current.Step() in seen {
        return Derivation(links, Unfinished, candidates, Some(Unexplained(current.station, None, ReturnsToUsedEpisode)));
      }
      FewerSteps(ev.timeline, seen, current);
      seen := seen + {current.Step()};
      var move := TakeStep(ev, current);
      links := links + [move.link];
      if move.Stop? {
        if move.termination == AtCause {
          candidates := candidates + [current];
        }
        return Derivation(links, move.termination, candidates, move.unexplained);
      }
      NextIsOnTheTimeline(ev, current);
      candidates := candidates + move.extra;
      current := move.next;
    }
  }
}
