/**
 What a derived chain is entitled to say: every link rests on an episode, a buffer row and
 samples of the evidence, and the place the chain stops is the place the evidence stops.
 The relations here are stated over the evidence, not over the walk that finds them.
 */
module Chains {
  import opened Measures
  import opened Sequences
  import opened Propagation

  // ----- one link -----

  /** `link` is a buffer the recorded reason of `e` names: a row of the topology, or the loop
      from the only tail to the only head. */
  ghost predicate Joins(topology: Topology, e: Episode, link: BufferLink) {
    if e.reasonBuffer.Some? then
      link in topology.links && link.buffer == e.reasonBuffer.value
    else
      && e.Direction() == Some(Starved) && e.ReasonDetail() == Some(CARRIER_RETURN)
      && topology.Tail() == Some(link.upstream) && topology.Head() == Some(link.downstream)
      && link.upstream != link.downstream && link.buffer == CARRIER_RETURN
  }

  ghost predicate NothingJoins(topology: Topology, e: Episode) {
    forall link :: !Joins(topology, e, link)
  }

  /** `since` is when `link` met the condition `e` recorded: the start of the latest satisfying
      run in the lead-in, or the episode's own start for the loop, which publishes no level. */
  ghost predicate MetSince(ev: Evidence, e: Episode, link: BufferLink, direction: Direction, since: int) {
    if link.buffer == CARRIER_RETURN then
      since == e.fromTs
    else
      BeginsLatestRun(InHorizon(ev.samples, link, e.fromTs, ev.leadIn), link, direction, since)
  }

  ghost predicate Accountable(ev: Evidence, e: Episode, station: string, since: int) {
    e in ev.timeline && AccountableIn(station, since, ev.leadIn)(e)
  }

  /** `next` accounts for a condition that began at `since`: the latest episode covering that
      instant, or the latest one of the lead-in when none covers it. */
  ghost predicate AccountsFor(ev: Evidence, next: Episode, station: string, since: int) {
    && Accountable(ev, next, station, since)
    && (forall e :: Accountable(ev, e, station, since) && (e.Covers(since) || !next.Covers(since))
                    ==> e.fromTs <= next.fromTs)
    && (forall e :: Accountable(ev, e, station, since) && e.Covers(since) ==> next.Covers(since))
  }

  ghost predicate LedBy(ev: Evidence, link: ChainLink, via: BufferLink, direction: Direction, next: Episode)
    requires link.since.Some?
  {
    && Joins(ev.topology, link.episode, via)
    && link.buffer == Some(via.buffer)
    && FarSide(via, direction) != link.episode.station
    && MetSince(ev, link.episode, via, direction, link.since.value)
    && AccountsFor(ev, next, FarSide(via, direction), link.since.value)
  }

  /** The evidence behind following `link` to `next`. */
  ghost predicate LeadsTo(ev: Evidence, link: ChainLink, next: Episode) {
    && link.episode.Kind() == Consequence
    && link.episode.Direction().Some?
    && link.since.Some?
    && exists via :: LedBy(ev, link, via, link.episode.Direction().value, next)
  }

  // ----- where a chain may stop -----

  ghost predicate NeverMet(ev: Evidence, e: Episode, via: BufferLink, direction: Direction) {
    && Joins(ev.topology, e, via)
    && via.buffer != CARRIER_RETURN
    && forall s :: s in ev.samples && WithinHorizon(via.buffer, e.fromTs, ev.leadIn)(s) ==> !Satisfies(s, via, direction)
  }

  ghost predicate Unaccounted(ev: Evidence, e: Episode, via: BufferLink, direction: Direction, since: int) {
    && Joins(ev.topology, e, via)
    && MetSince(ev, e, via, direction, since)
    && forall x :: !Accountable(ev, x, FarSide(via, direction), since)
  }

  ghost predicate LacksOuterBuffer(topology: Topology, e: Episode) {
    || (e.Direction() == Some(Starved) && forall l :: l in topology.links ==> l.downstream != e.station)
    || (e.Direction() == Some(Blocked) && forall l :: l in topology.links ==> l.upstream != e.station)
  }

  ghost predicate ShortOfCarriers(e: Episode) {
    e.Direction() == Some(Starved) && e.ReasonDetail() == Some(CARRIER_RETURN)
  }

  ghost predicate DeadEndJustified(ev: Evidence, link: ChainLink, u: Unexplained) {
    var e := link.episode;
    match u.why
    case NoSeed(_) => false
    case ReturnsToUsedEpisode => false
    case NeitherCauseNorConsequence(state) => e.Kind() == Other && link.buffer.None? && state == e.state
    case WrongSide(direction) =>
      && e.Kind() == Consequence && e.Direction() == Some(direction) && link.since.None?
      && exists via :: Joins(ev.topology, e, via) && link.buffer == Some(via.buffer) && FarSide(via, direction) == e.station
    case ConditionNotRecorded(_) =>
      && e.Kind() == Consequence && e.Direction().Some? && link.since.None?
      && exists via :: NeverMet(ev, e, via, e.Direction().value) && link.buffer == Some(via.buffer) && u.buffer == link.buffer
                       && u.station == FarSide(via, e.Direction().value)
    case NoExplainingEpisode(since) =>
      && e.Kind() == Consequence && e.Direction().Some? && link.since == Some(since)
      && exists via :: Unaccounted(ev, e, via, e.Direction().value, since) && link.buffer == Some(via.buffer)
                       && u.station == FarSide(via, e.Direction().value)
    case NoCarrierLoop =>
      e.Kind() == Consequence && ShortOfCarriers(e) && NothingJoins(ev.topology, e) && link.buffer.None?
    case NotAtThatEnd(_) =>
      && e.Kind() == Consequence && link.buffer.None?
      && (NothingJoins(ev.topology, e) || e.Direction().None?)
      && !LacksOuterBuffer(ev.topology, e)
  }

  /** Stopping at `link` for the reason given is what the evidence supports. */
  ghost predicate StopJustified(
    ev: Evidence, link: ChainLink, termination: Termination, unexplained: Option<Unexplained>)
  {
    var e := link.episode;
    match termination
    case AtCause =>
      e.Kind() == CauseCandidate && link.buffer.None? && link.since.None? && unexplained.None?
    case AtLineEdge =>
      && e.Kind() == Consequence && link.buffer.None? && link.since.None? && unexplained.None?
      && NothingJoins(ev.topology, e) && LacksOuterBuffer(ev.topology, e) && !ShortOfCarriers(e)
    case Unfinished =>
      unexplained.Some? && DeadEndJustified(ev, link, unexplained.value)
  }

  // ----- one move -----

  lemma ConnectingLinkJoins(topology: Topology, e: Episode)
    ensures var link := ConnectingLink(topology, e, e.Direction());
            if link.Some? then Joins(topology, e, link.value) else NothingJoins(topology, e)
  {
    var link := ConnectingLink(topology, e, e.Direction());
    if e.reasonBuffer.Some? {
      NoFirst(NamedBuffer(e.reasonBuffer.value), topology.links);
      if link.None? {
        forall l ensures !Joins(topology, e, l) {
          if l in topology.links {
            assert !NamedBuffer(e.reasonBuffer.value)(l);
          }
        }
      }
    } else if link.None? {
      forall l ensures !Joins(topology, e, l) {
      }
    }
  }

  lemma EdgeLacksBuffer(topology: Topology, e: Episode)
    ensures AtTheEdge(topology, e, e.Direction()) <==> LacksOuterBuffer(topology, e)
  {
    NoFirst(FeedingInto(e.station), topology.links);
    NoFirst(DrawingFrom(e.station), topology.links);
    if forall l :: l in topology.links ==> l.downstream != e.station {
      assert forall l :: l in topology.links ==> !FeedingInto(e.station)(l);
    }
    if forall l :: l in topology.links ==> l.upstream != e.station {
      assert forall l :: l in topology.links ==> !DrawingFrom(e.station)(l);
    }
  }

  lemma ConditionSinceMeaning(samples: seq<Sample>, link: BufferLink, direction: Direction, before: int, leadIn: int)
    ensures var since := ConditionSince(samples, link, direction, before, leadIn);
            if since.Some? then
              BeginsLatestRun(InHorizon(samples, link, before, leadIn), link, direction, since.value)
            else
              forall s :: s in samples && WithinHorizon(link.buffer, before, leadIn)(s) ==> !Satisfies(s, link, direction)
  {
    var inHorizon := InHorizon(samples, link, before, leadIn);
    var last := LastSatisfying(inHorizon, link, direction);
    LastSatisfyingIsLast(inHorizon, link, direction);
    if last.Some? {
      RunStartIsStart(inHorizon, link, direction, last.value);
      assert RunSpans(inHorizon, link, direction, RunStart(inHorizon, link, direction, last.value), last.value);
    } else {
      forall s | s in samples && WithinHorizon(link.buffer, before, leadIn)(s)
        ensures !Satisfies(s, link, direction)
      {
        assert s in inHorizon;
      }
    }
  }

  /** At most one instant begins the latest run, so the relation pins the walk's choice. */
  lemma LatestRunIsUnique(h: seq<Sample>, link: BufferLink, direction: Direction, t: int, u: int)
    requires BeginsLatestRun(h, link, direction, t) && BeginsLatestRun(h, link, direction, u)
    ensures t == u
  {
    var i, j :| 0 <= i <= j < |h| && RunSpans(h, link, direction, i, j) && h[i].at == t;
    var k, l :| 0 <= k <= l < |h| && RunSpans(h, link, direction, k, l) && h[k].at == u;
    SameRun(h, link, direction, i, j, k, l);
  }

  lemma SameRun(h: seq<Sample>, link: BufferLink, direction: Direction, i: int, j: int, k: int, l: int)
    requires 0 <= i <= j < |h| && 0 <= k <= l < |h|
    requires RunSpans(h, link, direction, i, j) && RunSpans(h, link, direction, k, l)
    ensures i == k && j == l
  {
    assert Satisfies(h[j], link, direction) && Satisfies(h[l], link, direction);
  }

  lemma ExplainingAccounts(ev: Evidence, station: string, since: int)
    ensures var (explaining, _) := ExplainingEpisode(ev.timeline, station, since, ev.leadIn);
            if explaining.Some? then AccountsFor(ev, explaining.value, station, since)
            else forall x :: !Accountable(ev, x, station, since)
  {
    var overlapping := Filter(AccountableIn(station, since, ev.leadIn), ev.timeline);
    forall e ensures Accountable(ev, e, station, since) <==> e in overlapping {
    }
    if overlapping != [] {
      LatestWhereIs(CoveringInstant(since), overlapping);
      LatestIndexIsLatest(overlapping);
      forall e | e in overlapping && e.Covers(since)
        ensures e.fromTs <= overlapping[Chosen(overlapping, since)].fromTs && overlapping[Chosen(overlapping, since)].Covers(since)
      {
        assert CoveringInstant(since)(e);
      }
    }
  }

  /** A move is followed only where the evidence leads, and stops only where it ends. */
  lemma MoveIsJustified(ev: Evidence, e: Episode)
    ensures var move := MoveFrom(ev, e);
            && move.link.episode == e
            && match move
               case Follow(link, next, _) => LeadsTo(ev, link, next)
               case Stop(link, termination, unexplained) => StopJustified(ev, link, termination, unexplained)
  {
    if e.Kind() == Consequence {
      ConnectingLinkJoins(ev.topology, e);
      EdgeLacksBuffer(ev.topology, e);
      var via := ConnectingLink(ev.topology, e, e.Direction());
      if via.Some? && e.Direction().Some? {
        BufferMoveIsJustified(ev, e, via.value, e.Direction().value);
      }
    }
  }

  lemma BufferMoveIsJustified(ev: Evidence, e: Episode, via: BufferLink, direction: Direction)
    requires e.Kind() == Consequence && e.Direction() == Some(direction) && Joins(ev.topology, e, via)
    ensures var move := FollowBuffer(ev, e, via, direction);
            && move.link.episode == e
            && match move
               case Follow(link, next, _) => LeadsTo(ev, link, next)
               case Stop(link, termination, unexplained) => StopJustified(ev, link, termination, unexplained)
  {
    var station := FarSide(via, direction);
    ConditionSinceMeaning(ev.samples, via, direction, e.fromTs, ev.leadIn);
    var since := SinceWhen(ev, e, via, direction);
    if station != e.station {
      if since.None? {
        assert NeverMet(ev, e, via, direction);
      } else {
        assert MetSince(ev, e, via, direction, since.value);
        ExplainingAccounts(ev, station, since.value);
        var (explaining, _) := ExplainingEpisode(ev.timeline, station, since.value, ev.leadIn);
        var link := ChainLink(e, Some(via.buffer), since);
        if explaining.Some? {
          assert LedBy(ev, link, via, direction, explaining.value);
        } else {
          assert Unaccounted(ev, e, via, direction, since.value);
        }
      }
    }
  }

  lemma LeadsBackInTime(ev: Evidence, link: ChainLink, next: Episode)
    requires LeadsTo(ev, link, next)
    ensures link.since.Some?
    ensures next.fromTs <= link.since.value <= link.episode.fromTs
    ensures next in ev.timeline && next.state != Execute && next.station != link.episode.station
    ensures next.Overlaps(link.since.value - ev.leadIn, link.since.value)
  {
    var e := link.episode;
    var via :| LedBy(ev, link, via, e.Direction().value, next);
    if via.buffer != CARRIER_RETURN {
      var h := InHorizon(ev.samples, via, e.fromTs, ev.leadIn);
      var i, j :| 0 <= i <= j < |h| && RunSpans(h, via, e.Direction().value, i, j) && h[i].at == link.since.value;
      assert h[i] in h;
    }
  }

  // ----- the whole chain -----

  function UsedSteps(links: seq<ChainLink>): set<(string, int)> {
    set l | l in links :: l.episode.Step()
  }

  ghost predicate LeadsOn(ev: Evidence, links: seq<ChainLink>, i: int)
    requires 0 <= i < |links| - 1
  {
    LeadsTo(ev, links[i], links[i + 1].episode)
  }

  /** A chain of supported links through pairwise different steps of the timeline. */
  ghost predicate Supported(ev: Evidence, links: seq<ChainLink>) {
    && (forall i :: 0 <= i < |links| ==> links[i].episode in ev.timeline)
    && (forall i :: 0 <= i < |links| - 1 ==> LeadsOn(ev, links, i))
    && (forall i, j :: 0 <= i < j < |links| ==> links[i].episode.Step() != links[j].episode.Step())
  }

  /** The chain has come back to an episode it holds already. */
  ghost predicate ReturnsTo(ev: Evidence, links: seq<ChainLink>, k: int, again: Episode) {
    0 <= k < |links| && LeadsTo(ev, links[|links| - 1], again) && again.Step() == links[k].episode.Step()
  }

  ghost predicate EndJustified(ev: Evidence, d: Derivation)
    requires d.links != []
  {
    || StopJustified(ev, d.links[|d.links| - 1], d.termination, d.unexplained)
    || (&& d.termination == Unfinished && d.unexplained.Some? && d.unexplained.value.why == ReturnsToUsedEpisode
        && exists k, again :: ReturnsTo(ev, d.links, k, again))
  }

  ghost predicate Underway(ev: Evidence, current: Episode, seen: set<(string, int)>, links: seq<ChainLink>) {
    && current in ev.timeline
    && Supported(ev, links)
    && seen == UsedSteps(links)
    && (links != [] ==> LeadsTo(ev, links[|links| - 1], current))
  }

  lemma Extend(ev: Evidence, current: Episode, seen: set<(string, int)>, links: seq<ChainLink>, link: ChainLink)
    requires Underway(ev, current, seen, links)
    requires link.episode == current && current.Step() !in seen
    ensures Supported(ev, links + [link])
    ensures UsedSteps(links + [link]) == seen + {current.Step()}
  {
    hide LeadsTo;
    var extended := links + [link];
    forall i | 0 <= i < |links| ensures links[i].episode.Step() in seen {
      assert links[i] in links;
    }
    assert forall l :: l in extended <==> l in links || l == link;
    forall i | 0 <= i < |extended| - 1 ensures LeadsOn(ev, extended, i) {
      if i < |links| - 1 {
        assert LeadsOn(ev, links, i);
      }
    }
  }

  /** The chain built so far, finished off one way or the other. */
  ghost predicate Finished(ev: Evidence, links: seq<ChainLink>, current: Episode, d: Derivation) {
    && d.links != [] && links <= d.links && (links == [] ==> d.links[0].episode == current)
    && Supported(ev, d.links) && EndJustified(ev, d)
  }

  lemma ReturnFinishes(
    ev: Evidence, current: Episode, seen: set<(string, int)>, links: seq<ChainLink>, candidates: seq<Episode>)
    requires Underway(ev, current, seen, links) && current.Step() in seen
    ensures Finished(ev, links, current, Walk(ev, current, seen, links, candidates))
  {
    var l :| l in links && l.episode.Step() == current.Step();
    var k :| 0 <= k < |links| && links[k] == l;
    assert ReturnsTo(ev, links, k, current);
  }

  lemma StopFinishes(
    ev: Evidence, current: Episode, seen: set<(string, int)>, links: seq<ChainLink>, candidates: seq<Episode>)
    requires Underway(ev, current, seen, links) && current.Step() !in seen && MoveFrom(ev, current).Stop?
    ensures Finished(ev, links, current, Walk(ev, current, seen, links, candidates))
  {
    MoveIsJustified(ev, current);
    var move := MoveFrom(ev, current);
    Extend(ev, current, seen, links, move.link);
    assert (links + [move.link])[|links|] == move.link;
  }

  lemma FollowStaysUnderway(ev: Evidence, current: Episode, seen: set<(string, int)>, links: seq<ChainLink>)
    requires Underway(ev, current, seen, links) && current.Step() !in seen && MoveFrom(ev, current).Follow?
    ensures var move := MoveFrom(ev, current);
            && move.link.episode == current
            && Underway(ev, move.next, seen + {current.Step()}, links + [move.link])
  {
    MoveIsJustified(ev, current);
    NextIsOnTheTimeline(ev, current);
    var move := MoveFrom(ev, current);
    Extend(ev, current, seen, links, move.link);
    assert (links + [move.link])[|links|] == move.link;
  }

  lemma {:induction false} WalkIsSupported(
      ev: Evidence, current: Episode, seen: set<(string, int)>, links: seq<ChainLink>, candidates: seq<Episode>)
    requires Underway(ev, current, seen, links)
    ensures Finished(ev, links, current, Walk(ev, current, seen, links, candidates))
    decreases |Steps(ev.timeline) - seen|
  {
    if current.Step() in seen {
      ReturnFinishes(ev, current, seen, links, candidates);
    } else if MoveFrom(ev, current).Stop? {
      StopFinishes(ev, current, seen, links, candidates);
    } else {
      var move := MoveFrom(ev, current);
      FollowStaysUnderway(ev, current, seen, links);
      FewerSteps(ev.timeline, seen, current);
      WalkIsSupported(ev, move.next, seen + {current.Step()}, links + [move.link], candidates + move.extra);
      assert links <= links + [move.link];
      assert (links + [move.link])[0].episode == if links == [] then current else links[0].episode;
    }
  }

  lemma DeriveFromSeed(ev: Evidence, station: string, at: int, seed: Episode)
    requires EpisodeCovering(ev.timeline, station, at) == Some(seed) && seed in ev.timeline
    ensures Derive(ev, station, at).links != [] && Derive(ev, station, at).links[0].episode == seed
  {
    WalkIsSupported(ev, seed, {}, [], []);
  }

  /** Every derivation is supported link by link and ends where its evidence ends; it is empty
      exactly when nothing covers the seed instant. */
  lemma DerivationIsSupported(ev: Evidence, station: string, at: int)
    ensures var d := Derive(ev, station, at);
            && (d.links == [] <==> forall e :: e in ev.timeline && e.station == station ==> !e.Covers(at))
            && (d.links == [] ==> d.termination == Unfinished && d.candidates == []
                                  && d.unexplained == Some(Unexplained(station, None, NoSeed(at))))
            && (d.links != [] ==> && d.links[0].episode.station == station && d.links[0].episode.Covers(at)
                                  && Supported(ev, d.links) && EndJustified(ev, d))
  {
    var seed := EpisodeCovering(ev.timeline, station, at);
    if seed.Some? {
      WalkIsSupported(ev, seed.value, {}, [], []);
      assert CoveringAt(station, at)(seed.value);
    } else {
      forall e | e in ev.timeline && e.station == station ensures !e.Covers(at) {
        assert !CoveringAt(station, at)(e);
      }
    }
  }

  /** Causes lie before their consequences: along a chain both the episode starts and the
      buffer conditions between them never move forward in time. */
  lemma {:induction false} ChainGoesBack(ev: Evidence, links: seq<ChainLink>, i: int, j: int)
    requires Supported(ev, links) && 0 <= i < j < |links|
    ensures links[i].since.Some?
    ensures links[j].episode.fromTs <= links[i].since.value <= links[i].episode.fromTs
    decreases j
  {
    hide LeadsTo;
    assert LeadsOn(ev, links, j - 1);
    LeadsBackInTime(ev, links[j - 1], links[j].episode);
    if i < j - 1 {
      ChainGoesBack(ev, links, i, j - 1);
    }
  }

  /** The walk is bounded on every topology, the carrier loop included: no step is used twice,
      so a chain has at most one link for each (station, start) of the timeline. */
  lemma ChainIsBounded(ev: Evidence, station: string, at: int)
    ensures |Derive(ev, station, at).links| <= |Steps(ev.timeline)|
  {
    hide Derive;
    DerivationIsSupported(ev, station, at);
    var links := Derive(ev, station, at).links;
    if links != [] {
      DistinctStepsCount(links);
      assert UsedSteps(links) <= Steps(ev.timeline) by {
        forall l | l in links ensures l.episode.Step() in Steps(ev.timeline) {
          assert l.episode in ev.timeline;
        }
      }
      SubsetCount(UsedSteps(links), Steps(ev.timeline));
    }
  }

  lemma {:induction false} DistinctStepsCount(links: seq<ChainLink>)
    requires forall i, j :: 0 <= i < j < |links| ==> links[i].episode.Step() != links[j].episode.Step()
    ensures |UsedSteps(links)| == |links|
  {
    if links != [] {
      var n := |links| - 1;
      DistinctStepsCount(links[..n]);
      assert links == links[..n] + [links[n]];
      assert UsedSteps(links) == UsedSteps(links[..n]) + {links[n].episode.Step()};
      forall l | l in links[..n] ensures l.episode.Step() != links[n].episode.Step() {
      }
    }
  }

  /** A chain that comes round the carrier loop has stood still: from the episode it returns
      to onwards, every episode of the chain and every buffer condition began at one instant. */
  lemma ReturnIsInstantaneous(ev: Evidence, links: seq<ChainLink>, k: int, again: Episode)
    requires Supported(ev, links) && ReturnsTo(ev, links, k, again)
    ensures forall i :: k <= i < |links| ==> links[i].episode.fromTs == again.fromTs && links[i].since == Some(again.fromTs)
  {
    hide LeadsTo, Supported;
    var last := |links| - 1;
    LeadsBackInTime(ev, links[last], again);
    forall i | k <= i < |links|
      ensures links[i].episode.fromTs == again.fromTs && links[i].since == Some(again.fromTs)
    {
      if k < i { ChainGoesBack(ev, links, k, i); }
      if i < last { ChainGoesBack(ev, links, i, last); }
    }
  }
}
