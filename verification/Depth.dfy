/**
 How much history is enough, in terms a caller can check: on the episodes a read returned, before
 anything is derived, or on the number of links a chain may have.
 */
module Depth {
  import opened Sequences
  import opened Propagation
  import opened Chains
  import opened Causes
  import opened Reads
  import opened Horizon
  import opened StopDerivation

  // ----- what one link reads -----

  ghost predicate IsMove(ev: Evidence, l: ChainLink) {
    l.episode in ev.timeline && l == MoveFrom(ev, l.episode).link
  }

  lemma {:induction false} WalkLinksAreMoves(
    ev: Evidence, current: Episode, seen: set<(string, int)>, links: seq<ChainLink>, candidates: seq<Episode>)
    requires current in ev.timeline && forall l :: l in links ==> IsMove(ev, l)
    ensures forall l :: l in Walk(ev, current, seen, links, candidates).links ==> IsMove(ev, l)
    decreases |Steps(ev.timeline) - seen|
  {
    hide IsMove, MoveFrom;
    if current.Step() !in seen {
      var move := MoveFrom(ev, current);
      MoveIsAMove(ev, current);
      assert forall l :: l in links + [move.link] ==> l in links || l == move.link;
      if move.Follow? {
        NextIsOnTheTimeline(ev, current);
        FewerSteps(ev.timeline, seen, current);
        WalkLinksAreMoves(ev, move.next, seen + {current.Step()}, links + [move.link], candidates + move.extra);
      }
    }
  }

  lemma MoveIsAMove(ev: Evidence, e: Episode)
    requires e in ev.timeline
    ensures IsMove(ev, MoveFrom(ev, e).link)
  {
    MoveLinksItsEpisode(ev, e);
  }

  lemma DerivedLinksAreMoves(ev: Evidence, station: string, at: int)
    ensures forall l :: l in Derive(ev, station, at).links ==> IsMove(ev, l)
  {
    hide IsMove;
    var seed := EpisodeCovering(ev.timeline, station, at);
    if seed.Some? {
      WalkLinksAreMoves(ev, seed.value, {}, [], []);
    }
  }

  /** A link follows a buffer only from a `Suspended` episode, and dates its condition at most a lead-in
      before that episode. */
  lemma LinkReadsALeadIn(ev: Evidence, l: ChainLink)
    requires IsMove(ev, l) && 0 <= ev.leadIn
    ensures l.buffer.Some? ==> l.episode.state == Suspended
    ensures l.since.Some? ==> l.episode.fromTs - ev.leadIn <= l.since.value <= l.episode.fromTs
  {
    hide ConditionSince, ExplainingEpisode, ConnectingLink;
    var e := l.episode;
    var via := ConnectingLink(ev.topology, e, e.Direction());
    if e.Kind() == Consequence && via.Some? && e.Direction().Some? {
      SinceIsInHorizon(ev.samples, via.value, e.Direction().value, e.fromTs, ev.leadIn);
    }
  }

  lemma SinceIsInHorizon(samples: seq<Sample>, via: BufferLink, direction: Direction, before: int, leadIn: int)
    ensures var since := ConditionSince(samples, via, direction, before, leadIn);
            since.Some? ==> before - leadIn <= since.value <= before
  {
    hide ConditionSince, RunSpans;
    var since := ConditionSince(samples, via, direction, before, leadIn);
    ConditionSinceMeaning(samples, via, direction, before, leadIn);
    if since.Some? {
      var inHorizon := InHorizon(samples, via, before, leadIn);
      var i, j :| 0 <= i <= j < |inHorizon| && RunSpans(inHorizon, via, direction, i, j) && inHorizon[i].at == since.value;
      assert inHorizon[i] in inHorizon;
      assert WithinHorizon(via.buffer, before, leadIn)(inHorizon[i]);
    }
  }

  /** Following a link out of an episode two lead-ins after `h` reads nothing from before `h`. */
  lemma LateLinksReadFrom(ev: Evidence, l: ChainLink, h: int)
    requires IsMove(ev, l) && 0 <= ev.leadIn
    requires l.episode.state == Suspended ==> h + 2 * ev.leadIn <= l.episode.fromTs
    ensures ReadsFrom(l, ev.leadIn, h)
  {
    hide IsMove;
    LinkReadsALeadIn(ev, l);
  }

  // ----- a condition on the read itself -----

  /** Every `Suspended` episode of a timeline began two lead-ins or more after `h`. */
  predicate SuspendedLate(timeline: seq<Episode>, leadIn: int, h: int) {
    forall e :: e in timeline ==> (e.state == Suspended ==> h + 2 * leadIn <= e.fromTs)
  }

  lemma LateTimelinesReadFrom(ev: Evidence, station: string, at: int, h: int)
    requires 0 <= ev.leadIn && SuspendedLate(ev.timeline, ev.leadIn, h)
    ensures forall l :: l in Derive(ev, station, at).links ==> ReadsFrom(l, ev.leadIn, h)
  {
    hide Derive, ReadsFrom;
    DerivedLinksAreMoves(ev, station, at);
    forall l | l in Derive(ev, station, at).links ensures ReadsFrom(l, ev.leadIn, h) {
      assert IsMove(ev, l);
      LateLinksReadFrom(ev, l, h);
    }
  }

  /** A read is enough, whatever is derived from it, when every `Suspended` episode it returned began two
      lead-ins or more after it starts. */
  lemma LateReadsSuffice(
    table: seq<Row>, levels: seq<Sample>, topology: Topology, leadIn: int, h: int, to: int, station: string, at: int)
    requires Ordered(table) && h <= to && h <= at && 0 <= leadIn
    requires SuspendedLate(StateEpisodes(table, h, to), leadIn, h)
    ensures Derive(ReadEvidence(table, levels, topology, leadIn, h, to), station, at)
         == Derive(FullEvidence(table, levels, topology, leadIn, to), station, at)
  {
    hide Derive, ReadsFrom, StateEpisodes;
    LateTimelinesReadFrom(ReadEvidence(table, levels, topology, leadIn, h, to), station, at, h);
    ReadSuffices(table, levels, topology, leadIn, h, to, station, at);
  }

  /** The same for the derivation behind a stop. */
  lemma LateReadsSufficeForStops(
    table: seq<Row>, levels: seq<Sample>, topology: Topology, leadIn: int, h: int, readTo: int, from: int, to: int)
    requires Ordered(table) && h <= readTo && h <= from && 0 <= leadIn
    requires SuspendedLate(StateEpisodes(table, h, readTo), leadIn, h)
    ensures DeriveForStop(ReadEvidence(table, levels, topology, leadIn, h, readTo), from, to)
         == DeriveForStop(FullEvidence(table, levels, topology, leadIn, readTo), from, to)
  {
    hide Derive, ReadsFrom, StateEpisodes, SeedInstant;
    var read := ReadEvidence(table, levels, topology, leadIn, h, readTo);
    if topology.Tail().Some? {
      LateTimelinesReadFrom(read, topology.Tail().value, SeedInstant(read.timeline, topology.Tail().value, from, to), h);
    }
    StopDerivationSuffices(table, levels, topology, leadIn, h, readTo, from, to);
  }

  // ----- a bound on the number of links -----

  /** A chain whose explanations all began inside their lead-ins fits into `n` times two lead-ins after `h`
      when it has at most `n` links, or one more and a finished end, which looks for nothing. */
  ghost predicate FitsWithin(d: Derivation, leadIn: int, n: nat, h: int) {
    d.links != [] ==>
      && |d.links| <= (if d.termination == Unfinished then n else n + 1) && Fresh(d.links, leadIn)
      && h <= d.links[0].episode.fromTs - TwoLeadIns(n, leadIn)
  }

  lemma FreshChainsReadFrom(ev: Evidence, station: string, at: int, n: nat, h: int)
    requires 0 <= ev.leadIn
    requires FitsWithin(Derive(ev, station, at), ev.leadIn, n, h)
    ensures forall l :: l in Derive(ev, station, at).links ==> ReadsFrom(l, ev.leadIn, h)
  {
    hide Derive, ReadsFrom, TwoLeadIns, Supported, Fresh, EndJustified;
    var d := Derive(ev, station, at);
    DerivedLinksAreMoves(ev, station, at);
    DerivationIsSupported(ev, station, at);
    forall l | l in d.links ensures ReadsFrom(l, ev.leadIn, h) {
      var i :| 0 <= i < |d.links| && d.links[i] == l;
      assert IsMove(ev, l);
      if i < n {
        FreshLinkReadsFrom(ev, d.links, i, n, h);
      } else {
        FinishedEndReadsNothing(ev, d, h);
      }
    }
  }

  lemma FinishedEndReadsNothing(ev: Evidence, d: Derivation, h: int)
    requires d.links != [] && EndJustified(ev, d) && d.termination != Unfinished
    ensures ReadsFrom(d.links[|d.links| - 1], ev.leadIn, h)
  {
    hide LeadsTo, NothingJoins, LacksOuterBuffer;
  }

  lemma FreshLinkReadsFrom(ev: Evidence, links: seq<ChainLink>, i: nat, n: nat, h: int)
    requires 0 <= ev.leadIn && i < |links| && i < n && IsMove(ev, links[i])
    requires Supported(ev, links) && Fresh(links, ev.leadIn)
    requires h <= links[0].episode.fromTs - TwoLeadIns(n, ev.leadIn)
    ensures ReadsFrom(links[i], ev.leadIn, h)
  {
    hide IsMove, ReadsFrom, TwoLeadIns, Supported, Fresh;
    TwoLeadInsPerLink(ev, links, i);
    FewerLeadIns(i + 1, n, ev.leadIn);
    OneLinkFurther(i + 1, ev.leadIn);
    LateLinksReadFrom(ev, links[i], h);
  }

  lemma FewerLeadIns(i: nat, n: nat, leadIn: int)
    requires i <= n && 0 <= leadIn
    ensures TwoLeadIns(i, leadIn) <= TwoLeadIns(n, leadIn)
  {
    assert 2 * (n - i) * leadIn >= 0;
  }

  /** A fresh chain of n links is complete over 2n lead-ins of history, and over 2(n - 1) when it is finished,
      whether it is the chain over that read or the one over all of history. */
  lemma FreshChainsFit(
    table: seq<Row>, levels: seq<Sample>, topology: Topology, leadIn: int, h: int, to: int,
    station: string, at: int, n: nat)
    requires Ordered(table) && h <= to && h <= at && 0 <= leadIn
    requires || FitsWithin(Derive(ReadEvidence(table, levels, topology, leadIn, h, to), station, at), leadIn, n, h)
             || FitsWithin(Derive(FullEvidence(table, levels, topology, leadIn, to), station, at), leadIn, n, h)
    ensures Derive(ReadEvidence(table, levels, topology, leadIn, h, to), station, at)
         == Derive(FullEvidence(table, levels, topology, leadIn, to), station, at)
  {
    hide Derive, ReadsFrom, FitsWithin, AllEpisodes, StateEpisodes, AllSamples, BufferSamples, Ordered;
    var read := ReadEvidence(table, levels, topology, leadIn, h, to);
    var full := FullEvidence(table, levels, topology, leadIn, to);
    if FitsWithin(Derive(read, station, at), leadIn, n, h) {
      FreshChainsReadFrom(read, station, at, n, h);
    } else {
      FreshChainsReadFrom(full, station, at, n, h);
    }
    ReadSuffices(table, levels, topology, leadIn, h, to, station, at);
  }
}
