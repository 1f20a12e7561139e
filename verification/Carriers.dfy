/**
 The two ends of a line and the loop its carriers travel, said of the buffer rows alone, and the walk round
 it: a head that starves of carriers looks to the tail.
 */
module Carriers {
  import opened Sequences
  import opened Propagation
  import opened Chains
  import opened Horizon
  import opened Limits

  ghost predicate Named(t: Topology, s: string) {
    exists l :: l in t.links && (l.upstream == s || l.downstream == s)
  }

  /** No buffer discharges into `s`. */
  ghost predicate Unfed(t: Topology, s: string) {
    Named(t, s) && forall l :: l in t.links ==> l.downstream != s
  }

  /** `s` discharges into no buffer. */
  ghost predicate Undrained(t: Topology, s: string) {
    Named(t, s) && forall l :: l in t.links ==> l.upstream != s
  }

  ghost predicate OnlyHead(t: Topology, s: string) {
    Unfed(t, s) && forall x :: Unfed(t, x) ==> x == s
  }

  ghost predicate OnlyTail(t: Topology, s: string) {
    Undrained(t, s) && forall x :: Undrained(t, x) ==> x == s
  }

  lemma StationsAreNamed(t: Topology, s: string)
    ensures s in t.Stations() <==> Named(t, s)
  {
  }

  /** The rows found by name and by side are rows of that name and that side, and found when there is one. */
  lemma RowsAreFound(t: Topology, name: string)
    ensures t.Link(name).None? <==> forall l :: l in t.links ==> l.buffer != name
    ensures t.Link(name).Some? ==> t.Link(name).value in t.links && t.Link(name).value.buffer == name
    ensures t.UpstreamBufferOf(name).None? <==> forall l :: l in t.links ==> l.downstream != name
    ensures t.DownstreamBufferOf(name).None? <==> forall l :: l in t.links ==> l.upstream != name
  {
    NoFirst(NamedBuffer(name), t.links);
    NoFirst(FeedingInto(name), t.links);
    NoFirst(DrawingFrom(name), t.links);
    assert forall l :: NamedBuffer(name)(l) <==> l.buffer == name;
    assert forall l :: FeedingInto(name)(l) <==> l.downstream == name;
    assert forall l :: DrawingFrom(name)(l) <==> l.upstream == name;
  }

  lemma SoleIs(s: set<string>, x: string)
    ensures Sole(s) == Some(x) <==> x in s && forall y :: y in s ==> y == x
  {
    if x in s && forall y :: y in s ==> y == x {
      assert s == {x};
      assert |s| == 1;
    }
  }

  /** The head is the one station that no buffer discharges into. */
  lemma HeadExactly(t: Topology, s: string)
    ensures t.Head() == Some(s) <==> OnlyHead(t, s)
  {
    hide Topology.Stations, Topology.UpstreamBufferOf, Sole, Named;
    var heads := set x | x in t.Stations() && t.UpstreamBufferOf(x).None?;
    SoleIs(heads, s);
    forall x ensures x in heads <==> Unfed(t, x) {
      StationsAreNamed(t, x);
      RowsAreFound(t, x);
    }
  }

  /** The tail is the one station that discharges into none. */
  lemma TailExactly(t: Topology, s: string)
    ensures t.Tail() == Some(s) <==> OnlyTail(t, s)
  {
    hide Topology.Stations, Topology.DownstreamBufferOf, Sole, Named;
    var tails := set x | x in t.Stations() && t.DownstreamBufferOf(x).None?;
    SoleIs(tails, s);
    forall x ensures x in tails <==> Undrained(t, x) {
      StationsAreNamed(t, x);
      RowsAreFound(t, x);
    }
  }

  ghost predicate Loops(t: Topology, l: BufferLink) {
    && OnlyHead(t, l.downstream) && OnlyTail(t, l.upstream) && l.upstream != l.downstream
    && l.buffer == CARRIER_RETURN && l.capacity == 0
  }

  /** The carrier loop runs from the one tail to the one head, and is there exactly when they are two. */
  lemma CarrierLoopExactly(t: Topology, l: BufferLink)
    ensures t.CarrierLoop() == Some(l) <==> Loops(t, l)
  {
    hide Topology.Head, Topology.Tail, OnlyHead, OnlyTail;
    HeadExactly(t, l.downstream);
    TailExactly(t, l.upstream);
  }

  // ----- round the loop -----

  /** An episode that waits for carriers. */
  predicate LacksCarriers(e: Episode) {
    && e.state == Suspended && e.reasonBuffer == None
    && e.reason == Some("starved" + ":" + "carrier-return")
  }

  /** `station` stood still at `moment`. */
  ghost predicate StoodStill(ev: Evidence, station: string, moment: int) {
    exists e :: e in ev.timeline && e.station == station && e.state != Execute && e.Covers(moment)
  }

  lemma LoopIsFollowed(ev: Evidence, e: Episode, l: BufferLink)
    requires 0 <= ev.leadIn && Loops(ev.topology, l) && LacksCarriers(e) && e.station == l.downstream
    requires StoodStill(ev, l.upstream, e.fromTs)
    ensures (var move := MoveFrom(ev, e);
             && move.Follow? && move.link == ChainLink(e, Some(CARRIER_RETURN), Some(e.fromTs))
             && AccountsFor(ev, move.next, l.upstream, e.fromTs))
  {
    hide Loops, ExplainingEpisode;
    ReasonReadsBack(e, Starved, CARRIER_RETURN);
    CarrierLoopExactly(ev.topology, l);
    LoopRuns(ev.topology, l);
    ExplainingAccounts(ev, l.upstream, e.fromTs);
    var x :| x in ev.timeline && x.station == l.upstream && x.state != Execute && x.Covers(e.fromTs);
    assert Accountable(ev, x, l.upstream, e.fromTs);
  }

  lemma LoopRuns(t: Topology, l: BufferLink)
    requires Loops(t, l)
    ensures l.upstream != l.downstream && l.buffer == CARRIER_RETURN
  {
  }

  /** A head that starves of carriers while the tail stands still is explained at the tail: the second link
      of its chain is the tail's, since the same instant. */
  lemma HeadLooksToTheTail(ev: Evidence, at: int, e: Episode, l: BufferLink)
    requires 0 <= ev.leadIn && Loops(ev.topology, l) && LacksCarriers(e) && e.station == l.downstream
    requires EpisodeCovering(ev.timeline, l.downstream, at) == Some(e) && e in ev.timeline
    requires StoodStill(ev, l.upstream, e.fromTs)
    ensures (var links := Derive(ev, l.downstream, at).links;
             && |links| >= 2
             && links[0] == ChainLink(e, Some(CARRIER_RETURN), Some(e.fromTs))
             && links[1].episode.station == l.upstream
             && AccountsFor(ev, links[1].episode, l.upstream, e.fromTs))
  {
    hide Loops, MoveFrom, AccountsFor, StoodStill, EpisodeCovering;
    LoopIsFollowed(ev, e, l);
    LoopRuns(ev.topology, l);
    var move := MoveFrom(ev, e);
    WalkFollows(ev, e, {}, [], [], move);
    StationOfNext(ev, move.next, l.upstream, e.fromTs);
    MoveIsJustified(ev, move.next);
    SecondLink(ev, move.next, {} + {e.Step()}, [] + [move.link], [] + move.extra);
  }

  lemma StationOfNext(ev: Evidence, next: Episode, station: string, since: int)
    requires AccountsFor(ev, next, station, since)
    ensures next.station == station
  {
  }

  lemma SecondLink(
    ev: Evidence, current: Episode, seen: set<(string, int)>, links: seq<ChainLink>, candidates: seq<Episode>)
    requires current in ev.timeline && current.Step() !in seen && MoveFrom(ev, current).link.episode == current
    ensures (var all := Walk(ev, current, seen, links, candidates).links;
             links <= all && |all| > |links| && all[|links|].episode == current)
  {
    hide MoveFrom;
    var move := MoveFrom(ev, current);
    var more := links + [move.link];
    assert links <= more && more[|links|] == move.link;
    if move.Follow? {
      NextIsOnTheTimeline(ev, current);
      FewerSteps(ev.timeline, seen, current);
      WalkExtends(ev, move.next, seen + {current.Step()}, more, candidates + move.extra);
      assert Walk(ev, move.next, seen + {current.Step()}, more, candidates + move.extra).links[|links|] == more[|links|];
    }
  }
}
