/**
 How far back a fresh chain can reach: a line of any length on which a chain of n links is derived over
 2(n - 1) lead-ins of history and lost over any fewer, although every explanation began inside its lead-in.
 */
module Reach {
  import opened Sequences
  import opened Propagation
  import opened Chains
  import opened Causes
  import opened Reads
  import opened Horizon
  import opened Limits
  import opened Depth

  // ----- the line -----

  /** The name of station `i`, the tail being 0, and of the buffer it draws from. */
  function Name(i: nat): string {
    seq(i + 1, _ => 'S')
  }

  function Feeding(i: nat): BufferLink {
    BufferLink(Name(i), Name(i + 1), Name(i), 1)
  }

  function Line(m: nat): Topology {
    Topology(seq(m, (i: nat) => Feeding(i)))
  }

  lemma NamesDiffer(i: nat, j: nat)
    ensures Name(i) == Name(j) <==> i == j
    ensures Name(i) != CARRIER_RETURN
  {
    assert |Name(i)| == i + 1;
    assert Name(i)[0] == 'S';
  }

  lemma {:induction false} FirstAt<T(!new)>(p: T -> bool, s: seq<T>, k: nat)
    requires k < |s| && p(s[k]) && forall i :: 0 <= i < k ==> !p(s[i])
    ensures First(p, s) == Some(s[k])
  {
    if k > 0 {
      FirstAt(p, s[1..], k - 1);
    }
  }

  lemma {:induction false} FilterSole<T(!new)>(p: T -> bool, s: seq<T>, k: nat)
    requires k < |s| && forall i :: 0 <= i < |s| ==> (p(s[i]) <==> i == k)
    ensures Filter(p, s) == [s[k]]
  {
    if k > 0 {
      FilterSole(p, s[1..], k - 1);
    } else {
      FilterIsEmpty(p, s[1..]);
    }
  }

  lemma LineLink(m: nat, i: nat)
    requires i < m
    ensures Line(m).Link(Name(i)) == Some(Feeding(i)) && Feeding(i) in Line(m).links
  {
    var p := NamedBuffer(Name(i));
    forall j | 0 <= j < m ensures p(Line(m).links[j]) <==> j == i {
      NamesDiffer(i, j);
    }
    FirstAt(p, Line(m).links, i);
    assert Line(m).links[i] == Feeding(i);
  }

  // ----- the log -----

  /** Station `i` starves two lead-ins after station `i + 1` stopped, the buffer between them having run
      empty half-way. */
  function Waiting(i: nat, leadIn: nat): Row {
    Row(Name(i), -TwoLeadIns(i, leadIn), Suspended, Some("starved" + ":" + Name(i)), Some(Name(i)))
  }

  function Empty(i: nat, leadIn: nat): Sample {
    Sample(Name(i), -TwoLeadIns(i, leadIn) - leadIn, 0)
  }

  /** The fault behind it all lasts one tick. */
  function Fault(m: nat, leadIn: nat): Row {
    Row(Name(m), -TwoLeadIns(m, leadIn), Aborted, None, None)
  }

  function Recovered(m: nat, leadIn: nat): Row {
    Row(Name(m), -TwoLeadIns(m, leadIn) + 1, Execute, None, None)
  }

  function Log(m: nat, leadIn: nat): seq<Row> {
    seq(m, (i: nat) => Waiting(i, leadIn)) + [Fault(m, leadIn), Recovered(m, leadIn)]
  }

  function Levels(m: nat, leadIn: nat): seq<Sample> {
    seq(m, (i: nat) => Empty(i, leadIn))
  }

  lemma {:induction false} OrderedInFront(front: seq<Row>, rest: seq<Row>)
    requires Ordered(rest)
    requires forall i, j :: 0 <= i < j < |front| ==> front[i].station != front[j].station
    requires forall r, x :: r in front && x in rest ==> r.station != x.station
    ensures Ordered(front + rest)
  {
    var rows := front + rest;
    if front == [] {
      assert rows == rest;
    } else {
      assert rows[1..] == front[1..] + rest;
      OrderedInFront(front[1..], rest);
      forall x | x in rows[1..] ensures x.station != front[0].station {
        if x in front[1..] {
          var j :| 0 <= j < |front[1..]| && front[1..][j] == x;
          assert front[j + 1] == x;
        }
      }
      if rows[1..] != [] { assert rows[1..][0] in rows[1..]; }
      assert Heads(rows[0], rows[1..]);
    }
  }

  lemma TwoRowsOrdered(r: Row, x: Row)
    requires r.station == x.station && r.at < x.at
    ensures Ordered([r, x])
  {
    assert [r, x][1..] == [x] && [x][1..] == [];
    assert RunFirst(r.station, [x]);
    assert Ordered([x]);
  }

  lemma LogIsOrdered(m: nat, leadIn: nat)
    ensures Ordered(Log(m, leadIn))
  {
    var front, rest := seq(m, (i: nat) => Waiting(i, leadIn)), [Fault(m, leadIn), Recovered(m, leadIn)];
    TwoRowsOrdered(rest[0], rest[1]);
    forall i, j | 0 <= i < j < m ensures front[i].station != front[j].station {
      NamesDiffer(i, j);
    }
    forall r, x | r in front && x in rest ensures r.station != x.station {
      var i :| 0 <= i < m && front[i] == r;
      NamesDiffer(i, m);
    }
    OrderedInFront(front, rest);
  }

  // ----- what the log closes into -----

  lemma {:induction false} EpisodeAt(rows: seq<Row>, i: nat)
    requires i < |rows|
    ensures EpisodesFrom(rows)[i] == Close(rows[i], rows[i + 1..])
  {
    if i > 0 {
      EpisodeAt(rows[1..], i - 1);
      assert rows[1..][i..] == rows[i + 1..];
      assert EpisodesFrom(rows)[i] == EpisodesFrom(rows[1..])[i - 1];
    }
  }

  function Starving(i: nat, leadIn: nat): Episode {
    var r := Waiting(i, leadIn);
    Episode(r.station, r.state, r.at, None, r.reason, r.buffer)
  }

  function Stopped(m: nat, leadIn: nat): Episode {
    Episode(Name(m), Aborted, -TwoLeadIns(m, leadIn), Some(-TwoLeadIns(m, leadIn) + 1), None, None)
  }

  function Running(m: nat, leadIn: nat): Episode {
    Episode(Name(m), Execute, -TwoLeadIns(m, leadIn) + 1, None, None, None)
  }

  /** Episode `i` of the log. */
  function At(m: nat, leadIn: nat, i: nat): Episode {
    if i < m then Starving(i, leadIn) else if i == m then Stopped(m, leadIn) else Running(m, leadIn)
  }

  lemma TimelineAt(m: nat, leadIn: nat, i: nat)
    requires i < m + 2
    ensures EpisodesFrom(Log(m, leadIn))[i] == At(m, leadIn, i)
  {
    hide EpisodesFrom, Name;
    var rows := Log(m, leadIn);
    EpisodeAt(rows, i);
    if i < m + 1 {
      assert rows[i + 1..][0] == rows[i + 1];
      NamesDiffer(i, i + 1);
    }
  }

  lemma TimelineIs(m: nat, leadIn: nat)
    ensures EpisodesFrom(Log(m, leadIn)) == seq(m + 2, (i: nat) => At(m, leadIn, i))
  {
    hide EpisodesFrom, At;
    forall i | 0 <= i < m + 2 ensures EpisodesFrom(Log(m, leadIn))[i] == At(m, leadIn, i) {
      TimelineAt(m, leadIn, i);
    }
  }

  // ----- the chain -----

  function Known(m: nat, leadIn: nat): Evidence {
    Evidence(seq(m + 2, (i: nat) => At(m, leadIn, i)), Levels(m, leadIn), Line(m), leadIn)
  }

  lemma KnownIsFull(m: nat, leadIn: nat, to: int)
    requires 1 < to
    ensures FullEvidence(Log(m, leadIn), Levels(m, leadIn), Line(m), leadIn, to) == Known(m, leadIn)
  {
    hide EpisodesFrom, Name, At, Filter, Line;
    TimelineIs(m, leadIn);
    forall i: nat ensures TwoLeadIns(i, leadIn) >= 0 {
    }
    forall r | r in Log(m, leadIn) ensures Before(to)(r) {
    }
    FilterKeepsAll(Before(to), Log(m, leadIn));
    forall s | s in Levels(m, leadIn) ensures SampledBefore(to)(s) {
    }
    FilterKeepsAll(SampledBefore(to), Levels(m, leadIn));
  }

  lemma SinceIsHalfWay(m: nat, leadIn: nat, i: nat)
    requires i < m
    ensures ConditionSince(Levels(m, leadIn), Feeding(i), Starved, -TwoLeadIns(i, leadIn), leadIn)
         == Some(-TwoLeadIns(i, leadIn) - leadIn)
  {
    hide Name, ConditionSince, TwoLeadIns;
    var p := WithinHorizon(Name(i), -TwoLeadIns(i, leadIn), leadIn);
    forall j | 0 <= j < m ensures p(Levels(m, leadIn)[j]) <==> j == i {
      NamesDiffer(i, j);
    }
    FilterSole(p, Levels(m, leadIn), i);
    OneSampleSince(Levels(m, leadIn), Feeding(i), Starved, -TwoLeadIns(i, leadIn), leadIn, Empty(i, leadIn));
  }

  lemma NextAccounts(m: nat, leadIn: nat, i: nat)
    requires i < m && 0 < leadIn
    ensures ExplainingEpisode(Known(m, leadIn).timeline, Name(i + 1), -TwoLeadIns(i, leadIn) - leadIn, leadIn)
         == (Some(At(m, leadIn, i + 1)), [])
  {
    hide Name, TwoLeadIns, ChooseFrom;
    var since := -TwoLeadIns(i, leadIn) - leadIn;
    var p := AccountableIn(Name(i + 1), since, leadIn);
    OneLinkFurther(i + 1, leadIn);
    forall j | 0 <= j < m + 2 ensures p(At(m, leadIn, j)) <==> j == i + 1 {
      NamesDiffer(i + 1, if j < m then j else m);
    }
    FilterSole(p, Known(m, leadIn).timeline, i + 1);
    ChooseOnly(At(m, leadIn, i + 1), since);
  }

  function LinkAt(m: nat, leadIn: nat, i: nat): ChainLink {
    if i < m then ChainLink(At(m, leadIn, i), Some(Name(i)), Some(-TwoLeadIns(i, leadIn) - leadIn))
    else ChainLink(Stopped(m, leadIn), None, None)
  }

  lemma MovesOn(m: nat, leadIn: nat, i: nat)
    requires i < m && 0 < leadIn
    ensures MoveFrom(Known(m, leadIn), At(m, leadIn, i)) == Follow(LinkAt(m, leadIn, i), At(m, leadIn, i + 1), [])
  {
    hide Name, TwoLeadIns, ConditionSince, ExplainingEpisode, Topology.Link, Line, MoveFrom;
    LineLink(m, i);
    ReasonReadsBack(Starving(i, leadIn), Starved, Name(i));
    SinceIsHalfWay(m, leadIn, i);
    NextAccounts(m, leadIn, i);
    NamesDiffer(i, i + 1);
    SuspendedFollows(Known(m, leadIn), Starving(i, leadIn), Starved, Feeding(i), -TwoLeadIns(i, leadIn) - leadIn,
                     At(m, leadIn, i + 1), []);
  }

  function LinksFrom(m: nat, leadIn: nat, i: nat): seq<ChainLink>
    requires i <= m
    decreases m - i
  {
    [LinkAt(m, leadIn, i)] + if i == m then [] else LinksFrom(m, leadIn, i + 1)
  }

  lemma StationOf(m: nat, leadIn: nat, i: nat)
    requires i <= m
    ensures |At(m, leadIn, i).Step().0| == i + 1
  {
  }

  lemma EndsAtTheFault(m: nat, leadIn: nat)
    ensures At(m, leadIn, m) == Stopped(m, leadIn) && Stopped(m, leadIn).Kind() == CauseCandidate
    ensures LinkAt(m, leadIn, m) == ChainLink(Stopped(m, leadIn), None, None)
  {
  }

  lemma {:induction false} WalksOn(m: nat, leadIn: nat, i: nat, seen: set<(string, int)>, links: seq<ChainLink>)
    requires i <= m && 0 < leadIn && At(m, leadIn, i) in Known(m, leadIn).timeline
    requires forall s :: s in seen ==> |s.0| <= i
    ensures Walk(Known(m, leadIn), At(m, leadIn, i), seen, links, [])
         == Derivation(links + LinksFrom(m, leadIn, i), AtCause, [Stopped(m, leadIn)], None)
    decreases m - i
  {
    hide MoveFrom, Known, TwoLeadIns, Line, LinkAt, Walk, At, Name;
    var ev, e := Known(m, leadIn), At(m, leadIn, i);
    StationOf(m, leadIn, i);
    if i < m {
      MovesOn(m, leadIn, i);
      var move := Follow(LinkAt(m, leadIn, i), At(m, leadIn, i + 1), []);
      WalkFollows(ev, e, seen, links, [], move);
      WalksOn(m, leadIn, i + 1, seen + {e.Step()}, links + [move.link]);
      assert links + [move.link] + LinksFrom(m, leadIn, i + 1) == links + LinksFrom(m, leadIn, i);
      assert [] + move.extra == [];
    } else {
      EndsAtTheFault(m, leadIn);
      FaultStops(ev, e);
      WalkStops(ev, e, seen, links, []);
      assert LinksFrom(m, leadIn, m) == [LinkAt(m, leadIn, m)];
    }
  }

  lemma {:induction false} LinksAt(m: nat, leadIn: nat, i: nat)
    requires i <= m
    ensures |LinksFrom(m, leadIn, i)| == m - i + 1
    ensures forall k :: 0 <= k <= m - i ==> LinksFrom(m, leadIn, i)[k] == LinkAt(m, leadIn, i + k)
    decreases m - i
  {
    hide LinkAt;
    if i < m {
      LinksAt(m, leadIn, i + 1);
      forall k | 0 <= k <= m - i ensures LinksFrom(m, leadIn, i)[k] == LinkAt(m, leadIn, i + k) {
        assert k > 0 ==> LinksFrom(m, leadIn, i)[k] == LinksFrom(m, leadIn, i + 1)[k - 1];
      }
    }
  }

  lemma SeedIsStarving(m: nat, leadIn: nat)
    requires 0 < m
    ensures EpisodeCovering(Known(m, leadIn).timeline, Name(0), 0) == Some(At(m, leadIn, 0))
  {
    hide Name, TwoLeadIns;
    var p := CoveringAt(Name(0), 0);
    OneLinkFurther(1, leadIn);
    forall j | 0 <= j < m + 2 ensures p(At(m, leadIn, j)) <==> j == 0 {
      NamesDiffer(0, if j < m then j else m);
    }
    FilterSole(p, Known(m, leadIn).timeline, 0);
  }

  /** Over all of history the chain has m + 1 links, is fresh, and ends at the fault. */
  lemma WholeChain(m: nat, leadIn: nat)
    requires 0 < m && 0 < leadIn
    ensures (var d := Derive(Known(m, leadIn), Name(0), 0);
             d.Category() == Some(Internal) && |d.links| == m + 1 && Fresh(d.links, leadIn)
             && d.links[0].episode.fromTs == 0)
  {
    hide Name, TwoLeadIns, Walk, Line, EpisodeCovering;
    SeedIsStarving(m, leadIn);
    assert Known(m, leadIn).timeline[0] == At(m, leadIn, 0);
    WalksOn(m, leadIn, 0, {}, []);
    var links := LinksFrom(m, leadIn, 0);
    assert [] + links == links;
    LinksAt(m, leadIn, 0);
    OneLinkFurther(1, leadIn);
    forall i | 0 <= i < |links| - 1 ensures StartsInLeadIn(links, leadIn, i) {
      OneLinkFurther(i + 1, leadIn);
    }
  }

  /** The derivation at the tail over all of history. */
  function Whole(m: nat, leadIn: nat, to: int): Derivation {
    Derive(FullEvidence(Log(m, leadIn), Levels(m, leadIn), Line(m), leadIn, to), Name(0), 0)
  }

  /** The same over a read from `h`. */
  function Since(m: nat, leadIn: nat, h: int, to: int): Derivation {
    Derive(ReadEvidence(Log(m, leadIn), Levels(m, leadIn), Line(m), leadIn, h, to), Name(0), 0)
  }

  lemma WholeIs(m: nat, leadIn: nat, to: int)
    requires 0 < m && 0 < leadIn && 1 < to
    ensures (var d := Whole(m, leadIn, to);
             d.Category() == Some(Internal) && |d.links| == m + 1 && Fresh(d.links, leadIn)
             && d.links[0].episode.fromTs == 0)
  {
    hide Derive, Log, Levels, Line, Name, FullEvidence, Fresh, Known;
    KnownIsFull(m, leadIn, to);
    WholeChain(m, leadIn);
  }

  // ----- the read that loses it -----

  lemma NoFaultIsRead(m: nat, leadIn: nat, h: int, to: int, e: Episode)
    requires -TwoLeadIns(m, leadIn) + 1 < h <= to && e in StateEpisodes(Log(m, leadIn), h, to)
    ensures e.Kind() != CauseCandidate
    ensures e.Kind() == Consequence ==> exists i: nat :: i < m && e.reasonBuffer == Some(Name(i))
  {
    hide EpisodesFrom, Name, Filter, TwoLeadIns;
    var log := Log(m, leadIn);
    var rows := Filter(InRead(log, h, to), log);
    var k :| 0 <= k < |rows| && EpisodesFrom(rows)[k] == e;
    EpisodeAt(rows, k);
    assert rows[k] in log && InRead(log, h, to)(rows[k]);
    assert log[m] == Fault(m, leadIn) && log[m + 1] == Recovered(m, leadIn);
    assert log[m + 1] in log;
    assert !InRead(log, h, to)(Fault(m, leadIn));
    var i :| 0 <= i < |log| && log[i] == rows[k];
    assert i != m;
  }

  lemma NothingToEndAt(ev: Evidence, station: string, at: int)
    requires forall e :: e in ev.timeline ==> e.Kind() != CauseCandidate
    requires forall e :: e in ev.timeline && e.Kind() == Consequence ==> !NothingJoins(ev.topology, e)
    ensures Derive(ev, station, at).Category() == None
  {
    hide Derive, LeadsTo, NothingJoins, LacksOuterBuffer;
    DerivationIsSupported(ev, station, at);
  }

  lemma ShortReadLosesIt(m: nat, leadIn: nat, h: int, to: int)
    requires -TwoLeadIns(m, leadIn) + 1 < h <= to
    ensures Since(m, leadIn, h, to).Category() == None
  {
    hide StateEpisodes, Name, Line, Log, Levels, Derive;
    var ev := ReadEvidence(Log(m, leadIn), Levels(m, leadIn), Line(m), leadIn, h, to);
    forall e | e in ev.timeline
      ensures e.Kind() != CauseCandidate
      ensures e.Kind() == Consequence ==> !NothingJoins(ev.topology, e)
    {
      NoFaultIsRead(m, leadIn, h, to, e);
      if e.Kind() == Consequence {
        var i: nat :| i < m && e.reasonBuffer == Some(Name(i));
        LineLink(m, i);
        assert Joins(ev.topology, e, Feeding(i));
      }
    }
    NothingToEndAt(ev, Name(0), 0);
  }

  lemma LongReadKeepsIt(m: nat, leadIn: nat, to: int)
    requires 0 < m && 0 < leadIn && 1 < to
    ensures Since(m, leadIn, -TwoLeadIns(m, leadIn), to) == Whole(m, leadIn, to)
  {
    hide Derive, Log, Levels, Line, Name, FullEvidence, ReadEvidence, Fresh;
    LogIsOrdered(m, leadIn);
    WholeIs(m, leadIn, to);
    FreshChainsFit(Log(m, leadIn), Levels(m, leadIn), Line(m), leadIn, -TwoLeadIns(m, leadIn), to, Name(0), 0, m);
  }

  /** For every number of links there is a line on which a fresh chain of that many is complete over two
      lead-ins for each link but the last, and loses its category over any history two ticks shorter. */
  lemma FreshChainsNeedTwoLeadInsPerLink(m: nat, leadIn: nat, to: int)
    requires 0 < m && 0 < leadIn && 1 < to
    ensures Ordered(Log(m, leadIn))
    ensures (var d := Whole(m, leadIn, to);
             && d.Category() == Some(Internal) && |d.links| == m + 1 && Fresh(d.links, leadIn)
             && d == Since(m, leadIn, -TwoLeadIns(m, leadIn), to))
    ensures forall h :: -TwoLeadIns(m, leadIn) + 1 < h <= 0 ==> Since(m, leadIn, h, to).Category() == None
  {
    hide *;
    LogIsOrdered(m, leadIn);
    WholeIs(m, leadIn, to);
    LongReadKeepsIt(m, leadIn, to);
    forall h | -TwoLeadIns(m, leadIn) + 1 < h <= 0 ensures Since(m, leadIn, h, to).Category() == None {
      ShortReadLosesIt(m, leadIn, h, to);
    }
  }

  /** So no fewer lead-ins than two for each link but the last will do for every fresh chain, and one for
      each link is too little as soon as there are three. */
  lemma FewerLeadInsLoseIt(m: nat, leadIn: nat, k: nat, to: int)
    requires 0 < m && 1 < leadIn && k < 2 * m && 1 < to
    ensures Whole(m, leadIn, to).Category() == Some(Internal)
    ensures Since(m, leadIn, -(k * leadIn), to).Category() == None
  {
    hide *;
    FreshChainsNeedTwoLeadInsPerLink(m, leadIn, to);
    var h := -(k * leadIn);
    assert -TwoLeadIns(m, leadIn) + 1 < h <= 0 by { Shorter(m, leadIn, k); }
  }

  lemma Shorter(m: nat, leadIn: nat, k: nat)
    requires 1 < leadIn && k < 2 * m
    ensures -TwoLeadIns(m, leadIn) + 1 < -(k * leadIn) <= 0
  {
    assert TwoLeadIns(m, leadIn) == (2 * m - k) * leadIn + k * leadIn;
    assert (2 * m - k) * leadIn >= leadIn by { assert (2 * m - k - 1) * leadIn >= 0; }
  }
}
