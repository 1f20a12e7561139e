/**
 When an ambiguous derivation really has several faults, said of the timeline before anything is
 derived from it: which episodes lie behind which, and which faults each of them has in reach.
 */
module Faults {
  import opened Sequences
  import opened Propagation
  import opened Chains
  import opened Causes
  import opened Reads
  import opened StopDerivation
  import opened Depth

  // ----- behind an episode -----

  /** The episode the walk would go on to from `e`. */
  function Successor(ev: Evidence, e: Episode): Option<Episode> {
    match MoveFrom(ev, e)
    case Follow(_, next, _) => Some(next)
    case Stop(_, _, _) => None
  }

  /** The faults in reach of the link out of `e`. */
  function Reach(ev: Evidence, e: Episode): set<Episode> {
    FaultsInReach(ev, MoveFrom(ev, e).link)
  }

  ghost predicate GoesTo(ev: Evidence, path: seq<Episode>, i: int)
    requires 0 <= i < |path| - 1
  {
    Successor(ev, path[i]) == Some(path[i + 1])
  }

  ghost predicate IsPath(ev: Evidence, path: seq<Episode>, e: Episode, f: Episode) {
    && path != [] && path[0] == e && path[|path| - 1] == f
    && forall i :: 0 <= i < |path| - 1 ==> GoesTo(ev, path, i)
  }

  /** `f` lies behind `e`, or is `e`. */
  ghost predicate Behind(ev: Evidence, e: Episode, f: Episode) {
    exists path :: IsPath(ev, path, e, f)
  }

  /** `fault` is in reach of something behind `e`, or lies behind it itself. */
  ghost predicate Blamed(ev: Evidence, e: Episode, fault: Episode) {
    exists f :: Behind(ev, e, f) && (fault in Reach(ev, f) || (f == fault && fault.Kind() == CauseCandidate))
  }

  ghost predicate Reaches2(ev: Evidence, e: Episode, f: Episode, g: Episode, fault: Episode) {
    f != g && Behind(ev, e, f) && Behind(ev, e, g) && fault in Reach(ev, f) && fault in Reach(ev, g)
  }

  /** Two different episodes behind `e` have `fault` in reach. */
  ghost predicate Doubled(ev: Evidence, e: Episode, fault: Episode) {
    exists f, g :: Reaches2(ev, e, f, g, fault)
  }

  /** Something behind `e` is where a walk ends with an explanation. */
  ghost predicate Finishes(ev: Evidence, e: Episode) {
    exists f :: Behind(ev, e, f) && MoveFrom(ev, f).Stop? && MoveFrom(ev, f).termination != Unfinished
  }

  /** A walk from `e` counts one fault twice and meets no other. */
  ghost predicate Misleads(ev: Evidence, e: Episode) {
    Finishes(ev, e) && exists fault :: Doubled(ev, e, fault) && forall g :: Blamed(ev, e, g) ==> g == fault
  }

  // ----- a chain holds exactly what lies behind its seed -----

  lemma LinkGoesOn(ev: Evidence, d: Derivation, i: nat)
    requires d.links != [] && CandidatesOf(ev, d) && i < |d.links| - 1 && IsMove(ev, d.links[i])
    ensures Successor(ev, d.links[i].episode) == Some(d.links[i + 1].episode)
  {
    hide Explaining, Gathered, MoveFrom;
    MoveMatches(ev, d.links[i].episode);
    assert FindsNext(ev, d.links, i);
  }

  lemma LinkIsBehind(ev: Evidence, d: Derivation, i: nat)
    requires d.links != [] && CandidatesOf(ev, d) && i < |d.links|
    requires forall l :: l in d.links ==> IsMove(ev, l)
    ensures Behind(ev, d.links[0].episode, d.links[i].episode)
  {
    hide CandidatesOf, IsMove, Successor;
    var path := Episodes(d.links[..i + 1]);
    forall k | 0 <= k < |path| - 1 ensures GoesTo(ev, path, k) {
      assert d.links[k] in d.links;
      LinkGoesOn(ev, d, k);
    }
    assert IsPath(ev, path, d.links[0].episode, d.links[i].episode);
  }

  ghost predicate Holds(links: seq<ChainLink>, e: Episode) {
    exists i :: 0 <= i < |links| && links[i].episode == e
  }

  lemma SuccessorIsHeld(ev: Evidence, d: Derivation, e: Episode)
    requires UniqueSteps(ev.timeline) && d.links != [] && CandidatesOf(ev, d)
    requires forall l :: l in d.links ==> IsMove(ev, l)
    requires Holds(d.links, e) && Successor(ev, e).Some?
    ensures Holds(d.links, Successor(ev, e).value)
  {
    hide Explaining, Gathered, UniqueSteps, MoveFrom;
    var i :| 0 <= i < |d.links| && d.links[i].episode == e;
    assert d.links[i] in d.links;
    if i < |d.links| - 1 {
      LinkGoesOn(ev, d, i);
    } else {
      MoveMatches(ev, e);
      NextIsOnTheTimeline(ev, e);
      var next := Successor(ev, e).value;
      var k :| 0 <= k < |d.links| && d.links[k].episode.Step() == next.Step();
      assert d.links[k] in d.links;
      SameStepSameEpisode(ev.timeline, d.links[k].episode, next);
    }
  }

  lemma {:induction false} PathIsHeld(ev: Evidence, d: Derivation, path: seq<Episode>, e: Episode, f: Episode)
    requires UniqueSteps(ev.timeline) && d.links != [] && CandidatesOf(ev, d)
    requires forall l :: l in d.links ==> IsMove(ev, l)
    requires IsPath(ev, path, e, f) && Holds(d.links, e)
    ensures Holds(d.links, f)
    decreases |path|
  {
    hide CandidatesOf, IsMove, UniqueSteps, Successor, Holds;
    if |path| > 1 {
      assert GoesTo(ev, path, 0);
      SuccessorIsHeld(ev, d, e);
      var rest := path[1..];
      forall i | 0 <= i < |rest| - 1 ensures GoesTo(ev, rest, i) {
        assert GoesTo(ev, path, i + 1);
      }
      PathIsHeld(ev, d, rest, path[1], f);
    }
  }

  /** A derivation from `seed`, and what is known of it before it is looked at. */
  ghost predicate DerivedFrom(ev: Evidence, d: Derivation, seed: Episode) {
    && d.links != [] && d.links[0].episode == seed
    && CandidatesOf(ev, d) && Supported(ev, d.links) && EndJustified(ev, d)
    && forall l :: l in d.links ==> IsMove(ev, l)
  }

  lemma HeldExactlyWhenBehind(ev: Evidence, d: Derivation, seed: Episode, f: Episode)
    requires UniqueSteps(ev.timeline) && DerivedFrom(ev, d, seed)
    ensures Holds(d.links, f) <==> Behind(ev, seed, f)
  {
    hide CandidatesOf, IsMove, UniqueSteps, Supported, EndJustified, IsPath;
    if i :| 0 <= i < |d.links| && d.links[i].episode == f {
      LinkIsBehind(ev, d, i);
    }
    if Behind(ev, seed, f) {
      var path :| IsPath(ev, path, seed, f);
      PathIsHeld(ev, d, path, seed, f);
    }
  }

  lemma SeededDerivation(ev: Evidence, station: string, at: int)
    requires EpisodeCovering(ev.timeline, station, at).Some?
    ensures DerivedFrom(ev, Derive(ev, station, at), EpisodeCovering(ev.timeline, station, at).value)
  {
    hide Derive, CandidatesOf, IsMove, Supported, EndJustified;
    var seed := EpisodeCovering(ev.timeline, station, at).value;
    DeriveFromSeed(ev, station, at, seed);
    DerivationIsSupported(ev, station, at);
    DerivationCollects(ev, station, at);
    DerivedLinksAreMoves(ev, station, at);
  }

  // ----- how a walk ends -----

  lemma {:induction false} WalkEnds(
    ev: Evidence, current: Episode, seen: set<(string, int)>, links: seq<ChainLink>, candidates: seq<Episode>)
    requires current in ev.timeline && seen == UsedSteps(links)
    requires links != [] ==> Successor(ev, links[|links| - 1].episode) == Some(current)
    ensures (var d := Walk(ev, current, seen, links, candidates);
             d.links != [] && EndsAsItStops(ev, d))
    decreases |Steps(ev.timeline) - seen|
  {
    hide MoveFrom, EndsAsItStops;
    if current.Step() in seen {
      var l :| l in links && l.episode.Step() == current.Step();
      Returned(ev, Walk(ev, current, seen, links, candidates));
    } else {
      var move := MoveFrom(ev, current);
      MoveLinksItsEpisode(ev, current);
      if move.Follow? {
        NextIsOnTheTimeline(ev, current);
        FewerSteps(ev.timeline, seen, current);
        UsedStepsAppend(links, move.link);
        WalkEnds(ev, move.next, seen + {current.Step()}, links + [move.link], candidates + move.extra);
      } else {
        Stopped(ev, current, Walk(ev, current, seen, links, candidates));
      }
    }
  }

  ghost predicate EndsAsItStops(ev: Evidence, d: Derivation)
    requires d.links != []
  {
    match MoveFrom(ev, d.links[|d.links| - 1].episode)
    case Stop(_, termination, _) => d.termination == termination
    case Follow(_, _, _) => d.termination == Unfinished
  }

  lemma Returned(ev: Evidence, d: Derivation)
    requires d.links != [] && d.termination == Unfinished && Successor(ev, d.links[|d.links| - 1].episode).Some?
    ensures EndsAsItStops(ev, d)
  {
  }

  lemma Stopped(ev: Evidence, e: Episode, d: Derivation)
    requires MoveFrom(ev, e).Stop? && d.links != [] && d.links[|d.links| - 1].episode == e
    requires d.termination == MoveFrom(ev, e).termination
    ensures EndsAsItStops(ev, d)
  {
  }

  /** A walk finishes exactly when an end with an explanation lies behind its seed. */
  lemma FinishedExactlyWhenAhead(ev: Evidence, d: Derivation, seed: Episode)
    requires UniqueSteps(ev.timeline) && DerivedFrom(ev, d, seed) && EndsAsItStops(ev, d)
    ensures d.termination != Unfinished <==> Finishes(ev, seed)
  {
    hide CandidatesOf, UniqueSteps, Supported, EndJustified, MoveFrom, Behind;
    var last := |d.links| - 1;
    assert Holds(d.links, d.links[last].episode);
    HeldExactlyWhenBehind(ev, d, seed, d.links[last].episode);
    if Finishes(ev, seed) {
      var f :| Behind(ev, seed, f) && MoveFrom(ev, f).Stop? && MoveFrom(ev, f).termination != Unfinished;
      HeldExactlyWhenBehind(ev, d, seed, f);
      var i :| 0 <= i < |d.links| && d.links[i].episode == f;
      if i < last {
        assert d.links[i] in d.links;
        LinkGoesOn(ev, d, i);
      }
    }
  }

  // ----- candidates, said of the timeline -----

  lemma LinkReach(ev: Evidence, l: ChainLink)
    requires IsMove(ev, l)
    ensures FaultsInReach(ev, l) == Reach(ev, l.episode)
  {
  }

  lemma CandidatesAreBlamed(ev: Evidence, station: string, at: int, seed: Episode, fault: Episode)
    requires UniqueSteps(ev.timeline) && EpisodeCovering(ev.timeline, station, at) == Some(seed)
    ensures fault in Derive(ev, station, at).candidates <==> Blamed(ev, seed, fault)
  {
    hide Derive, CandidatesOf, IsMove, Supported, EndJustified, Behind, Reach, FaultsInReach, UniqueSteps;
    var d := Derive(ev, station, at);
    SeededDerivation(ev, station, at);
    CandidatesAreTheFaultsInReach(ev, station, at, fault);
    FaultIsTheEnd(ev, d);
    if l :| l in d.links && fault in FaultsInReach(ev, l) {
      var i :| 0 <= i < |d.links| && d.links[i] == l;
      LinkReach(ev, l);
      assert Holds(d.links, l.episode);
      HeldExactlyWhenBehind(ev, d, seed, l.episode);
    }
    if d.termination == AtCause {
      var last := d.links[|d.links| - 1].episode;
      assert Holds(d.links, last);
      HeldExactlyWhenBehind(ev, d, seed, last);
    }
    if Blamed(ev, seed, fault) {
      var f :| Behind(ev, seed, f) && (fault in Reach(ev, f) || (f == fault && fault.Kind() == CauseCandidate));
      HeldExactlyWhenBehind(ev, d, seed, f);
      var i :| 0 <= i < |d.links| && d.links[i].episode == f;
      assert d.links[i] in d.links;
      LinkReach(ev, d.links[i]);
    }
  }

  lemma SharedIsDoubled(ev: Evidence, d: Derivation, seed: Episode, i: int, j: int)
    requires UniqueSteps(ev.timeline) && DerivedFrom(ev, d, seed)
    requires 0 <= i < j < |d.links| && FaultsInReach(ev, d.links[i]) * FaultsInReach(ev, d.links[j]) != {}
    ensures exists fault :: Doubled(ev, seed, fault)
  {
    hide CandidatesOf, IsMove, EndJustified, Behind, Reach, FaultsInReach, UniqueSteps, LeadsOn;
    var links := d.links;
    var fault :| fault in FaultsInReach(ev, links[i]) * FaultsInReach(ev, links[j]);
    assert links[i] in links && links[j] in links;
    LinkReach(ev, links[i]);
    LinkReach(ev, links[j]);
    assert Holds(links, links[i].episode) && Holds(links, links[j].episode);
    HeldExactlyWhenBehind(ev, d, seed, links[i].episode);
    HeldExactlyWhenBehind(ev, d, seed, links[j].episode);
    assert links[i].episode.Step() != links[j].episode.Step();
    assert Reaches2(ev, seed, links[i].episode, links[j].episode, fault);
    assert Doubled(ev, seed, fault);
  }

  lemma DoubledIsShared(ev: Evidence, d: Derivation, seed: Episode, fault: Episode)
    requires UniqueSteps(ev.timeline) && DerivedFrom(ev, d, seed) && Doubled(ev, seed, fault)
    ensures SharedFault(ev, d.links)
  {
    hide CandidatesOf, IsMove, EndJustified, Supported, Behind, Reach, FaultsInReach, UniqueSteps, SharedFault;
    var links := d.links;
    var f, g :| Reaches2(ev, seed, f, g, fault);
    HeldExactlyWhenBehind(ev, d, seed, f);
    HeldExactlyWhenBehind(ev, d, seed, g);
    var i :| 0 <= i < |links| && links[i].episode == f;
    var j :| 0 <= j < |links| && links[j].episode == g;
    assert links[i] in links && links[j] in links;
    LinkReach(ev, links[i]);
    LinkReach(ev, links[j]);
    SharedBetween(ev, links, if i < j then i else j, if i < j then j else i, fault);
  }

  lemma SharedExactlyWhenDoubled(ev: Evidence, d: Derivation, seed: Episode)
    requires UniqueSteps(ev.timeline) && DerivedFrom(ev, d, seed)
    ensures SharedFault(ev, d.links) <==> exists fault :: Doubled(ev, seed, fault)
  {
    hide DerivedFrom, Doubled, FaultsInReach, UniqueSteps;
    if i, j :| 0 <= i < j < |d.links| && FaultsInReach(ev, d.links[i]) * FaultsInReach(ev, d.links[j]) != {} {
      SharedIsDoubled(ev, d, seed, i, j);
    }
    if fault :| Doubled(ev, seed, fault) {
      DoubledIsShared(ev, d, seed, fault);
    }
  }

  lemma SharedBetween(ev: Evidence, links: seq<ChainLink>, i: int, j: int, fault: Episode)
    requires 0 <= i < j < |links| && fault in FaultsInReach(ev, links[i]) && fault in FaultsInReach(ev, links[j])
    ensures SharedFault(ev, links)
  {
    hide FaultsInReach;
    assert fault in FaultsInReach(ev, links[i]) * FaultsInReach(ev, links[j]);
  }

  // ----- what an ambiguous category means -----

  /** Two different faults among the candidates. */
  ghost predicate TwoFaults(d: Derivation) {
    exists a, b :: a in d.candidates && b in d.candidates && a != b
  }

  lemma RepeatsOrDiffers(candidates: seq<Episode>)
    ensures |candidates| > 1 <==>
            (exists a, b :: a in candidates && b in candidates && a != b) || !Distinct(candidates)
  {
    if |candidates| > 1 {
      assert candidates[0] in candidates && candidates[1] in candidates;
    } else if |candidates| == 1 {
      assert forall a :: a in candidates ==> a == candidates[0];
    }
  }

  lemma DerivationEnds(ev: Evidence, station: string, at: int)
    requires EpisodeCovering(ev.timeline, station, at).Some?
    ensures Derive(ev, station, at).links != [] && EndsAsItStops(ev, Derive(ev, station, at))
  {
    WalkEnds(ev, EpisodeCovering(ev.timeline, station, at).value, {}, [], []);
  }

  lemma DoubledIsBlamed(ev: Evidence, e: Episode, fault: Episode)
    requires Doubled(ev, e, fault)
    ensures Blamed(ev, e, fault)
  {
    hide Behind, Reach;
    var f, g :| Reaches2(ev, e, f, g, fault);
  }

  /** A derivation is ambiguous exactly when its seed finishes and either two different faults are to blame
      behind it or one is counted twice. */
  lemma AmbiguousExactlyWhen(ev: Evidence, station: string, at: int, seed: Episode)
    requires UniqueSteps(ev.timeline) && EpisodeCovering(ev.timeline, station, at) == Some(seed)
    ensures Derive(ev, station, at).Category() == Some(Ambiguous) <==>
            && Finishes(ev, seed)
            && ((exists a, b :: Blamed(ev, seed, a) && Blamed(ev, seed, b) && a != b)
                || exists fault :: Doubled(ev, seed, fault))
  {
    hide Derive, DerivedFrom, Blamed, Doubled, Finishes, UniqueSteps, EndsAsItStops, SharedFault, Distinct;
    var d := Derive(ev, station, at);
    SeededDerivation(ev, station, at);
    DerivationEnds(ev, station, at);
    CategoryIsTotal(ev, station, at);
    FinishedExactlyWhenAhead(ev, d, seed);
    forall fault ensures fault in d.candidates <==> Blamed(ev, seed, fault) {
      CandidatesAreBlamed(ev, station, at, seed, fault);
    }
    CandidatesRepeatExactlyWhenShared(ev, station, at);
    SharedExactlyWhenDoubled(ev, d, seed);
    RepeatsOrDiffers(d.candidates);
  }

  /** An ambiguous derivation names two different faults exactly when its seed does not mislead: it does
      not double the only fault there is to blame. */
  lemma AmbiguousMeansTwoFaults(ev: Evidence, station: string, at: int, seed: Episode)
    requires UniqueSteps(ev.timeline) && EpisodeCovering(ev.timeline, station, at) == Some(seed)
    ensures (var d := Derive(ev, station, at);
             d.Category() == Some(Ambiguous) && !TwoFaults(d) <==> Misleads(ev, seed))
  {
    hide Derive, Blamed, Doubled, Finishes, UniqueSteps;
    var d := Derive(ev, station, at);
    AmbiguousExactlyWhen(ev, station, at, seed);
    forall fault ensures fault in d.candidates <==> Blamed(ev, seed, fault) {
      CandidatesAreBlamed(ev, station, at, seed, fault);
    }
    forall fault | Doubled(ev, seed, fault) ensures fault in d.candidates {
      DoubledIsBlamed(ev, seed, fault);
    }
  }

  ghost predicate Honest(d: Derivation) {
    d.Category() == Some(Ambiguous) ==> TwoFaults(d)
  }

  /** Over a closed log, ambiguous means two faults for every station and instant exactly when no episode
      of the log misleads. */
  lemma AmbiguityIsHonest(rows: seq<Row>, ev: Evidence)
    requires Ordered(rows) && ev.timeline == EpisodesFrom(rows)
    ensures (forall station, at :: Honest(Derive(ev, station, at))) <==>
            (forall e :: e in ev.timeline ==> !Misleads(ev, e))
  {
    hide Derive, Misleads, UniqueSteps, Ordered, EpisodesFrom, TwoFaults, EpisodeCovering;
    ClosedEpisodesAreUnique(rows);
    forall station, at | (forall e :: e in ev.timeline ==> !Misleads(ev, e)) ensures Honest(Derive(ev, station, at)) {
      HonestUnlessMisled(ev, station, at);
    }
    forall e | e in ev.timeline && Misleads(ev, e) ensures !Honest(Derive(ev, e.station, e.fromTs)) {
      var i :| 0 <= i < |rows| && EpisodesFrom(rows)[i] == e;
      CoveringItsStart(rows, i);
      AmbiguousMeansTwoFaults(ev, e.station, e.fromTs, e);
    }
  }

  lemma HonestUnlessMisled(ev: Evidence, station: string, at: int)
    requires UniqueSteps(ev.timeline) && forall e :: e in ev.timeline ==> !Misleads(ev, e)
    ensures Honest(Derive(ev, station, at))
  {
    hide Misleads, UniqueSteps, TwoFaults, Walk;
    var seed := EpisodeCovering(ev.timeline, station, at);
    if seed.Some? {
      AmbiguousMeansTwoFaults(ev, station, at, seed.value);
    }
  }

  // ----- two simple conditions -----

  /** No two `Suspended` episodes have a fault in reach of both. */
  ghost predicate NoCommonFault(ev: Evidence) {
    forall e, f :: e in ev.timeline && f in ev.timeline && e != f ==> Reach(ev, e) * Reach(ev, f) == {}
  }

  lemma PathStaysOnTimeline(ev: Evidence, path: seq<Episode>, e: Episode, f: Episode)
    requires IsPath(ev, path, e, f) && e in ev.timeline
    ensures f in ev.timeline
  {
    if |path| > 1 {
      assert GoesTo(ev, path, |path| - 2);
      NextIsOnTheTimeline(ev, path[|path| - 2]);
    }
  }

  /** Then ambiguous always means two faults. */
  lemma NoCommonFaultIsHonest(ev: Evidence, station: string, at: int)
    requires UniqueSteps(ev.timeline) && NoCommonFault(ev)
    ensures Honest(Derive(ev, station, at))
  {
    hide UniqueSteps, TwoFaults, Walk, Reach, Finishes, Blamed, EpisodeCovering, IsPath;
    forall e | e in ev.timeline ensures !Misleads(ev, e) {
      forall fault ensures !Doubled(ev, e, fault) {
        NothingDoubled(ev, e, fault);
      }
    }
    HonestUnlessMisled(ev, station, at);
  }

  lemma NothingDoubled(ev: Evidence, e: Episode, fault: Episode)
    requires NoCommonFault(ev) && e in ev.timeline
    ensures !Doubled(ev, e, fault)
  {
    hide Reach, Behind;
    forall f | Behind(ev, e, f) ensures f in ev.timeline {
      BehindStaysOnTimeline(ev, e, f);
    }
    forall f, g ensures fault in Reach(ev, f) && fault in Reach(ev, g) ==> fault in Reach(ev, f) * Reach(ev, g) {
    }
  }

  lemma BehindStaysOnTimeline(ev: Evidence, e: Episode, f: Episode)
    requires Behind(ev, e, f) && e in ev.timeline
    ensures f in ev.timeline
  {
    hide IsPath;
    var path :| IsPath(ev, path, e, f);
    PathStaysOnTimeline(ev, path, e, f);
  }

  /** The station of its own that a buffer row starves or blocks. */
  function NearSide(l: BufferLink, direction: Direction): string {
    if direction == Starved then l.downstream else l.upstream
  }

  ghost predicate WaitsOneWay(topology: Topology, e: Episode, direction: Direction) {
    && e.Direction() == Some(direction) && e.reasonBuffer.Some?
    && forall l :: l in topology.links && l.buffer == e.reasonBuffer.value ==> NearSide(l, direction) == e.station
  }

  /** A line whose buffers do not go round, on which everything that waited for a buffer of the line waited
      for its own, all in one direction. What waited beyond the line may have waited either way. */
  ghost predicate OneWay(ev: Evidence, direction: Direction, place: string -> int) {
    && (forall l :: l in ev.topology.links ==> place(l.upstream) < place(l.downstream))
    && (forall e :: e in ev.timeline && e.state == Suspended ==>
          ConnectingLink(ev.topology, e, e.Direction()).None? || WaitsOneWay(ev.topology, e, direction))
  }

  /** How far along the walk a station lies: upstream when the line starved, downstream when it blocked. */
  function Along(direction: Direction, place: string -> int, station: string): int {
    if direction == Starved then -place(station) else place(station)
  }

  lemma LinkGoesAlong(ev: Evidence, direction: Direction, place: string -> int, l: ChainLink)
    requires OneWay(ev, direction, place) && IsMove(ev, l) && LooksTo(ev, l).Some?
    ensures Along(direction, place, l.episode.station) < Along(direction, place, LooksTo(ev, l).value)
  {
    var e := l.episode;
    assert e.state == Suspended;
    assert WaitsOneWay(ev.topology, e, direction);
    var via := ev.topology.Link(e.reasonBuffer.value).value;
    assert via in ev.topology.links && NamedBuffer(e.reasonBuffer.value)(via);
  }

  lemma LooksToNext(ev: Evidence, d: Derivation, i: nat)
    requires d.links != [] && CandidatesOf(ev, d) && i < |d.links| - 1
    ensures LooksTo(ev, d.links[i]) == Some(d.links[i + 1].episode.station)
  {
    hide Gathered, LooksTo, Explaining;
    assert FindsNext(ev, d.links, i);
    ExplanationStandsWhereLooked(ev, d.links[i], d.links[i + 1].episode);
  }

  lemma ExplanationStandsWhereLooked(ev: Evidence, l: ChainLink, e: Episode)
    requires Explaining(ev, l) == Some(e)
    ensures LooksTo(ev, l) == Some(e.station)
  {
    ExplainingAccounts(ev, LooksTo(ev, l).value, l.since.value);
  }

  lemma {:induction false} ChainGoesAlong(
    ev: Evidence, direction: Direction, place: string -> int, d: Derivation, i: nat, j: nat)
    requires OneWay(ev, direction, place) && d.links != [] && CandidatesOf(ev, d)
    requires forall l :: l in d.links ==> IsMove(ev, l)
    requires i < j < |d.links|
    ensures LooksTo(ev, d.links[i]).Some?
    ensures Along(direction, place, LooksTo(ev, d.links[i]).value) <= Along(direction, place, d.links[j].episode.station)
    decreases j
  {
    hide OneWay, CandidatesOf, IsMove, LooksTo, Along;
    LooksToNext(ev, d, i);
    if i < j - 1 {
      ChainGoesAlong(ev, direction, place, d, i, j - 1);
      LooksToNext(ev, d, j - 1);
      assert d.links[j - 1] in d.links;
      LinkGoesAlong(ev, direction, place, d.links[j - 1]);
    }
  }

  lemma FaultsStandWhereLooked(ev: Evidence, l: ChainLink, fault: Episode)
    requires fault in FaultsInReach(ev, l)
    ensures LooksTo(ev, l) == Some(fault.station)
  {
    hide LooksTo;
  }

  /** On such a line no fault is ever counted twice, so ambiguous always means two faults. */
  lemma OneWayIsHonest(ev: Evidence, direction: Direction, place: string -> int, station: string, at: int)
    requires UniqueSteps(ev.timeline) && OneWay(ev, direction, place)
    ensures Distinct(Derive(ev, station, at).candidates) && Honest(Derive(ev, station, at))
  {
    hide OneWay, CandidatesOf, IsMove, LooksTo, Along, Derive, UniqueSteps, Supported, EndJustified, FaultsInReach;
    var d := Derive(ev, station, at);
    DerivationIsSupported(ev, station, at);
    if d.links != [] {
      DerivationCollects(ev, station, at);
      DerivedLinksAreMoves(ev, station, at);
      forall i, j | 0 <= i < j < |d.links|
        ensures FaultsInReach(ev, d.links[i]) * FaultsInReach(ev, d.links[j]) == {}
      {
        LooksElsewhere(ev, direction, place, d, i, j);
      }
    }
    CandidatesRepeatExactlyWhenShared(ev, station, at);
    DistinctIsHonest(d);
  }

  lemma LooksElsewhere(ev: Evidence, direction: Direction, place: string -> int, d: Derivation, i: nat, j: nat)
    requires OneWay(ev, direction, place) && d.links != [] && CandidatesOf(ev, d)
    requires forall l :: l in d.links ==> IsMove(ev, l)
    requires i < j < |d.links|
    ensures FaultsInReach(ev, d.links[i]) * FaultsInReach(ev, d.links[j]) == {}
  {
    hide OneWay, CandidatesOf, IsMove, LooksTo, FaultsInReach;
    ChainGoesAlong(ev, direction, place, d, i, j);
    assert d.links[j] in d.links;
    if LooksTo(ev, d.links[j]).Some? {
      LinkGoesAlong(ev, direction, place, d.links[j]);
    }
    forall fault ensures fault !in FaultsInReach(ev, d.links[i]) * FaultsInReach(ev, d.links[j]) {
      if fault in FaultsInReach(ev, d.links[i]) { FaultsStandWhereLooked(ev, d.links[i], fault); }
      if fault in FaultsInReach(ev, d.links[j]) { FaultsStandWhereLooked(ev, d.links[j], fault); }
    }
  }

  lemma DistinctIsHonest(d: Derivation)
    requires Distinct(d.candidates)
    ensures Honest(d)
  {
    if |d.candidates| > 1 {
      assert d.candidates[0] in d.candidates && d.candidates[1] in d.candidates;
    }
  }
}
