/**
 Two claims of the source that do not hold of every history, each with a concrete history.

 `config.py` reads six lead-ins of history because a chain applies its lead-in again at every link;
 an episode may have begun long before the lead-in it overlaps, so no multiple is enough.
 `propagation.py` reads several cause candidates as several faults; one fault that two links
 reach is listed twice. `Settled` and `Faults` say exactly when the claims do hold.
 */
module Limits {
  import opened Sequences
  import opened Propagation
  import opened Reads
  import opened Horizon

  // ----- evaluating short inputs -----

  lemma FilterTwo<T(!new)>(p: T -> bool, x: T, y: T)
    ensures Filter(p, [x]) == if p(x) then [x] else []
    ensures Filter(p, [x, y]) == (if p(x) then [x] else []) + (if p(y) then [y] else [])
  {
    assert [x][1..] == [];
    assert [x, y][1..] == [y];
  }

  lemma FilterThree<T(!new)>(p: T -> bool, x: T, y: T, z: T)
    ensures Filter(p, [x, y, z]) == (if p(x) then [x] else []) + ((if p(y) then [y] else []) + (if p(z) then [z] else []))
  {
    FilterTwo(p, y, z);
    assert [x, y, z][1..] == [y, z];
  }

  lemma FilterFour<T(!new)>(p: T -> bool, w: T, x: T, y: T, z: T)
    ensures Filter(p, [w, x, y, z])
         == (if p(w) then [w] else []) + ((if p(x) then [x] else []) + ((if p(y) then [y] else []) + (if p(z) then [z] else [])))
  {
    FilterThree(p, x, y, z);
    assert [w, x, y, z][1..] == [x, y, z];
  }

  lemma FilterFive<T(!new)>(p: T -> bool, v: T, w: T, x: T, y: T, z: T)
    ensures Filter(p, [v, w, x, y, z]) == (if p(v) then [v] else []) + Filter(p, [w, x, y, z])
  {
    assert [v, w, x, y, z][1..] == [w, x, y, z];
  }

  lemma SortTwo<T(!new)>(le: (T, T) -> bool, x: T, y: T)
    requires le(x, y)
    ensures Sort(le, [x]) == [x] && Sort(le, [x, y]) == [x, y]
  {
    assert [x][1..] == [] && [y][1..] == [];
    assert [x, y][1..] == [y];
    assert Sort(le, [y]) == Insert(le, y, []);
    assert Sort(le, [x, y]) == Insert(le, x, [y]);
  }

  lemma ChooseOnly(e: Episode, since: int)
    ensures ChooseFrom([e], since) == (Some(e), [])
  {
    assert [e][..0] + [e][1..] == [];
  }

  /** The recorded reason reads back as the direction and the detail it was rendered from. */
  lemma ReasonReadsBack(e: Episode, direction: Direction, detail: string)
    requires e.reason == Some((if direction == Starved then "starved" else "blocked") + ":" + detail)
    ensures e.Direction() == Some(direction) && e.ReasonDetail() == Some(detail)
  {
    var word := if direction == Starved then "starved" else "blocked";
    var reason := e.reason.value;
    assert reason[|word|] == ':' && reason[..|word|] == word;
    assert ':' in reason;
    ColonIsFirst(reason);
    var colon := Colon(reason).value;
    assert forall i :: 0 <= i < |word| ==> reason[i] == word[i] != ':';
    assert forall i :: 0 <= i < colon ==> reason[i] in reason[..colon];
    assert reason[|word| + 1..] == detail;
  }

  lemma WalkFollows(
    ev: Evidence, e: Episode, seen: set<(string, int)>, links: seq<ChainLink>, candidates: seq<Episode>, move: Move)
    requires e in ev.timeline && e.Step() !in seen && MoveFrom(ev, e) == move && move.Follow?
    ensures move.next in ev.timeline
    ensures Walk(ev, e, seen, links, candidates)
         == Walk(ev, move.next, seen + {e.Step()}, links + [move.link], candidates + move.extra)
  {
    NextIsOnTheTimeline(ev, e);
  }

  lemma WalkStops(ev: Evidence, e: Episode, seen: set<(string, int)>, links: seq<ChainLink>, candidates: seq<Episode>)
    requires e in ev.timeline && e.Step() !in seen && MoveFrom(ev, e).Stop?
    ensures Walk(ev, e, seen, links, candidates)
         == Derivation(links + [MoveFrom(ev, e).link], MoveFrom(ev, e).termination,
                       if MoveFrom(ev, e).termination == AtCause then candidates + [e] else candidates,
                       MoveFrom(ev, e).unexplained)
  {
  }

  /** The moves `a`, `b`, ... one after the other from the seed, none of them returning. */
  lemma TwoMoves(ev: Evidence, station: string, at: int, e: Episode, a: Move, b: Move)
    requires EpisodeCovering(ev.timeline, station, at) == Some(e) && e in ev.timeline
    requires MoveFrom(ev, e) == a && a.Follow? && MoveFrom(ev, a.next) == b && b.Stop? && b.termination == Unfinished
    requires e.fromTs > a.next.fromTs
    ensures Derive(ev, station, at).Category() == None
  {
    hide MoveFrom, EpisodeCovering;
    WalkFollows(ev, e, {}, [], [], a);
    WalkStops(ev, a.next, {} + {e.Step()}, [] + [a.link], [] + a.extra);
  }

  lemma ThreeMoves(ev: Evidence, station: string, at: int, e: Episode, a: Move, b: Move, c: Move)
    requires EpisodeCovering(ev.timeline, station, at) == Some(e) && e in ev.timeline
    requires MoveFrom(ev, e) == a && a.Follow? && MoveFrom(ev, a.next) == b && b.Follow?
    requires MoveFrom(ev, b.next) == c && c.Stop? && c.termination == AtCause
    requires e.fromTs > a.next.fromTs > b.next.fromTs
    requires a.extra == [] && b.extra == []
    ensures Derive(ev, station, at).Category() == Some(Internal)
  {
    hide MoveFrom, EpisodeCovering;
    WalkFollows(ev, e, {}, [], [], a);
    WalkFollows(ev, a.next, {} + {e.Step()}, [] + [a.link], [] + a.extra, b);
    WalkStops(ev, b.next, {} + {e.Step()} + {a.next.Step()}, [] + [a.link] + [b.link], [] + a.extra + b.extra);
  }

  lemma FourMoves(ev: Evidence, station: string, at: int, e: Episode, a: Move, b: Move, c: Move, d: Move)
    requires EpisodeCovering(ev.timeline, station, at) == Some(e) && e in ev.timeline
    requires MoveFrom(ev, e) == a && a.Follow? && MoveFrom(ev, a.next) == b && b.Follow?
    requires MoveFrom(ev, b.next) == c && c.Follow? && MoveFrom(ev, c.next) == d && d.Stop? && d.termination == AtCause
    requires e.fromTs > a.next.fromTs > b.next.fromTs > c.next.fromTs
    ensures Derive(ev, station, at).candidates == a.extra + b.extra + c.extra + [c.next]
    ensures |a.extra| > 0 ==> Derive(ev, station, at).Category() == Some(Ambiguous)
  {
    hide MoveFrom, EpisodeCovering;
    var s := {} + {e.Step()} + {a.next.Step()};
    WalkFollows(ev, e, {}, [], [], a);
    WalkFollows(ev, a.next, {} + {e.Step()}, [] + [a.link], [] + a.extra, b);
    WalkFollows(ev, b.next, s, [] + [a.link] + [b.link], [] + a.extra + b.extra, c);
    WalkStops(ev, c.next, s + {b.next.Step()}, [] + [a.link] + [b.link] + [c.link], [] + a.extra + b.extra + c.extra);
  }

  lemma FaultStops(ev: Evidence, e: Episode)
    requires e.Kind() == CauseCandidate
    ensures MoveFrom(ev, e) == Stop(ChainLink(e, None, None), AtCause, None)
  {
  }

  lemma SuspendedLosesTrack(ev: Evidence, e: Episode, direction: Direction, via: BufferLink)
    requires e.state == Suspended && e.reasonBuffer == Some(via.buffer) && e.Direction() == Some(direction)
    requires ev.topology.Link(via.buffer) == Some(via) && FarSide(via, direction) != e.station && via.buffer != CARRIER_RETURN
    requires ConditionSince(ev.samples, via, direction, e.fromTs, ev.leadIn) == None
    ensures MoveFrom(ev, e).Stop? && MoveFrom(ev, e).termination == Unfinished
  {
  }

  const LINE := Topology([BufferLink("B2_3", "S2", "S3", 5), BufferLink("B3_4", "S3", "S4", 5)])

  lemma LineLinks()
    ensures LINE.Link("B2_3") == Some(LINE.links[0])
    ensures LINE.Link("B3_4") == Some(LINE.links[1])
  {
    assert LINE.links[1..] == [LINE.links[1]];
    assert !NamedBuffer("B3_4")(LINE.links[0]);
  }

  lemma SuspendedFollows(
    ev: Evidence, e: Episode, direction: Direction, via: BufferLink, since: int, next: Episode, extra: seq<Episode>)
    requires e.state == Suspended && e.reasonBuffer == Some(via.buffer) && e.Direction() == Some(direction)
    requires ev.topology.Link(via.buffer) == Some(via) && FarSide(via, direction) != e.station && via.buffer != CARRIER_RETURN
    requires ConditionSince(ev.samples, via, direction, e.fromTs, ev.leadIn) == Some(since)
    requires ExplainingEpisode(ev.timeline, FarSide(via, direction), since, ev.leadIn) == (Some(next), extra)
    ensures MoveFrom(ev, e) == Follow(ChainLink(e, Some(via.buffer), Some(since)), next, extra)
  {
  }

  lemma OneSampleSince(samples: seq<Sample>, via: BufferLink, direction: Direction, before: int, leadIn: int, s: Sample)
    requires Filter(WithinHorizon(via.buffer, before, leadIn), samples) == [s] && Satisfies(s, via, direction)
    ensures ConditionSince(samples, via, direction, before, leadIn) == Some(s.at)
  {
    SortTwo(TakenNoLater, s, s);
    assert InHorizon(samples, via, before, leadIn) == [s];
  }

  lemma TwoSamplesSince(
    samples: seq<Sample>, via: BufferLink, direction: Direction, before: int, leadIn: int, s: Sample, t: Sample)
    requires Filter(WithinHorizon(via.buffer, before, leadIn), samples) == [s, t] && s.at <= t.at
    requires !Satisfies(s, via, direction) && Satisfies(t, via, direction)
    ensures ConditionSince(samples, via, direction, before, leadIn) == Some(t.at)
  {
    SortTwo(TakenNoLater, s, t);
    assert InHorizon(samples, via, before, leadIn) == [s, t];
    hide InHorizon;
    LastSatisfyingIsLast([s, t], via, direction);
    assert LastSatisfying([s, t], via, direction) == Some(1);
    assert RunStart([s, t], via, direction, 1) == 1;
  }

  // ----- no multiple of the lead-in is enough -----

  const STARVED4 := Row("S4", 0, Suspended, Some("starved" + ":" + "B3_4"), Some("B3_4"))
  const DRY4 := Sample("B3_4", 0, 0)

  /** A fault and the starvation it caused, both older than `h` and both still standing. */
  function Aborted2(h: int): Row { Row("S2", h - 2, Aborted, None, None) }
  function Starved3(h: int): Row { Row("S3", h - 1, Suspended, Some("starved" + ":" + "B2_3"), Some("B2_3")) }
  function Dry3(h: int): Sample { Sample("B2_3", h - 1, 0) }
  function Log(h: int): seq<Row> { [Aborted2(h), Starved3(h), STARVED4] }
  function Levels(h: int): seq<Sample> { [Dry3(h), DRY4] }

  function S2(h: int): Episode { Close(Aborted2(h), []) }
  function S3(h: int): Episode { Close(Starved3(h), []) }
  const S4 := Close(STARVED4, [])

  lemma ThreeStations(a: Row, b: Row, c: Row)
    requires a.station != b.station && a.station != c.station && b.station != c.station
    ensures Ordered([a, b, c])
    ensures EpisodesFrom([a, b, c]) == [Close(a, []), Close(b, []), Close(c, [])]
  {
    assert [a, b, c][1..] == [b, c] && [b, c][1..] == [c] && [c][1..] == [];
    assert Ordered([c]) && Heads(b, [c]) && Ordered([b, c]) && Heads(a, [b, c]);
    assert EpisodesFrom([c]) == [Close(c, [])];
    assert EpisodesFrom([b, c]) == [Close(b, [])] + [Close(c, [])];
  }

  lemma LogReads(h: int, to: int)
    requires h <= 0 < to
    ensures Ordered(Log(h))
    ensures AllEpisodes(Log(h), to) == [S2(h), S3(h), S4] && StateEpisodes(Log(h), h, to) == [S2(h), S3(h), S4]
  {
    hide Ordered, EpisodesFrom;
    ThreeStations(Aborted2(h), Starved3(h), STARVED4);
    FilterThree(Before(to), Aborted2(h), Starved3(h), STARVED4);
    assert Filter(Before(to), Log(h)) == Log(h);
    LogInRead(h, to);
  }

  lemma LogInRead(h: int, to: int)
    requires h <= 0 < to
    ensures Filter(InRead(Log(h), h, to), Log(h)) == Log(h)
  {
    var p := InRead(Log(h), h, to);
    assert p(Aborted2(h)) && p(Starved3(h)) && p(STARVED4);
    FilterThree(p, Aborted2(h), Starved3(h), STARVED4);
  }

  lemma LevelReads(h: int, to: int)
    requires h <= 0 < to
    ensures AllSamples(Levels(h), to) == Levels(h) && BufferSamples(Levels(h), h, to) == [DRY4]
  {
    FilterTwo(SampledBefore(to), Dry3(h), DRY4);
    FilterTwo(SampledIn(h, to), Dry3(h), DRY4);
  }

  lemma Directions(h: int)
    ensures S4.Direction() == S3(h).Direction() == Some(Starved)
  {
    ReasonReadsBack(S4, Starved, "B3_4");
    ReasonReadsBack(S3(h), Starved, "B2_3");
  }

  lemma SeedAtS4(h: int)
    requires h <= 0
    ensures EpisodeCovering([S2(h), S3(h), S4], "S4", 0) == Some(S4)
  {
    FilterThree(CoveringAt("S4", 0), S2(h), S3(h), S4);
  }

  lemma AccountAtS3(h: int, leadIn: int)
    requires h <= 0 <= leadIn
    ensures ExplainingEpisode([S2(h), S3(h), S4], "S3", 0, leadIn) == (Some(S3(h)), [])
  {
    var p := AccountableIn("S3", 0, leadIn);
    assert p(S3(h)) && !p(S2(h)) && !p(S4);
    FilterThree(p, S2(h), S3(h), S4);
    assert Filter(p, [S2(h), S3(h), S4]) == [S3(h)];
    ChooseOnly(S3(h), 0);
  }

  lemma AccountAtS2(h: int, leadIn: int)
    requires h <= 0 <= leadIn
    ensures ExplainingEpisode([S2(h), S3(h), S4], "S2", h - 1, leadIn) == (Some(S2(h)), [])
  {
    var p := AccountableIn("S2", h - 1, leadIn);
    assert p(S2(h)) && !p(S3(h)) && !p(S4);
    FilterThree(p, S2(h), S3(h), S4);
    assert Filter(p, [S2(h), S3(h), S4]) == [S2(h)];
    ChooseOnly(S2(h), h - 1);
  }

  lemma FullSince(h: int, leadIn: int)
    requires h <= 0 <= leadIn
    ensures ConditionSince(Levels(h), LINE.links[1], Starved, 0, leadIn) == Some(0)
    ensures ConditionSince(Levels(h), LINE.links[0], Starved, h - 1, leadIn) == Some(h - 1)
  {
    hide ConditionSince;
    FilterTwo(WithinHorizon("B3_4", 0, leadIn), Dry3(h), DRY4);
    OneSampleSince(Levels(h), LINE.links[1], Starved, 0, leadIn, DRY4);
    FilterTwo(WithinHorizon("B2_3", h - 1, leadIn), Dry3(h), DRY4);
    OneSampleSince(Levels(h), LINE.links[0], Starved, h - 1, leadIn, Dry3(h));
  }

  lemma ReadSince(h: int, leadIn: int)
    requires h <= 0 <= leadIn
    ensures ConditionSince([DRY4], LINE.links[1], Starved, 0, leadIn) == Some(0)
    ensures ConditionSince([DRY4], LINE.links[0], Starved, h - 1, leadIn) == None
  {
    FilterTwo(WithinHorizon("B3_4", 0, leadIn), DRY4, DRY4);
    OneSampleSince([DRY4], LINE.links[1], Starved, 0, leadIn, DRY4);
    FilterTwo(WithinHorizon("B2_3", h - 1, leadIn), DRY4, DRY4);
    assert InHorizon([DRY4], LINE.links[0], h - 1, leadIn) == [];
  }

  lemma FullMoves(ev: Evidence, h: int)
    requires h <= 0 <= ev.leadIn && ev == Evidence([S2(h), S3(h), S4], Levels(h), LINE, ev.leadIn)
    ensures MoveFrom(ev, S4) == Follow(ChainLink(S4, Some("B3_4"), Some(0)), S3(h), [])
    ensures MoveFrom(ev, S3(h)) == Follow(ChainLink(S3(h), Some("B2_3"), Some(h - 1)), S2(h), [])
    ensures MoveFrom(ev, S2(h)) == Stop(ChainLink(S2(h), None, None), AtCause, None)
  {
    hide MoveFrom, ConditionSince, ExplainingEpisode;
    Directions(h);
    LineLinks();
    FullSince(h, ev.leadIn);
    AccountAtS3(h, ev.leadIn);
    AccountAtS2(h, ev.leadIn);
    SuspendedFollows(ev, S4, Starved, LINE.links[1], 0, S3(h), []);
    SuspendedFollows(ev, S3(h), Starved, LINE.links[0], h - 1, S2(h), []);
    FaultStops(ev, S2(h));
  }

  lemma FullChain(ev: Evidence, h: int)
    requires h <= 0 <= ev.leadIn && ev == Evidence([S2(h), S3(h), S4], Levels(h), LINE, ev.leadIn)
    ensures Derive(ev, "S4", 0).Category() == Some(Internal)
  {
    hide MoveFrom;
    FullMoves(ev, h);
    SeedAtS4(h);
    ThreeMoves(ev, "S4", 0, S4, MoveFrom(ev, S4), MoveFrom(ev, S3(h)), MoveFrom(ev, S2(h)));
  }

  lemma ReadChain(ev: Evidence, h: int)
    requires h <= 0 <= ev.leadIn && ev == Evidence([S2(h), S3(h), S4], [DRY4], LINE, ev.leadIn)
    ensures Derive(ev, "S4", 0).Category() == None
  {
    hide MoveFrom, ConditionSince, ExplainingEpisode;
    Directions(h);
    LineLinks();
    ReadSince(h, ev.leadIn);
    SeedAtS4(h);
    AccountAtS3(h, ev.leadIn);
    SuspendedFollows(ev, S4, Starved, LINE.links[1], 0, S3(h), []);
    SuspendedLosesTrack(ev, S3(h), Starved, LINE.links[0]);
    TwoMoves(ev, "S4", 0, S4, MoveFrom(ev, S4), MoveFrom(ev, S3(h)));
  }

  /** However far back the read goes, a three-link chain can go one step further: the service reports no
      category where the database holds an aborted station as the only cause. */
  lemma NoHistoryIsEnough(h: int, leadIn: int, to: int)
    requires h <= 0 < to && 0 <= leadIn
    ensures Ordered(Log(h))
    ensures Derive(FullEvidence(Log(h), Levels(h), LINE, leadIn, to), "S4", 0).Category() == Some(Internal)
    ensures Derive(ReadEvidence(Log(h), Levels(h), LINE, leadIn, h, to), "S4", 0).Category() == None
  {
    hide Derive, AllEpisodes, StateEpisodes, AllSamples, BufferSamples, Ordered;
    LogReads(h, to);
    LevelReads(h, to);
    FullChain(FullEvidence(Log(h), Levels(h), LINE, leadIn, to), h);
    ReadChain(ReadEvidence(Log(h), Levels(h), LINE, leadIn, h, to), h);
  }

  /** Six lead-ins are not enough, nor is any other number of them: for every multiple there is a history
      on which that many lose the category. */
  lemma NoMultipleIsEnough(k: nat, leadIn: nat, to: int) returns (table: seq<Row>, levels: seq<Sample>)
    requires 0 < to
    ensures Ordered(table)
    ensures Derive(FullEvidence(table, levels, LINE, leadIn, to), "S4", 0).Category() == Some(Internal)
    ensures Derive(ReadEvidence(table, levels, LINE, leadIn, -(k * leadIn), to), "S4", 0).Category() == None
  {
    hide *;
    var h := -(k * leadIn);
    assert h <= 0;
    table, levels := Log(h), Levels(h);
    NoHistoryIsEnough(h, leadIn, to);
  }

  // ----- one fault counted twice -----

  const LEAD_IN := 300

  const BLOCKED := Row("S2", 50, Suspended, Some("blocked" + ":" + "B2_3"), Some("B2_3"))
  const FAILED := Row("S3", 0, Aborted, None, None)
  const RUNNING := Row("S3", 100, Execute, None, None)
  const HUNGRY := Row("S3", 150, Suspended, Some("starved" + ":" + "B2_3"), Some("B2_3"))
  const STARVED := Row("S4", 160, Suspended, Some("starved" + ":" + "B3_4"), Some("B3_4"))
  const LAST := [STARVED]
  const LAST_TWO := [HUNGRY] + LAST
  const LAST_THREE := [RUNNING] + LAST_TWO
  const LAST_FOUR := [FAILED] + LAST_THREE
  const FAULT_LOG := [BLOCKED] + LAST_FOUR

  const BLOCKED2 := Close(BLOCKED, [])
  const FAULT := Close(FAILED, [RUNNING])
  const EXECUTE3 := Close(RUNNING, [HUNGRY])
  const HUNGRY3 := Close(HUNGRY, [])
  const HUNGRY4 := Close(STARVED, [])
  const TIMELINE := [BLOCKED2, FAULT, EXECUTE3, HUNGRY3, HUNGRY4]

  const FULL := Sample("B2_3", 50, 5)
  const EMPTY := Sample("B2_3", 150, 0)
  const DRY := Sample("B3_4", 160, 0)
  const SAMPLES := [FULL, EMPTY, DRY]
  const ONE_FAULT := Evidence(TIMELINE, SAMPLES, LINE, LEAD_IN)

  lemma ClosesOnto(r: Row, rest: seq<Row>)
    requires Heads(r, rest) && Ordered(rest)
    ensures Ordered([r] + rest) && EpisodesFrom([r] + rest) == [Close(r, rest)] + EpisodesFrom(rest)
  {
    assert ([r] + rest)[1..] == rest;
  }

  lemma RunAfter(r: Row, rest: seq<Row>)
    requires RunFirst(r.station, rest)
    ensures RunFirst(r.station, [r] + rest)
  {
    assert ([r] + rest)[1..] == rest;
  }

  lemma LastTwoClose()
    ensures Ordered(LAST_TWO) && EpisodesFrom(LAST_TWO) == [HUNGRY3] + [HUNGRY4] && RunFirst("S3", LAST_TWO)
    ensures forall x :: x in LAST_TWO ==> x.at >= 150
  {
    hide Ordered, EpisodesFrom, RunFirst;
    LastRow();
    ClosesOnto(HUNGRY, LAST);
    RunAfter(HUNGRY, LAST);
  }

  lemma LastThreeClose()
    ensures Ordered(LAST_THREE) && EpisodesFrom(LAST_THREE) == [EXECUTE3] + ([HUNGRY3] + [HUNGRY4])
    ensures RunFirst("S3", LAST_THREE) && forall x :: x in LAST_THREE ==> x.at >= 100
  {
    hide Ordered, EpisodesFrom, RunFirst;
    LastTwoClose();
    ClosesOnto(RUNNING, LAST_TWO);
    RunAfter(RUNNING, LAST_TWO);
  }

  lemma LastFourClose()
    ensures Ordered(LAST_FOUR) && EpisodesFrom(LAST_FOUR) == [FAULT] + ([EXECUTE3] + ([HUNGRY3] + [HUNGRY4]))
  {
    hide Ordered, EpisodesFrom, RunFirst;
    LastThreeClose();
    ClosesOnto(FAILED, LAST_THREE);
  }

  lemma FaultLogCloses()
    ensures Ordered(FAULT_LOG) && EpisodesFrom(FAULT_LOG) == TIMELINE
  {
    hide Ordered, EpisodesFrom, RunFirst, Heads;
    LastFourClose();
    OtherStation();
    ClosesOnto(BLOCKED, LAST_FOUR);
    assert Close(BLOCKED, LAST_FOUR) == BLOCKED2;
  }

  lemma LastRow()
    ensures Ordered(LAST) && EpisodesFrom(LAST) == [HUNGRY4] && RunFirst("S3", LAST)
  {
    assert LAST[1..] == [];
  }

  lemma OtherStation()
    ensures Heads(BLOCKED, LAST_FOUR)
  {
    assert LAST_FOUR[0] == FAILED;
    assert forall x :: x in LAST_FOUR ==> x.station != "S2";
  }

  lemma FaultEvidence(to: int)
    requires 160 < to
    ensures FullEvidence(FAULT_LOG, SAMPLES, LINE, LEAD_IN, to) == ONE_FAULT
  {
    hide EpisodesFrom, Ordered, Filter;
    FaultLogCloses();
    RowsBefore(to);
    FilterKeepsAll(SampledBefore(to), SAMPLES);
  }

  lemma RowsBefore(to: int)
    requires 160 < to
    ensures Filter(Before(to), FAULT_LOG) == FAULT_LOG
  {
    FilterKeepsAll(Before(to), FAULT_LOG);
  }

  lemma ChooseSecond(e: Episode, f: Episode, since: int)
    requires !e.Covers(since) && f.Covers(since) && e.Kind() == CauseCandidate
    ensures ChooseFrom([e, f], since) == (Some(f), [e])
  {
    var both := [e, f];
    assert CoveringInstant(since)(both[1]) && !CoveringInstant(since)(both[0]);
    LatestWhereIs(CoveringInstant(since), both);
    assert both[1] in both;
    assert Chosen(both, since) == 1;
    assert both[..1] + both[2..] == [e];
    FilterTwo(CauseEpisode(), e, e);
    SortTwo(StartsNoLater, e, e);
  }

  lemma FaultSince()
    ensures ConditionSince(SAMPLES, LINE.links[1], Starved, 160, LEAD_IN) == Some(160)
    ensures ConditionSince(SAMPLES, LINE.links[0], Starved, 150, LEAD_IN) == Some(150)
    ensures ConditionSince(SAMPLES, LINE.links[0], Blocked, 50, LEAD_IN) == Some(50)
  {
    hide ConditionSince;
    FaultSinceAtS4();
    FaultSinceAtS3();
    FilterThree(WithinHorizon("B2_3", 50, LEAD_IN), FULL, EMPTY, DRY);
    OneSampleSince(SAMPLES, LINE.links[0], Blocked, 50, LEAD_IN, FULL);
  }

  lemma FaultSinceAtS4()
    ensures ConditionSince(SAMPLES, LINE.links[1], Starved, 160, LEAD_IN) == Some(160)
  {
    hide ConditionSince;
    FilterThree(WithinHorizon("B3_4", 160, LEAD_IN), FULL, EMPTY, DRY);
    OneSampleSince(SAMPLES, LINE.links[1], Starved, 160, LEAD_IN, DRY);
  }

  lemma FaultSinceAtS3()
    ensures ConditionSince(SAMPLES, LINE.links[0], Starved, 150, LEAD_IN) == Some(150)
  {
    hide ConditionSince;
    FilterThree(WithinHorizon("B2_3", 150, LEAD_IN), FULL, EMPTY, DRY);
    TwoSamplesSince(SAMPLES, LINE.links[0], Starved, 150, LEAD_IN, FULL, EMPTY);
  }

  lemma FaultSeed()
    ensures EpisodeCovering(TIMELINE, "S4", 160) == Some(HUNGRY4)
  {
    var p := CoveringAt("S4", 160);
    assert p(HUNGRY4) && !p(FAULT) && !p(BLOCKED2) && !p(HUNGRY3) && !p(EXECUTE3);
    FilterFive(p, BLOCKED2, FAULT, EXECUTE3, HUNGRY3, HUNGRY4);
    FilterFour(p, FAULT, EXECUTE3, HUNGRY3, HUNGRY4);
    assert Filter(p, TIMELINE) == [HUNGRY4];
  }

  lemma FaultFirstReach()
    ensures ExplainingEpisode(TIMELINE, "S3", 160, LEAD_IN) == (Some(HUNGRY3), [FAULT])
  {
    FaultReach();
    hide Filter, AccountableIn;
    ChooseSecond(FAULT, HUNGRY3, 160);
  }

  lemma FaultReach()
    ensures Filter(AccountableIn("S3", 160, LEAD_IN), TIMELINE) == [FAULT, HUNGRY3]
  {
    var p := AccountableIn("S3", 160, LEAD_IN);
    assert p(FAULT) && !p(BLOCKED2) && !p(EXECUTE3) && p(HUNGRY3) && !p(HUNGRY4);
    hide AccountableIn;
    FilterFive(p, BLOCKED2, FAULT, EXECUTE3, HUNGRY3, HUNGRY4);
    FilterFour(p, FAULT, EXECUTE3, HUNGRY3, HUNGRY4);
  }

  lemma FaultSecondReach()
    ensures ExplainingEpisode(TIMELINE, "S2", 150, LEAD_IN) == (Some(BLOCKED2), [])
  {
    var p := AccountableIn("S2", 150, LEAD_IN);
    assert p(BLOCKED2) && !p(FAULT) && !p(HUNGRY3) && !p(HUNGRY4) && !p(EXECUTE3);
    FilterFive(p, BLOCKED2, FAULT, EXECUTE3, HUNGRY3, HUNGRY4);
    FilterFour(p, FAULT, EXECUTE3, HUNGRY3, HUNGRY4);
    assert Filter(p, TIMELINE) == [BLOCKED2];
    ChooseOnly(BLOCKED2, 150);
  }

  lemma FaultThirdReach()
    ensures ExplainingEpisode(TIMELINE, "S3", 50, LEAD_IN) == (Some(FAULT), [])
  {
    var p := AccountableIn("S3", 50, LEAD_IN);
    assert p(FAULT) && !p(BLOCKED2) && !p(HUNGRY3) && !p(HUNGRY4) && !p(EXECUTE3);
    FilterFive(p, BLOCKED2, FAULT, EXECUTE3, HUNGRY3, HUNGRY4);
    FilterFour(p, FAULT, EXECUTE3, HUNGRY3, HUNGRY4);
    assert Filter(p, TIMELINE) == [FAULT];
    ChooseOnly(FAULT, 50);
  }

  lemma FaultDirections()
    ensures HUNGRY3.Direction() == HUNGRY4.Direction() == Some(Starved) && BLOCKED2.Direction() == Some(Blocked)
  {
    ReasonReadsBack(HUNGRY3, Starved, "B2_3");
    ReasonReadsBack(HUNGRY4, Starved, "B3_4");
    ReasonReadsBack(BLOCKED2, Blocked, "B2_3");
  }

  lemma OneFaultMoves()
    ensures MoveFrom(ONE_FAULT, HUNGRY4) == Follow(ChainLink(HUNGRY4, Some("B3_4"), Some(160)), HUNGRY3, [FAULT])
    ensures MoveFrom(ONE_FAULT, HUNGRY3) == Follow(ChainLink(HUNGRY3, Some("B2_3"), Some(150)), BLOCKED2, [])
    ensures MoveFrom(ONE_FAULT, BLOCKED2) == Follow(ChainLink(BLOCKED2, Some("B2_3"), Some(50)), FAULT, [])
  {
    hide MoveFrom, ConditionSince, ExplainingEpisode;
    FaultDirections();
    LineLinks();
    FaultSince();
    FaultFirstReach();
    FaultSecondReach();
    FaultThirdReach();
    SuspendedFollows(ONE_FAULT, HUNGRY4, Starved, LINE.links[1], 160, HUNGRY3, [FAULT]);
    SuspendedFollows(ONE_FAULT, HUNGRY3, Starved, LINE.links[0], 150, BLOCKED2, []);
    SuspendedFollows(ONE_FAULT, BLOCKED2, Blocked, LINE.links[0], 50, FAULT, []);
  }

  lemma OneFault(e: Episode)
    requires e in TIMELINE && e.Kind() == CauseCandidate
    ensures e == FAULT
  {
  }

  /** A log with a single fault whose derivation is called ambiguous: the aborted station is set aside on
      the way in and terminated at on the way back. */
  lemma OneFaultReadAsTwo(to: int)
    requires 160 < to
    ensures Ordered(FAULT_LOG)
    ensures forall r :: r in FAULT_LOG && (r.state == Aborted || r.state == Held) ==> r == FAILED
    ensures (var d := Derive(FullEvidence(FAULT_LOG, SAMPLES, LINE, LEAD_IN, to), "S4", 160);
             d.Category() == Some(Ambiguous) && d.candidates == [FAULT, FAULT])
  {
    hide MoveFrom, EpisodeCovering, Derive, EpisodesFrom, Ordered;
    var ev := ONE_FAULT;
    FaultLogCloses();
    FaultEvidence(to);
    OneFaultMoves();
    FaultSeed();
    FaultStops(ev, FAULT);
    FourMoves(ev, "S4", 160, HUNGRY4, MoveFrom(ev, HUNGRY4), MoveFrom(ev, HUNGRY3), MoveFrom(ev, BLOCKED2), MoveFrom(ev, FAULT));
    forall e | e in ev.timeline && e.Kind() == CauseCandidate ensures e == FAULT {
      OneFault(e);
    }
  }
}
