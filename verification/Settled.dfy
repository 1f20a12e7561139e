/**
 When a read is enough, exactly: a link of a chain is settled when nothing recorded before the read began
 could have changed it, and a chain is the one over all of history, whatever that history holds, exactly
 when every link of it is settled.
 */
module Settled {
  import opened Sequences
  import opened Propagation
  import opened Chains
  import opened Causes
  import opened Reads
  import opened Horizon
  import opened StopDerivation
  import opened Depth

  // ----- what settles a link -----

  /** The latest satisfying run follows a sample that does not satisfy. */
  ghost predicate RunIsBegun(s: seq<Sample>, via: BufferLink, direction: Direction) {
    exists i, j :: 0 < i <= j < |s| && RunSpans(s, via, direction, i, j)
  }

  /** Earlier samples cannot change when the condition began: the loop publishes none, the lead-in lies
      within the read, or the read shows the run begin. */
  ghost predicate SinceSettled(ev: Evidence, e: Episode, via: BufferLink, direction: Direction, h: int) {
    || via.buffer == CARRIER_RETURN
    || h <= e.fromTs - ev.leadIn
    || RunIsBegun(InHorizon(ev.samples, via, e.fromTs, ev.leadIn), via, direction)
  }

  /** Earlier episodes of the far station cannot reach the lead-in: what was carried in had begun by then. */
  predicate FarSettled(ev: Evidence, station: string, since: int, h: int) {
    forall e :: e in ev.timeline && e.station == station && e.fromTs < h ==> e.fromTs <= since - ev.leadIn
  }

  ghost predicate LooksSettled(ev: Evidence, l: ChainLink, via: BufferLink, direction: Direction, h: int) {
    FarSide(via, direction) != l.episode.station ==>
      && SinceSettled(ev, l.episode, via, direction, h)
      && (l.since.Some? ==> FarSettled(ev, FarSide(via, direction), l.since.value, h))
  }

  /** Said of the read and one link of the chain walked over it. */
  ghost predicate Settled(ev: Evidence, l: ChainLink, h: int) {
    var e := l.episode;
    var via := ConnectingLink(ev.topology, e, e.Direction());
    e.Kind() == Consequence && via.Some? && e.Direction().Some? ==>
      LooksSettled(ev, l, via.value, e.Direction().value, h)
  }

  // ----- samples from before the read -----

  function TakenBefore(h: int): Sample -> bool { (s: Sample) => s.at < h }

  lemma {:induction false} InsertLow(x: Sample, low: seq<Sample>, high: seq<Sample>)
    requires forall s :: s in high ==> x.at <= s.at
    ensures Insert(TakenNoLater, x, low + high) == Insert(TakenNoLater, x, low) + high
  {
    if low == [] {
      assert low + high == high;
      assert high != [] ==> high[0] in high;
    } else {
      assert (low + high)[1..] == low[1..] + high;
      InsertLow(x, low[1..], high);
    }
  }

  lemma {:induction false} InsertHigh(x: Sample, low: seq<Sample>, high: seq<Sample>)
    requires forall s :: s in low ==> s.at < x.at
    ensures Insert(TakenNoLater, x, low + high) == low + Insert(TakenNoLater, x, high)
  {
    if low == [] {
      assert low + high == high;
    } else {
      assert low[0] in low;
      assert (low + high)[1..] == low[1..] + high;
      InsertHigh(x, low[1..], high);
    }
  }

  lemma SortOneMore(x: Sample, s: seq<Sample>)
    ensures Sort(TakenNoLater, [x] + s) == Insert(TakenNoLater, x, Sort(TakenNoLater, s))
  {
    assert ([x] + s)[1..] == s;
  }

  lemma FilterFirst<T(!new)>(p: T -> bool, x: T, s: seq<T>)
    ensures Filter(p, [x] + s) == if p(x) then [x] + Filter(p, s) else Filter(p, s)
  {
    assert ([x] + s)[1..] == s;
  }

  /** Sorting puts what was taken before `h` first. */
  lemma {:induction false} SortSplits(h: int, s: seq<Sample>)
    ensures Sort(TakenNoLater, s)
         == Sort(TakenNoLater, Filter(TakenBefore(h), s)) + Sort(TakenNoLater, Filter(TakenSince(h), s))
  {
    if s != [] {
      hide Sort, Filter, Insert;
      var x, rest := s[0], s[1..];
      assert s == [x] + rest;
      SortSplits(h, rest);
      var low, high := Filter(TakenBefore(h), rest), Filter(TakenSince(h), rest);
      FilterFirst(TakenBefore(h), x, rest);
      FilterFirst(TakenSince(h), x, rest);
      SortOneMore(x, rest);
      if x.at < h {
        SortOneMore(x, low);
        InsertLow(x, Sort(TakenNoLater, low), Sort(TakenNoLater, high));
      } else {
        SortOneMore(x, high);
        InsertHigh(x, Sort(TakenNoLater, low), Sort(TakenNoLater, high));
      }
    }
  }

  lemma RunsShift(a: seq<Sample>, b: seq<Sample>, via: BufferLink, direction: Direction, i: int, j: int)
    requires 0 < i <= j < |b| && RunSpans(b, via, direction, i, j)
    ensures RunSpans(a + b, via, direction, |a| + i, |a| + j)
  {
    var n := |a|;
    forall k | n + i <= k <= n + j ensures Satisfies((a + b)[k], via, direction) {
      assert (a + b)[k] == b[k - n];
    }
    forall k | n + j < k < |a + b| ensures !Satisfies((a + b)[k], via, direction) {
      assert (a + b)[k] == b[k - n];
    }
  }

  /** A run that the read shows begin is the latest run of all. */
  lemma BegunRunIsLatest(a: seq<Sample>, b: seq<Sample>, via: BufferLink, direction: Direction, t: int)
    requires RunIsBegun(b, via, direction) && BeginsLatestRun(b, via, direction, t)
    ensures BeginsLatestRun(a + b, via, direction, t)
  {
    var i, j :| 0 < i <= j < |b| && RunSpans(b, via, direction, i, j);
    var k, l :| 0 <= k <= l < |b| && RunSpans(b, via, direction, k, l) && b[k].at == t;
    SameRun(b, via, direction, i, j, k, l);
    RunsShift(a, b, via, direction, i, j);
    assert (a + b)[|a| + i] == b[i];
  }

  lemma HorizonSplits(samples: seq<Sample>, via: BufferLink, before: int, leadIn: int, h: int)
    ensures InHorizon(samples, via, before, leadIn)
         == InHorizon(Filter(TakenBefore(h), samples), via, before, leadIn)
            + InHorizon(Filter(TakenSince(h), samples), via, before, leadIn)
  {
    var p := WithinHorizon(via.buffer, before, leadIn);
    SortSplits(h, Filter(p, samples));
    FilterSwaps(p, TakenBefore(h), samples);
    FilterSwaps(p, TakenSince(h), samples);
  }

  lemma FilterSwaps<T(!new)>(p: T -> bool, q: T -> bool, s: seq<T>)
    ensures Filter(p, Filter(q, s)) == Filter(q, Filter(p, s))
  {
    var both := (x: T) => p(x) && q(x);
    FilterBoth(p, q, both, s);
    FilterBoth(q, p, both, s);
  }

  lemma SettledSince(ev: Evidence, full: Evidence, e: Episode, via: BufferLink, direction: Direction, h: int)
    requires AgreeFrom(ev, full, h) && ev.samples == Filter(TakenSince(h), full.samples)
    requires SinceSettled(ev, e, via, direction, h)
    ensures SinceWhen(full, e, via, direction) == SinceWhen(ev, e, via, direction)
  {
    hide InHorizon, ConditionSince, BeginsLatestRun, RunIsBegun;
    if via.buffer == CARRIER_RETURN {
    } else if h <= e.fromTs - ev.leadIn {
      ConditionCarriesOver(ev, full, h, via, direction, e.fromTs);
    } else {
      BegunSince(full.samples, via, direction, e.fromTs, ev.leadIn, h);
    }
  }

  lemma BegunSince(samples: seq<Sample>, via: BufferLink, direction: Direction, before: int, leadIn: int, h: int)
    requires RunIsBegun(InHorizon(Filter(TakenSince(h), samples), via, before, leadIn), via, direction)
    ensures ConditionSince(samples, via, direction, before, leadIn)
         == ConditionSince(Filter(TakenSince(h), samples), via, direction, before, leadIn)
  {
    hide InHorizon, ConditionSince, BeginsLatestRun, RunSpans;
    var low := InHorizon(Filter(TakenBefore(h), samples), via, before, leadIn);
    var high := InHorizon(Filter(TakenSince(h), samples), via, before, leadIn);
    HorizonSplits(samples, via, before, leadIn, h);
    assert BeginsLatestRun(high, via, direction, BegunAt(high, via, direction)) by { BegunBegins(high, via, direction); }
    var t := BegunAt(high, via, direction);
    BegunRunIsLatest(low, high, via, direction, t);
    SinceIs(samples, via, direction, before, leadIn, t);
    SinceIs(Filter(TakenSince(h), samples), via, direction, before, leadIn, t);
  }

  ghost function BegunAt(s: seq<Sample>, via: BufferLink, direction: Direction): int
    requires RunIsBegun(s, via, direction)
  {
    var i, j :| 0 < i <= j < |s| && RunSpans(s, via, direction, i, j);
    s[i].at
  }

  lemma BegunBegins(s: seq<Sample>, via: BufferLink, direction: Direction)
    requires RunIsBegun(s, via, direction)
    ensures BeginsLatestRun(s, via, direction, BegunAt(s, via, direction))
  {
  }

  /** The relation determines the result. */
  lemma SinceIs(samples: seq<Sample>, via: BufferLink, direction: Direction, before: int, leadIn: int, t: int)
    requires BeginsLatestRun(InHorizon(samples, via, before, leadIn), via, direction, t)
    ensures ConditionSince(samples, via, direction, before, leadIn) == Some(t)
  {
    hide ConditionSince, InHorizon;
    var s := InHorizon(samples, via, before, leadIn);
    ConditionSinceMeaning(samples, via, direction, before, leadIn);
    var i, j :| 0 <= i <= j < |s| && RunSpans(s, via, direction, i, j) && s[i].at == t;
    InHorizonHolds(samples, via, before, leadIn, s[i]);
    if ConditionSince(samples, via, direction, before, leadIn).Some? {
      LatestRunIsUnique(s, via, direction, t, ConditionSince(samples, via, direction, before, leadIn).value);
    }
  }

  lemma InHorizonHolds(samples: seq<Sample>, via: BufferLink, before: int, leadIn: int, s: Sample)
    ensures s in InHorizon(samples, via, before, leadIn)
            <==> s in samples && WithinHorizon(via.buffer, before, leadIn)(s)
  {
  }

  // ----- episodes from before the read -----

  lemma {:induction false} EndsAtARow(rows: seq<Row>, i: nat)
    requires i < |rows| && EpisodesFrom(rows)[i].toTs.Some?
    ensures i + 1 < |rows| && rows[i + 1].station == EpisodesFrom(rows)[i].station
    ensures rows[i + 1].at == EpisodesFrom(rows)[i].toTs.value
  {
    if i > 0 {
      EndsAtARow(rows[1..], i - 1);
      assert EpisodesFrom(rows)[i] == EpisodesFrom(rows[1..])[i - 1];
    }
  }

  /** What a read leaves out had ended by the start of what it carried in. */
  lemma HiddenEndsByCarryIn(table: seq<Row>, h: int, to: int, e: Episode) returns (c: Episode)
    requires Ordered(table) && h <= to
    requires e in AllEpisodes(table, to) && !OpenSince(h)(e)
    ensures c in StateEpisodes(table, h, to) && c.station == e.station && e.toTs.value <= c.fromTs < h
  {
    hide EpisodesFrom, Filter, Ordered;
    var known := Filter(Before(to), table);
    LogStaysOrdered(Before(to), table);
    var i :| 0 <= i < |known| && EpisodesFrom(known)[i] == e;
    EndsAtARow(known, i);
    assert known[i + 1] in known;
    var r := LatestOf(known, e.station, h - 1);
    var j :| 0 <= j < |known| && known[j] == r;
    CoversExactlyLatest(known, j, h - 1);
    c := EpisodesFrom(known)[j];
    CarryInCompletes(table, h, to);
    assert OpenSince(h)(c);
  }

  lemma SettledFar(
    table: seq<Row>, levels: seq<Sample>, topology: Topology, leadIn: int, h: int, to: int, station: string, since: int)
    requires Ordered(table) && h <= to
    requires FarSettled(ReadEvidence(table, levels, topology, leadIn, h, to), station, since, h)
    ensures ExplainingEpisode(AllEpisodes(table, to), station, since, leadIn)
         == ExplainingEpisode(StateEpisodes(table, h, to), station, since, leadIn)
  {
    hide AllEpisodes, StateEpisodes, ChooseFrom, Filter;
    var p := AccountableIn(station, since, leadIn);
    forall e | e in AllEpisodes(table, to) && p(e) ensures OpenSince(h)(e) {
      if !OpenSince(h)(e) {
        var c := HiddenEndsByCarryIn(table, h, to, e);
      }
    }
    CarryInCompletes(table, h, to);
    FilterWithin(p, OpenSince(h), AllEpisodes(table, to));
  }

  // ----- a settled link is one of the whole history -----

  lemma SettledMove(
    table: seq<Row>, levels: seq<Sample>, topology: Topology, leadIn: int, h: int, to: int, e: Episode)
    requires Ordered(table) && h <= to
    requires (var read := ReadEvidence(table, levels, topology, leadIn, h, to); Settled(read, MoveFrom(read, e).link, h))
    ensures MoveFrom(ReadEvidence(table, levels, topology, leadIn, h, to), e)
         == MoveFrom(FullEvidence(table, levels, topology, leadIn, to), e)
  {
    hide AllEpisodes, StateEpisodes, AllSamples, BufferSamples, FollowBuffer, LooksSettled;
    var read := ReadEvidence(table, levels, topology, leadIn, h, to);
    MoveLinksItsEpisode(read, e);
    var via := ConnectingLink(topology, e, e.Direction());
    if e.Kind() == Consequence && via.Some? && e.Direction().Some? {
      SettledFollow(table, levels, topology, leadIn, h, to, e, via.value, e.Direction().value);
    }
  }

  lemma SettledFollow(
    table: seq<Row>, levels: seq<Sample>, topology: Topology, leadIn: int, h: int, to: int,
    e: Episode, via: BufferLink, direction: Direction)
    requires Ordered(table) && h <= to
    requires (var read := ReadEvidence(table, levels, topology, leadIn, h, to);
              LooksSettled(read, FollowBuffer(read, e, via, direction).link, via, direction, h))
    ensures FollowBuffer(ReadEvidence(table, levels, topology, leadIn, h, to), e, via, direction)
         == FollowBuffer(FullEvidence(table, levels, topology, leadIn, to), e, via, direction)
  {
    hide AllEpisodes, StateEpisodes, ConditionSince, ExplainingEpisode, SinceSettled, FarSettled;
    var read := ReadEvidence(table, levels, topology, leadIn, h, to);
    var full := FullEvidence(table, levels, topology, leadIn, to);
    if FarSide(via, direction) != e.station {
      ReadAgrees(table, levels, topology, leadIn, h, to);
      FilterBoth(TakenSince(h), SampledBefore(to), SampledIn(h, to), levels);
      SettledSince(read, full, e, via, direction, h);
      var since := SinceWhen(read, e, via, direction);
      if since.Some? {
        assert FollowBuffer(read, e, via, direction).link == ChainLink(e, Some(via.buffer), since);
        SettledFar(table, levels, topology, leadIn, h, to, FarSide(via, direction), since.value);
      }
    }
  }

  ghost predicate AllSettled(ev: Evidence, d: Derivation, h: int) {
    forall l :: l in d.links ==> Settled(ev, l, h)
  }

  lemma SettledSuffices(
    table: seq<Row>, levels: seq<Sample>, topology: Topology, leadIn: int, h: int, to: int, station: string, at: int)
    requires Ordered(table) && h <= to && h <= at
    requires (var read := ReadEvidence(table, levels, topology, leadIn, h, to);
              AllSettled(read, Derive(read, station, at), h))
    ensures Derive(ReadEvidence(table, levels, topology, leadIn, h, to), station, at)
         == Derive(FullEvidence(table, levels, topology, leadIn, to), station, at)
  {
    hide Settled, MoveFrom, AllEpisodes, StateEpisodes;
    var read := ReadEvidence(table, levels, topology, leadIn, h, to);
    var full := FullEvidence(table, levels, topology, leadIn, to);
    ReadAgrees(table, levels, topology, leadIn, h, to);
    CoveringCarriesOver(read, full, h, station, at);
    var seed := EpisodeCovering(read.timeline, station, at);
    if seed.Some? {
      var trusted := (l: ChainLink) => Settled(read, l, h);
      forall e | trusted(MoveFrom(read, e).link) ensures MoveFrom(read, e) == MoveFrom(full, e) {
        SettledMove(table, levels, topology, leadIn, h, to, e);
      }
      Lockstep(read, full, trusted, seed.value, {}, [], []);
    }
  }

  /** A link that read nothing from before `h` is settled. */
  lemma ReadingFromSettles(ev: Evidence, l: ChainLink, h: int)
    requires IsMove(ev, l) && ReadsFrom(l, ev.leadIn, h)
    ensures Settled(ev, l, h)
  {
    hide FollowBuffer, MoveFrom, SinceSettled, FarSettled;
    var e := l.episode;
    var via := ConnectingLink(ev.topology, e, e.Direction());
    if e.Kind() == Consequence && via.Some? && e.Direction().Some? {
      MoveFollows(ev, e);
      FollowReadsFrom(ev, e, via.value, e.Direction().value, h);
    }
  }

  lemma FollowReadsFrom(ev: Evidence, e: Episode, via: BufferLink, direction: Direction, h: int)
    requires ReadsFrom(FollowBuffer(ev, e, via, direction).link, ev.leadIn, h)
    ensures LooksSettled(ev, FollowBuffer(ev, e, via, direction).link, via, direction, h)
  {
    hide RunIsBegun, ConditionSince, ExplainingEpisode, InHorizon;
  }

  // ----- an unsettled link has a history on which it is wrong -----

  /** A history that the read cannot tell from the one it was made of. */
  ghost predicate SameRead(
    table: seq<Row>, levels: seq<Sample>, table': seq<Row>, levels': seq<Sample>, h: int, to: int)
  {
    && Ordered(table')
    && StateEpisodes(table', h, to) == StateEpisodes(table, h, to)
    && BufferSamples(levels', h, to) == BufferSamples(levels, h, to)
  }

  /** One more sample, taken before the read began. */
  function MetEarlier(via: BufferLink, direction: Direction, at: int): Sample {
    Sample(via.buffer, at, if direction == Starved then 0 else via.capacity)
  }

  lemma EarlierSample(levels: seq<Sample>, s: Sample, h: int, to: int)
    requires s.at < h <= to
    ensures BufferSamples([s] + BufferSamples(levels, h, to), h, to) == BufferSamples(levels, h, to)
    ensures AllSamples([s] + BufferSamples(levels, h, to), to) == [s] + BufferSamples(levels, h, to)
  {
    var kept := BufferSamples(levels, h, to);
    FilterFirst(SampledIn(h, to), s, kept);
    FilterFirst(SampledBefore(to), s, kept);
    FilterKeepsAll(SampledIn(h, to), kept);
    FilterKeepsAll(SampledBefore(to), kept);
  }

  lemma HorizonOneMore(samples: seq<Sample>, s: Sample, via: BufferLink, before: int, leadIn: int)
    requires s.buffer == via.buffer && before - leadIn <= s.at <= before
    requires forall x :: x in samples ==> s.at < x.at
    ensures InHorizon([s] + samples, via, before, leadIn) == [s] + InHorizon(samples, via, before, leadIn)
  {
    var p := WithinHorizon(via.buffer, before, leadIn);
    FilterFirst(p, s, samples);
    SortOneMore(s, Filter(p, samples));
    var sorted := Sort(TakenNoLater, Filter(p, samples));
    assert sorted != [] ==> sorted[0] in sorted;
  }

  /** When the read does not show the latest run begin, a sample before it begins it earlier. */
  lemma RunBeginsEarlier(s: Sample, rest: seq<Sample>, via: BufferLink, direction: Direction) returns (j: nat)
    requires Satisfies(s, via, direction) && !RunIsBegun(rest, via, direction)
    ensures j <= |rest| && RunSpans([s] + rest, via, direction, 0, j)
  {
    var last := LastSatisfying(rest, via, direction);
    LastSatisfyingIsLast(rest, via, direction);
    if last.None? {
      j := 0;
    } else {
      var i := RunStart(rest, via, direction, last.value);
      RunStartIsStart(rest, via, direction, last.value);
      assert RunSpans(rest, via, direction, i, last.value);
      assert i == 0;
      j := last.value + 1;
      forall k | 0 <= k <= j ensures Satisfies(([s] + rest)[k], via, direction) {
        assert k > 0 ==> ([s] + rest)[k] == rest[k - 1];
      }
    }
    forall k | j < k < |[s] + rest| ensures !Satisfies(([s] + rest)[k], via, direction) {
      assert ([s] + rest)[k] == rest[k - 1];
    }
  }

  lemma SinceMoves(samples: seq<Sample>, via: BufferLink, direction: Direction, before: int, leadIn: int, at: int)
    requires before - leadIn <= at <= before && forall x :: x in samples ==> at < x.at
    requires !RunIsBegun(InHorizon(samples, via, before, leadIn), via, direction)
    ensures ConditionSince([MetEarlier(via, direction, at)] + samples, via, direction, before, leadIn)
         == Some(at) != ConditionSince(samples, via, direction, before, leadIn)
  {
    hide RunIsBegun, InHorizon, ConditionSince, RunSpans;
    var s, rest := MetEarlier(via, direction, at), InHorizon(samples, via, before, leadIn);
    HorizonOneMore(samples, s, via, before, leadIn);
    var j := RunBeginsEarlier(s, rest, via, direction);
    assert ([s] + rest)[0].at == at;
    assert BeginsLatestRun([s] + rest, via, direction, at);
    SinceIs([s] + samples, via, direction, before, leadIn, at);
    SinceFromSamples(samples, via, direction, before, leadIn);
  }

  lemma SinceFromSamples(samples: seq<Sample>, via: BufferLink, direction: Direction, before: int, leadIn: int)
    ensures var since := ConditionSince(samples, via, direction, before, leadIn);
            since.Some? ==> exists x :: x in samples && x.at == since.value
  {
    hide ConditionSince, InHorizon, RunSpans;
    var since := ConditionSince(samples, via, direction, before, leadIn);
    ConditionSinceMeaning(samples, via, direction, before, leadIn);
    if since.Some? {
      var s := InHorizon(samples, via, before, leadIn);
      var i, j :| 0 <= i <= j < |s| && RunSpans(s, via, direction, i, j) && s[i].at == since.value;
      InHorizonHolds(samples, via, before, leadIn, s[i]);
    }
  }

  lemma FollowSince(ev: Evidence, e: Episode, via: BufferLink, direction: Direction)
    requires FarSide(via, direction) != e.station
    ensures FollowBuffer(ev, e, via, direction).link.since == SinceWhen(ev, e, via, direction)
  {
    hide SinceWhen, ExplainingEpisode;
  }

  lemma MoveFollows(ev: Evidence, e: Episode)
    requires e.Kind() == Consequence && e.Direction().Some?
    requires ConnectingLink(ev.topology, e, e.Direction()).Some?
    ensures MoveFrom(ev, e) == FollowBuffer(ev, e, ConnectingLink(ev.topology, e, e.Direction()).value, e.Direction().value)
  {
    hide FollowBuffer;
  }

  lemma UnsettledSince(
    table: seq<Row>, levels: seq<Sample>, topology: Topology, leadIn: int, h: int, to: int,
    e: Episode, via: BufferLink, direction: Direction)
    returns (levels': seq<Sample>)
    requires Ordered(table) && h <= to && 0 <= leadIn
    requires e.Kind() == Consequence && e.Direction() == Some(direction)
    requires ConnectingLink(topology, e, e.Direction()) == Some(via) && FarSide(via, direction) != e.station
    requires !SinceSettled(ReadEvidence(table, levels, topology, leadIn, h, to), e, via, direction, h)
    ensures SameRead(table, levels, table, levels', h, to)
    ensures MoveFrom(FullEvidence(table, levels', topology, leadIn, to), e).link
         != MoveFrom(ReadEvidence(table, levels, topology, leadIn, h, to), e).link
  {
    hide FollowBuffer, RunIsBegun, InHorizon, ConditionSince, Ordered, StateEpisodes, AllEpisodes, MoveFrom;
    var kept := BufferSamples(levels, h, to);
    var at := if e.fromTs < h then e.fromTs else h - 1;
    levels' := [MetEarlier(via, direction, at)] + kept;
    var read := ReadEvidence(table, levels, topology, leadIn, h, to);
    var full := FullEvidence(table, levels', topology, leadIn, to);
    EarlierSample(levels, MetEarlier(via, direction, at), h, to);
    SinceMoves(kept, via, direction, e.fromTs, leadIn, at);
    MoveFollows(read, e);
    MoveFollows(full, e);
    FollowSince(read, e, via, direction);
    FollowSince(full, e, via, direction);
  }

  // ----- one more transition -----

  lemma {:induction false} RunWithOneMore(station: string, before: seq<Row>, x: Row, after: seq<Row>)
    requires RunFirst(station, before + after) && x.station != station
    requires after != [] && after[0].station == x.station
    ensures RunFirst(station, before + ([x] + after))
  {
    if before == [] {
      assert before + after == after && before + ([x] + after) == [x] + after;
      assert forall r :: r in after ==> r.station != station;
    } else {
      assert (before + after)[0] == before[0] && (before + ([x] + after))[0] == before[0];
      assert (before + after)[1..] == before[1..] + after;
      assert (before + ([x] + after))[1..] == before[1..] + ([x] + after);
      if before[0].station == station {
        RunWithOneMore(station, before[1..], x, after);
      } else {
        assert forall r :: r in before + ([x] + after) ==> r in before + after || r == x;
      }
    }
  }

  lemma OrderedStep(r: Row, rest: seq<Row>)
    ensures Ordered([r] + rest) <==> Heads(r, rest) && Ordered(rest)
  {
    assert ([r] + rest)[1..] == rest;
  }

  lemma HeadsWithOneMore(r: Row, before: seq<Row>, x: Row, after: seq<Row>)
    requires Heads(r, before + after) && x.station != r.station && after != [] && after[0].station == x.station
    ensures Heads(r, before + ([x] + after))
  {
    hide RunFirst;
    RunWithOneMore(r.station, before, x, after);
    assert forall y :: y in before + ([x] + after) ==> y in before + after || y == x;
  }

  /** A transition before the first of its station leaves a log in order. */
  lemma {:induction false} OrderedWithOneMore(before: seq<Row>, x: Row, after: seq<Row>)
    requires Ordered(before + after) && after != [] && after[0].station == x.station && x.at < after[0].at
    requires forall r :: r in before ==> r.station != x.station
    ensures Ordered(before + ([x] + after))
  {
    hide Ordered, Heads;
    if before == [] {
      assert before + after == after && before + ([x] + after) == [x] + after;
      GoesFirst(x, after);
      OrderedStep(x, after);
    } else {
      var r, rest := before[0], before[1..];
      assert before + after == [r] + (rest + after);
      assert before + ([x] + after) == [r] + (rest + ([x] + after));
      OrderedStep(r, rest + after);
      assert r in before;
      OrderedWithOneMore(rest, x, after);
      HeadsWithOneMore(r, rest, x, after);
      OrderedStep(r, rest + ([x] + after));
    }
  }

  lemma GoesFirst(x: Row, after: seq<Row>)
    requires Ordered(after) && after != [] && after[0].station == x.station && x.at < after[0].at
    ensures Heads(x, after)
  {
    assert after == [after[0]] + after[1..];
  }

  lemma {:induction false} ClosesInPlace(before: seq<Row>, x: Row, after: seq<Row>)
    ensures Close(x, after) in EpisodesFrom(before + ([x] + after))
  {
    var rows := before + ([x] + after);
    if before == [] {
      assert rows == [x] + after && rows[1..] == after;
      assert EpisodesFrom(rows)[0] == Close(x, after);
    } else {
      assert rows[1..] == before[1..] + ([x] + after);
      ClosesInPlace(before[1..], x, after);
      assert EpisodesFrom(rows) == [Close(rows[0], rows[1..])] + EpisodesFrom(rows[1..]);
    }
  }

  /** A read's own rows make the same read again. */
  ghost function RowsRead(table: seq<Row>, h: int, to: int): seq<Row> {
    Filter(InRead(table, h, to), table)
  }

  lemma CarriedInComesFirst(table: seq<Row>, h: int, to: int, k: nat)
    requires Ordered(table) && k < |RowsRead(table, h, to)| && RowsRead(table, h, to)[k].at < h
    ensures forall r :: r in RowsRead(table, h, to)[..k] ==> r.station != RowsRead(table, h, to)[k].station
  {
    hide Ordered;
    var rows := RowsRead(table, h, to);
    LogStaysOrdered(InRead(table, h, to), table);
    forall r | r in rows[..k] ensures r.station != rows[k].station {
      var m :| 0 <= m < k && rows[m] == r;
      assert r in rows && rows[k] in rows;
      assert InRead(table, h, to)(r) && rows[k] in table;
      if r.station == rows[k].station {
        OrderedIsStrict(rows, m, k);
      }
    }
  }

  lemma FilterSkips(p: Row -> bool, before: seq<Row>, x: Row, after: seq<Row>)
    requires !p(x) && forall r :: r in before || r in after ==> p(r)
    ensures Filter(p, before + ([x] + after)) == before + after
  {
    hide Filter;
    FilterFirst(p, x, after);
    FilterAppend(p, before, [x] + after);
    FilterKeepsAll(p, before);
    FilterKeepsAll(p, after);
  }

  /** A transition before a carry-in is not read, and changes nothing of what is. */
  lemma OneMoreReads(table: seq<Row>, h: int, to: int, k: nat, x: Row) returns (table': seq<Row>)
    requires Ordered(table) && h <= to && k < |RowsRead(table, h, to)|
    requires x.station == RowsRead(table, h, to)[k].station && x.at < RowsRead(table, h, to)[k].at < h
    ensures Ordered(table') && StateEpisodes(table', h, to) == StateEpisodes(table, h, to)
    ensures Close(x, RowsRead(table, h, to)[k..]) in AllEpisodes(table', to)
  {
    hide Ordered, EpisodesFrom, RowsRead, InRead, Filter;
    var rows := RowsRead(table, h, to);
    var before, after := rows[..k], rows[k..];
    table' := before + ([x] + after);
    assert rows == before + after;
    RowsReadAre(table, h, to);
    CarriedInComesFirst(table, h, to, k);
    OrderedWithOneMore(before, x, after);
    var p := InRead(table', h, to);
    forall r | r in rows ensures p(r) && r.at < to {
      RowsStayRead(table, table', h, to, r, x, rows[k]);
    }
    NotCarriedIn(table', h, to, x, rows[k]);
    FilterSkips(p, before, x, after);
    FilterKeepsAll(Before(to), table');
    ClosesInPlace(before, x, after);
  }

  lemma RowsReadAre(table: seq<Row>, h: int, to: int)
    requires Ordered(table)
    ensures Ordered(RowsRead(table, h, to)) && EpisodesFrom(RowsRead(table, h, to)) == StateEpisodes(table, h, to)
    ensures forall r :: r in RowsRead(table, h, to) ==> r in table
  {
    LogStaysOrdered(InRead(table, h, to), table);
  }

  lemma NotCarriedIn(table: seq<Row>, h: int, to: int, x: Row, c: Row)
    requires c in table && c.station == x.station && x.at < c.at < h
    ensures !InRead(table, h, to)(x)
  {
  }

  lemma RowsStayRead(table: seq<Row>, table': seq<Row>, h: int, to: int, r: Row, x: Row, c: Row)
    requires h <= to && r in RowsRead(table, h, to) && c in table && c.station == x.station && x.at < c.at < h
    requires forall y :: y in table' ==> y in table || y == x
    ensures InRead(table', h, to)(r) && r.at < to
  {
    assert InRead(table, h, to)(r);
  }

  lemma UnsettledFar(
    table: seq<Row>, levels: seq<Sample>, topology: Topology, leadIn: int, h: int, to: int, station: string, since: int)
    returns (table': seq<Row>, x: Episode)
    requires Ordered(table) && h <= to && 0 <= leadIn
    requires !FarSettled(ReadEvidence(table, levels, topology, leadIn, h, to), station, since, h)
    ensures SameRead(table, levels, table', levels, h, to)
    ensures x in AllEpisodes(table', to) && x !in StateEpisodes(table, h, to)
    ensures x.Kind() == CauseCandidate && AccountableIn(station, since, leadIn)(x)
  {
    hide Ordered, AllEpisodes, EpisodesFrom, InRead;
    var rows := RowsRead(table, h, to);
    var c :| c in StateEpisodes(table, h, to) && c.station == station && since - leadIn < c.fromTs < h;
    RowsReadAre(table, h, to);
    var k :| 0 <= k < |rows| && EpisodesFrom(rows)[k] == c;
    CoversExactlyLatest(rows, k, 0);
    var row := Row(station, if since < c.fromTs then since else c.fromTs - 1, Aborted, None, None);
    table' := OneMoreReads(table, h, to, k, row);
    x := Close(row, rows[k..]);
    assert x == Episode(station, Aborted, row.at, Some(c.fromTs), None, None);
    CarryInCompletes(table, h, to);
    assert !OpenSince(h)(x);
  }

  // ----- when a read is enough, exactly -----

  /** Every history with this read derives what the read does. */
  ghost predicate ReadDecides(
    table: seq<Row>, levels: seq<Sample>, topology: Topology, leadIn: int, h: int, to: int, station: string, at: int)
  {
    forall table', levels' :: SameRead(table, levels, table', levels', h, to) ==>
      Derive(FullEvidence(table', levels', topology, leadIn, to), station, at)
      == Derive(ReadEvidence(table, levels, topology, leadIn, h, to), station, at)
  }

  lemma MovesAgree(a: Evidence, b: Evidence, station: string, at: int, l: ChainLink)
    requires Derive(a, station, at) == Derive(b, station, at) && l in Derive(a, station, at).links
    ensures MoveFrom(a, l.episode).link == l == MoveFrom(b, l.episode).link
  {
    hide Derive, MoveFrom;
    DerivedLinksAreMoves(a, station, at);
    DerivedLinksAreMoves(b, station, at);
    assert IsMove(a, l) && IsMove(b, l);
  }

  lemma HiddenFaultShows(a: Evidence, b: Evidence, station: string, at: int, l: ChainLink, x: Episode)
    requires UniqueSteps(a.timeline) && Derive(a, station, at) == Derive(b, station, at)
    requires l in Derive(a, station, at).links && x in FaultsInReach(a, l)
    ensures x in b.timeline
  {
    hide Derive, FaultsInReach;
    CandidatesAreTheFaultsInReach(a, station, at, x);
    CandidatesAreFaults(b, station, at, x);
  }

  lemma UnsettledMisleads(
    table: seq<Row>, levels: seq<Sample>, topology: Topology, leadIn: int, h: int, to: int, station: string, at: int,
    l: ChainLink)
    requires Ordered(table) && h <= to && 0 <= leadIn
    requires (var read := ReadEvidence(table, levels, topology, leadIn, h, to);
              l in Derive(read, station, at).links && !Settled(read, l, h))
    ensures !ReadDecides(table, levels, topology, leadIn, h, to, station, at)
  {
    hide Derive, SinceSettled, FarSettled, StateEpisodes, AllEpisodes, MoveFrom, SameRead, Ordered, FaultsInReach;
    var read := ReadEvidence(table, levels, topology, leadIn, h, to);
    var e := l.episode;
    var via, direction := ConnectingLink(topology, e, e.Direction()).value, e.Direction().value;
    if !SinceSettled(read, e, via, direction, h) {
      var levels' := UnsettledSince(table, levels, topology, leadIn, h, to, e, via, direction);
      var full := FullEvidence(table, levels', topology, leadIn, to);
      if Derive(full, station, at) == Derive(read, station, at) {
        MovesAgree(full, read, station, at, l);
      }
    } else {
      var table', x := UnsettledFar(table, levels, topology, leadIn, h, to, FarSide(via, direction), l.since.value);
      var full := FullEvidence(table', levels, topology, leadIn, to);
      if Derive(full, station, at) == Derive(read, station, at) {
        FullStepsAreUnique(table, levels, table', levels, h, to);
        assert x in FaultsInReach(full, l) by { InReachOfFar(full, l, via, direction, x); }
        HiddenFaultShows(full, read, station, at, l, x);
      }
    }
  }

  lemma InReachOfFar(ev: Evidence, l: ChainLink, via: BufferLink, direction: Direction, x: Episode)
    requires ConnectingLink(ev.topology, l.episode, l.episode.Direction()) == Some(via)
    requires l.episode.Direction() == Some(direction) && l.since.Some?
    requires x in ev.timeline && x.Kind() == CauseCandidate
    requires AccountableIn(FarSide(via, direction), l.since.value, ev.leadIn)(x)
    ensures x in FaultsInReach(ev, l)
  {
  }

  lemma FullStepsAreUnique(
    table: seq<Row>, levels: seq<Sample>, table': seq<Row>, levels': seq<Sample>, h: int, to: int)
    requires SameRead(table, levels, table', levels', h, to)
    ensures UniqueSteps(AllEpisodes(table', to))
  {
    LogStaysOrdered(Before(to), table');
    ClosedEpisodesAreUnique(Filter(Before(to), table'));
  }

  /** A read decides its derivation, whatever came before it, exactly when every link is settled. */
  lemma SettledExactly(
    table: seq<Row>, levels: seq<Sample>, topology: Topology, leadIn: int, h: int, to: int, station: string, at: int)
    requires Ordered(table) && h <= to && h <= at && 0 <= leadIn
    ensures (var read := ReadEvidence(table, levels, topology, leadIn, h, to);
             AllSettled(read, Derive(read, station, at), h))
            <==> ReadDecides(table, levels, topology, leadIn, h, to, station, at)
  {
    hide Derive, Settled, StateEpisodes, AllEpisodes;
    var read := ReadEvidence(table, levels, topology, leadIn, h, to);
    if AllSettled(read, Derive(read, station, at), h) {
      forall table', levels' | SameRead(table, levels, table', levels', h, to)
        ensures Derive(FullEvidence(table', levels', topology, leadIn, to), station, at) == Derive(read, station, at)
      {
        assert ReadEvidence(table', levels', topology, leadIn, h, to) == read;
        SettledSuffices(table', levels', topology, leadIn, h, to, station, at);
      }
    } else {
      var l :| l in Derive(read, station, at).links && !Settled(read, l, h);
      UnsettledMisleads(table, levels, topology, leadIn, h, to, station, at, l);
    }
  }

  ghost predicate ReadDecidesStop(
    table: seq<Row>, levels: seq<Sample>, topology: Topology, leadIn: int, h: int, readTo: int, from: int, to: int)
  {
    forall table', levels' :: SameRead(table, levels, table', levels', h, readTo) ==>
      DeriveForStop(FullEvidence(table', levels', topology, leadIn, readTo), from, to)
      == DeriveForStop(ReadEvidence(table, levels, topology, leadIn, h, readTo), from, to)
  }

  lemma SeedOverRead(table: seq<Row>, levels: seq<Sample>, topology: Topology, leadIn: int, h: int, readTo: int,
                     station: string, from: int, to: int)
    requires Ordered(table) && h <= readTo && h <= from
    ensures SeedInstant(AllEpisodes(table, readTo), station, from, to)
         == SeedInstant(StateEpisodes(table, h, readTo), station, from, to) >= h
  {
    hide SeedInstant;
    var full := FullEvidence(table, levels, topology, leadIn, readTo);
    var read := ReadEvidence(table, levels, topology, leadIn, h, readTo);
    ReadAgrees(table, levels, topology, leadIn, h, readTo);
    LogStaysOrdered(InRead(table, h, readTo), table);
    LogStaysOrdered(Before(readTo), table);
    forall e | e in read.timeline || e in full.timeline ensures e.toTs.None? || e.fromTs <= e.toTs.value {
      if e in read.timeline {
        ClosedEpisodesRunForward(Filter(InRead(table, h, readTo), table), e);
      } else {
        ClosedEpisodesRunForward(Filter(Before(readTo), table), e);
      }
    }
    SeedCarriesOver(read, full, h, station, from, to);
  }

  /** The same for the derivation behind a stop. */
  lemma SettledExactlyForStops(
    table: seq<Row>, levels: seq<Sample>, topology: Topology, leadIn: int, h: int, readTo: int, from: int, to: int)
    requires Ordered(table) && h <= readTo && h <= from && 0 <= leadIn
    ensures (var read := ReadEvidence(table, levels, topology, leadIn, h, readTo);
             var d := DeriveForStop(read, from, to);
             d.None? || AllSettled(read, d.value, h))
            <==> ReadDecidesStop(table, levels, topology, leadIn, h, readTo, from, to)
  {
    hide Derive, Settled, StateEpisodes, AllEpisodes, SeedInstant, Ordered, AllSettled, Topology.Tail;
    if topology.Tail().Some? {
      var tail, at := topology.Tail().value, SeedInstant(StateEpisodes(table, h, readTo), topology.Tail().value, from, to);
      SeedOverRead(table, levels, topology, leadIn, h, readTo, tail, from, to);
      SettledExactly(table, levels, topology, leadIn, h, readTo, tail, at);
      forall table', levels' | SameRead(table, levels, table', levels', h, readTo)
        ensures DeriveForStop(FullEvidence(table', levels', topology, leadIn, readTo), from, to)
             == Some(Derive(FullEvidence(table', levels', topology, leadIn, readTo), tail, at))
      {
        SeedOverRead(table', levels', topology, leadIn, h, readTo, tail, from, to);
      }
    }
  }
}
