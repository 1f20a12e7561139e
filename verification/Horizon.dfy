/**
 How much history a derivation needs. Two bodies of evidence that agree from an instant on
 derive the same chain as soon as one of the two chains never looks past that instant; and
 no order of the rows matters.
 */
module Horizon {
  import opened Sequences
  import opened Propagation
  import opened Chains
  import opened Causes
  import opened Reads

  // ----- two walks in lockstep -----

  lemma {:induction false} WalkExtends(
    ev: Evidence, current: Episode, seen: set<(string, int)>, links: seq<ChainLink>, candidates: seq<Episode>)
    requires current in ev.timeline
    ensures links <= Walk(ev, current, seen, links, candidates).links
    decreases |Steps(ev.timeline) - seen|
  {
    if current.Step() !in seen && MoveFrom(ev, current).Follow? {
      var move := MoveFrom(ev, current);
      NextIsOnTheTimeline(ev, current);
      FewerSteps(ev.timeline, seen, current);
      WalkExtends(ev, move.next, seen + {current.Step()}, links + [move.link], candidates + move.extra);
      assert links <= links + [move.link];
    }
  }

  /** The moves over `a` whose links satisfy `trusted` are moves over `b` as well. */
  ghost predicate MovesCarryOver(a: Evidence, b: Evidence, trusted: ChainLink -> bool) {
    forall e :: trusted(MoveFrom(a, e).link) ==> MoveFrom(a, e) == MoveFrom(b, e)
  }

  lemma {:induction false} Lockstep(
      a: Evidence, b: Evidence, trusted: ChainLink -> bool,
      current: Episode, seen: set<(string, int)>, links: seq<ChainLink>, candidates: seq<Episode>)
    requires MovesCarryOver(a, b, trusted)
    requires current in a.timeline && current in b.timeline
    requires forall l :: l in Walk(a, current, seen, links, candidates).links ==> trusted(l)
    ensures Walk(a, current, seen, links, candidates) == Walk(b, current, seen, links, candidates)
    decreases |Steps(a.timeline) - seen|
  {
    if current.Step() !in seen {
      var move := MoveFrom(a, current);
      var extended := links + [move.link];
      if move.Follow? {
        NextIsOnTheTimeline(a, current);
        FewerSteps(a.timeline, seen, current);
        WalkExtends(a, move.next, seen + {current.Step()}, extended, candidates + move.extra);
        assert extended[|links|] == move.link;
        assert trusted(move.link);
        NextIsOnTheTimeline(b, current);
        Lockstep(a, b, trusted, move.next, seen + {current.Step()}, extended, candidates + move.extra);
      } else {
        assert extended[|links|] == move.link;
        assert trusted(move.link);
      }
    }
  }

  // ----- a horizon -----

  function TakenSince(h: int): Sample -> bool { (s: Sample) => s.at >= h }

  /** The two bodies of evidence hold the same rows from `h` on. */
  ghost predicate AgreeFrom(a: Evidence, b: Evidence, h: int) {
    && a.topology == b.topology && a.leadIn == b.leadIn
    && Filter(OpenSince(h), a.timeline) == Filter(OpenSince(h), b.timeline)
    && Filter(TakenSince(h), a.samples) == Filter(TakenSince(h), b.samples)
  }

  /** Following this link read nothing from before `h`. A caller can check it on the answer. */
  predicate ReadsFrom(link: ChainLink, leadIn: int, h: int) {
    link.buffer.Some? ==>
      && (link.buffer.value != CARRIER_RETURN ==> h <= link.episode.fromTs - leadIn)
      && (link.since.Some? ==> h <= link.since.value - leadIn)
  }

  function Trusted(leadIn: int, h: int): ChainLink -> bool { (l: ChainLink) => ReadsFrom(l, leadIn, h) }

  lemma CoveringCarriesOver(a: Evidence, b: Evidence, h: int, station: string, at: int)
    requires AgreeFrom(a, b, h) && h <= at
    ensures EpisodeCovering(a.timeline, station, at) == EpisodeCovering(b.timeline, station, at)
  {
    FilterWithin(CoveringAt(station, at), OpenSince(h), a.timeline);
    FilterWithin(CoveringAt(station, at), OpenSince(h), b.timeline);
  }

  lemma ConditionCarriesOver(a: Evidence, b: Evidence, h: int, link: BufferLink, direction: Direction, before: int)
    requires AgreeFrom(a, b, h) && h <= before - a.leadIn
    ensures ConditionSince(a.samples, link, direction, before, a.leadIn)
         == ConditionSince(b.samples, link, direction, before, b.leadIn)
  {
    FilterWithin(WithinHorizon(link.buffer, before, a.leadIn), TakenSince(h), a.samples);
    FilterWithin(WithinHorizon(link.buffer, before, a.leadIn), TakenSince(h), b.samples);
  }

  lemma ExplainingCarriesOver(a: Evidence, b: Evidence, h: int, station: string, since: int)
    requires AgreeFrom(a, b, h) && h <= since - a.leadIn
    ensures ExplainingEpisode(a.timeline, station, since, a.leadIn)
         == ExplainingEpisode(b.timeline, station, since, b.leadIn)
  {
    FilterWithin(AccountableIn(station, since, a.leadIn), OpenSince(h), a.timeline);
    FilterWithin(AccountableIn(station, since, a.leadIn), OpenSince(h), b.timeline);
  }

  lemma BufferMoveCarriesOver(a: Evidence, b: Evidence, h: int, e: Episode, via: BufferLink, direction: Direction)
    requires AgreeFrom(a, b, h) && ReadsFrom(FollowBuffer(a, e, via, direction).link, a.leadIn, h)
    ensures FollowBuffer(a, e, via, direction) == FollowBuffer(b, e, via, direction)
  {
    if FarSide(via, direction) != e.station {
      if via.buffer != CARRIER_RETURN {
        ConditionCarriesOver(a, b, h, via, direction, e.fromTs);
      }
      var since := SinceWhen(a, e, via, direction);
      assert since == SinceWhen(b, e, via, direction);
      if since.Some? {
        assert FollowBuffer(a, e, via, direction).link == ChainLink(e, Some(via.buffer), since);
        ExplainingCarriesOver(a, b, h, FarSide(via, direction), since.value);
      }
    }
  }

  lemma MoveCarriesOver(a: Evidence, b: Evidence, h: int, e: Episode)
    requires AgreeFrom(a, b, h) && ReadsFrom(MoveFrom(a, e).link, a.leadIn, h)
    ensures MoveFrom(a, e) == MoveFrom(b, e)
  {
    var via := ConnectingLink(a.topology, e, e.Direction());
    if e.Kind() == Consequence && via.Some? && e.Direction().Some? {
      BufferMoveCarriesOver(a, b, h, e, via.value, e.Direction().value);
    }
  }

  /** The evidence horizon, and it is symmetric: whichever of the two chains can be seen to
      read nothing from before `h`, the other body of evidence derives the identical answer. */
  lemma HorizonSuffices(a: Evidence, b: Evidence, h: int, station: string, at: int)
    requires AgreeFrom(a, b, h) && h <= at
    requires forall l :: l in Derive(a, station, at).links ==> ReadsFrom(l, a.leadIn, h)
    ensures Derive(a, station, at) == Derive(b, station, at)
  {
    CoveringCarriesOver(a, b, h, station, at);
    var seed := EpisodeCovering(a.timeline, station, at);
    if seed.Some? {
      forall e | Trusted(a.leadIn, h)(MoveFrom(a, e).link) ensures MoveFrom(a, e) == MoveFrom(b, e) {
        MoveCarriesOver(a, b, h, e);
      }
      Lockstep(a, b, Trusted(a.leadIn, h), seed.value, {}, [], []);
    }
  }

  // ----- the reads of the service -----

  /** Everything the database knows at `to`. */
  function FullEvidence(table: seq<Row>, levels: seq<Sample>, topology: Topology, leadIn: int, to: int): Evidence {
    Evidence(AllEpisodes(table, to), AllSamples(levels, to), topology, leadIn)
  }

  /** What the service reads of it from `from` on. */
  function ReadEvidence(
    table: seq<Row>, levels: seq<Sample>, topology: Topology, leadIn: int, from: int, to: int): Evidence
  {
    Evidence(StateEpisodes(table, from, to), BufferSamples(levels, from, to), topology, leadIn)
  }

  lemma ReadAgrees(table: seq<Row>, levels: seq<Sample>, topology: Topology, leadIn: int, h: int, to: int)
    requires Ordered(table) && h <= to
    ensures AgreeFrom(FullEvidence(table, levels, topology, leadIn, to),
                      ReadEvidence(table, levels, topology, leadIn, h, to), h)
  {
    CarryInCompletes(table, h, to);
    FilterWithin(OpenSince(h), OpenSince(h), AllEpisodes(table, to));
    FilterBoth(TakenSince(h), SampledBefore(to), SampledIn(h, to), levels);
    FilterBoth(TakenSince(h), SampledIn(h, to), SampledIn(h, to), levels);
  }

  /** The chain walked over a read from `h` is the chain over the whole history as soon as
      either of them stays above `h`. */
  lemma ReadSuffices(
    table: seq<Row>, levels: seq<Sample>, topology: Topology, leadIn: int, h: int, to: int, station: string, at: int)
    requires Ordered(table) && h <= to && h <= at
    requires || (forall l :: l in Derive(ReadEvidence(table, levels, topology, leadIn, h, to), station, at).links
                             ==> ReadsFrom(l, leadIn, h))
             || (forall l :: l in Derive(FullEvidence(table, levels, topology, leadIn, to), station, at).links
                             ==> ReadsFrom(l, leadIn, h))
    ensures Derive(ReadEvidence(table, levels, topology, leadIn, h, to), station, at)
         == Derive(FullEvidence(table, levels, topology, leadIn, to), station, at)
  {
    var full := FullEvidence(table, levels, topology, leadIn, to);
    var read := ReadEvidence(table, levels, topology, leadIn, h, to);
    ReadAgrees(table, levels, topology, leadIn, h, to);
    if forall l :: l in Derive(read, station, at).links ==> ReadsFrom(l, leadIn, h) {
      assert AgreeFrom(read, full, h);
      HorizonSuffices(read, full, h, station, at);
    } else {
      HorizonSuffices(full, read, h, station, at);
    }
  }

  // ----- how far back a chain reaches -----

  /** Every explaining episode of the chain began inside the lead-in it was looked for in. */
  ghost predicate Fresh(links: seq<ChainLink>, leadIn: int) {
    forall i :: 0 <= i < |links| - 1 ==> StartsInLeadIn(links, leadIn, i)
  }

  ghost predicate StartsInLeadIn(links: seq<ChainLink>, leadIn: int, i: int)
    requires 0 <= i < |links| - 1
  {
    links[i].since.Some? ==> links[i].since.value - leadIn <= links[i + 1].episode.fromTs
  }

  function TwoLeadIns(i: nat, leadIn: int): int {
    2 * i * leadIn
  }

  lemma OneLinkFurther(i: nat, leadIn: int)
    requires i > 0
    ensures TwoLeadIns(0, leadIn) == 0
    ensures TwoLeadIns(i, leadIn) == TwoLeadIns(i - 1, leadIn) + 2 * leadIn
  {
  }

  lemma {:induction false} TwoLeadInsPerLink(ev: Evidence, links: seq<ChainLink>, i: nat)
    requires Supported(ev, links) && Fresh(links, ev.leadIn) && 0 <= ev.leadIn && i < |links|
    ensures links[i].episode.fromTs >= links[0].episode.fromTs - TwoLeadIns(i, ev.leadIn)
    ensures i < |links| - 1 ==> links[i].since.Some? && links[i].since.value >= links[i].episode.fromTs - ev.leadIn
  {
    hide TwoLeadIns;
    OneLinkFurther(if i > 0 then i else 1, ev.leadIn);
    if i > 0 {
      TwoLeadInsPerLink(ev, links, i - 1);
      assert StartsInLeadIn(links, ev.leadIn, i - 1);
    }
    if i < |links| - 1 {
      assert LeadsOn(ev, links, i);
      SinceWithinLeadIn(ev, links[i], links[i + 1].episode);
    }
  }

  lemma SinceWithinLeadIn(ev: Evidence, link: ChainLink, next: Episode)
    requires LeadsTo(ev, link, next) && 0 <= ev.leadIn
    ensures link.since.value >= link.episode.fromTs - ev.leadIn
  {
    var e := link.episode;
    var via :| LedBy(ev, link, via, e.Direction().value, next);
    if via.buffer != CARRIER_RETURN {
      var h := InHorizon(ev.samples, via, e.fromTs, ev.leadIn);
      var i, j :| 0 <= i <= j < |h| && RunSpans(h, via, e.Direction().value, i, j) && h[i].at == link.since.value;
      assert h[i] in h;
    }
  }

  // ----- order -----

  ghost predicate UniqueSamples(samples: seq<Sample>) {
    forall s, t :: s in samples && t in samples && s.buffer == t.buffer && s.at == t.at ==> s == t
  }

  ghost predicate UniqueStarts(timeline: seq<Episode>) {
    forall e, f :: e in timeline && f in timeline && e.Step() == f.Step() ==> e == f
  }

  /** The same rows in another order. */
  ghost predicate Reordered(a: Evidence, b: Evidence) {
    && a.topology == b.topology && a.leadIn == b.leadIn
    && multiset(a.timeline) == multiset(b.timeline) && multiset(a.samples) == multiset(b.samples)
    && UniqueStarts(a.timeline) && UniqueSamples(a.samples)
  }

  lemma LatestReordered(a: seq<Episode>, b: seq<Episode>)
    requires multiset(a) == multiset(b)
    requires forall e, f :: e in a && f in a && e.fromTs == f.fromTs ==> e == f
    ensures Latest(a) == Latest(b)
  {
    PermutationMembers(a, b);
    if a != [] {
      LatestIndexIsLatest(a);
      LatestIndexIsLatest(b);
    }
  }

  lemma ConditionReordered(a: seq<Sample>, b: seq<Sample>, link: BufferLink, before: int, leadIn: int)
    requires multiset(a) == multiset(b) && UniqueSamples(a)
    ensures InHorizon(a, link, before, leadIn) == InHorizon(b, link, before, leadIn)
  {
    var p := WithinHorizon(link.buffer, before, leadIn);
    FilterPermutation(p, a, b);
    SortPermutation(TakenNoLater, Filter(p, a), Filter(p, b));
  }

  lemma ExplainingReordered(a: Evidence, b: Evidence, station: string, since: int)
    requires Reordered(a, b)
    ensures ExplainingEpisode(a.timeline, station, since, a.leadIn) == ExplainingEpisode(b.timeline, station, since, b.leadIn)
  {
    var p := AccountableIn(station, since, a.leadIn);
    var x, y := Filter(p, a.timeline), Filter(p, b.timeline);
    FilterPermutation(p, a.timeline, b.timeline);
    ChoiceReordered(x, y, since);
  }

  lemma ChoiceReordered(x: seq<Episode>, y: seq<Episode>, since: int)
    requires multiset(x) == multiset(y)
    requires forall e, f :: e in x && f in x && e.fromTs == f.fromTs ==> e == f
    ensures ChooseFrom(x, since) == ChooseFrom(y, since)
  {
    hide Chosen, Filter, Sort;
    PermutationMembers(x, y);
    if x != [] {
      var k, l := Chosen(x, since), Chosen(y, since);
      ChosenReordered(x, y, since);
      RemoveOne(x, k);
      RemoveOne(y, l);
      OthersReordered(x[..k] + x[k + 1..], y[..l] + y[l + 1..], x);
    }
  }

  lemma ChosenReordered(x: seq<Episode>, y: seq<Episode>, since: int)
    requires multiset(x) == multiset(y) && x != [] && y != []
    requires forall e, f :: e in x && f in x && e.fromTs == f.fromTs ==> e == f
    ensures x[Chosen(x, since)] == y[Chosen(y, since)]
  {
    PermutationMembers(x, y);
    LatestWhereIs(CoveringInstant(since), x);
    LatestWhereIs(CoveringInstant(since), y);
    LatestIndexIsLatest(x);
    LatestIndexIsLatest(y);
    var e, f := x[Chosen(x, since)], y[Chosen(y, since)];
    assert e in y && f in x;
    if exists g :: g in x && CoveringInstant(since)(g) {
      SameLatest(CoveringInstant(since), x, y, Chosen(x, since), Chosen(y, since));
    }
  }

  lemma SameLatest(p: Episode -> bool, x: seq<Episode>, y: seq<Episode>, k: nat, l: nat)
    requires forall e :: e in x <==> e in y
    requires forall e, f :: e in x && f in x && e.fromTs == f.fromTs ==> e == f
    requires IsLatestWhere(p, x, Some(k)) && IsLatestWhere(p, y, Some(l))
    ensures x[k] == y[l]
  {
    assert x[k] in y && y[l] in x;
    var i :| 0 <= i < |y| && y[i] == x[k];
    var j :| 0 <= j < |x| && x[j] == y[l];
    assert x[k].fromTs <= y[l].fromTs && y[l].fromTs <= x[k].fromTs;
  }

  lemma OthersReordered(a: seq<Episode>, b: seq<Episode>, x: seq<Episode>)
    requires multiset(a) == multiset(b)
    requires forall e, f :: e in x && f in x && e.fromTs == f.fromTs ==> e == f
    requires forall e :: e in a ==> e in x
    ensures Sort(StartsNoLater, Filter(CauseEpisode(), a)) == Sort(StartsNoLater, Filter(CauseEpisode(), b))
  {
    FilterPermutation(CauseEpisode(), a, b);
    SortPermutation(StartsNoLater, Filter(CauseEpisode(), a), Filter(CauseEpisode(), b));
  }

  lemma MoveReordered(a: Evidence, b: Evidence, e: Episode)
    requires Reordered(a, b)
    ensures MoveFrom(a, e) == MoveFrom(b, e)
  {
    var via := ConnectingLink(a.topology, e, e.Direction());
    if e.Kind() == Consequence && via.Some? && e.Direction().Some? {
      BufferMoveReordered(a, b, e, via.value, e.Direction().value);
    }
  }

  ghost predicate SameExplanation(a: Evidence, b: Evidence, station: string, since: int) {
    ExplainingEpisode(a.timeline, station, since, a.leadIn) == ExplainingEpisode(b.timeline, station, since, b.leadIn)
  }

  lemma SameLookupsSameMove(a: Evidence, b: Evidence, e: Episode, via: BufferLink, direction: Direction)
    requires SinceWhen(a, e, via, direction) == SinceWhen(b, e, via, direction)
    requires SinceWhen(a, e, via, direction).Some? ==>
               SameExplanation(a, b, FarSide(via, direction), SinceWhen(a, e, via, direction).value)
    ensures FollowBuffer(a, e, via, direction) == FollowBuffer(b, e, via, direction)
  {
  }

  lemma BufferMoveReordered(a: Evidence, b: Evidence, e: Episode, via: BufferLink, direction: Direction)
    requires Reordered(a, b)
    ensures FollowBuffer(a, e, via, direction) == FollowBuffer(b, e, via, direction)
  {
    ConditionReordered(a.samples, b.samples, via, e.fromTs, a.leadIn);
    var since := SinceWhen(a, e, via, direction);
    assert since == SinceWhen(b, e, via, direction);
    if since.Some? {
      ExplainingReordered(a, b, FarSide(via, direction), since.value);
    }
    SameLookupsSameMove(a, b, e, via, direction);
  }

  /** Neither input needs to be sorted: the derivation does not depend on the rows' order. */
  lemma OrderDoesNotMatter(a: Evidence, b: Evidence, station: string, at: int)
    requires Reordered(a, b)
    ensures Derive(a, station, at) == Derive(b, station, at)
  {
    var p := CoveringAt(station, at);
    FilterPermutation(p, a.timeline, b.timeline);
    LatestReordered(Filter(p, a.timeline), Filter(p, b.timeline));
    var seed := EpisodeCovering(a.timeline, station, at);
    if seed.Some? {
      PermutationMembers(a.timeline, b.timeline);
      var always: ChainLink -> bool := _ => true;
      forall e ensures MoveFrom(a, e) == MoveFrom(b, e) {
        MoveReordered(a, b, e);
      }
      Lockstep(a, b, always, seed.value, {}, [], []);
    }
  }
}
