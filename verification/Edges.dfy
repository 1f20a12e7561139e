/**
 What is recorded after an instant cannot reach a derivation seeded before it: a read that ends earlier
 closes its episodes differently, and derives the same chain.
 */
module Edges {
  import opened Sequences
  import opened Propagation
  import opened Chains
  import opened Causes
  import opened Reads
  import opened Horizon
  import opened Depth

  // ----- an episode seen from a read that ends at `t` -----

  /** The same episode, still open when it ends at `t` or later. */
  function Trim(t: int, e: Episode): Episode {
    if e.toTs.Some? && e.toTs.value >= t then e.(toTs := None) else e
  }

  function TrimAll(t: int, es: seq<Episode>): (r: seq<Episode>)
    ensures |r| == |es|
  {
    seq(|es|, i requires 0 <= i < |es| => Trim(t, es[i]))
  }

  function StartsBefore(t: int): Episode -> bool { (e: Episode) => e.fromTs < t }

  /** A timeline as a read that ends at `t` gives it. */
  function SeenUntil(t: int, es: seq<Episode>): seq<Episode> {
    TrimAll(t, Filter(StartsBefore(t), es))
  }

  lemma TrimKeeps(t: int, e: Episode)
    ensures Trim(t, e).Kind() == e.Kind() && Trim(t, e).Direction() == e.Direction()
    ensures Trim(t, e).ReasonDetail() == e.ReasonDetail() && Trim(t, e).Step() == e.Step()
    ensures forall moment :: moment < t ==> (Trim(t, e).Covers(moment) <==> e.Covers(moment))
    ensures forall begins, ends :: begins < t ==> (Trim(t, e).Overlaps(begins, ends) <==> e.Overlaps(begins, ends))
  {
  }

  // ----- shorter reads -----

  lemma {:induction false} ClosedEarlier(rows: seq<Row>, t: int)
    requires Ordered(rows)
    ensures EpisodesFrom(Filter(Before(t), rows)) == SeenUntil(t, EpisodesFrom(rows))
  {
    if rows != [] {
      var r, rest := rows[0], rows[1..];
      ClosedEarlier(rest, t);
      var kept := Filter(Before(t), rest);
      assert EpisodesFrom(rows) == [Close(r, rest)] + EpisodesFrom(rest);
      SeenOneMore(t, Close(r, rest), EpisodesFrom(rest));
      if r.at < t {
        CloseEarlier(r, rest, t);
        assert ([r] + kept)[1..] == kept;
        assert EpisodesFrom([r] + kept) == [Close(r, kept)] + EpisodesFrom(kept);
      } else {
        assert [] + kept == kept;
      }
    }
  }

  lemma SeenOneMore(t: int, e: Episode, es: seq<Episode>)
    ensures SeenUntil(t, [e] + es) == (if e.fromTs < t then [Trim(t, e)] else []) + SeenUntil(t, es)
  {
    assert ([e] + es)[1..] == es;
  }

  lemma CloseEarlier(r: Row, rest: seq<Row>, t: int)
    requires Heads(r, rest) && Ordered(rest) && r.at < t
    ensures Close(r, Filter(Before(t), rest)) == Trim(t, Close(r, rest))
  {
    var kept := Filter(Before(t), rest);
    if rest != [] && rest[0].station == r.station {
      if rest[0].at < t {
        assert kept[0] == rest[0];
      } else {
        forall x | x in kept ensures x.station != r.station {
          if x.station == r.station { NextOfStation(r, rest, x); }
        }
        if kept != [] { assert kept[0] in kept; }
      }
    } else if rest != [] {
      assert forall x :: x in rest ==> x.station != r.station;
      if kept != [] { assert kept[0] in kept; }
    }
  }

  /** The two bodies of evidence differ at most in what was recorded from `t` on. */
  ghost predicate EndsAt(a: Evidence, b: Evidence, t: int) {
    && a.topology == b.topology && a.leadIn == b.leadIn
    && a.timeline == SeenUntil(t, b.timeline)
    && a.samples == Filter(SampledBefore(t), b.samples)
  }

  lemma ShorterReads(table: seq<Row>, levels: seq<Sample>, topology: Topology, leadIn: int, t: int, to: int)
    requires Ordered(table) && t <= to
    ensures EndsAt(FullEvidence(table, levels, topology, leadIn, t), FullEvidence(table, levels, topology, leadIn, to), t)
  {
    hide Ordered, SeenUntil;
    LogStaysOrdered(Before(to), table);
    ClosedEarlier(Filter(Before(to), table), t);
    FilterWithin(Before(t), Before(to), table);
    FilterWithin(SampledBefore(t), SampledBefore(to), levels);
  }

  // ----- looking things up -----

  /** Whether `p` holds of an episode is settled before `t`. */
  ghost predicate SettledBefore(p: Episode -> bool, t: int) {
    forall e :: (p(e) ==> e.fromTs < t) && p(Trim(t, e)) == p(e)
  }

  lemma TrimAllAppend(t: int, a: seq<Episode>, b: seq<Episode>)
    ensures TrimAll(t, a + b) == TrimAll(t, a) + TrimAll(t, b)
  {
  }

  lemma SettledOf(p: Episode -> bool, t: int, e: Episode)
    requires SettledBefore(p, t)
    ensures (p(e) ==> e.fromTs < t) && p(Trim(t, e)) == p(e)
  {
  }

  lemma FilterCons(p: Episode -> bool, e: Episode, es: seq<Episode>)
    ensures Filter(p, [e] + es) == if p(e) then [e] + Filter(p, es) else Filter(p, es)
  {
    assert ([e] + es)[1..] == es;
  }

  lemma NothingFiltered(p: Episode -> bool)
    ensures Filter(p, []) == []
  {
  }

  lemma NothingSeen(t: int)
    ensures SeenUntil(t, []) == [] && TrimAll(t, []) == []
  {
  }

  lemma {:induction false} FilterSeen(p: Episode -> bool, t: int, es: seq<Episode>)
    requires SettledBefore(p, t)
    ensures Filter(p, SeenUntil(t, es)) == TrimAll(t, Filter(p, es))
  {
    hide SettledBefore, Trim, TrimAll, Filter;
    NothingSeen(t);
    NothingFiltered(p);
    if es != [] {
      var e, rest := es[0], es[1..];
      FilterSeen(p, t, rest);
      SeenOneMore(t, e, rest);
      assert es == [e] + rest;
      SettledOf(p, t, e);
      FilterCons(p, e, rest);
      if e.fromTs < t {
        FilterCons(p, Trim(t, e), SeenUntil(t, rest));
      } else {
        assert [] + SeenUntil(t, rest) == SeenUntil(t, rest);
      }
      TrimAllAppend(t, [e], Filter(p, rest));
      TrimAllCons(t, [e]);
    }
  }

  lemma TrimAllCons(t: int, es: seq<Episode>)
    requires es != []
    ensures TrimAll(t, es)[0] == Trim(t, es[0]) && TrimAll(t, es)[1..] == TrimAll(t, es[1..])
    ensures TrimAll(t, [es[0]]) == [Trim(t, es[0])] && TrimAll(t, []) == []
  {
  }

  lemma {:induction false} FilterTrimmed(p: Episode -> bool, t: int, es: seq<Episode>)
    requires forall e :: p(Trim(t, e)) == p(e)
    ensures Filter(p, TrimAll(t, es)) == TrimAll(t, Filter(p, es))
  {
    hide TrimAll, Trim;
    if es != [] {
      FilterTrimmed(p, t, es[1..]);
      TrimAllCons(t, es);
      TrimAllAppend(t, if p(es[0]) then [es[0]] else [], Filter(p, es[1..]));
    } else {
      assert TrimAll(t, es) == [];
    }
  }

  lemma {:induction false} LatestTrimmed(p: Episode -> bool, t: int, es: seq<Episode>)
    requires forall e :: p(Trim(t, e)) == p(e)
    ensures LatestWhere(p, TrimAll(t, es)) == LatestWhere(p, es)
  {
    if es != [] {
      var n := |es| - 1;
      LatestTrimmed(p, t, es[..n]);
      assert TrimAll(t, es)[..n] == TrimAll(t, es[..n]);
    }
  }

  lemma {:induction false} InsertTrimmed(t: int, e: Episode, es: seq<Episode>)
    ensures Insert(StartsNoLater, Trim(t, e), TrimAll(t, es)) == TrimAll(t, Insert(StartsNoLater, e, es))
  {
    hide TrimAll;
    NothingSeen(t);
    if es != [] { TrimAllCons(t, es); }
    TrimAllCons(t, [e]);
    if es == [] {
      assert [e] + es == [e] && [Trim(t, e)] + TrimAll(t, es) == [Trim(t, e)];
    } else if StartsNoLater(e, es[0]) {
      TrimAllAppend(t, [e], es);
    } else {
      InsertTrimmed(t, e, es[1..]);
      TrimAllAppend(t, [es[0]], Insert(StartsNoLater, e, es[1..]));
    }
  }

  lemma {:induction false} SortTrimmed(t: int, es: seq<Episode>)
    ensures Sort(StartsNoLater, TrimAll(t, es)) == TrimAll(t, Sort(StartsNoLater, es))
  {
    hide TrimAll, Insert, Trim;
    NothingSeen(t);
    if es != [] {
      SortTrimmed(t, es[1..]);
      TrimAllCons(t, es);
      InsertTrimmed(t, es[0], Sort(StartsNoLater, es[1..]));
    }
  }

  function TrimOption(t: int, e: Option<Episode>): Option<Episode> {
    if e.Some? then Some(Trim(t, e.value)) else None
  }

  lemma CoveringSeen(a: Evidence, b: Evidence, t: int, station: string, at: int)
    requires EndsAt(a, b, t) && at < t
    ensures EpisodeCovering(a.timeline, station, at) == TrimOption(t, EpisodeCovering(b.timeline, station, at))
    ensures EpisodeCovering(b.timeline, station, at).Some? ==> EpisodeCovering(b.timeline, station, at).value.fromTs < t
  {
    var p := CoveringAt(station, at);
    forall e ensures (p(e) ==> e.fromTs < t) && p(Trim(t, e)) == p(e) {
      TrimKeeps(t, e);
    }
    FilterSeen(p, t, b.timeline);
    LatestTrimmed(AnyEpisode(), t, Filter(p, b.timeline));
  }

  lemma ChosenTrimmed(t: int, es: seq<Episode>, since: int)
    requires since < t && es != []
    ensures TrimAll(t, es) != [] && Chosen(TrimAll(t, es), since) == Chosen(es, since)
  {
    hide TrimAll, LatestWhere;
    forall e ensures CoveringInstant(since)(Trim(t, e)) == CoveringInstant(since)(e) {
      TrimKeeps(t, e);
    }
    LatestTrimmed(CoveringInstant(since), t, es);
    LatestTrimmed(AnyEpisode(), t, es);
  }

  lemma TrimmedWithoutOne(t: int, es: seq<Episode>, k: nat)
    requires k < |es|
    ensures TrimAll(t, es)[..k] + TrimAll(t, es)[k + 1..] == TrimAll(t, es[..k] + es[k + 1..])
    ensures TrimAll(t, es)[k] == Trim(t, es[k])
  {
  }

  lemma OthersTrimmed(t: int, others: seq<Episode>)
    ensures Sort(StartsNoLater, Filter(CauseEpisode(), TrimAll(t, others)))
         == TrimAll(t, Sort(StartsNoLater, Filter(CauseEpisode(), others)))
  {
    hide TrimAll, Filter, Sort;
    forall e ensures CauseEpisode()(Trim(t, e)) == CauseEpisode()(e) {
      TrimKeeps(t, e);
    }
    FilterTrimmed(CauseEpisode(), t, others);
    SortTrimmed(t, Filter(CauseEpisode(), others));
  }

  lemma ChooseTrimmed(t: int, es: seq<Episode>, since: int)
    requires since < t
    ensures ChooseFrom(TrimAll(t, es), since)
         == (TrimOption(t, ChooseFrom(es, since).0), TrimAll(t, ChooseFrom(es, since).1))
  {
    hide TrimAll, Filter, Sort, Chosen, Trim;
    NothingSeen(t);
    if es != [] {
      var k := Chosen(es, since);
      ChosenTrimmed(t, es, since);
      TrimmedWithoutOne(t, es, k);
      OthersTrimmed(t, es[..k] + es[k + 1..]);
    }
  }

  lemma ExplainingSeen(a: Evidence, b: Evidence, t: int, station: string, since: int)
    requires EndsAt(a, b, t) && since < t && 0 <= b.leadIn
    ensures ExplainingEpisode(a.timeline, station, since, a.leadIn)
         == (TrimOption(t, ExplainingEpisode(b.timeline, station, since, b.leadIn).0),
             TrimAll(t, ExplainingEpisode(b.timeline, station, since, b.leadIn).1))
  {
    hide ChooseFrom, Filter;
    var p := AccountableIn(station, since, b.leadIn);
    forall e ensures (p(e) ==> e.fromTs < t) && p(Trim(t, e)) == p(e) {
      TrimKeeps(t, e);
    }
    FilterSeen(p, t, b.timeline);
    ChooseTrimmed(t, Filter(p, b.timeline), since);
  }

  lemma ConditionSeen(a: Evidence, b: Evidence, t: int, via: BufferLink, direction: Direction, before: int)
    requires EndsAt(a, b, t) && before < t
    ensures ConditionSince(a.samples, via, direction, before, a.leadIn)
         == ConditionSince(b.samples, via, direction, before, b.leadIn)
  {
    FilterWithin(WithinHorizon(via.buffer, before, b.leadIn), SampledBefore(t), b.samples);
  }

  // ----- one move, and the walk -----

  function TrimLink(t: int, l: ChainLink): ChainLink {
    l.(episode := Trim(t, l.episode))
  }

  function TrimLinks(t: int, links: seq<ChainLink>): seq<ChainLink> {
    seq(|links|, i requires 0 <= i < |links| => TrimLink(t, links[i]))
  }

  function TrimMove(t: int, move: Move): Move {
    match move
    case Stop(link, termination, unexplained) => Stop(TrimLink(t, link), termination, unexplained)
    case Follow(link, next, extra) => Follow(TrimLink(t, link), Trim(t, next), TrimAll(t, extra))
  }

  function TrimDerivation(t: int, d: Derivation): Derivation {
    Derivation(TrimLinks(t, d.links), d.termination, TrimAll(t, d.candidates), d.unexplained)
  }

  lemma BufferMoveSeen(a: Evidence, b: Evidence, t: int, e: Episode, via: BufferLink, direction: Direction)
    requires EndsAt(a, b, t) && e.fromTs < t && 0 <= b.leadIn
    ensures FollowBuffer(a, Trim(t, e), via, direction) == TrimMove(t, FollowBuffer(b, e, via, direction))
    ensures FollowBuffer(b, e, via, direction).Follow? ==> FollowBuffer(b, e, via, direction).next.fromTs < t
  {
    hide ConditionSince, ExplainingEpisode, EndsAt;
    TrimKeeps(t, e);
    assert Trim(t, e).station == e.station && Trim(t, e).fromTs == e.fromTs && Trim(t, e).reason == e.reason;
    SameLeadIn(a, b, t);
    if FarSide(via, direction) != e.station {
      if via.buffer != CARRIER_RETURN {
        ConditionSeen(a, b, t, via, direction, e.fromTs);
        SinceIsInHorizon(b.samples, via, direction, e.fromTs, b.leadIn);
      }
      var since := SinceWhen(b, e, via, direction);
      if since.Some? {
        ExplainingSeen(a, b, t, FarSide(via, direction), since.value);
        ExplainingStarts(b, FarSide(via, direction), since.value);
      }
    }
  }

  lemma SameLeadIn(a: Evidence, b: Evidence, t: int)
    requires EndsAt(a, b, t)
    ensures a.leadIn == b.leadIn && a.topology == b.topology
  {
  }

  lemma ExplainingStarts(ev: Evidence, station: string, since: int)
    ensures (var e := ExplainingEpisode(ev.timeline, station, since, ev.leadIn).0; e.Some? ==> e.value.fromTs <= since)
  {
    ExplainingAccounts(ev, station, since);
  }

  lemma MoveSeen(a: Evidence, b: Evidence, t: int, e: Episode)
    requires EndsAt(a, b, t) && e.fromTs < t && 0 <= b.leadIn
    ensures MoveFrom(a, Trim(t, e)) == TrimMove(t, MoveFrom(b, e))
    ensures MoveFrom(b, e).Follow? ==> MoveFrom(b, e).next.fromTs < t
  {
    hide FollowBuffer, EndsAt;
    TrimKeeps(t, e);
    SameLeadIn(a, b, t);
    var via := ConnectingLink(b.topology, e, e.Direction());
    assert ConnectingLink(a.topology, Trim(t, e), Trim(t, e).Direction()) == via;
    if e.Kind() == Consequence && via.Some? && e.Direction().Some? {
      BufferMoveSeen(a, b, t, e, via.value, e.Direction().value);
    }
  }

  lemma TrimLinksAppend(t: int, links: seq<ChainLink>, l: ChainLink)
    ensures TrimLinks(t, links + [l]) == TrimLinks(t, links) + [TrimLink(t, l)]
  {
  }

  lemma {:induction false} WalkSeen(
    a: Evidence, b: Evidence, t: int,
    current: Episode, seen: set<(string, int)>, links: seq<ChainLink>, candidates: seq<Episode>)
    requires EndsAt(a, b, t) && 0 <= b.leadIn
    requires current in b.timeline && current.fromTs < t && Trim(t, current) in a.timeline
    ensures Walk(a, Trim(t, current), seen, TrimLinks(t, links), TrimAll(t, candidates))
         == TrimDerivation(t, Walk(b, current, seen, links, candidates))
    decreases |Steps(b.timeline) - seen|
  {
    hide MoveFrom, EndsAt, TrimLinks, TrimAll;
    TrimKeeps(t, current);
    if current.Step() !in seen {
      var move := MoveFrom(b, current);
      MoveSeen(a, b, t, current);
      TrimLinksAppend(t, links, move.link);
      if move.Follow? {
        NextIsOnTheTimeline(b, current);
        NextIsOnTheTimeline(a, Trim(t, current));
        FewerSteps(b.timeline, seen, current);
        TrimAllAppend(t, candidates, move.extra);
        WalkSeen(a, b, t, move.next, seen + {current.Step()}, links + [move.link], candidates + move.extra);
      } else {
        TrimAllAppend(t, candidates, [current]);
        TrimAllCons(t, [current]);
      }
    }
  }

  /** A derivation seeded before `t` is the same over evidence that ends at `t`, but for episodes that end
      later and are still open there. */
  lemma LaterRecordsDoNotMatter(a: Evidence, b: Evidence, t: int, station: string, at: int)
    requires EndsAt(a, b, t) && at < t && 0 <= b.leadIn
    ensures Derive(a, station, at) == TrimDerivation(t, Derive(b, station, at))
    ensures Derive(a, station, at).Category() == Derive(b, station, at).Category()
  {
    hide EndsAt, Walk;
    CoveringSeen(a, b, t, station, at);
    var seed := EpisodeCovering(b.timeline, station, at);
    if seed.Some? {
      WalkSeen(a, b, t, seed.value, {}, [], []);
      assert TrimLinks(t, []) == [] && TrimAll(t, []) == [];
    }
    SameCategory(t, Derive(b, station, at));
  }

  lemma SameCategory(t: int, d: Derivation)
    ensures TrimDerivation(t, d).Category() == d.Category()
  {
    if d.links != [] {
      TrimKeeps(t, d.links[|d.links| - 1].episode);
    }
  }
}
