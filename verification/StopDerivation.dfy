/**
 The derivation behind one stop: `_derivation` and `_seed_instant` of
 `diagnostics/analysis/src/analysis/routes_stops.py`.
 */
module StopDerivation {
  import opened Sequences
  import opened Propagation
  import opened Chains
  import opened Causes
  import opened Reads
  import opened Horizon

  function StopsInside(station: string, from: int, to: int): Episode -> bool {
    (e: Episode) => e.station == station && e.state != Execute && from <= e.fromTs < to
  }

  function EarliestStart(es: seq<Episode>): int
    requires es != []
  {
    var n := |es| - 1;
    if n == 0 || es[n].fromTs < EarliestStart(es[..n]) then es[n].fromTs else EarliestStart(es[..n])
  }

  lemma {:induction false} EarliestStartIsEarliest(es: seq<Episode>)
    requires es != []
    ensures exists e :: e in es && e.fromTs == EarliestStart(es)
    ensures forall e :: e in es ==> EarliestStart(es) <= e.fromTs
  {
    var n := |es| - 1;
    assert es == es[..n] + [es[n]];
    assert es[n] in es;
    if n > 0 {
      EarliestStartIsEarliest(es[..n]);
      var e :| e in es[..n] && e.fromTs == EarliestStart(es[..n]);
      assert e in es;
    }
  }

  function SeedInstant(timeline: seq<Episode>, station: string, from: int, to: int): int {
    var starts := Filter(StopsInside(station, from, to), timeline);
    if starts == [] then from else EarliestStart(starts)
  }

  /** None when the line has no single tail to walk back from. */
  function DeriveForStop(ev: Evidence, from: int, to: int): Option<Derivation> {
    match ev.topology.Tail()
    case None => None
    case Some(tail) => Some(Derive(ev, tail, SeedInstant(ev.timeline, tail, from, to)))
  }

  lemma ClosedEpisodesAreUnique(rows: seq<Row>)
    requires Ordered(rows)
    ensures UniqueSteps(EpisodesFrom(rows))
  {
    var es := EpisodesFrom(rows);
    forall i, j | 0 <= i < j < |es| ensures es[i].Step() != es[j].Step() {
      CoversExactlyLatest(rows, i, 0);
      CoversExactlyLatest(rows, j, 0);
      if rows[i].station == rows[j].station {
        OrderedIsStrict(rows, i, j);
      }
    }
  }

  /** Over a closed log, the episode covering its own start is the only one that does. */
  lemma CoveringItsStart(rows: seq<Row>, i: nat)
    requires Ordered(rows) && i < |rows|
    ensures var e := EpisodesFrom(rows)[i]; EpisodeCovering(EpisodesFrom(rows), e.station, e.fromTs) == Some(e)
  {
    var es := EpisodesFrom(rows);
    var e := es[i];
    CoversExactlyLatest(rows, i, rows[i].at);
    assert LatestTransition(rows, rows[i], rows[i].at);
    assert rows[i] in rows;
    OneEpisodeAtATime(rows, e.station, e.fromTs);
    assert CoveredBy(rows, e.station, e.fromTs, i);
    assert e in es && CoveringAt(e.station, e.fromTs)(e);
    var found := EpisodeCovering(es, e.station, e.fromTs);
    assert e in Filter(CoveringAt(e.station, e.fromTs), es);
    var j :| 0 <= j < |es| && es[j] == found.value;
    assert CoveringAt(e.station, e.fromTs)(es[j]);
    assert CoveredBy(rows, e.station, e.fromTs, j);
  }

  /** When the tail stopped running inside the stop, the chain starts at the first episode in
      which it did, and never at the `Execute` it was in when the stop began. */
  lemma ChainStartsWhereTheTailStopped(rows: seq<Row>, ev: Evidence, tail: string, from: int, to: int)
    requires Ordered(rows) && ev.timeline == EpisodesFrom(rows) && ev.topology.Tail() == Some(tail)
    requires exists e :: e in ev.timeline && StopsInside(tail, from, to)(e)
    ensures var d := DeriveForStop(ev, from, to).value;
            && d.links != []
            && StopsInside(tail, from, to)(d.links[0].episode)
            && forall e :: e in ev.timeline && StopsInside(tail, from, to)(e) ==> d.links[0].episode.fromTs <= e.fromTs
  {
    hide Derive;
    var starts := Filter(StopsInside(tail, from, to), ev.timeline);
    assert starts != [];
    EarliestStartIsEarliest(starts);
    var at := SeedInstant(ev.timeline, tail, from, to);
    var first :| first in starts && first.fromTs == at;
    var i :| 0 <= i < |ev.timeline| && ev.timeline[i] == first;
    CoveringItsStart(rows, i);
    DeriveFromSeed(ev, tail, at, first);
  }

  lemma SeedCarriesOver(a: Evidence, b: Evidence, h: int, station: string, from: int, to: int)
    requires AgreeFrom(a, b, h) && h <= from
    requires forall e :: e in a.timeline || e in b.timeline ==> e.toTs.None? || e.fromTs <= e.toTs.value
    ensures SeedInstant(a.timeline, station, from, to) == SeedInstant(b.timeline, station, from, to)
    ensures h <= SeedInstant(a.timeline, station, from, to)
  {
    FilterWithin(StopsInside(station, from, to), OpenSince(h), a.timeline);
    FilterWithin(StopsInside(station, from, to), OpenSince(h), b.timeline);
    var starts := Filter(StopsInside(station, from, to), a.timeline);
    if starts != [] {
      EarliestStartIsEarliest(starts);
    }
  }

  lemma ClosedEpisodesRunForward(rows: seq<Row>, e: Episode)
    requires Ordered(rows) && e in EpisodesFrom(rows)
    ensures e.toTs.None? || e.fromTs <= e.toTs.value
  {
    var i :| 0 <= i < |rows| && EpisodesFrom(rows)[i] == e;
    CoversExactlyLatest(rows, i, rows[i].at);
    assert rows[i] in rows && LatestTransition(rows, rows[i], rows[i].at);
  }

  /** The whole derivation of a stop is the same over a read from `h` as over all of history
      whenever the chain at hand can be seen to read nothing from before `h`. */
  lemma StopDerivationSuffices(table: seq<Row>, levels: seq<Sample>, topology: Topology, leadIn: int,
                               h: int, readTo: int, from: int, to: int)
    requires Ordered(table) && h <= readTo && h <= from
    requires var read := DeriveForStop(ReadEvidence(table, levels, topology, leadIn, h, readTo), from, to);
             read.Some? ==> forall l :: l in read.value.links ==> ReadsFrom(l, leadIn, h)
    ensures DeriveForStop(ReadEvidence(table, levels, topology, leadIn, h, readTo), from, to)
         == DeriveForStop(FullEvidence(table, levels, topology, leadIn, readTo), from, to)
  {
    var full := FullEvidence(table, levels, topology, leadIn, readTo);
    var read := ReadEvidence(table, levels, topology, leadIn, h, readTo);
    ReadAgrees(table, levels, topology, leadIn, h, readTo);
    if topology.Tail().Some? {
      LogStaysOrdered(InRead(table, h, readTo), table);
      LogStaysOrdered(Before(readTo), table);
      forall e | e in read.timeline || e in full.timeline ensures e.toTs.None? || e.fromTs <= e.toTs.value {
        if e in read.timeline {
          ClosedEpisodesRunForward(Filter(InRead(table, h, readTo), table), e);
        } else {
          ClosedEpisodesRunForward(Filter(Before(readTo), table), e);
        }
      }
      SeedCarriesOver(read, full, h, topology.Tail().value, from, to);
      HorizonSuffices(read, full, h, topology.Tail().value, SeedInstant(read.timeline, topology.Tail().value, from, to));
    }
  }
}
