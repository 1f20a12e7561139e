/**
 Which episode of the tail a stop is derived from, said of the transitions themselves: when two spans of
 time are seeded in one episode.
 */
module Seeds {
  import opened Sequences
  import opened Propagation
  import opened Causes
  import opened Reads
  import opened StopDerivation

  // ----- transitions of one station -----

  /** The station left `Execute` by this transition, inside `[a, b)`. */
  ghost predicate Leaves(rows: seq<Row>, station: string, a: int, b: int, r: Row) {
    r in rows && r.station == station && r.state != Execute && a <= r.at < b
  }

  ghost predicate Stays(rows: seq<Row>, station: string, a: int, b: int) {
    forall r :: !Leaves(rows, station, a, b, r)
  }

  ghost predicate LeavesFirst(rows: seq<Row>, station: string, a: int, b: int, r: Row) {
    Leaves(rows, station, a, b, r) && forall x :: Leaves(rows, station, a, b, x) ==> r.at <= x.at
  }

  /** No transition after `a`, up to and at `b`. */
  ghost predicate Unchanged(rows: seq<Row>, station: string, a: int, b: int) {
    forall r :: r in rows && r.station == station ==> !(a < r.at <= b)
  }

  // ----- the episode covering an instant -----

  ghost predicate Begun(rows: seq<Row>, station: string, moment: int) {
    exists r :: r in rows && r.station == station && r.at <= moment
  }

  /** The transition that began what covers an instant. */
  ghost predicate Began(rows: seq<Row>, station: string, moment: int, i: int) {
    && 0 <= i < |rows| && rows[i].station == station && LatestTransition(rows, rows[i], moment)
    && var e := EpisodesFrom(rows)[i];
       && EpisodeCovering(EpisodesFrom(rows), station, moment) == Some(e)
       && e.Step() == (station, rows[i].at) && e.state == rows[i].state
  }

  lemma CoveringRow(rows: seq<Row>, station: string, moment: int)
    requires Ordered(rows) && Begun(rows, station, moment)
    ensures exists i :: Began(rows, station, moment, i)
  {
    hide Ordered, EpisodesFrom;
    var es := EpisodesFrom(rows);
    OneEpisodeAtATime(rows, station, moment);
    var j :| 0 <= j < |rows| && CoveredBy(rows, station, moment, j);
    assert es[j] in es && CoveringAt(station, moment)(es[j]);
    assert es[j] in Filter(CoveringAt(station, moment), es);
    var found := EpisodeCovering(es, station, moment);
    var i :| 0 <= i < |es| && es[i] == found.value;
    assert CoveringAt(station, moment)(es[i]);
    CoversExactlyLatest(rows, i, moment);
    assert Began(rows, station, moment, i);
  }

  lemma NothingCovers(rows: seq<Row>, station: string, moment: int)
    requires Ordered(rows) && forall r :: r in rows && r.station == station ==> moment < r.at
    ensures EpisodeCovering(EpisodesFrom(rows), station, moment) == None
  {
    hide Ordered, EpisodesFrom;
    var es := EpisodesFrom(rows);
    var found := Filter(CoveringAt(station, moment), es);
    if found != [] {
      var e := found[0];
      assert e in found && CoveringAt(station, moment)(e);
      var i :| 0 <= i < |es| && es[i] == e;
      assert rows[i] in rows;
      CoversExactlyLatest(rows, i, moment);
    }
  }

  /** Two instants lie in one episode exactly when nothing changed between them. */
  lemma SameEpisodeExactly(rows: seq<Row>, station: string, a: int, b: int)
    requires Ordered(rows) && a <= b
    ensures EpisodeCovering(EpisodesFrom(rows), station, a) == EpisodeCovering(EpisodesFrom(rows), station, b)
            <==> Unchanged(rows, station, a, b)
  {
    hide Ordered, EpisodesFrom, EpisodeCovering;
    if Begun(rows, station, a) {
      CoveringRow(rows, station, a);
      var i :| Began(rows, station, a, i);
      assert rows[i] in rows && rows[i].at <= b;
      CoveringRow(rows, station, b);
      var j :| Began(rows, station, b, j);
      if Unchanged(rows, station, a, b) {
        assert rows[j] in rows;
        if i < j { OrderedIsStrict(rows, i, j); }
        if j < i { OrderedIsStrict(rows, j, i); }
      } else {
        var x :| x in rows && x.station == station && a < x.at <= b;
        assert x.at <= rows[j].at;
      }
    } else {
      NothingCovers(rows, station, a);
      if Begun(rows, station, b) {
        CoveringRow(rows, station, b);
        var j :| Began(rows, station, b, j);
      } else {
        NothingCovers(rows, station, b);
      }
    }
  }

  // ----- the seed -----

  lemma SeedIs(rows: seq<Row>, station: string, a: int, b: int)
    requires Ordered(rows)
    ensures var seed := SeedInstant(EpisodesFrom(rows), station, a, b);
            if Stays(rows, station, a, b) then seed == a
            else exists r :: LeavesFirst(rows, station, a, b, r) && r.at == seed
  {
    hide Ordered, EpisodesFrom;
    var es := EpisodesFrom(rows);
    var starts := Filter(StopsInside(station, a, b), es);
    forall i | 0 <= i < |rows| ensures Leaves(rows, station, a, b, rows[i]) <==> es[i] in starts {
      CoversExactlyLatest(rows, i, 0);
      assert rows[i] in rows && es[i] in es;
    }
    if starts == [] {
      forall r ensures !Leaves(rows, station, a, b, r) {
        if r in rows {
          var i :| 0 <= i < |rows| && rows[i] == r;
          assert es[i] !in starts;
        }
      }
    } else {
      EarliestStartIsEarliest(starts);
      var e :| e in starts && e.fromTs == EarliestStart(starts);
      var k :| 0 <= k < |es| && es[k] == e;
      CoversExactlyLatest(rows, k, 0);
      forall x | Leaves(rows, station, a, b, x) ensures rows[k].at <= x.at {
        var i :| 0 <= i < |rows| && rows[i] == x;
        CoversExactlyLatest(rows, i, 0);
        assert es[i] in starts;
      }
      assert LeavesFirst(rows, station, a, b, rows[k]);
    }
  }

  /** The span `[from, to)` of a longer one `[anchor, ended)` is seeded where that is: in the first
      transition by which the station left `Execute`, if that lies inside it, or lies before it and still
      stands when it starts with none inside; or, when there is none at all, where nothing changed from
      the one start to the other. */
  ghost predicate SeededAlike(rows: seq<Row>, station: string, from: int, to: int, anchor: int, ended: int) {
    if Stays(rows, station, anchor, ended) then
      Stays(rows, station, from, to) && Unchanged(rows, station, anchor, from)
    else
      exists r :: LeavesFirst(rows, station, anchor, ended, r)
                  && (from <= r.at < to
                      || (r.at < from && Stays(rows, station, from, to) && Unchanged(rows, station, r.at, from)))
  }

  ghost predicate SameSeed(timeline: seq<Episode>, station: string, from: int, to: int, anchor: int, ended: int) {
    EpisodeCovering(timeline, station, SeedInstant(timeline, station, from, to))
    == EpisodeCovering(timeline, station, SeedInstant(timeline, station, anchor, ended))
  }

  lemma SeededAlikeExactly(rows: seq<Row>, station: string, from: int, to: int, anchor: int, ended: int)
    requires Ordered(rows) && anchor <= from < to && anchor < ended
    ensures SameSeed(EpisodesFrom(rows), station, from, to, anchor, ended)
            <==> SeededAlike(rows, station, from, to, anchor, ended)
  {
    hide Ordered, EpisodesFrom, EpisodeCovering, SeedInstant;
    var es := EpisodesFrom(rows);
    var near, far := SeedInstant(es, station, from, to), SeedInstant(es, station, anchor, ended);
    SeedIs(rows, station, from, to);
    SeedIs(rows, station, anchor, ended);
    SameEpisodeExactly(rows, station, if near <= far then near else far, if near <= far then far else near);
    if Stays(rows, station, anchor, ended) {
      SeededAtTheAnchor(rows, station, from, to, anchor, ended, near);
    } else {
      var r :| LeavesFirst(rows, station, anchor, ended, r) && r.at == far;
      SeededAtATransition(rows, station, from, to, anchor, ended, r, near);
    }
  }

  lemma SeededAtTheAnchor(
    rows: seq<Row>, station: string, from: int, to: int, anchor: int, ended: int, near: int)
    requires anchor <= from < to && anchor < ended && Stays(rows, station, anchor, ended)
    requires if Stays(rows, station, from, to) then near == from
             else exists r :: LeavesFirst(rows, station, from, to, r) && r.at == near
    ensures anchor <= near
    ensures Unchanged(rows, station, anchor, near) <==> SeededAlike(rows, station, from, to, anchor, ended)
  {
    if !Stays(rows, station, from, to) {
      var r :| LeavesFirst(rows, station, from, to, r) && r.at == near;
      assert !Leaves(rows, station, anchor, ended, r);
    }
  }

  lemma SeededAtATransition(
    rows: seq<Row>, station: string, from: int, to: int, anchor: int, ended: int, r: Row, near: int)
    requires anchor <= from < to && LeavesFirst(rows, station, anchor, ended, r)
    requires if Stays(rows, station, from, to) then near == from
             else exists x :: LeavesFirst(rows, station, from, to, x) && x.at == near
    ensures Unchanged(rows, station, if near <= r.at then near else r.at, if near <= r.at then r.at else near)
            <==> SeededAlike(rows, station, from, to, anchor, ended)
  {
    assert forall q :: LeavesFirst(rows, station, anchor, ended, q) ==> q.at == r.at;
    if Stays(rows, station, from, to) {
      assert !Leaves(rows, station, from, to, r);
    } else {
      var x :| LeavesFirst(rows, station, from, to, x) && x.at == near;
      assert from <= r.at < to ==> Leaves(rows, station, from, to, r);
      assert x.at < ended ==> Leaves(rows, station, anchor, ended, x);
    }
  }
}
