/**
 What the database hands the walk: `state_episodes` and `buffer_samples` of
 `diagnostics/analysis/src/analysis/queries.py` as functions on ordered rows.
 */
module Reads {
  import opened Sequences
  import opened Propagation

  /** One settled state transition. */
  datatype Row = Row(station: string, at: int, state: State, reason: Option<string>, buffer: Option<string>)

  /** `r` comes before every later transition of its station, and those come before any other. */
  ghost predicate Heads(r: Row, rest: seq<Row>) {
    && (forall x :: x in rest && x.station == r.station ==> r.at < x.at)
    && RunFirst(r.station, rest)
  }

  ghost predicate RunFirst(station: string, rows: seq<Row>) {
    rows == [] || if rows[0].station == station then RunFirst(station, rows[1..])
                  else forall x :: x in rows ==> x.station != station
  }

  /** Rows as the queries order them: station by station, instants strictly increasing. */
  ghost predicate Ordered(rows: seq<Row>) {
    rows == [] || (Heads(rows[0], rows[1..]) && Ordered(rows[1..]))
  }

  // ----- closing transitions into episodes -----

  /** A transition closed against the next row, when that is one of the same station. */
  function Close(r: Row, rest: seq<Row>): Episode {
    var ends := if rest != [] && rest[0].station == r.station then Some(rest[0].at) else None;
    Episode(r.station, r.state, r.at, ends, r.reason, r.buffer)
  }

  function EpisodesFrom(rows: seq<Row>): (es: seq<Episode>)
    ensures |es| == |rows|
  {
    if rows == [] then [] else [Close(rows[0], rows[1..])] + EpisodesFrom(rows[1..])
  }

  // ----- the reads -----

  function Before(to: int): Row -> bool { (r: Row) => r.at < to }

  /** The carry-in of a station is its last transition before the read begins. */
  predicate CarriedIn(table: seq<Row>, r: Row, from: int) {
    r.at < from && forall x :: x in table && x.station == r.station && x.at < from ==> x.at <= r.at
  }

  function InRead(table: seq<Row>, from: int, to: int): Row -> bool {
    (r: Row) => from <= r.at < to || CarriedIn(table, r, from)
  }

  /** `state_episodes` over `[from, to)`, of a table in the order the query asks for. */
  function StateEpisodes(table: seq<Row>, from: int, to: int): seq<Episode> {
    EpisodesFrom(Filter(InRead(table, from, to), table))
  }

  /** Every episode known at `to`, however far back it began. */
  function AllEpisodes(table: seq<Row>, to: int): seq<Episode> {
    EpisodesFrom(Filter(Before(to), table))
  }

  function SampledIn(from: int, to: int): Sample -> bool { (s: Sample) => from <= s.at < to }
  function SampledBefore(to: int): Sample -> bool { (s: Sample) => s.at < to }

  function BufferSamples(levels: seq<Sample>, from: int, to: int): seq<Sample> {
    Filter(SampledIn(from, to), levels)
  }

  function AllSamples(levels: seq<Sample>, to: int): seq<Sample> {
    Filter(SampledBefore(to), levels)
  }

  // ----- order -----

  lemma {:induction false} FilterKeepsRun(p: Row -> bool, station: string, rows: seq<Row>)
    requires RunFirst(station, rows)
    ensures RunFirst(station, Filter(p, rows))
  {
    if rows != [] && rows[0].station == station {
      FilterKeepsRun(p, station, rows[1..]);
      if p(rows[0]) {
        assert ([rows[0]] + Filter(p, rows[1..]))[1..] == Filter(p, rows[1..]);
      } else {
        assert [] + Filter(p, rows[1..]) == Filter(p, rows[1..]);
      }
    } else {
      var kept := Filter(p, rows);
      assert forall x :: x in kept ==> x in rows;
      if kept != [] { assert kept[0] in kept; }
    }
  }

  lemma {:induction false} LogStaysOrdered(p: Row -> bool, rows: seq<Row>)
    requires Ordered(rows)
    ensures Ordered(Filter(p, rows))
  {
    if rows != [] {
      LogStaysOrdered(p, rows[1..]);
      if p(rows[0]) {
        FilterKeepsRun(p, rows[0].station, rows[1..]);
        assert ([rows[0]] + Filter(p, rows[1..]))[1..] == Filter(p, rows[1..]);
      } else {
        assert [] + Filter(p, rows[1..]) == Filter(p, rows[1..]);
      }
    }
  }

  // ----- episodes refine the log -----

  /** `r` is the station's latest transition at or before `moment`. */
  ghost predicate LatestTransition(rows: seq<Row>, r: Row, moment: int) {
    && r in rows && r.at <= moment
    && forall x :: x in rows && x.station == r.station && x.at <= moment ==> x.at <= r.at
  }

  lemma NextOfStation(r: Row, rest: seq<Row>, x: Row)
    requires Heads(r, rest) && Ordered(rest) && x in rest && x.station == r.station
    ensures rest[0].station == r.station && rest[0].at <= x.at
  {
    assert rest == [rest[0]] + rest[1..];
    assert x == rest[0] || x in rest[1..];
  }

  /** An episode covers an instant exactly when its row is the latest transition by then. */
  lemma {:induction false} CoversExactlyLatest(rows: seq<Row>, i: nat, moment: int)
    requires Ordered(rows) && i < |rows|
    ensures EpisodesFrom(rows)[i].station == rows[i].station && EpisodesFrom(rows)[i].fromTs == rows[i].at
    ensures EpisodesFrom(rows)[i].state == rows[i].state
    ensures EpisodesFrom(rows)[i].Covers(moment) <==> LatestTransition(rows, rows[i], moment)
  {
    var r, rest := rows[0], rows[1..];
    assert rows == [r] + rest;
    if i == 0 {
      var e := Close(r, rest);
      assert EpisodesFrom(rows)[0] == e;
      assert e.toTs.Some? ==> rest[0] in rows;
      if e.Covers(moment) {
        forall x | x in rows && x.station == r.station && x.at <= moment ensures x.at <= r.at {
          if x in rest { NextOfStation(r, rest, x); }
        }
      }
    } else {
      CoversExactlyLatest(rest, i - 1, moment);
      assert EpisodesFrom(rows)[i] == EpisodesFrom(rest)[i - 1];
      assert rest[i - 1] in rest;
      assert rows[i].station == r.station ==> r.at < rows[i].at;
    }
  }

  lemma {:induction false} OrderedIsStrict(rows: seq<Row>, i: nat, j: nat)
    requires Ordered(rows) && i < j < |rows| && rows[i].station == rows[j].station
    ensures rows[i].at < rows[j].at
  {
    if i == 0 {
      assert rows[j] in rows[1..];
    } else {
      OrderedIsStrict(rows[1..], i - 1, j - 1);
    }
  }

  /** From a station's first transition on, exactly one of its episodes covers each instant. */
  lemma OneEpisodeAtATime(rows: seq<Row>, station: string, moment: int)
    requires Ordered(rows)
    requires exists r :: r in rows && r.station == station && r.at <= moment
    ensures exists i :: 0 <= i < |rows| && CoveredBy(rows, station, moment, i)
    ensures forall i, j :: CoveredBy(rows, station, moment, i) && CoveredBy(rows, station, moment, j) ==> i == j
  {
    var r := LatestOf(rows, station, moment);
    var i :| 0 <= i < |rows| && rows[i] == r;
    CoversExactlyLatest(rows, i, moment);
    assert CoveredBy(rows, station, moment, i);
    forall j, k | CoveredBy(rows, station, moment, j) && CoveredBy(rows, station, moment, k) ensures j == k {
      CoversExactlyLatest(rows, j, moment);
      CoversExactlyLatest(rows, k, moment);
      if j < k { OrderedIsStrict(rows, j, k); }
      if k < j { OrderedIsStrict(rows, k, j); }
    }
  }

  ghost predicate CoveredBy(rows: seq<Row>, station: string, moment: int, i: int) {
    && 0 <= i < |rows|
    && EpisodesFrom(rows)[i].station == station && EpisodesFrom(rows)[i].Covers(moment)
  }

  lemma {:induction false} LatestOf(rows: seq<Row>, station: string, moment: int) returns (r: Row)
    requires exists x :: x in rows && x.station == station && x.at <= moment
    ensures r.station == station && LatestTransition(rows, r, moment)
  {
    var n := |rows| - 1;
    assert rows == rows[..n] + [rows[n]];
    if exists x :: x in rows[..n] && x.station == station && x.at <= moment {
      r := LatestOf(rows[..n], station, moment);
      if rows[n].station == station && rows[n].at <= moment && r.at < rows[n].at {
        r := rows[n];
      }
    } else {
      r := rows[n];
    }
  }

  /** Row `j` is the next transition of row `i`'s station. */
  ghost predicate IsNext(rows: seq<Row>, i: int, j: int)
    requires 0 <= i < |rows|
  {
    && i < j < |rows| && rows[j].station == rows[i].station
    && forall k :: i < k < |rows| && rows[k].station == rows[i].station ==> rows[j].at <= rows[k].at
  }

  /** An episode is its row, lasting until the station's next one; it is open exactly when there is none. */
  lemma {:induction false} EpisodesAreTheirRows(rows: seq<Row>, i: nat)
    requires Ordered(rows) && i < |rows|
    ensures (var e, r := EpisodesFrom(rows)[i], rows[i];
             && e == Episode(r.station, r.state, r.at, e.toTs, r.reason, r.buffer)
             && (e.toTs.None? <==> forall j :: i < j < |rows| ==> rows[j].station != r.station)
             && (e.toTs.Some? ==> exists j :: IsNext(rows, i, j) && rows[j].at == e.toTs.value))
  {
    var r, rest := rows[0], rows[1..];
    if i == 0 {
      assert EpisodesFrom(rows)[0] == Close(r, rest);
      if rest != [] && rest[0].station == r.station {
        forall k | 0 < k < |rows| && rows[k].station == r.station ensures rows[1].at <= rows[k].at {
          assert rest[k - 1] in rest;
          NextOfStation(r, rest, rest[k - 1]);
        }
        assert IsNext(rows, 0, 1);
      } else {
        forall j | 0 < j < |rows| ensures rows[j].station != r.station {
          assert rest[j - 1] in rest;
        }
      }
    } else {
      EpisodesAreTheirRows(rest, i - 1);
      assert EpisodesFrom(rows)[i] == EpisodesFrom(rest)[i - 1];
      assert forall j :: i < j < |rows| ==> rest[j - 1] == rows[j];
      if EpisodesFrom(rows)[i].toTs.Some? {
        var j :| IsNext(rest, i - 1, j) && rest[j].at == EpisodesFrom(rows)[i].toTs.value;
        assert IsNext(rows, i, j + 1);
      }
    }
  }

  // ----- the carry-in rule -----

  function OpenSince(h: int): Episode -> bool { (e: Episode) => e.toTs.None? || e.toTs.value >= h }

  /** A suffix of the transitions known at `to`, whose later rows of a station are all in it. */
  ghost predicate Suffix(table: seq<Row>, s: seq<Row>, to: int) {
    && Ordered(s)
    && (forall r :: r in s ==> r in table && r.at < to)
    && (forall r, x :: r in s && x in table && x.station == r.station && r.at < x.at < to ==> x in s)
  }

  lemma {:induction false} ReadSuffix(table: seq<Row>, s: seq<Row>, h: int, to: int)
    requires h <= to && Suffix(table, s, to)
    ensures EpisodesFrom(Filter(InRead(table, h, to), s)) == Filter(OpenSince(h), EpisodesFrom(s))
  {
    if s != [] {
      var r, rest := s[0], s[1..];
      var p := InRead(table, h, to);
      assert s == [r] + rest;
      assert Suffix(table, rest, to) by {
        forall a, x | a in rest && x in table && x.station == a.station && a.at < x.at < to ensures x in rest {
          assert x in s;
          assert a.station == r.station ==> r.at < a.at;
        }
      }
      ReadSuffix(table, rest, h, to);
      var kept := Filter(p, rest);
      assert EpisodesFrom(s) == [Close(r, rest)] + EpisodesFrom(rest);
      if p(r) {
        SameClose(table, r, rest, kept, h, to);
        assert ([r] + kept)[1..] == kept;
        assert EpisodesFrom([r] + kept) == [Close(r, rest)] + EpisodesFrom(kept);
        assert OpenSince(h)(Close(r, rest));
      } else {
        assert [] + kept == kept;
        DroppedIsClosed(table, s, h, to);
        assert !OpenSince(h)(Close(r, rest));
      }
      assert ([Close(r, rest)] + EpisodesFrom(rest))[1..] == EpisodesFrom(rest);
    }
  }

  lemma SameClose(table: seq<Row>, r: Row, rest: seq<Row>, kept: seq<Row>, h: int, to: int)
    requires Suffix(table, [r] + rest, to) && InRead(table, h, to)(r)
    requires kept == Filter(InRead(table, h, to), rest)
    ensures Close(r, kept) == Close(r, rest) && OpenSince(h)(Close(r, rest))
  {
    var s := [r] + rest;
    assert s[0] == r && s[1..] == rest;
    if rest != [] && rest[0].station == r.station {
      assert rest[0] in rest && rest[0] in s;
      assert r.at < rest[0].at;
      assert InRead(table, h, to)(rest[0]);
      assert kept[0] == rest[0];
    } else if rest != [] {
      assert forall x :: x in rest ==> x.station != r.station;
      if kept != [] { assert kept[0] in kept; }
    }
  }

  lemma DroppedIsClosed(table: seq<Row>, s: seq<Row>, h: int, to: int)
    requires h <= to && Suffix(table, s, to) && s != [] && !InRead(table, h, to)(s[0])
    ensures Close(s[0], s[1..]).toTs.Some? && Close(s[0], s[1..]).toTs.value < h
  {
    var r, rest := s[0], s[1..];
    var x :| x in table && x.station == r.station && x.at < h && r.at < x.at;
    assert x in s && x in rest;
    NextOfStation(r, rest, x);
  }

  /** Reading from `h` keeps exactly the episodes still open at `h` or later: the carry-in row
      is what makes the timeline complete at its left edge. */
  lemma CarryInCompletes(table: seq<Row>, h: int, to: int)
    requires Ordered(table) && h <= to
    ensures StateEpisodes(table, h, to) == Filter(OpenSince(h), AllEpisodes(table, to))
  {
    var known := Filter(Before(to), table);
    LogStaysOrdered(Before(to), table);
    ReadSuffix(table, known, h, to);
    FilterWithin(InRead(table, h, to), Before(to), table);
  }
}
