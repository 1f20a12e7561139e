/**
 Two stops whose listed category is not the one their id opens onto, one for each edge of the window: a stop
 already running when its window opened, and one still running when it closed. Both reads are enough.
 */
module Clipped {
  import opened Sequences
  import opened Windows
  import opened Calendar
  import opened Stops
  import opened StopIds
  import opened StopIdentity
  import opened Propagation
  import opened Reads
  import opened Horizon
  import opened StopDerivation
  import opened Depth
  import opened Seeds
  import opened Categories
  import opened Limits

  const TAIL := "S4"

  // ----- a derivation of one link -----

  lemma LineEnds(s: string)
    ensures s in LINE.Stations() <==> s in {"S2", "S3", "S4"}
    ensures s in LINE.Stations() ==> (LINE.DownstreamBufferOf(s).None? <==> s == TAIL)
  {
    hide First;
    assert LINE.links[0] in LINE.links && LINE.links[1] in LINE.links;
    NoFirst(DrawingFrom(s), LINE.links);
    assert DrawingFrom("S2")(LINE.links[0]) && DrawingFrom("S3")(LINE.links[1]);
  }

  lemma LineTail()
    ensures LINE.Tail() == Some(TAIL)
  {
    hide Topology.Stations, Topology.DownstreamBufferOf;
    var ends := set s | s in LINE.Stations() && LINE.DownstreamBufferOf(s).None?;
    forall s ensures s in ends <==> s == TAIL {
      LineEnds(s);
    }
    assert ends == {TAIL};
    assert |ends| == 1;
  }

  lemma OneLinkChain(ev: Evidence, station: string, at: int, e: Episode)
    requires EpisodeCovering(ev.timeline, station, at) == Some(e) && e in ev.timeline
    requires e.Kind() != Consequence
    ensures Derive(ev, station, at).Category() == if e.Kind() == CauseCandidate then Some(Internal) else None
  {
    WalkStops(ev, e, {}, [], []);
  }

  lemma SameTransition(rows: seq<Row>, r: Row, i: nat, moment: int)
    requires Ordered(rows) && i < |rows| && rows[i].station == r.station
    requires LatestTransition(rows, rows[i], moment) && LatestTransition(rows, r, moment)
    ensures rows[i] == r
  {
    var j :| 0 <= j < |rows| && rows[j] == r;
    if i < j { OrderedIsStrict(rows, i, j); }
    if j < i { OrderedIsStrict(rows, j, i); }
  }

  /** Where the derivation of a stop is seeded in `r`. */
  ghost predicate SeededIn(rows: seq<Row>, from: int, to: int, r: Row) {
    || LeavesFirst(rows, TAIL, from, to, r)
    || (Stays(rows, TAIL, from, to) && r.station == TAIL && LatestTransition(rows, r, from))
  }

  /** A tail that was waiting for nothing settles the category by the state it was in. */
  lemma SeedSettles(rows: seq<Row>, ev: Evidence, from: int, to: int, r: Row)
    requires Ordered(rows) && ev.timeline == EpisodesFrom(rows) && ev.topology == LINE
    requires SeededIn(rows, from, to, r) && r.state != Suspended
    ensures CategoryOf(DeriveForStop(ev, from, to)) == if r.state in {Held, Aborted} then Some(Internal) else None
  {
    hide Ordered, EpisodesFrom, EpisodeCovering, SeedInstant, Derive, Topology.Tail;
    LineTail();
    var at := SeedInstant(ev.timeline, TAIL, from, to);
    SeedIs(rows, TAIL, from, to);
    assert LatestTransition(rows, r, at) && r.station == TAIL && r.at <= at;
    CoveringRow(rows, TAIL, at);
    var i :| Began(rows, TAIL, at, i);
    SameTransition(rows, r, i, at);
    OneLinkChain(ev, TAIL, at, EpisodesFrom(rows)[i]);
  }

  lemma NobodyWaits(table: seq<Row>, h: int, to: int, leadIn: int)
    requires Ordered(table) && forall r :: r in table ==> r.state != Suspended
    ensures SuspendedLate(StateEpisodes(table, h, to), leadIn, h)
  {
    hide Ordered, EpisodesFrom;
    var rows := Filter(InRead(table, h, to), table);
    LogStaysOrdered(InRead(table, h, to), table);
    forall e | e in EpisodesFrom(rows) ensures e.state != Suspended {
      var i :| 0 <= i < |rows| && EpisodesFrom(rows)[i] == e;
      CoversExactlyLatest(rows, i, 0);
      assert rows[i] in rows;
    }
  }

  lemma ReadSettles(db: Database, h: int, readTo: int, from: int, to: int, rows: seq<Row>, r: Row)
    requires Ordered(db.table) && (forall x :: x in db.table ==> x.state != Suspended) && db.topology == LINE
    requires StateEpisodes(db.table, h, readTo) == EpisodesFrom(rows) && Ordered(rows) && SeededIn(rows, from, to, r)
    requires r.state != Suspended
    ensures Enough(db, h, readTo, from, to)
    ensures CategoryOf(Derived(db, h, readTo, from, to)) == if r.state in {Held, Aborted} then Some(Internal) else None
  {
    hide Ordered, EpisodesFrom, StateEpisodes, BufferSamples, DeriveForStop, SuspendedLate, SeededIn, CategoryOf;
    NobodyWaits(db.table, h, readTo, db.leadIn);
    SeedSettles(rows, db.Read(h, readTo), from, to, r);
  }

  // ----- parts at `zero` and 60 later -----

  function Leaving(zero: int): seq<int> {
    [zero, zero + 60]
  }

  ghost predicate Writable(p: Platform, zero: int) {
    Sound(p) && Representable(zero) && Representable(zero + 60) && InFull(p, zero)
  }

  lemma PartsLeaving(zero: int)
    ensures forall t :: t in Leaving(zero) <==> t == zero || t == zero + 60
    ensures forall moment :: zero <= moment < zero + 60 ==> OutputAtOrBefore(Leaving(zero), moment) == Some(zero)
    ensures OutputAfter(Leaving(zero), zero) == Some(zero + 60)
  {
    hide OutputAtOrBefore, OutputAfter;
    forall moment | zero <= moment < zero + 60 ensures OutputAtOrBefore(Leaving(zero), moment) == Some(zero) {
      assert zero in Leaving(zero);
      AtOrBeforeIsLatest(Leaving(zero), moment);
    }
    assert zero + 60 in Leaving(zero);
    AfterIsNext(Leaving(zero), zero);
  }

  lemma WholeStop(p: Platform, zero: int, now: int, threshold: int)
    requires Writable(p, zero) && 0 <= threshold < 60
    ensures AllRepresentable(Leaving(zero))
    ensures GetStop(p, Leaving(zero), StopId(p, zero), now, threshold)
         == Found(StopId(p, zero), Interruption(zero, zero + 60, false))
  {
    hide StopId, PaddedId, ParseStopId, Representable, InFull, OutputAtOrBefore, OutputAfter, Sound, Leaving;
    PartsLeaving(zero);
    StopIdReadsBack(p, zero);
  }

  /** The silence between the two parts, as a window that opens or closes inside it lists it. */
  lemma ListedPart(p: Platform, zero: int, threshold: int, floor: int, s: Stop, window: Window)
    requires Writable(p, zero) && 0 <= threshold < s.toTs - s.fromTs && floor < s.toTs - s.fromTs
    requires zero <= window.fromTs == s.fromTs < s.toTs <= zero + 60 && s.toTs <= window.toTs
    requires s.toTs == window.toTs || s.toTs == zero + 60
    requires (s.startedBeforeWindow <==> s.fromTs != zero) && (s.openAtWindowEnd <==> s.toTs == window.toTs)
    ensures IsListed(p, Leaving(zero), window, threshold, floor, s, StopId(p, zero))
  {
    hide StopsOf, StopId, Representable, InFull, OutputAtOrBefore, OutputAfter, Sound, Leaving;
    PartsLeaving(zero);
    StopsAreTheLongGaps(Leaving(zero), window, threshold, floor, s);
  }

  /** The stop is listed under `id` without a category, its id opens onto an internal cause, and neither read
      was too short for it. */
  ghost predicate ShownDifferently(
    p: Platform, outputs: seq<int>, window: Window, threshold: int, floor: int, s: Stop, id: string, now: int,
    db: Database, history: int, stop: Interruption)
  {
    && AllRepresentable(outputs) && IsListed(p, outputs, window, threshold, floor, s, id)
    && GetStop(p, outputs, id, now, threshold) == Found(id, stop)
    && Ordered(db.table)
    && Enough(db, window.fromTs - history, window.toTs, s.fromTs, s.toTs)
    && Enough(db, stop.fromTs - history, stop.toTs + 1, stop.fromTs, stop.toTs)
    && CategoryOf(Listed(db, history, window, s)) == None
    && CategoryOf(Detailed(db, history, stop)) == Some(Internal)
  }

  // ----- the left edge -----

  /** Held, restarted, and left again: the window opens after the restart. */
  function HeldThenStopping(zero: int): seq<Row> {
    [Row(TAIL, zero + 10, Held, None, None), Row(TAIL, zero + 20, Execute, None, None),
     Row(TAIL, zero + 40, OtherState("Stopping"), None, None)]
  }

  const OPENING := Stop.Stop(30, 60, true, false)

  function Shifted(s: Stop, zero: int): Stop {
    s.(fromTs := s.fromTs + zero, toTs := s.toTs + zero)
  }

  lemma ThreeRowsOrdered(a: Row, b: Row, c: Row)
    requires a.station == b.station == c.station && a.at < b.at < c.at
    ensures Ordered([a, b, c]) && Ordered([a, b])
  {
    assert [a, b, c][1..] == [b, c] && [b, c][1..] == [c] && [c][1..] == [];
    assert [a, b][1..] == [b] && [b][1..] == [];
    assert RunFirst(c.station, [c]) && RunFirst(b.station, [b, c]) && RunFirst(b.station, [b]);
    assert Ordered([c]) && Ordered([b]);
    assert Heads(b, [c]) && Ordered([b, c]);
  }

  lemma OpeningCategories(zero: int, history: int, leadIn: int)
    requires 20 <= history
    ensures (var db := Database(HeldThenStopping(zero), [], LINE, leadIn);
             && Ordered(db.table)
             && Enough(db, zero + 30 - history, zero + 100, zero + 30, zero + 60)
             && Enough(db, zero - history, zero + 61, zero, zero + 60)
             && CategoryOf(Derived(db, zero + 30 - history, zero + 100, zero + 30, zero + 60)) == None
             && CategoryOf(Derived(db, zero - history, zero + 61, zero, zero + 60)) == Some(Internal))
  {
    hide Ordered, EpisodesFrom, StateEpisodes, Enough, Derived, CategoryOf;
    var db := Database(HeldThenStopping(zero), [], LINE, leadIn);
    var table := db.table;
    ThreeRowsOrdered(table[0], table[1], table[2]);
    AllAreRead(table, zero + 30 - history, zero + 100);
    AllAreRead(table, zero - history, zero + 61);
    assert table[0] in table && table[2] in table;
    assert LeavesFirst(table, TAIL, zero + 30, zero + 60, table[2]);
    assert LeavesFirst(table, TAIL, zero, zero + 60, table[0]);
    ReadSettles(db, zero + 30 - history, zero + 100, zero + 30, zero + 60, table, table[2]);
    ReadSettles(db, zero - history, zero + 61, zero, zero + 60, table, table[0]);
  }

  /** A stop from 0 to 60, listed by a window that opens at 30: without a category, though its id opens onto
      an internal cause. */
  lemma OpeningEdgeCanDiffer(p: Platform, zero: int, now: int, threshold: int, floor: int, history: int, leadIn: int)
    requires Writable(p, zero) && 0 <= threshold < 30 && floor < 30 && 20 <= history
    ensures ShownDifferently(p, Leaving(zero), Interval(zero + 30, zero + 100), threshold, floor,
                             Shifted(OPENING, zero), StopId(p, zero), now,
                             Database(HeldThenStopping(zero), [], LINE, leadIn), history,
                             Interruption(zero, zero + 60, false))
  {
    hide Ordered, Derived, GetStop, IsListed, StopId, Enough, HeldThenStopping, AllRepresentable, CategoryOf,
         Writable, Leaving;
    OpeningCategories(zero, history, leadIn);
    WholeStop(p, zero, now, threshold);
    ListedPart(p, zero, threshold, floor, Shifted(OPENING, zero), Interval(zero + 30, zero + 100));
  }

  lemma AllAreRead(table: seq<Row>, h: int, to: int)
    requires forall r :: r in table ==> h <= r.at < to
    ensures StateEpisodes(table, h, to) == EpisodesFrom(table)
  {
    FilterKeepsAll(InRead(table, h, to), table);
  }

  // ----- the right edge -----

  /** Running until it is held, after the window has closed. */
  function RunningThenHeld(zero: int): seq<Row> {
    [Row(TAIL, zero - 10, Execute, None, None), Row(TAIL, zero + 50, Held, None, None)]
  }

  const CLOSING := Stop.Stop(0, 40, false, true)

  lemma FirstIsRead(a: Row, b: Row, h: int, to: int)
    requires h <= a.at < to <= b.at
    ensures StateEpisodes([a, b], h, to) == EpisodesFrom([a])
  {
    FilterTwo(InRead([a, b], h, to), a, b);
    assert [a] + [] == [a];
  }

  lemma OneRowOrdered(r: Row)
    ensures Ordered([r])
  {
    assert [r][1..] == [];
  }

  lemma ClosingCategories(zero: int, history: int, leadIn: int)
    requires 10 <= history
    ensures (var db := Database(RunningThenHeld(zero), [], LINE, leadIn);
             && Ordered(db.table)
             && Enough(db, zero - history, zero + 40, zero, zero + 40)
             && Enough(db, zero - history, zero + 61, zero, zero + 60)
             && CategoryOf(Derived(db, zero - history, zero + 40, zero, zero + 40)) == None
             && CategoryOf(Derived(db, zero - history, zero + 61, zero, zero + 60)) == Some(Internal))
  {
    hide Ordered, EpisodesFrom, StateEpisodes, Enough, Derived, CategoryOf;
    var db := Database(RunningThenHeld(zero), [], LINE, leadIn);
    var table := db.table;
    ThreeRowsOrdered(table[0], table[1], table[1].(at := zero + 51));
    OneRowOrdered(table[0]);
    FirstIsRead(table[0], table[1], zero - history, zero + 40);
    AllAreRead(table, zero - history, zero + 61);
    assert table[1] in table && table[0] in [table[0]];
    assert Stays([table[0]], TAIL, zero, zero + 40) && LatestTransition([table[0]], table[0], zero);
    assert LeavesFirst(table, TAIL, zero, zero + 60, table[1]);
    ReadSettles(db, zero - history, zero + 40, zero, zero + 40, [table[0]], table[0]);
    ReadSettles(db, zero - history, zero + 61, zero, zero + 60, table, table[1]);
  }

  /** A stop from 0 to 60, listed by a window that closes at 40: without a category, though it began inside
      the window and its id opens onto an internal cause. */
  lemma ClosingEdgeCanDiffer(p: Platform, zero: int, now: int, threshold: int, floor: int, history: int, leadIn: int)
    requires Writable(p, zero) && 0 <= threshold < 40 && floor < 40 && 10 <= history
    ensures ShownDifferently(p, Leaving(zero), Interval(zero, zero + 40), threshold, floor,
                             Shifted(CLOSING, zero), StopId(p, zero), now,
                             Database(RunningThenHeld(zero), [], LINE, leadIn), history,
                             Interruption(zero, zero + 60, false))
  {
    hide Ordered, Derived, GetStop, IsListed, StopId, Enough, RunningThenHeld, AllRepresentable, CategoryOf,
         Writable, Leaving;
    ClosingCategories(zero, history, leadIn);
    WholeStop(p, zero, now, threshold);
    ListedPart(p, zero, threshold, floor, Shifted(CLOSING, zero), Interval(zero, zero + 40));
  }
}
