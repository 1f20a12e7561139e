/**
 The derivation behind the category `list_stops` shows for a stop and the one `get_stop` shows for the same
 id (`diagnostics/analysis/src/analysis/routes_stops.py`): two reads of different length, seeded at different
 starts. They are one derivation exactly when the tail's transitions seed both spans in one episode.
 */
module Categories {
  import opened Sequences
  import opened Windows
  import opened Stops
  import opened StopIds
  import opened StopIdentity
  import opened Propagation
  import opened Chains
  import opened Causes
  import opened Reads
  import opened Horizon
  import opened StopDerivation
  import opened Depth
  import opened Edges
  import opened Settled
  import opened Seeds

  // ----- the seed -----

  lemma {:induction false} EarliestTrimmed(t: int, es: seq<Episode>)
    requires es != []
    ensures EarliestStart(TrimAll(t, es)) == EarliestStart(es)
  {
    if |es| > 1 {
      var n := |es| - 1;
      EarliestTrimmed(t, es[..n]);
      assert TrimAll(t, es)[..n] == TrimAll(t, es[..n]);
    }
  }

  lemma SeedSeen(a: Evidence, b: Evidence, t: int, station: string, from: int, to: int)
    requires EndsAt(a, b, t) && to <= t
    ensures SeedInstant(a.timeline, station, from, to) == SeedInstant(b.timeline, station, from, to)
  {
    hide Filter;
    var p := StopsInside(station, from, to);
    forall e ensures (p(e) ==> e.fromTs < t) && p(Trim(t, e)) == p(e) {
    }
    FilterSeen(p, t, b.timeline);
    var starts := Filter(p, b.timeline);
    if starts != [] {
      EarliestTrimmed(t, starts);
    }
  }

  lemma SeedLies(timeline: seq<Episode>, station: string, from: int, to: int)
    requires from < to
    ensures from <= SeedInstant(timeline, station, from, to) < to
  {
    var starts := Filter(StopsInside(station, from, to), timeline);
    if starts != [] {
      EarliestStartIsEarliest(starts);
    }
  }

  // ----- two reads of one stop -----

  /** What the database holds in the end, and the lead-in a derivation uses. */
  datatype Database = Database(table: seq<Row>, levels: seq<Sample>, topology: Topology, leadIn: int)
  {
    function Known(to: int): Evidence {
      FullEvidence(table, levels, topology, leadIn, to)
    }

    function Read(h: int, to: int): Evidence {
      ReadEvidence(table, levels, topology, leadIn, h, to)
    }
  }

  /** The derivation of the stop `[from, to)` over the read `[h, readTo)`. */
  function Derived(db: Database, h: int, readTo: int, from: int, to: int): Option<Derivation> {
    DeriveForStop(db.Read(h, readTo), from, to)
  }

  /** The read is enough, whatever came before it: because no `Suspended` episode it returned began in its
      first two lead-ins, or because every link derived from it is settled. */
  ghost predicate Enough(db: Database, h: int, readTo: int, from: int, to: int) {
    || SuspendedLate(StateEpisodes(db.table, h, readTo), db.leadIn, h)
    || (Derived(db, h, readTo, from, to).Some? ==> AllSettled(db.Read(h, readTo), Derived(db, h, readTo, from, to).value, h))
  }

  function CategoryOf(d: Option<Derivation>): Option<Category> {
    if d.Some? then d.value.Category() else None
  }

  /** The (station, start) of the episode a derivation begins with. */
  function FirstStep(d: Option<Derivation>): Option<(string, int)> {
    if d.Some? && d.value.links != [] then Some(d.value.links[0].episode.Step()) else None
  }

  function StepOf(e: Option<Episode>): Option<(string, int)> {
    if e.Some? then Some(e.value.Step()) else None
  }

  /** What a read ending at `t` shows of a derivation. */
  ghost predicate SeenAt(t: int, whole: Option<Derivation>, seen: Option<Derivation>) {
    if whole.Some? then seen == Some(TrimDerivation(t, whole.value)) else seen == None
  }

  lemma SeenCategory(t: int, whole: Option<Derivation>, seen: Option<Derivation>)
    requires SeenAt(t, whole, seen)
    ensures CategoryOf(seen) == CategoryOf(whole)
  {
    if whole.Some? {
      SameCategory(t, whole.value);
    }
  }

  // ----- one read -----

  lemma StopSeen(a: Evidence, b: Evidence, t: int, from: int, to: int)
    requires EndsAt(a, b, t) && from < to <= t && 0 <= b.leadIn
    ensures SeenAt(t, DeriveForStop(b, from, to), DeriveForStop(a, from, to))
  {
    hide Derive, SeedInstant, TrimDerivation;
    SameLeadIn(a, b, t);
    var tail := b.topology.Tail();
    if tail.Some? {
      SeedSeen(a, b, t, tail.value, from, to);
      SeedLies(b.timeline, tail.value, from, to);
      LaterRecordsDoNotMatter(a, b, t, tail.value, SeedInstant(b.timeline, tail.value, from, to));
    }
  }

  lemma KnownLeadIn(db: Database, to: int)
    ensures db.Known(to).leadIn == db.leadIn && db.Known(to).topology == db.topology
    ensures db.Known(to).timeline == AllEpisodes(db.table, to)
  {
  }

  lemma EnoughIsSettled(db: Database, h: int, readTo: int, from: int, to: int)
    requires Ordered(db.table) && 0 <= db.leadIn && h <= from < to <= readTo && Enough(db, h, readTo, from, to)
    ensures Derived(db, h, readTo, from, to) == DeriveForStop(db.Known(readTo), from, to)
  {
    hide DeriveForStop, Ordered, FullEvidence, ReadEvidence, AllSettled, SuspendedLate, StateEpisodes, BufferSamples;
    if SuspendedLate(StateEpisodes(db.table, h, readTo), db.leadIn, h) {
      LateReadsSufficeForStops(db.table, db.levels, db.topology, db.leadIn, h, readTo, from, to);
    } else {
      SettledExactlyForStops(db.table, db.levels, db.topology, db.leadIn, h, readTo, from, to);
      assert SameRead(db.table, db.levels, db.table, db.levels, h, readTo);
    }
  }

  /** A read that is enough shows what is derived from everything known in the end. */
  lemma ReadShows(db: Database, h: int, readTo: int, last: int, from: int, to: int)
    requires Ordered(db.table) && 0 <= db.leadIn && h <= from < to <= readTo <= last
    requires Enough(db, h, readTo, from, to)
    ensures SeenAt(readTo, DeriveForStop(db.Known(last), from, to), Derived(db, h, readTo, from, to))
  {
    hide DeriveForStop, EndsAt, Ordered, FullEvidence, ReadEvidence, Enough, SeenAt, Derived;
    EnoughIsSettled(db, h, readTo, from, to);
    ShorterReads(db.table, db.levels, db.topology, db.leadIn, readTo, last);
    KnownLeadIn(db, last);
    StopSeen(db.Known(readTo), db.Known(last), readTo, from, to);
  }

  lemma TrimmedStep(t: int, e: Option<Episode>)
    ensures StepOf(TrimOption(t, e)) == StepOf(e)
  {
    if e.Some? { TrimKeeps(t, e.value); }
  }

  lemma CoveringIsThere(timeline: seq<Episode>, station: string, at: int)
    ensures EpisodeCovering(timeline, station, at).Some? ==> EpisodeCovering(timeline, station, at).value in timeline
  {
  }

  lemma DerivationBegins(ev: Evidence, from: int, to: int)
    requires ev.topology.Tail().Some?
    ensures var tail := ev.topology.Tail().value;
            FirstStep(DeriveForStop(ev, from, to))
            == StepOf(EpisodeCovering(ev.timeline, tail, SeedInstant(ev.timeline, tail, from, to)))
  {
    hide Walk, SeedInstant, EpisodeCovering;
    var tail := ev.topology.Tail().value;
    var at := SeedInstant(ev.timeline, tail, from, to);
    var seed := EpisodeCovering(ev.timeline, tail, at);
    if seed.Some? {
      CoveringIsThere(ev.timeline, tail, at);
      DeriveFromSeed(ev, tail, at, seed.value);
    }
  }

  /** Where the derivation over a read begins, however much history it has. */
  lemma ReadBegins(db: Database, h: int, readTo: int, last: int, from: int, to: int, tail: string)
    requires Ordered(db.table) && h <= from < to <= readTo <= last && db.topology.Tail() == Some(tail)
    ensures var known := AllEpisodes(db.table, last);
            FirstStep(Derived(db, h, readTo, from, to))
            == StepOf(EpisodeCovering(known, tail, SeedInstant(known, tail, from, to)))
  {
    hide EpisodeCovering, SeedInstant, EndsAt, Ordered, AllEpisodes, StateEpisodes, Topology.Tail, FirstStep,
         StepOf, DeriveForStop;
    var read, full := db.Read(h, readTo), db.Known(readTo);
    DerivationBegins(read, from, to);
    SeedOverRead(db.table, db.levels, db.topology, db.leadIn, h, readTo, tail, from, to);
    ReadAgrees(db.table, db.levels, db.topology, db.leadIn, h, readTo);
    var at := SeedInstant(AllEpisodes(db.table, readTo), tail, from, to);
    CoveringCarriesOver(read, full, h, tail, at);
    ShorterReads(db.table, db.levels, db.topology, db.leadIn, readTo, last);
    KnownLeadIn(db, last);
    KnownLeadIn(db, readTo);
    SeedSeen(full, db.Known(last), readTo, tail, from, to);
    SeedLies(AllEpisodes(db.table, last), tail, from, to);
    CoveringSeen(full, db.Known(last), readTo, tail, at);
    TrimmedStep(readTo, EpisodeCovering(AllEpisodes(db.table, last), tail, at));
  }

  // ----- two reads -----

  function Later(a: int, b: int): int {
    if a < b then b else a
  }

  lemma LeavesBefore(table: seq<Row>, last: int, station: string, a: int, b: int)
    requires b <= last
    ensures forall r :: Leaves(Filter(Before(last), table), station, a, b, r) <==> Leaves(table, station, a, b, r)
    ensures Stays(Filter(Before(last), table), station, a, b) <==> Stays(table, station, a, b)
    ensures forall r :: LeavesFirst(Filter(Before(last), table), station, a, b, r) <==> LeavesFirst(table, station, a, b, r)
  {
  }

  lemma UnchangedBefore(table: seq<Row>, last: int, station: string, a: int, b: int)
    requires b < last
    ensures Unchanged(Filter(Before(last), table), station, a, b) <==> Unchanged(table, station, a, b)
  {
  }

  lemma SeededBefore(table: seq<Row>, last: int, station: string, from: int, to: int, anchor: int, ended: int)
    requires from < to <= last && ended <= last
    ensures SeededAlike(Filter(Before(last), table), station, from, to, anchor, ended)
            <==> SeededAlike(table, station, from, to, anchor, ended)
  {
    hide Leaves, Stays, LeavesFirst, Unchanged;
    LeavesBefore(table, last, station, from, to);
    LeavesBefore(table, last, station, anchor, ended);
    forall a ensures Unchanged(Filter(Before(last), table), station, a, from) <==> Unchanged(table, station, a, from) {
      UnchangedBefore(table, last, station, a, from);
    }
  }

  lemma SameStepSameSeed(rows: seq<Row>, station: string, from: int, to: int, anchor: int, ended: int)
    requires Ordered(rows)
    ensures var es := EpisodesFrom(rows);
            StepOf(EpisodeCovering(es, station, SeedInstant(es, station, from, to)))
            == StepOf(EpisodeCovering(es, station, SeedInstant(es, station, anchor, ended)))
            <==> SameSeed(es, station, from, to, anchor, ended)
  {
    hide EpisodeCovering, SeedInstant, Ordered, EpisodesFrom, UniqueSteps;
    var es := EpisodesFrom(rows);
    var a, b := SeedInstant(es, station, from, to), SeedInstant(es, station, anchor, ended);
    ClosedEpisodesAreUnique(rows);
    CoveringIsThere(es, station, a);
    CoveringIsThere(es, station, b);
    var e, f := EpisodeCovering(es, station, a), EpisodeCovering(es, station, b);
    if e.Some? && f.Some? && e.value.Step() == f.value.Step() {
      SameStepSameEpisode(es, e.value, f.value);
    }
  }

  /** The derivation listed for `[from, to)` and the one shown for `[anchor, ended)` begin with one episode,
      over whatever history each was given, exactly when the tail's transitions seed the two spans alike. */
  lemma BeginAlikeExactly(
    db: Database, listedFrom: int, listedTo: int, from: int, to: int,
    detailFrom: int, detailTo: int, anchor: int, ended: int, tail: string)
    requires Ordered(db.table) && db.topology.Tail() == Some(tail)
    requires listedFrom <= from < to <= listedTo && detailFrom <= anchor <= from && anchor < ended <= detailTo
    ensures FirstStep(Derived(db, listedFrom, listedTo, from, to))
            == FirstStep(Derived(db, detailFrom, detailTo, anchor, ended))
            <==> SeededAlike(db.table, tail, from, to, anchor, ended)
  {
    hide Derived, SameSeed, Ordered, EpisodesFrom, EpisodeCovering, SeedInstant, FirstStep, StepOf, SeededAlike,
         Topology.Tail;
    var last := Later(listedTo, detailTo);
    var rows := Filter(Before(last), db.table);
    ReadBegins(db, listedFrom, listedTo, last, from, to, tail);
    ReadBegins(db, detailFrom, detailTo, last, anchor, ended, tail);
    LogStaysOrdered(Before(last), db.table);
    SameStepSameSeed(rows, tail, from, to, anchor, ended);
    SeededAlikeExactly(rows, tail, from, to, anchor, ended);
    SeededBefore(db.table, last, tail, from, to, anchor, ended);
  }

  lemma SameSeedSameDerivation(ev: Evidence, tail: string, from: int, to: int, anchor: int, ended: int)
    requires ev.topology.Tail() == Some(tail) && SameSeed(ev.timeline, tail, from, to, anchor, ended)
    ensures CategoryOf(DeriveForStop(ev, from, to)) == CategoryOf(DeriveForStop(ev, anchor, ended))
    ensures DeriveForStop(ev, from, to).value.links == DeriveForStop(ev, anchor, ended).value.links
  {
    hide Walk, SeedInstant, EpisodeCovering;
  }

  /** Both show one chain, each as far as its read goes. */
  ghost predicate OneChain(t: int, a: Option<Derivation>, u: int, b: Option<Derivation>) {
    a.Some? && b.Some? && exists whole :: a.value.links == TrimLinks(t, whole) && b.value.links == TrimLinks(u, whole)
  }

  lemma SeenChain(whole: Option<Derivation>, other: Option<Derivation>,
                  t: int, a: Option<Derivation>, u: int, b: Option<Derivation>)
    requires whole.Some? && other.Some? && whole.value.links == other.value.links
    requires SeenAt(t, whole, a) && SeenAt(u, other, b)
    ensures OneChain(t, a, u, b)
  {
    hide TrimLinks;
  }

  /** And then, when both reads are enough, they are one derivation and show one category. */
  lemma SeededAlikeShowsOneCategory(
    db: Database, listedFrom: int, listedTo: int, from: int, to: int,
    detailFrom: int, detailTo: int, anchor: int, ended: int, tail: string)
    requires Ordered(db.table) && 0 <= db.leadIn && db.topology.Tail() == Some(tail)
    requires listedFrom <= from < to <= listedTo && detailFrom <= anchor <= from && anchor < ended <= detailTo
    requires Enough(db, listedFrom, listedTo, from, to) && Enough(db, detailFrom, detailTo, anchor, ended)
    requires SeededAlike(db.table, tail, from, to, anchor, ended)
    ensures CategoryOf(Derived(db, listedFrom, listedTo, from, to))
         == CategoryOf(Derived(db, detailFrom, detailTo, anchor, ended))
    ensures OneChain(listedTo, Derived(db, listedFrom, listedTo, from, to),
                     detailTo, Derived(db, detailFrom, detailTo, anchor, ended))
  {
    hide Derived, SameSeed, Ordered, EpisodesFrom, SeededAlike, Topology.Tail, Enough, SeenAt, CategoryOf, OneChain;
    var last := Later(listedTo, detailTo);
    var rows := Filter(Before(last), db.table);
    LogStaysOrdered(Before(last), db.table);
    SeededAlikeExactly(rows, tail, from, to, anchor, ended);
    SeededBefore(db.table, last, tail, from, to, anchor, ended);
    KnownLeadIn(db, last);
    SameSeedSameDerivation(db.Known(last), tail, from, to, anchor, ended);
    ReadShows(db, listedFrom, listedTo, last, from, to);
    ReadShows(db, detailFrom, detailTo, last, anchor, ended);
    var whole, other := DeriveForStop(db.Known(last), from, to), DeriveForStop(db.Known(last), anchor, ended);
    SeenCategory(listedTo, whole, Derived(db, listedFrom, listedTo, from, to));
    SeenCategory(detailTo, other, Derived(db, detailFrom, detailTo, anchor, ended));
    SeenChain(whole, other, listedTo, Derived(db, listedFrom, listedTo, from, to),
              detailTo, Derived(db, detailFrom, detailTo, anchor, ended));
  }

  // ----- the two endpoints -----

  /** A stop that began inside its window is seeded alike unless the tail first left `Execute` after the
      listed part of it: so always when the window holds it whole. */
  lemma StopsInTheWindowAreSeededAlike(rows: seq<Row>, tail: string, from: int, to: int, ended: int)
    requires from < to <= ended
    ensures SeededAlike(rows, tail, from, to, from, ended) <==> Stays(rows, tail, from, ended) || !Stays(rows, tail, from, to)
    ensures to == ended ==> SeededAlike(rows, tail, from, to, from, ended)
  {
    assert forall r :: Leaves(rows, tail, from, to, r) ==> Leaves(rows, tail, from, ended, r);
    assert forall r :: Leaves(rows, tail, from, ended, r) && r.at < to ==> Leaves(rows, tail, from, to, r);
    assert Unchanged(rows, tail, from, from);
    if !Stays(rows, tail, from, ended) {
      var r := FirstLeft(rows, tail, from, ended);
    }
  }

  lemma {:induction false} FirstLeft(rows: seq<Row>, station: string, a: int, b: int) returns (r: Row)
    requires !Stays(rows, station, a, b)
    ensures LeavesFirst(rows, station, a, b, r)
  {
    var n := |rows| - 1;
    var x :| Leaves(rows, station, a, b, x);
    assert rows == rows[..n] + [rows[n]];
    if Stays(rows[..n], station, a, b) {
      assert forall y :: Leaves(rows, station, a, b, y) ==> y in rows[..n] || y == rows[n];
      assert forall y :: Leaves(rows, station, a, b, y) && y in rows[..n] ==> Leaves(rows[..n], station, a, b, y);
      r := rows[n];
    } else {
      r := FirstLeft(rows[..n], station, a, b);
      if Leaves(rows, station, a, b, rows[n]) && rows[n].at < r.at {
        r := rows[n];
      }
      assert forall y :: Leaves(rows, station, a, b, y) ==> Leaves(rows[..n], station, a, b, y) || y == rows[n];
    }
  }

  /** What the list derives for a stop of `window`, over a read of `history` before it. */
  function Listed(db: Database, history: int, window: Window, s: Stop): Option<Derivation> {
    Derived(db, window.fromTs - history, window.toTs, s.fromTs, s.toTs)
  }

  /** What the detail derives for a stop, over a read of `history` before it and one tick past its end. */
  function Detailed(db: Database, history: int, stop: Interruption): Option<Derivation> {
    Derived(db, stop.fromTs - history, stop.toTs + 1, stop.fromTs, stop.toTs)
  }

  /** Said of the endpoints: the derivation a stop is listed with and the one its id opens onto begin with
      one episode exactly when the tail's transitions seed the listed part and the whole alike; and when both
      reads are enough, that is one chain and one category. */
  lemma ListedIdKeepsItsDerivation(
    p: Platform, outputs: seq<int>, window: Window, threshold: int, floor: int, s: Stop, id: string, now: int,
    db: Database, history: int, stop: Interruption, tail: string)
    requires Sound(p) && AllRepresentable(outputs) && threshold >= 0
    requires 0 <= db.leadIn && 0 <= history && Ordered(db.table) && db.topology.Tail() == Some(tail)
    requires IsListed(p, outputs, window, threshold, floor, s, id)
    requires GetStop(p, outputs, id, now, threshold) == Found(id, stop)
    ensures FirstStep(Listed(db, history, window, s)) == FirstStep(Detailed(db, history, stop))
            <==> SeededAlike(db.table, tail, s.fromTs, s.toTs, stop.fromTs, stop.toTs)
    ensures SeededAlike(db.table, tail, s.fromTs, s.toTs, stop.fromTs, stop.toTs)
            && Enough(db, window.fromTs - history, window.toTs, s.fromTs, s.toTs)
            && Enough(db, stop.fromTs - history, stop.toTs + 1, stop.fromTs, stop.toTs) ==>
              && CategoryOf(Listed(db, history, window, s)) == CategoryOf(Detailed(db, history, stop))
              && OneChain(window.toTs, Listed(db, history, window, s), stop.toTs + 1, Detailed(db, history, stop))
  {
    hide Derived, Ordered, StopsOf, GetStop, IsListed, Sound, SeededAlike, Enough, FirstStep, CategoryOf, OneChain,
         Topology.Tail;
    ListedLiesInside(p, outputs, window, threshold, floor, s, id, now, stop);
    BeginAlikeExactly(db, window.fromTs - history, window.toTs, s.fromTs, s.toTs,
                      stop.fromTs - history, stop.toTs + 1, stop.fromTs, stop.toTs, tail);
    if && SeededAlike(db.table, tail, s.fromTs, s.toTs, stop.fromTs, stop.toTs)
       && Enough(db, window.fromTs - history, window.toTs, s.fromTs, s.toTs)
       && Enough(db, stop.fromTs - history, stop.toTs + 1, stop.fromTs, stop.toTs) {
      SeededAlikeShowsOneCategory(db, window.fromTs - history, window.toTs, s.fromTs, s.toTs,
                                  stop.fromTs - history, stop.toTs + 1, stop.fromTs, stop.toTs, tail);
    }
  }

  lemma ListedLiesInside(
    p: Platform, outputs: seq<int>, window: Window, threshold: int, floor: int, s: Stop, id: string, now: int,
    stop: Interruption)
    requires Sound(p) && AllRepresentable(outputs) && threshold >= 0
    requires IsListed(p, outputs, window, threshold, floor, s, id)
    requires GetStop(p, outputs, id, now, threshold) == Found(id, stop)
    ensures window.fromTs <= s.fromTs < s.toTs <= window.toTs
    ensures stop.fromTs <= s.fromTs && stop.fromTs < stop.toTs
  {
    hide StopsOf, StopId, PaddedId, ParseStopId, Sound;
    StopsAreTheLongGaps(outputs, window, threshold, floor, s);
    ListedIdResolves(p, outputs, window, threshold, floor, s, id, now);
  }
}
