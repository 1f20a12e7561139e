/**
 One identity for each interruption: what `list_stops` and `get_stop` of
 `diagnostics/analysis/src/analysis/routes_stops.py` make of an id, over the part dispositions as
 rows.
 */
module StopIdentity {
  import opened Sequences
  import opened Windows
  import opened Calendar
  import opened Stops
  import opened StopIds

  // ----- the part dispositions -----

  function OutputAtOrBefore(outputs: seq<int>, moment: int): Option<int> {
    if outputs == [] then None
    else
      var last := outputs[|outputs| - 1];
      match OutputAtOrBefore(outputs[..|outputs| - 1], moment)
      case None => if last <= moment then Some(last) else None
      case Some(best) => if best < last <= moment then Some(last) else Some(best)
  }

  function OutputAfter(outputs: seq<int>, moment: int): Option<int> {
    if outputs == [] then None
    else
      var last := outputs[|outputs| - 1];
      match OutputAfter(outputs[..|outputs| - 1], moment)
      case None => if moment < last then Some(last) else None
      case Some(best) => if moment < last < best then Some(last) else Some(best)
  }

  lemma {:induction false} AtOrBeforeIsLatest(outputs: seq<int>, moment: int)
    ensures match OutputAtOrBefore(outputs, moment)
            case None => forall t :: t in outputs ==> moment < t
            case Some(best) => best in outputs && best <= moment && forall t :: t in outputs && t <= moment ==> t <= best
  {
    if outputs != [] {
      AtOrBeforeIsLatest(outputs[..|outputs| - 1], moment);
      assert outputs == outputs[..|outputs| - 1] + [outputs[|outputs| - 1]];
    }
  }

  lemma {:induction false} AfterIsNext(outputs: seq<int>, moment: int)
    ensures match OutputAfter(outputs, moment)
            case None => forall t :: t in outputs ==> t <= moment
            case Some(best) => best in outputs && moment < best && forall t :: t in outputs && moment < t ==> best <= t
  {
    if outputs != [] {
      AfterIsNext(outputs[..|outputs| - 1], moment);
      assert outputs == outputs[..|outputs| - 1] + [outputs[|outputs| - 1]];
    }
  }

  ghost predicate AllRepresentable(outputs: seq<int>) {
    forall t :: t in outputs ==> Representable(t)
  }

  // ----- the two endpoints -----

  /** The instant a listed stop is cited by: its start, or the part before the window. */
  function Anchor(s: Stop, earlier: Option<int>): Option<int> {
    if !s.startedBeforeWindow then Some(s.fromTs) else earlier
  }

  function Identifier(p: Platform, s: Stop, earlier: Option<int>): Option<string>
    requires Anchor(s, earlier).Some? ==> Representable(Anchor(s, earlier).value)
  {
    match Anchor(s, earlier)
    case None => None
    case Some(instant) => Some(StopId(p, instant))
  }

  datatype Interruption = Interruption(fromTs: int, toTs: int, isOpen: bool)

  /** The silence around an instant, when it is long enough to be a stop. */
  function InterruptionAt(outputs: seq<int>, beganAt: int, now: int, threshold: int): Option<Interruption> {
    match OutputAtOrBefore(outputs, beganAt)
    case None => None
    case Some(from) =>
      var ended := OutputAfter(outputs, beganAt);
      var to := if ended.Some? then ended.value else now;
      if to - from <= threshold then None else Some(Interruption(from, to, ended.None?))
  }

  datatype Detail = NotAnId | NoSuchStop | Found(id: string, stop: Interruption)

  /** `get_stop`: 422, 404 or the interruption the cited instant lies in. */
  function GetStop(p: Platform, outputs: seq<int>, identifier: string, now: int, threshold: int): Detail
    requires AllRepresentable(outputs)
  {
    match ParseStopId(p, identifier)
    case None => NotAnId
    case Some(beganAt) =>
      match InterruptionAt(outputs, beganAt, now, threshold)
      case None => NoSuchStop
      case Some(stop) =>
        AtOrBeforeIsLatest(outputs, beganAt);
        Found(StopId(p, stop.fromTs), stop)
  }

  // ----- what an interruption is -----

  /** No part left after `a`, up to and at `b`. */
  ghost predicate Silent(outputs: seq<int>, a: int, b: int) {
    forall t :: t in outputs ==> !(a < t <= b)
  }

  /** `i` is the silence `moment` lies in: from the last part out at or before it to the next one after it,
      or to the clock when there has been none, and longer than the threshold. */
  ghost predicate IsInterruption(outputs: seq<int>, moment: int, now: int, threshold: int, i: Interruption) {
    && i.fromTs in outputs && i.fromTs <= moment && Silent(outputs, i.fromTs, moment)
    && i.toTs - i.fromTs > threshold
    && (if i.isOpen then i.toTs == now && forall t :: t in outputs ==> t <= moment
        else i.toTs in outputs && moment < i.toTs && Silent(outputs, moment, i.toTs - 1))
  }

  lemma InterruptionExactly(outputs: seq<int>, moment: int, now: int, threshold: int, i: Interruption)
    ensures InterruptionAt(outputs, moment, now, threshold) == Some(i)
            <==> IsInterruption(outputs, moment, now, threshold, i)
  {
    hide OutputAtOrBefore, OutputAfter;
    AtOrBeforeIsLatest(outputs, moment);
    AfterIsNext(outputs, moment);
    if IsInterruption(outputs, moment, now, threshold, i) {
      assert OutputAtOrBefore(outputs, moment) == Some(i.fromTs);
      assert !i.isOpen ==> OutputAfter(outputs, moment) == Some(i.toTs);
    }
  }

  /** What an id opens onto: 422 exactly when it names no instant, the interruption its instant lies in under
      that interruption's own id when there is one, and 404 otherwise. */
  lemma GetStopExactly(p: Platform, outputs: seq<int>, identifier: string, now: int, threshold: int)
    requires AllRepresentable(outputs)
    ensures (var detail := GetStop(p, outputs, identifier, now, threshold);
             match ParseStopId(p, identifier)
             case None => detail == NotAnId
             case Some(moment) =>
               match detail
               case NotAnId => false
               case NoSuchStop => forall i :: !IsInterruption(outputs, moment, now, threshold, i)
               case Found(id, stop) =>
                 && IsInterruption(outputs, moment, now, threshold, stop)
                 && Representable(stop.fromTs) && id == StopId(p, stop.fromTs))
  {
    hide ParseStopId, StopId, InterruptionAt, IsInterruption, Representable, OutputAtOrBefore;
    if ParseStopId(p, identifier).Some? {
      var moment := ParseStopId(p, identifier).value;
      forall i ensures InterruptionAt(outputs, moment, now, threshold) == Some(i)
                       <==> IsInterruption(outputs, moment, now, threshold, i) {
        InterruptionExactly(outputs, moment, now, threshold, i);
      }
      if GetStop(p, outputs, identifier, now, threshold).Found? {
        FoundStarts(outputs, moment, now, threshold, GetStop(p, outputs, identifier, now, threshold).stop);
      }
    }
  }

  lemma FoundStarts(outputs: seq<int>, moment: int, now: int, threshold: int, stop: Interruption)
    requires AllRepresentable(outputs) && IsInterruption(outputs, moment, now, threshold, stop)
    ensures Representable(stop.fromTs)
  {
    hide Representable;
  }

  /** Every stop `list_stops` finds is anchored at the last part out at or before its start. */
  lemma AnchorIsTheLastPart(outputs: seq<int>, window: Window, threshold: int, floor: int, s: Stop)
    requires threshold >= 0 && s in StopsOf(outputs, window, threshold, floor)
    ensures Anchor(s, OutputAtOrBefore(outputs, window.fromTs)) == OutputAtOrBefore(outputs, s.fromTs)
  {
    hide StopsOf;
    StopsAreTheLongGaps(outputs, window, threshold, floor, s);
    AtOrBeforeIsLatest(outputs, s.fromTs);
  }

  ghost predicate IsListed(
    p: Platform, outputs: seq<int>, window: Window, threshold: int, floor: int, s: Stop, id: string)
  {
    && s in StopsOf(outputs, window, threshold, floor)
    && var earlier := OutputAtOrBefore(outputs, window.fromTs);
       && Anchor(s, earlier).Some? && Representable(Anchor(s, earlier).value)
       && InFull(p, Anchor(s, earlier).value)
       && Identifier(p, s, earlier) == Some(id)
  }

  ghost predicate LaterPart(outputs: seq<int>, moment: int) {
    exists t :: t in outputs && moment < t
  }

  lemma AnchorIsItself(outputs: seq<int>, moment: int)
    ensures var anchor := OutputAtOrBefore(outputs, moment);
            anchor.Some? ==> OutputAtOrBefore(outputs, anchor.value) == anchor
                             && anchor.value in outputs && anchor.value <= moment
  {
    AtOrBeforeIsLatest(outputs, moment);
    if OutputAtOrBefore(outputs, moment).Some? {
      AtOrBeforeIsLatest(outputs, OutputAtOrBefore(outputs, moment).value);
    }
  }

  /** At the level of instants: the anchor of a listed stop resolves to an interval that
      starts at the anchor and contains the listed one, exactly when the end is known. */
  lemma AnchorResolves(outputs: seq<int>, window: Window, threshold: int, floor: int, s: Stop, anchor: int, now: int)
    requires threshold >= 0 && s in StopsOf(outputs, window, threshold, floor)
    requires OutputAtOrBefore(outputs, s.fromTs) == Some(anchor)
    ensures var found := InterruptionAt(outputs, anchor, now, threshold);
            && (found.Some? ==> found.value.fromTs == anchor <= s.fromTs)
            && ((found.Some? && s.toTs <= found.value.toTs) <==> (window.toTs <= now || LaterPart(outputs, s.fromTs)))
  {
    hide StopsOf;
    StopsAreTheLongGaps(outputs, window, threshold, floor, s);
    AnchorIsItself(outputs, s.fromTs);
    AtOrBeforeIsLatest(outputs, s.fromTs);
    AfterIsNext(outputs, anchor);
    var ended := OutputAfter(outputs, anchor);
    if ended.Some? {
      assert s.fromTs < ended.value && s.toTs <= ended.value;
    } else {
      assert s.toTs == window.toTs;
    }
  }

  /** What `get_stop` says of a listed id: the same id and an interval containing the listed
      one, exactly when a later part has left or the window is over. */
  lemma ListedIdResolves(
    p: Platform, outputs: seq<int>, window: Window, threshold: int, floor: int, s: Stop, id: string, now: int)
    requires Sound(p) && AllRepresentable(outputs) && threshold >= 0
    requires IsListed(p, outputs, window, threshold, floor, s, id)
    ensures var detail := GetStop(p, outputs, id, now, threshold);
            && (detail.Found? ==> detail.id == id && detail.stop.fromTs <= s.fromTs)
            && ((detail.Found? && s.toTs <= detail.stop.toTs) <==> (window.toTs <= now || LaterPart(outputs, s.fromTs)))
  {
    hide StopsOf, StopId, PaddedId, ParseStopId, FieldsOf, Representable, InterruptionAt, LaterPart, Sound;
    AnchorIsTheLastPart(outputs, window, threshold, floor, s);
    var anchor := Anchor(s, OutputAtOrBefore(outputs, window.fromTs)).value;
    StopIdReadsBack(p, anchor);
    AnchorResolves(outputs, window, threshold, floor, s, anchor, now);
  }

  /** The part that tells two stops apart, if there is one. */
  ghost predicate PartBetween(outputs: seq<int>, a: int, b: int, t: int) {
    t in outputs && (a < t <= b || b < t <= a)
  }

  /** Two listings cite the same id exactly when no part left between their starts: one
      interruption has one id in every window, and two interruptions never share one. */
  lemma OneIdPerInterruption(
      p: Platform, outputs: seq<int>, threshold: int, floor: int,
      w: Window, s: Stop, id: string, w': Window, s': Stop, id': string)
    requires Sound(p) && AllRepresentable(outputs) && threshold >= 0
    requires IsListed(p, outputs, w, threshold, floor, s, id) && IsListed(p, outputs, w', threshold, floor, s', id')
    ensures id == id' <==> forall t :: !PartBetween(outputs, s.fromTs, s'.fromTs, t)
  {
    hide StopsOf, StopId, PaddedId, ParseStopId, FieldsOf, Representable, Sound;
    AnchorIsTheLastPart(outputs, w, threshold, floor, s);
    AnchorIsTheLastPart(outputs, w', threshold, floor, s');
    AtOrBeforeIsLatest(outputs, s.fromTs);
    AtOrBeforeIsLatest(outputs, s'.fromTs);
    var a, b := OutputAtOrBefore(outputs, s.fromTs).value, OutputAtOrBefore(outputs, s'.fromTs).value;
    StopIdReadsBack(p, a);
    StopIdReadsBack(p, b);
    if a != b {
      assert PartBetween(outputs, s.fromTs, s'.fromTs, if a < b then b else a);
    }
  }

  /** A stop without an id is one the history does not reach: no part left at or before it. */
  lemma NoIdMeansNoHistory(outputs: seq<int>, window: Window, threshold: int, floor: int, s: Stop)
    requires threshold >= 0 && s in StopsOf(outputs, window, threshold, floor)
    ensures Anchor(s, OutputAtOrBefore(outputs, window.fromTs)).None? <==> forall t :: t in outputs ==> s.fromTs < t
  {
    hide StopsOf;
    AnchorIsTheLastPart(outputs, window, threshold, floor, s);
    AtOrBeforeIsLatest(outputs, s.fromTs);
  }

  /** Any instant inside an interruption resolves to it, and so does its canonical id. */
  lemma ResolvingIsCanonical(
    p: Platform, outputs: seq<int>, beganAt: int, now: int, threshold: int, stop: Interruption)
    requires Sound(p) && AllRepresentable(outputs) && InterruptionAt(outputs, beganAt, now, threshold) == Some(stop)
    ensures stop.fromTs in outputs && Representable(stop.fromTs)
    ensures GetStop(p, outputs, PaddedId(stop.fromTs), now, threshold) == Found(StopId(p, stop.fromTs), stop)
    ensures GetStop(p, outputs, StopId(p, stop.fromTs), now, threshold) == Found(StopId(p, stop.fromTs), stop)
            <==> InFull(p, stop.fromTs)
  {
    hide StopId, PaddedId, ParseStopId, FieldsOf, Representable, OutputAtOrBefore, OutputAfter, Sound;
    AnchorIsItself(outputs, beganAt);
    SameInterruption(outputs, beganAt, now, threshold);
    StopIdReadsBack(p, stop.fromTs);
  }

  lemma SameInterruption(outputs: seq<int>, beganAt: int, now: int, threshold: int)
    requires OutputAtOrBefore(outputs, beganAt).Some?
    ensures InterruptionAt(outputs, OutputAtOrBefore(outputs, beganAt).value, now, threshold)
         == InterruptionAt(outputs, beganAt, now, threshold)
  {
    var from := OutputAtOrBefore(outputs, beganAt).value;
    AnchorIsItself(outputs, beganAt);
    AtOrBeforeIsLatest(outputs, beganAt);
    AfterIsNext(outputs, beganAt);
    AfterIsNext(outputs, from);
  }

  /** An id the data cannot vouch for is never turned into a stop: with no part at or before
      the cited instant there is nothing to resolve, however long the silence after it. */
  lemma InventedIdsAreRefused(p: Platform, outputs: seq<int>, identifier: string, now: int, threshold: int)
    requires AllRepresentable(outputs)
    ensures GetStop(p, outputs, identifier, now, threshold).Found? ==>
              ParseStopId(p, identifier).Some? && exists t :: t in outputs && t <= ParseStopId(p, identifier).value
  {
    if ParseStopId(p, identifier).Some? {
      AtOrBeforeIsLatest(outputs, ParseStopId(p, identifier).value);
    }
  }

  /** However an id is spelt, the answer carries the instant's own id, and two spellings of one
      instant get one answer. */
  lemma AnswersAreCanonical(p: Platform, outputs: seq<int>, a: string, b: string, now: int, threshold: int)
    requires Sound(p) && AllRepresentable(outputs)
    ensures Plain(p, a) == Plain(p, b) && ParseStopId(p, a).Some? && ParseStopId(p, b).Some? ==>
              GetStop(p, outputs, a, now, threshold) == GetStop(p, outputs, b, now, threshold)
    ensures GetStop(p, outputs, a, now, threshold).Found? ==>
              var detail := GetStop(p, outputs, a, now, threshold);
              && AllAscii(detail.id)
              && Representable(detail.stop.fromTs) && detail.id == StopId(p, detail.stop.fromTs)
  {
    hide StopId, PaddedId, Plain, ParseStopId, FieldsOf, OutputAtOrBefore, OutputAfter, AllAscii, Sound;
    if ParseStopId(p, a).Some? && ParseStopId(p, b).Some? {
      SpellingsAgreeInValue(p, a, b);
    }
    if GetStop(p, outputs, a, now, threshold).Found? {
      AtOrBeforeIsLatest(outputs, ParseStopId(p, a).value);
      StopIdIsAscii(p, GetStop(p, outputs, a, now, threshold).stop.fromTs);
    }
  }
}
