/**
 What the walk looks up, said of the rows: the reason of an episode by its text, a buffer condition by the
 levels sampled, an explanation by the states and spans of the far station's episodes.
 */
module Lookups {
  import opened Sequences
  import opened Propagation
  import opened Chains
  import opened Causes
  import opened Settled

  // ----- an episode's own words -----

  lemma StatesMean(e: Episode)
    ensures e.Kind() == Consequence <==> e.state == Suspended
    ensures e.Kind() == CauseCandidate <==> e.state == Held || e.state == Aborted
  {
  }

  /** The recorded reason is `word`, alone or in front of a colon. */
  predicate Says(e: Episode, word: string) {
    e.reason.Some? && (e.reason.value == word || word + ":" <= e.reason.value)
  }

  lemma {:induction false} FirstColon(head: string, rest: string)
    requires ':' !in head
    ensures Colon(head + ":" + rest) == Some(|head|)
  {
    var s := head + ":" + rest;
    if head != "" {
      assert s[1..] == head[1..] + ":" + rest;
      FirstColon(head[1..], rest);
    }
  }

  lemma WordBeforeColon(reason: string, word: string)
    requires ':' !in word
    ensures (var colon := Colon(reason);
             (if colon.None? then reason else reason[..colon.value]) == word) <==> reason == word || word + ":" <= reason
  {
    ColonIsFirst(reason);
    if word + ":" <= reason {
      assert reason == word + ":" + reason[|word| + 1..];
      FirstColon(word, reason[|word| + 1..]);
    }
    var colon := Colon(reason);
    if colon.Some? && reason[..colon.value] == word {
      assert reason[..|word| + 1] == word + ":";
    }
  }

  /** An episode starved or was blocked exactly when its reason says so in its first word. */
  lemma DirectionsMean(e: Episode)
    ensures e.Direction() == Some(Starved) <==> Says(e, "starved")
    ensures e.Direction() == Some(Blocked) <==> Says(e, "blocked")
  {
    if e.reason.Some? {
      WordBeforeColon(e.reason.value, "starved");
      WordBeforeColon(e.reason.value, "blocked");
      assert "starved"[0] != "blocked"[0];
    }
  }

  /** The detail is what follows the first colon. */
  lemma DetailsMean(e: Episode, detail: string)
    ensures e.ReasonDetail() == Some(detail) <==>
            e.reason.Some? && exists head :: ':' !in head && e.reason.value == head + ":" + detail
  {
    if e.reason.Some? {
      var reason := e.reason.value;
      ColonIsFirst(reason);
      if head :| ':' !in head && reason == head + ":" + detail {
        FirstColon(head, detail);
        assert reason[|head| + 1..] == detail;
      }
      if e.ReasonDetail() == Some(detail) {
        var colon := Colon(reason).value;
        assert reason == reason[..colon] + ":" + detail;
      }
    }
  }

  // ----- the buffer condition -----

  /** The level starves what draws from the buffer, or blocks what fills it. */
  predicate Met(s: Sample, link: BufferLink, direction: Direction) {
    match direction
    case Starved => s.level <= 0
    case Blocked => s.level >= link.capacity
  }

  /** A sample of the buffer, at most a lead-in before the episode. */
  ghost predicate Seen(samples: seq<Sample>, link: BufferLink, before: int, leadIn: int, s: Sample) {
    s in samples && s.buffer == link.buffer && before - leadIn <= s.at && s.at <= before
  }

  ghost predicate MetAt(samples: seq<Sample>, link: BufferLink, direction: Direction, before: int, leadIn: int, t: int) {
    exists s :: Seen(samples, link, before, leadIn, s) && s.at == t && Met(s, link, direction)
  }

  /** The condition was last met at `u` and had been met without a break since `t`. */
  ghost predicate MetFromTo(
    samples: seq<Sample>, link: BufferLink, direction: Direction, before: int, leadIn: int, t: int, u: int)
  {
    && t <= u && MetAt(samples, link, direction, before, leadIn, t) && MetAt(samples, link, direction, before, leadIn, u)
    && (forall s :: Seen(samples, link, before, leadIn, s) && u < s.at ==> !Met(s, link, direction))
    && (forall s :: Seen(samples, link, before, leadIn, s) && t < s.at < u ==> Met(s, link, direction))
    && ((forall s :: Seen(samples, link, before, leadIn, s) ==> t <= s.at)
        || exists s :: LastUnmet(samples, link, direction, before, leadIn, t, s))
  }

  /** `s` did not meet the condition, and nothing was sampled between it and `t`. */
  ghost predicate LastUnmet(
    samples: seq<Sample>, link: BufferLink, direction: Direction, before: int, leadIn: int, t: int, s: Sample)
  {
    && Seen(samples, link, before, leadIn, s) && s.at <= t && !Met(s, link, direction)
    && forall x :: Seen(samples, link, before, leadIn, x) ==> !(s.at < x.at < t)
  }

  lemma SatisfyingIsMet(s: Sample, link: BufferLink, direction: Direction)
    ensures Satisfies(s, link, direction) <==> Met(s, link, direction)
  {
  }

  lemma InHorizonIsSeen(samples: seq<Sample>, link: BufferLink, before: int, leadIn: int, s: Sample)
    ensures s in InHorizon(samples, link, before, leadIn) <==> Seen(samples, link, before, leadIn, s)
  {
    InHorizonHolds(samples, link, before, leadIn, s);
  }

  lemma InHorizonIsSorted(samples: seq<Sample>, link: BufferLink, before: int, leadIn: int)
    ensures var s := InHorizon(samples, link, before, leadIn); forall i, j :: 0 <= i < j < |s| ==> s[i].at <= s[j].at
  {
    var p := WithinHorizon(link.buffer, before, leadIn);
    SortSorts(TakenNoLater, Filter(p, samples));
    var s := InHorizon(samples, link, before, leadIn);
    forall i, j | 0 <= i < j < |s| ensures s[i].at <= s[j].at {
      assert TakenNoLater(s[i], s[j]);
    }
  }

  lemma RunIsMetFromTo(
    samples: seq<Sample>, link: BufferLink, direction: Direction, before: int, leadIn: int, i: int, j: int)
    requires var s := InHorizon(samples, link, before, leadIn); 0 <= i <= j < |s| && RunSpans(s, link, direction, i, j)
    ensures var s := InHorizon(samples, link, before, leadIn);
            MetFromTo(samples, link, direction, before, leadIn, s[i].at, s[j].at)
  {
    hide InHorizon, Satisfies, Met;
    var s := InHorizon(samples, link, before, leadIn);
    InHorizonIsSorted(samples, link, before, leadIn);
    forall x ensures x in s <==> Seen(samples, link, before, leadIn, x) {
      InHorizonIsSeen(samples, link, before, leadIn, x);
    }
    forall x ensures Satisfies(x, link, direction) <==> Met(x, link, direction) {
      SatisfyingIsMet(x, link, direction);
    }
    hide Seen;
    assert s[i] in s && s[j] in s;
    forall x | x in s ensures s[j].at < x.at ==> !Met(x, link, direction)
                      ensures s[i].at < x.at < s[j].at ==> Met(x, link, direction)
                      ensures i == 0 ==> s[i].at <= x.at
                      ensures i > 0 ==> !(s[i - 1].at < x.at < s[i].at) {
      var k :| 0 <= k < |s| && s[k] == x;
    }
    if i > 0 {
      assert s[i - 1] in s;
      assert LastUnmet(samples, link, direction, before, leadIn, s[i].at, s[i - 1]);
    }
  }

  /** A condition dates from `t` when the levels met it from `t` to the last time they did, and is not recorded
      exactly when no level in the lead-in met it. */
  lemma ConditionsMean(samples: seq<Sample>, link: BufferLink, direction: Direction, before: int, leadIn: int)
    ensures var since := ConditionSince(samples, link, direction, before, leadIn);
            if since.Some? then exists u :: MetFromTo(samples, link, direction, before, leadIn, since.value, u)
            else forall t :: !MetAt(samples, link, direction, before, leadIn, t)
  {
    hide InHorizon, ConditionSince, RunSpans, Satisfies, MetFromTo, Met;
    var since := ConditionSince(samples, link, direction, before, leadIn);
    ConditionSinceMeaning(samples, link, direction, before, leadIn);
    if since.Some? {
      var s := InHorizon(samples, link, before, leadIn);
      var i, j :| 0 <= i <= j < |s| && RunSpans(s, link, direction, i, j) && s[i].at == since.value;
      RunIsMetFromTo(samples, link, direction, before, leadIn, i, j);
    } else {
      forall x ensures Satisfies(x, link, direction) <==> Met(x, link, direction) {
        SatisfyingIsMet(x, link, direction);
      }
      forall s | Seen(samples, link, before, leadIn, s) ensures !Met(s, link, direction) {
        InHorizonIsSeen(samples, link, before, leadIn, s);
        InHorizonHolds(samples, link, before, leadIn, s);
      }
    }
  }

  // ----- the explanation -----

  /** `e` is an episode of `station` that was not producing, and overlaps the lead-in before `since`. */
  ghost predicate MayExplain(timeline: seq<Episode>, station: string, since: int, leadIn: int, e: Episode) {
    && e in timeline && e.station == station && e.state != Execute
    && e.fromTs <= since && (e.toTs.None? || since - leadIn < e.toTs.value)
  }

  predicate Covering(e: Episode, moment: int) {
    e.fromTs <= moment && (e.toTs.None? || moment < e.toTs.value)
  }

  /** The walk goes on to the latest episode that covers the condition's start, or to the latest in the lead-in
      when none does; and sets aside, by their starts, the other faults there. */
  lemma ExplanationsMean(timeline: seq<Episode>, station: string, since: int, leadIn: int)
    requires UniqueSteps(timeline)
    ensures (var (next, extra) := ExplainingEpisode(timeline, station, since, leadIn);
             && (next.None? <==> forall e :: !MayExplain(timeline, station, since, leadIn, e))
             && (next.Some? ==>
                   && MayExplain(timeline, station, since, leadIn, next.value)
                   && forall e :: MayExplain(timeline, station, since, leadIn, e) ==>
                        && (Covering(e, since) ==> Covering(next.value, since) && e.fromTs <= next.value.fromTs)
                        && (!Covering(next.value, since) ==> e.fromTs <= next.value.fromTs))
             && (forall e :: e in extra <==>
                   && MayExplain(timeline, station, since, leadIn, e) && (e.state == Held || e.state == Aborted)
                   && next != Some(e))
             && (forall i, j :: 0 <= i < j < |extra| ==> extra[i].fromTs <= extra[j].fromTs))
  {
    hide UniqueSteps, ExplainingEpisode, MayExplain;
    NextMeans(timeline, station, since, leadIn);
    OthersMean(timeline, station, since, leadIn);
  }

  lemma NextMeans(timeline: seq<Episode>, station: string, since: int, leadIn: int)
    ensures (var next := ExplainingEpisode(timeline, station, since, leadIn).0;
             && (next.None? <==> forall e :: !MayExplain(timeline, station, since, leadIn, e))
             && (next.Some? ==>
                   && MayExplain(timeline, station, since, leadIn, next.value)
                   && forall e :: MayExplain(timeline, station, since, leadIn, e) ==>
                        && (Covering(e, since) ==> Covering(next.value, since) && e.fromTs <= next.value.fromTs)
                        && (!Covering(next.value, since) ==> e.fromTs <= next.value.fromTs)))
  {
    hide ExplainingEpisode;
    var ev := Evidence(timeline, [], Topology([]), leadIn);
    ExplainingAccounts(ev, station, since);
    forall e ensures MayExplain(timeline, station, since, leadIn, e) <==> Accountable(ev, e, station, since) {
    }
    forall e: Episode ensures Covering(e, since) <==> e.Covers(since) {
    }
    hide MayExplain, Accountable, Covering, Episode.Covers;
  }

  lemma OthersMean(timeline: seq<Episode>, station: string, since: int, leadIn: int)
    requires UniqueSteps(timeline)
    ensures (var (next, extra) := ExplainingEpisode(timeline, station, since, leadIn);
             && (forall e :: e in extra <==>
                   && MayExplain(timeline, station, since, leadIn, e) && (e.state == Held || e.state == Aborted)
                   && next != Some(e))
             && (forall i, j :: 0 <= i < j < |extra| ==> extra[i].fromTs <= extra[j].fromTs))
  {
    hide UniqueSteps, Sort, Filter, Chosen;
    var p := AccountableIn(station, since, leadIn);
    var overlapping := Filter(p, timeline);
    forall e ensures e in overlapping <==> MayExplain(timeline, station, since, leadIn, e) {
    }
    if overlapping != [] {
      var k := Chosen(overlapping, since);
      SetAsideAt(timeline, p, overlapping, k);
      var others := Filter(CauseEpisode(), overlapping[..k] + overlapping[k + 1..]);
      SortSorts(StartsNoLater, others);
      forall i, j | 0 <= i < j < |others| ensures Sort(StartsNoLater, others)[i].fromTs <= Sort(StartsNoLater, others)[j].fromTs {
        assert StartsNoLater(Sort(StartsNoLater, others)[i], Sort(StartsNoLater, others)[j]);
      }
    }
  }

  // ----- the category -----

  /** A chain that ended at the edge with no fault, or one, in reach puts the cause outside the line on the
      side its last episode waited on. */
  lemma EdgesAreExternal(d: Derivation)
    requires d.links != [] && d.termination == AtLineEdge && |d.candidates| <= 1
    ensures d.Category() == Some(ExternalUpstream) <==> Says(d.links[|d.links| - 1].episode, "starved")
    ensures d.Category() == Some(ExternalDownstream) <==> Says(d.links[|d.links| - 1].episode, "blocked")
  {
    DirectionsMean(d.links[|d.links| - 1].episode);
  }
}
