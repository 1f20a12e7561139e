/**
 The cause candidates a walk reports and the category read off them.
 */
module Causes {
  import opened Sequences
  import opened Propagation
  import opened Chains

  /** A station has one episode per start, which is what a transition log closes into. */
  ghost predicate UniqueSteps(timeline: seq<Episode>) {
    forall i, j :: 0 <= i < j < |timeline| ==> timeline[i].Step() != timeline[j].Step()
  }

  /** The station a link looks to for an explanation. */
  function LooksTo(ev: Evidence, link: ChainLink): Option<string> {
    var via := ConnectingLink(ev.topology, link.episode, link.episode.Direction());
    if link.since.None? || via.None? || link.episode.Direction().None? then None
    else Some(FarSide(via.value, link.episode.Direction().value))
  }

  /** The faults of the station `link` looks to, inside that link's lead-in. */
  function FaultsInReach(ev: Evidence, link: ChainLink): set<Episode> {
    match LooksTo(ev, link)
    case None => {}
    case Some(station) =>
      set e | e in ev.timeline && AccountableIn(station, link.since.value, ev.leadIn)(e) && e.Kind() == CauseCandidate
  }

  function SetAside(ev: Evidence, link: ChainLink): seq<Episode> {
    match LooksTo(ev, link)
    case None => []
    case Some(station) => ExplainingEpisode(ev.timeline, station, link.since.value, ev.leadIn).1
  }

  function Explaining(ev: Evidence, link: ChainLink): Option<Episode> {
    match LooksTo(ev, link)
    case None => None
    case Some(station) => ExplainingEpisode(ev.timeline, station, link.since.value, ev.leadIn).0
  }

  function SetAsides(ev: Evidence, links: seq<ChainLink>): seq<seq<Episode>> {
    seq(|links|, i requires 0 <= i < |links| => SetAside(ev, links[i]))
  }

  function Gathered(ev: Evidence, links: seq<ChainLink>): seq<Episode> {
    Flatten(SetAsides(ev, links))
  }

  // ----- what one link sets aside -----

  lemma RemoveOne(s: seq<Episode>, k: nat)
    requires k < |s|
    ensures multiset(s[..k] + s[k + 1..]) == multiset(s) - multiset{s[k]}
    ensures forall e :: e in s[..k] + s[k + 1..] ==> e in s
  {
    assert s == s[..k] + [s[k]] + s[k + 1..];
  }

  /** The fault episodes other than the chosen one, each once. */
  ghost predicate OthersOf(ev: Evidence, link: ChainLink, others: seq<Episode>, chosen: Option<Episode>) {
    && Distinct(others)
    && forall e :: e in others <==> e in FaultsInReach(ev, link) && chosen != Some(e)
  }

  lemma SetAsideIs(ev: Evidence, link: ChainLink)
    requires UniqueSteps(ev.timeline)
    ensures OthersOf(ev, link, SetAside(ev, link), Explaining(ev, link))
  {
    if LooksTo(ev, link).Some? {
      var p := AccountableIn(LooksTo(ev, link).value, link.since.value, ev.leadIn);
      var overlapping := Filter(p, ev.timeline);
      forall e ensures e in FaultsInReach(ev, link) <==> e in overlapping && e.Kind() == CauseCandidate {
      }
      if overlapping != [] {
        var k := Chosen(overlapping, link.since.value);
        SetAsideAt(ev.timeline, p, overlapping, k);
        assert Explaining(ev, link) == Some(overlapping[k]);
      }
    }
  }

  lemma SetAsideAt(timeline: seq<Episode>, p: Episode -> bool, overlapping: seq<Episode>, k: nat)
    requires UniqueSteps(timeline) && overlapping == Filter(p, timeline) && k < |overlapping|
    ensures var s := Sort(StartsNoLater, Filter(CauseEpisode(), overlapping[..k] + overlapping[k + 1..]));
            && Distinct(s)
            && forall e :: e in s <==> e in overlapping && e.Kind() == CauseCandidate && e != overlapping[k]
  {
    hide Sort, Filter, UniqueSteps, StartsNoLater;
    var s := Sort(StartsNoLater, Filter(CauseEpisode(), overlapping[..k] + overlapping[k + 1..]));
    forall e: Episode
      ensures multiset(s)[e] <= 1
      ensures e in s <==> e in overlapping && e.Kind() == CauseCandidate && e != overlapping[k]
    {
      TimelineCount(timeline, p, e);
      OthersCount(overlapping, k, e);
      assert e in s <==> multiset(s)[e] > 0;
      assert e in overlapping <==> multiset(overlapping)[e] > 0;
      assert overlapping[k] in overlapping;
    }
    DistinctCount(s);
  }

  lemma TimelineCount(timeline: seq<Episode>, p: Episode -> bool, e: Episode)
    requires UniqueSteps(timeline)
    ensures multiset(Filter(p, timeline))[e] <= 1
  {
    assert Distinct(timeline);
    DistinctCount(timeline);
    FilterCount(p, timeline, e);
  }

  lemma OthersCount(overlapping: seq<Episode>, k: nat, e: Episode)
    requires k < |overlapping|
    ensures multiset(Sort(StartsNoLater, Filter(CauseEpisode(), overlapping[..k] + overlapping[k + 1..])))[e]
         == if e.Kind() == CauseCandidate then (multiset(overlapping) - multiset{overlapping[k]})[e] else 0
  {
    RemoveOne(overlapping, k);
    FilterCount(CauseEpisode(), overlapping[..k] + overlapping[k + 1..], e);
  }

  // ----- what one move sets aside -----

  ghost predicate Matches(ev: Evidence, move: Move) {
    match move
    case Follow(link, next, extra) => SetAside(ev, link) == extra && Explaining(ev, link) == Some(next)
    case Stop(link, _, _) => SetAside(ev, link) == [] && Explaining(ev, link).None?
  }

  lemma MoveMatches(ev: Evidence, e: Episode)
    ensures Matches(ev, MoveFrom(ev, e))
  {
    var move := MoveFrom(ev, e);
    var via := ConnectingLink(ev.topology, e, e.Direction());
    if e.Kind() == Consequence && via.Some? && e.Direction().Some? {
      BufferMoveMatches(ev, e, via.value, e.Direction().value);
    } else {
      assert move.Stop? && move.link == ChainLink(e, None, None);
    }
  }

  lemma BufferMoveMatches(ev: Evidence, e: Episode, via: BufferLink, direction: Direction)
    requires ConnectingLink(ev.topology, e, e.Direction()) == Some(via) && e.Direction() == Some(direction)
    ensures Matches(ev, FollowBuffer(ev, e, via, direction))
  {
    var move := FollowBuffer(ev, e, via, direction);
    var since := SinceWhen(ev, e, via, direction);
    if FarSide(via, direction) != e.station && since.Some? {
      var (explaining, extra) := ExplainingEpisode(ev.timeline, FarSide(via, direction), since.value, ev.leadIn);
      assert LooksTo(ev, move.link) == Some(FarSide(via, direction));
      assert SetAside(ev, move.link) == extra && Explaining(ev, move.link) == explaining;
      assert explaining.None? ==> extra == [];
    }
  }

  // ----- the candidates of a derivation -----

  ghost predicate FindsNext(ev: Evidence, links: seq<ChainLink>, i: int)
    requires 0 <= i < |links| - 1
  {
    Explaining(ev, links[i]) == Some(links[i + 1].episode)
  }

  /** A chain whose links each found the next, with what they set aside. */
  ghost predicate Collected(ev: Evidence, links: seq<ChainLink>, current: Episode, candidates: seq<Episode>) {
    && candidates == Gathered(ev, links)
    && (forall i :: 0 <= i < |links| - 1 ==> FindsNext(ev, links, i))
    && (links != [] ==> Explaining(ev, links[|links| - 1]) == Some(current))
  }

  ghost predicate UsesStep(links: seq<ChainLink>, step: (string, int)) {
    exists k :: 0 <= k < |links| && links[k].episode.Step() == step
  }

  ghost predicate CandidatesOf(ev: Evidence, d: Derivation)
    requires d.links != []
  {
    var last := d.links[|d.links| - 1];
    && d.candidates == Gathered(ev, d.links) + (if d.termination == AtCause then [last.episode] else [])
    && (forall i :: 0 <= i < |d.links| - 1 ==> FindsNext(ev, d.links, i))
    && (Explaining(ev, last).Some? ==> UsesStep(d.links, Explaining(ev, last).value.Step()))
  }

  lemma GatheredAppend(ev: Evidence, links: seq<ChainLink>, link: ChainLink)
    ensures Gathered(ev, links + [link]) == Gathered(ev, links) + SetAside(ev, link)
  {
    hide SetAside;
    var all := SetAsides(ev, links + [link]);
    assert all[..|links|] == SetAsides(ev, links);
    assert all[|links|] == SetAside(ev, link);
  }

  lemma ReturnCollects(ev: Evidence, current: Episode, links: seq<ChainLink>, candidates: seq<Episode>, u: Unexplained)
    requires Collected(ev, links, current, candidates) && current.Step() in UsedSteps(links)
    ensures links != [] && CandidatesOf(ev, Derivation(links, Unfinished, candidates, Some(u)))
  {
    hide Explaining, SetAside, Gathered;
    var l :| l in links && l.episode.Step() == current.Step();
    var k :| 0 <= k < |links| && links[k] == l;
    assert UsesStep(links, current.Step());
  }

  lemma UsedStepsAppend(links: seq<ChainLink>, link: ChainLink)
    ensures UsedSteps(links + [link]) == UsedSteps(links) + {link.episode.Step()}
  {
    assert forall l :: l in links + [link] <==> l in links || l == link;
  }

  lemma MoveLinksItsEpisode(ev: Evidence, current: Episode)
    ensures MoveFrom(ev, current).link.episode == current
  {
    MoveIsJustified(ev, current);
  }

  lemma LinkFound(ev: Evidence, current: Episode, links: seq<ChainLink>, candidates: seq<Episode>, link: ChainLink)
    requires Collected(ev, links, current, candidates) && link.episode == current
    ensures forall i :: 0 <= i < |links| ==> FindsNext(ev, links + [link], i)
  {
    forall i | 0 <= i < |links| ensures FindsNext(ev, links + [link], i) {
      if i < |links| - 1 {
        assert FindsNext(ev, links, i);
      }
    }
  }

  lemma FollowCollects(ev: Evidence, current: Episode, links: seq<ChainLink>, candidates: seq<Episode>, move: Move)
    requires Collected(ev, links, current, candidates)
    requires move.Follow? && Matches(ev, move) && move.link.episode == current
    ensures Collected(ev, links + [move.link], move.next, candidates + move.extra)
  {
    hide Explaining, SetAside, LooksTo, FaultsInReach;
    GatheredAppend(ev, links, move.link);
    LinkFound(ev, current, links, candidates, move.link);
  }

  lemma StopCollects(ev: Evidence, current: Episode, links: seq<ChainLink>, candidates: seq<Episode>, move: Move)
    requires Collected(ev, links, current, candidates)
    requires move.Stop? && Matches(ev, move) && move.link.episode == current
    ensures CandidatesOf(ev, Derivation(links + [move.link], move.termination,
                                        if move.termination == AtCause then candidates + [current] else candidates,
                                        move.unexplained))
  {
    hide Explaining, SetAside, LooksTo, FaultsInReach, Gathered;
    GatheredAppend(ev, links, move.link);
    LinkFound(ev, current, links, candidates, move.link);
  }

  lemma {:induction false} WalkCollects(
      ev: Evidence, current: Episode, seen: set<(string, int)>, links: seq<ChainLink>, candidates: seq<Episode>)
    requires current in ev.timeline && seen == UsedSteps(links) && Collected(ev, links, current, candidates)
    ensures var d := Walk(ev, current, seen, links, candidates); d.links != [] && CandidatesOf(ev, d)
    decreases |Steps(ev.timeline) - seen|
  {
    if current.Step() in seen {
      ReturnCollects(ev, current, links, candidates, Unexplained(current.station, None, ReturnsToUsedEpisode));
    } else {
      var move := MoveFrom(ev, current);
      MoveMatches(ev, current);
      MoveLinksItsEpisode(ev, current);
      if move.Follow? {
        NextIsOnTheTimeline(ev, current);
        FewerSteps(ev.timeline, seen, current);
        UsedStepsAppend(links, move.link);
        FollowCollects(ev, current, links, candidates, move);
        WalkCollects(ev, move.next, seen + {current.Step()}, links + [move.link], candidates + move.extra);
      } else {
        StopCollects(ev, current, links, candidates, move);
      }
    }
  }

  lemma DerivationCollects(ev: Evidence, station: string, at: int)
    ensures var d := Derive(ev, station, at); d.links != [] ==> CandidatesOf(ev, d)
  {
    var seed := EpisodeCovering(ev.timeline, station, at);
    if seed.Some? {
      WalkCollects(ev, seed.value, {}, [], []);
    }
  }

  // ----- what the candidates and the category mean -----

  /** One link's books: the faults set aside are those in reach but the chosen explanation. */
  ghost predicate LinkBalanced(others: seq<Episode>, reach: set<Episode>, explained: Option<Episode>) {
    && Distinct(others)
    && (forall e :: e in others <==> e in reach && explained != Some(e))
    && (forall e :: e in reach ==> e.Kind() == CauseCandidate)
    && (explained.Some? && explained.value.Kind() == CauseCandidate ==> explained.value in reach)
  }

  /** The books of one derivation, link by link: the chain's episodes, the faults in reach of
      each link, the explanation it chose, the faults it set aside, and whether it ended at one. */
  datatype Books = Books(
    episodes: seq<Episode>,
    reach: seq<set<Episode>>,
    explained: seq<Option<Episode>>,
    others: seq<seq<Episode>>,
    atCause: bool)
  {
    ghost predicate Even() {
      0 < |episodes| == |reach| == |explained| == |others|
    }

    ghost predicate Balanced() {
      && Even()
      && (forall i :: 0 <= i < |others| ==> LinkBalanced(others[i], reach[i], explained[i]))
      && (forall i :: 0 <= i < |episodes| - 1 ==> GoesOn(i))
      && (forall i :: 0 <= i < |episodes| ==> FaultOnlyAtEnd(i))
      && (atCause ==> Last().Kind() == CauseCandidate && reach[|episodes| - 1] == {})
      && (explained[|episodes| - 1].Some? ==> explained[|episodes| - 1].value !in reach[|episodes| - 1])
    }

    ghost predicate GoesOn(i: int)
      requires Even() && 0 <= i < |episodes| - 1
    {
      explained[i] == Some(episodes[i + 1])
    }

    ghost predicate FaultOnlyAtEnd(i: int)
      requires 0 <= i < |episodes|
    {
      episodes[i].Kind() == CauseCandidate ==> i == |episodes| - 1 && atCause
    }

    function Last(): Episode
      requires episodes != []
    {
      episodes[|episodes| - 1]
    }

    function Candidates(): seq<Episode>
      requires episodes != []
    {
      Flatten(others) + (if atCause then [Last()] else [])
    }

    ghost predicate InReach(i: int, e: Episode) {
      0 <= i < |reach| && e in reach[i]
    }

    ghost predicate Shared() {
      exists i, j, e :: i < j && InReach(i, e) && InReach(j, e)
    }

    /** A fault in reach is set aside, or is the end of the chain and explains the link before. */
    lemma SetAsideOrEnd(i: int, e: Episode)
      requires Balanced() && InReach(i, e)
      ensures InPart(others, i, e) <==> explained[i] != Some(e)
      ensures explained[i] == Some(e) ==> i == |episodes| - 2 && atCause && e == Last()
    {
      assert LinkBalanced(others[i], reach[i], explained[i]);
      if explained[i] == Some(e) {
        assert i < |episodes| - 1;
        assert GoesOn(i) && FaultOnlyAtEnd(i + 1);
      }
    }

    lemma PartInReach(i: int, e: Episode)
      requires Balanced() && InPart(others, i, e)
      ensures InReach(i, e)
    {
      assert LinkBalanced(others[i], reach[i], explained[i]);
    }

    lemma CandidatesAre(e: Episode)
      requires Balanced()
      ensures e in Candidates() <==> (exists i :: InReach(i, e)) || (atCause && e == Last())
    {
      FlattenMember(others, e);
      if i :| InPart(others, i, e) {
        PartInReach(i, e);
      }
      if i :| InReach(i, e) {
        SetAsideOrEnd(i, e);
      }
    }

    lemma SharedRepeats(i: int, j: int, e: Episode)
      requires Balanced() && i < j && InReach(i, e) && InReach(j, e)
      ensures InPart(others, i, e)
      ensures InPart(others, j, e) || (atCause && e == Last())
    {
      SetAsideOrEnd(i, e);
      SetAsideOrEnd(j, e);
    }

    lemma RepeatExactlyWhenShared()
      requires Balanced()
      ensures Distinct(Candidates()) <==> !Shared()
    {
      forall i | 0 <= i < |others| ensures Distinct(others[i]) {
        assert LinkBalanced(others[i], reach[i], explained[i]);
      }
      FlattenDistinct(others);
      DistinctAppend(Flatten(others), if atCause then [Last()] else []);
      if i, j, e :| i < j && InReach(i, e) && InReach(j, e) {
        SharedRepeats(i, j, e);
        FlattenMember(others, e);
      } else {
        forall i, j, x | i < j && InPart(others, i, x) ensures !InPart(others, j, x) {
          PartInReach(i, x);
          if InPart(others, j, x) { PartInReach(j, x); }
        }
        if atCause {
          FlattenMember(others, Last());
          EndIsNotSetAside();
        }
      }
    }

    lemma EndIsInReach()
      requires Balanced() && atCause && |episodes| > 1
      ensures InReach(|episodes| - 2, Last())
    {
      assert GoesOn(|episodes| - 2);
      assert LinkBalanced(others[|episodes| - 2], reach[|episodes| - 2], explained[|episodes| - 2]);
    }

    lemma EndIsNotSetAside()
      requires Balanced() && !Shared() && atCause
      ensures forall i :: !InPart(others, i, Last())
    {
      assert |episodes| > 1 ==> GoesOn(|episodes| - 2);
      forall i ensures !InPart(others, i, Last()) {
        if InPart(others, i, Last()) {
          PartInReach(i, Last());
          SetAsideOrEnd(i, Last());
          EndIsInReach();
        }
      }
    }
  }

  function Episodes(links: seq<ChainLink>): seq<Episode> {
    seq(|links|, i requires 0 <= i < |links| => links[i].episode)
  }

  function Reaches(ev: Evidence, links: seq<ChainLink>): seq<set<Episode>> {
    seq(|links|, i requires 0 <= i < |links| => FaultsInReach(ev, links[i]))
  }

  function Explanations(ev: Evidence, links: seq<ChainLink>): seq<Option<Episode>> {
    seq(|links|, i requires 0 <= i < |links| => Explaining(ev, links[i]))
  }

  function BooksOf(ev: Evidence, d: Derivation): Books {
    Books(Episodes(d.links), Reaches(ev, d.links), Explanations(ev, d.links), SetAsides(ev, d.links), d.termination == AtCause)
  }

  lemma FollowedAreConsequences(ev: Evidence, links: seq<ChainLink>)
    requires Supported(ev, links)
    ensures forall k :: 0 <= k < |links| - 1 ==> links[k].episode.Kind() == Consequence
  {
    forall k | 0 <= k < |links| - 1 ensures links[k].episode.Kind() == Consequence {
      assert LeadsOn(ev, links, k);
    }
  }

  lemma StopsAtFaults(ev: Evidence, link: ChainLink, termination: Termination, unexplained: Option<Unexplained>)
    requires StopJustified(ev, link, termination, unexplained)
    ensures link.episode.Kind() == CauseCandidate <==> termination == AtCause
    ensures termination == AtCause ==> link.since.None?
  {
    hide NothingJoins, LacksOuterBuffer, Joins, NeverMet, Unaccounted;
  }

  lemma LeadingIsConsequence(ev: Evidence, link: ChainLink, next: Episode)
    requires LeadsTo(ev, link, next)
    ensures link.episode.Kind() == Consequence
  {
  }

  /** Only the end of a chain can be a fault, and then the chain terminated at it. */
  lemma FaultIsTheEnd(ev: Evidence, d: Derivation)
    requires d.links != [] && Supported(ev, d.links) && EndJustified(ev, d)
    ensures forall k :: 0 <= k < |d.links| && d.links[k].episode.Kind() == CauseCandidate ==>
                          k == |d.links| - 1 && d.termination == AtCause
    ensures d.termination == AtCause ==>
              d.links[|d.links| - 1].episode.Kind() == CauseCandidate && d.links[|d.links| - 1].since.None?
  {
    hide Supported, StopJustified, LeadsTo;
    FollowedAreConsequences(ev, d.links);
    var last := d.links[|d.links| - 1];
    if StopJustified(ev, last, d.termination, d.unexplained) {
      StopsAtFaults(ev, last, d.termination, d.unexplained);
    } else {
      var k, again :| ReturnsTo(ev, d.links, k, again);
      LeadingIsConsequence(ev, last, again);
    }
  }

  lemma ExplainedFaultIsInReach(ev: Evidence, link: ChainLink, e: Episode)
    requires Explaining(ev, link) == Some(e)
    ensures e in ev.timeline
    ensures e.Kind() == CauseCandidate ==> e in FaultsInReach(ev, link)
  {
    ExplainingAccounts(ev, LooksTo(ev, link).value, link.since.value);
  }

  lemma SameStepSameEpisode(timeline: seq<Episode>, e: Episode, f: Episode)
    requires UniqueSteps(timeline) && e in timeline && f in timeline && e.Step() == f.Step()
    ensures e == f
  {
  }

  /** A chain that stopped short of its last explanation had used that episode before, and no
      episode it used before its end is a fault. */
  lemma EndReusesNoFault(ev: Evidence, d: Derivation, e: Episode)
    requires d.links != [] && CandidatesOf(ev, d) && UniqueSteps(ev.timeline)
    requires forall k :: 0 <= k < |d.links| ==> d.links[k].episode in ev.timeline
    requires forall k :: 0 <= k < |d.links| && d.links[k].episode.Kind() == CauseCandidate
                         ==> k == |d.links| - 1 && d.termination == AtCause
    requires d.termination == AtCause ==> d.links[|d.links| - 1].since.None?
    requires Explaining(ev, d.links[|d.links| - 1]) == Some(e)
    ensures e.Kind() != CauseCandidate
  {
    var k :| 0 <= k < |d.links| && d.links[k].episode.Step() == e.Step();
    ExplainedFaultIsInReach(ev, d.links[|d.links| - 1], e);
    SameStepSameEpisode(ev.timeline, d.links[k].episode, e);
  }

  lemma ReachIsFaults(ev: Evidence, link: ChainLink)
    ensures forall e :: e in FaultsInReach(ev, link) ==> e in ev.timeline && e.Kind() == CauseCandidate
    ensures link.since.None? ==> FaultsInReach(ev, link) == {} && Explaining(ev, link).None?
  {
  }

  lemma LinkBooks(ev: Evidence, link: ChainLink)
    requires UniqueSteps(ev.timeline)
    ensures LinkBalanced(SetAside(ev, link), FaultsInReach(ev, link), Explaining(ev, link))
  {
    SetAsideIs(ev, link);
    ReachIsFaults(ev, link);
    if Explaining(ev, link).Some? {
      ExplainedFaultIsInReach(ev, link, Explaining(ev, link).value);
    }
  }

  lemma LinksBalance(ev: Evidence, d: Derivation)
    requires UniqueSteps(ev.timeline)
    ensures var b := BooksOf(ev, d);
            forall i :: 0 <= i < |b.others| ==> LinkBalanced(b.others[i], b.reach[i], b.explained[i])
  {
    forall i | 0 <= i < |d.links|
      ensures LinkBalanced(BooksOf(ev, d).others[i], BooksOf(ev, d).reach[i], BooksOf(ev, d).explained[i])
    {
      LinkBooks(ev, d.links[i]);
    }
  }

  lemma EndBalances(ev: Evidence, d: Derivation)
    requires d.links != [] && Supported(ev, d.links) && EndJustified(ev, d) && CandidatesOf(ev, d)
    requires UniqueSteps(ev.timeline)
    ensures var last := d.links[|d.links| - 1];
            && (d.termination == AtCause ==> FaultsInReach(ev, last) == {})
            && (Explaining(ev, last).Some? ==> Explaining(ev, last).value !in FaultsInReach(ev, last))
  {
    var last := d.links[|d.links| - 1];
    FaultIsTheEnd(ev, d);
    ReachIsFaults(ev, last);
    if Explaining(ev, last).Some? {
      EndReusesNoFault(ev, d, Explaining(ev, last).value);
    }
  }

  lemma ChainGoesOn(ev: Evidence, d: Derivation)
    requires d.links != [] && CandidatesOf(ev, d)
    ensures forall i :: 0 <= i < |d.links| - 1 ==> BooksOf(ev, d).GoesOn(i)
    ensures BooksOf(ev, d).Candidates() == d.candidates
  {
    hide Explaining, SetAside, FaultsInReach, UsesStep;
    forall i | 0 <= i < |d.links| - 1 ensures BooksOf(ev, d).GoesOn(i) {
      assert FindsNext(ev, d.links, i);
      assert BooksOf(ev, d).explained[i] == Explaining(ev, d.links[i]);
      assert BooksOf(ev, d).episodes[i + 1] == d.links[i + 1].episode;
    }
  }

  lemma FaultsOnlyAtEnd(ev: Evidence, d: Derivation)
    requires d.links != [] && Supported(ev, d.links) && EndJustified(ev, d)
    ensures forall i :: 0 <= i < |d.links| ==> BooksOf(ev, d).FaultOnlyAtEnd(i)
    ensures d.termination == AtCause ==> BooksOf(ev, d).Last().Kind() == CauseCandidate
  {
    hide Explaining, SetAside, FaultsInReach, Supported, EndJustified;
    FaultIsTheEnd(ev, d);
  }

  lemma BooksBalance(ev: Evidence, station: string, at: int)
    requires UniqueSteps(ev.timeline) && Derive(ev, station, at).links != []
    ensures var d := Derive(ev, station, at); BooksOf(ev, d).Balanced() && BooksOf(ev, d).Candidates() == d.candidates
  {
    hide Derive, Explaining, SetAside, FaultsInReach, Supported, EndJustified, CandidatesOf, LinkBalanced;
    var d := Derive(ev, station, at);
    DerivationIsSupported(ev, station, at);
    DerivationCollects(ev, station, at);
    LinksBalance(ev, d);
    FaultsOnlyAtEnd(ev, d);
    EndBalances(ev, d);
    ChainGoesOn(ev, d);
  }

  lemma ReachInBooks(ev: Evidence, d: Derivation, e: Episode)
    ensures (exists i :: BooksOf(ev, d).InReach(i, e)) <==> (exists l :: l in d.links && e in FaultsInReach(ev, l))
  {
    hide FaultsInReach;
    var books := BooksOf(ev, d);
    if i :| books.InReach(i, e) {
      assert d.links[i] in d.links;
    }
    if l :| l in d.links && e in FaultsInReach(ev, l) {
      var i :| 0 <= i < |d.links| && d.links[i] == l;
      assert books.InReach(i, e);
    }
  }

  /** A derivation reports exactly the faults its links had in reach, and the one it ended at. */
  lemma CandidatesAreTheFaultsInReach(ev: Evidence, station: string, at: int, e: Episode)
    requires UniqueSteps(ev.timeline)
    ensures var d := Derive(ev, station, at);
            e in d.candidates <==> || (exists l :: l in d.links && e in FaultsInReach(ev, l))
                                   || (d.termination == AtCause && d.links != [] && e == d.links[|d.links| - 1].episode)
  {
    hide Derive, FaultsInReach, Supported, EndJustified;
    var d := Derive(ev, station, at);
    DerivationIsSupported(ev, station, at);
    if d.links != [] {
      var books := BooksOf(ev, d);
      BooksBalance(ev, station, at);
      books.CandidatesAre(e);
      ReachInBooks(ev, d, e);
    }
  }

  /** Two links of a chain have one fault in reach of both. */
  ghost predicate SharedFault(ev: Evidence, links: seq<ChainLink>) {
    exists i, j :: 0 <= i < j < |links| && FaultsInReach(ev, links[i]) * FaultsInReach(ev, links[j]) != {}
  }

  lemma SharedInBooks(ev: Evidence, d: Derivation)
    ensures BooksOf(ev, d).Shared() <==> SharedFault(ev, d.links)
  {
    var books := BooksOf(ev, d);
    forall i, e ensures books.InReach(i, e) <==> 0 <= i < |d.links| && e in FaultsInReach(ev, d.links[i]) {
    }
    if i, j, e :| i < j && books.InReach(i, e) && books.InReach(j, e) {
      assert e in FaultsInReach(ev, d.links[i]) * FaultsInReach(ev, d.links[j]);
    }
    if i, j :| 0 <= i < j < |d.links| && FaultsInReach(ev, d.links[i]) * FaultsInReach(ev, d.links[j]) != {} {
      var e :| e in FaultsInReach(ev, d.links[i]) * FaultsInReach(ev, d.links[j]);
      assert books.InReach(i, e) && books.InReach(j, e);
    }
  }

  /** One fault is counted twice exactly when two links look to the same station with that
      fault in both their lead-ins. */
  lemma CandidatesRepeatExactlyWhenShared(ev: Evidence, station: string, at: int)
    requires UniqueSteps(ev.timeline)
    ensures var d := Derive(ev, station, at);
            Distinct(d.candidates) <==> !SharedFault(ev, d.links)
  {
    hide Derive, FaultsInReach, Supported, EndJustified;
    var d := Derive(ev, station, at);
    DerivationIsSupported(ev, station, at);
    if d.links != [] {
      var books := BooksOf(ev, d);
      BooksBalance(ev, station, at);
      books.RepeatExactlyWhenShared();
      SharedInBooks(ev, d);
    }
  }

  lemma SetAsideFromTimeline(ev: Evidence, link: ChainLink, e: Episode)
    requires e in SetAside(ev, link)
    ensures e in ev.timeline && e.state in {Held, Aborted}
  {
    hide Sort, Filter, LatestWhere;
    var p := AccountableIn(LooksTo(ev, link).value, link.since.value, ev.leadIn);
    var overlapping := Filter(p, ev.timeline);
    assert overlapping != [];
    var k := Chosen(overlapping, link.since.value);
    assert e in Filter(CauseEpisode(), overlapping[..k] + overlapping[k + 1..]);
    assert CauseEpisode()(e) && e in overlapping;
  }

  /** Only Held or Aborted episodes of the timeline are ever reported as candidates. */
  lemma CandidatesAreFaults(ev: Evidence, station: string, at: int, e: Episode)
    requires e in Derive(ev, station, at).candidates
    ensures e in ev.timeline && e.state in {Held, Aborted}
  {
    hide Derive, SetAside, Supported;
    var d := Derive(ev, station, at);
    DerivationIsSupported(ev, station, at);
    DerivationCollects(ev, station, at);
    FaultIsTheEnd(ev, d);
    if e in Flatten(SetAsides(ev, d.links)) {
      FlattenMember(SetAsides(ev, d.links), e);
      var i :| InPart(SetAsides(ev, d.links), i, e);
      SetAsideFromTimeline(ev, d.links[i], e);
    }
  }

  /** The category is total and earned: it is absent exactly when the walk is unfinished, and
      then an explanation is present; it names one fault only when one was met. */
  lemma CategoryIsTotal(ev: Evidence, station: string, at: int)
    ensures var d := Derive(ev, station, at);
            && (d.Category().None? <==> d.termination == Unfinished)
            && (d.Category().None? <==> d.unexplained.Some?)
            && (d.Category().None? <==> d.Root().None?)
            && (d.Category() == Some(Internal) <==> d.termination == AtCause && d.candidates == [d.Root().value.episode])
            && (d.Category() == Some(Ambiguous) <==> d.termination != Unfinished && |d.candidates| > 1)
  {
    hide Derive, Supported, Gathered, FindsNext, UsesStep;
    var d := Derive(ev, station, at);
    DerivationIsSupported(ev, station, at);
    if d.links != [] {
      DerivationCollects(ev, station, at);
      if d.termination == AtCause {
        assert d.candidates[|d.candidates| - 1] == d.links[|d.links| - 1].episode;
      }
    }
  }

  /** A supplier or a customer is blamed only at an end of the line: no row of the topology and
      no loop leads on, no buffer lies outside the station on that side, and it was not
      carriers that were missing. */
  lemma ExternalIsEarned(ev: Evidence, station: string, at: int)
    requires Derive(ev, station, at).Category() in {Some(ExternalUpstream), Some(ExternalDownstream)}
    ensures var d := Derive(ev, station, at);
            var upstream := d.Category() == Some(ExternalUpstream);
            && d.Root().Some? && |d.candidates| <= 1
            && var e := d.Root().value.episode;
               && NothingJoins(ev.topology, e) && !ShortOfCarriers(e)
               && e.Direction() == Some(if upstream then Starved else Blocked)
               && forall l :: l in ev.topology.links ==> (if upstream then l.downstream else l.upstream) != e.station
  {
    hide Derive, Supported;
    DerivationIsSupported(ev, station, at);
  }
}
