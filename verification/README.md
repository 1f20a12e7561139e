# Proofs about the line-diagnostics services

This project models the rules of the analysis service and the diagnostics agent that touch no
database: how a stop of the line is explained, counted and named, how patterns are tested, how a
question is answered within a budget, and how the answer reaches the browser. Each property below
is proved for all inputs, all runs or all chunkings.

`dafny verify dfyconfig.toml` checks everything.

## How it is laid out

| files | what they model |
|---|---|
| `Propagation`, `Chains`, `Carriers`, `Lookups`, `Causes`, `Faults` | the backwards walk over stations and buffers, what supports each link, what its candidates and category mean, and when an ambiguous one has two faults |
| `Reads`, `Horizon`, `Depth`, `Settled`, `Edges` | the truncated reads the walk is given, when they are enough, and why nothing recorded later matters |
| `StopDerivation`, `Seeds`, `Categories` | the derivation behind a stop, as it is listed and as its id opens it, and when the two are one |
| `Limits`, `Reach`, `Clipped` | inputs on which the history, the candidates or the listed category mislead |
| `Windows`, `Coverage`, `Stops`, `Calendar`, `StopIds`, `Spellings`, `StopIdentity` | lost time, output gaps, and the one identity of an interruption |
| `StepUp`, `Patterns`, `Tables` | the correction for multiple comparisons, the report built on it, and what that says of the observations |
| `Routing`, `Answers`, `Citations`, `Passes`, `Compose` | what a question is given, what a claim may cite, and what is shipped of it |
| `Preparation`, `Pipeline`, `Running`, `Guarantees`, `Transcript`, `Questions`, `Claims`, `Wording`, `LostAnswer` | one run of the agent, against any provider, any tools and any service: its specification, the methods that carry it out, and what holds of every run |
| `EventStream`, `Delivery` | the event stream, a subset of section 9.2 (Server-sent events) of the WHATWG HTML standard, and what its reader is shown |
| `Sequences`, `Ordering`, `Measures` | filters, stable sorting, string order, set sizes |

Code that loops over changing variables is a method proved against a specification function or an
order-free description; the run's recorder is a class, and a generator is a method that appends what
it yields where it yields it. Instants are integer microseconds; fractions, scores and p-values are
exact reals.

## Where the code and its documentation disagree

- `config.py` says a six-link chain reaches six lead-ins back. An explaining episode may have begun
  long before its lead-in, so no multiple of the lead-in is enough (`Limits.NoMultipleIsEnough`); and
  even when none did, a finished chain of n links can need 2(n - 1) of them
  (`Reach.FewerLeadInsLoseIt`) and never needs more (`Depth.FreshChainsFit`). A read is enough exactly
  when every link derived from it is settled (`Settled.SettledExactly`), and before anything is derived
  when it returned no `Suspended` episode from its first two lead-ins (`Depth.LateReadsSuffice`).
- `Derivation` says more than one cause candidate means two independent faults. One fault can be
  collected twice (`Limits.OneFaultReadAsTwo`), exactly when two links share it
  (`Causes.CandidatesRepeatExactlyWhenShared`); the claim holds exactly of timelines on which no
  episode has one fault to blame, reached twice (`Faults.AmbiguityIsHonest`).
- The pattern of a stop id is said to hold what is written and what is read to one shape. It admits
  the decimal digits of every script, so an instant has several accepted ids (`StopIds.TwoSpellings`),
  exactly those that agree in the value of every digit (`StopIds.SpellingsAgreeInValue`). The service answers them alike,
  under the one ASCII id (`StopIdentity.AnswersAreCanonical`).
- An id is said to name one stop whatever window it was cited from, but the category listed beside it
  depends on the window. It can differ from the one the id opens onto at either edge: when the stop was
  already running as the window opened (`Clipped.OpeningEdgeCanDiffer`), and when it was still running as
  the window closed (`Clipped.ClosingEdgeCanDiffer`). The two derivations begin with one episode exactly
  when the tail's transitions seed the listed part and the whole alike
  (`Categories.ListedIdKeepsItsDerivation`, `Seeds.SeededAlikeExactly`).
- The correction of unverifiable citations is described as one retry, but it is asked even when no
  turn is left to answer it, and then the findings that did resolve are lost with the rest
  (`Guarantees.CorrectionOnTheLastTurnLosesTheAnswer`, `LostAnswer.OneTurnLosesTheVerifiedClaim`).
- A citation's label is said to be shared only by citations of one referent. It is so for the kinds with
  one id (`Wording.LabelsTellApart`), and not for scopes (`Wording.LabelsCanBeShared`), which is why a
  finding is dropped for its own citations and not by label.
- The no-data answer lists `line_status` among its tools while the trace records no call; on every
  other door the two agree (`Guarantees.ToolsMatchTheTraceExactly`). An exhausted run reports its
  budget as the turns used, which is the recorded number exactly when the budget is not negative
  (`Guarantees.MethodMatchesTheTrace`).

## Model

| member | source | states |
|---|---|---|
| Propagation.FindConditionSince | diagnostics/analysis/src/analysis/propagation.py:567-602 | the loop that steps an index down the samples finds what the specification `ConditionSince` defines; `Chains.ConditionSinceMeaning` says what that is |
| Propagation.TakeStep | diagnostics/analysis/src/analysis/propagation.py:377-463 | one turn of the walk, branch by branch: stop at a fault, at the edge of the line, unexplained in each of its ways, or follow a buffer to the next episode |
| Propagation.DeriveChain | diagnostics/analysis/src/analysis/propagation.py:324-463 | the `while True` loop over `links`, `candidates`, `seen` and `current` terminates on every topology and refines the recursive walk |
| Chains.ConditionSinceMeaning | diagnostics/analysis/src/analysis/propagation.py:567-610 | a condition dates from the earliest sample of the latest satisfying run inside the lead-in, and is absent exactly when no sample there satisfies it |
| Chains.LatestRunIsUnique | diagnostics/analysis/src/analysis/propagation.py:567-602 | at most one instant begins the latest satisfying run, so that relation pins the result |
| Chains.ExplainingAccounts | diagnostics/analysis/src/analysis/propagation.py:613-654 | the explaining episode belongs to the far station, is not `Execute`, overlaps the lead-in before the condition, and is the preferred such episode; it is absent exactly when there is none |
| Chains.EdgeLacksBuffer | diagnostics/analysis/src/analysis/propagation.py:183-195 | the edge test is the absence of the outer buffer on the side the reason names |
| Carriers.HeadExactly | diagnostics/analysis/src/analysis/propagation.py:197-203 | the head is the one named station that no buffer row discharges into |
| Carriers.TailExactly | diagnostics/analysis/src/analysis/propagation.py:205-211 | the tail is the one named station that discharges into no row |
| Carriers.CarrierLoopExactly | diagnostics/analysis/src/analysis/propagation.py:213-236 | the carrier loop runs from the one tail to the one head, over the rows alone, and is there exactly when they are two |
| Carriers.HeadLooksToTheTail | diagnostics/analysis/src/analysis/propagation.py:377-463 | a head that starves of carriers while the tail stands still has the tail's episode as its second link, since the same instant |
| Lookups.DirectionsMean | diagnostics/analysis/src/analysis/propagation.py:114-138 | an episode starved or was blocked exactly when its reason says so, alone or before a colon |
| Lookups.DetailsMean | diagnostics/analysis/src/analysis/propagation.py:114-138 | the detail of a reason is what follows its first colon |
| Lookups.ConditionsMean | diagnostics/analysis/src/analysis/propagation.py:567-610 | over the levels sampled: a condition dates from the instant since which every level up to the last that met it did, and is not recorded exactly when none in the lead-in did |
| Lookups.ExplanationsMean | diagnostics/analysis/src/analysis/propagation.py:613-654 | over the far station's episodes: the walk goes on to the latest non-`Execute` one that covers the instant, or the latest in the lead-in, and sets aside the other faults there by their starts |
| Lookups.EdgesAreExternal | diagnostics/analysis/src/analysis/propagation.py:293-321 | a chain that ends at the edge with at most one fault in reach blames the side its last episode waited on |
| Chains.MoveIsJustified | diagnostics/analysis/src/analysis/propagation.py:377-463 | every step follows evidence that leads on, and every stop has the reason it gives |
| Chains.DerivationIsSupported | diagnostics/analysis/src/analysis/propagation.py:324-463 | every chain starts at the seed, each link but the last is a consequence joined by a buffer to an overlapping non-`Execute` episode on its far side, and the end is justified; a chain is empty exactly when nothing covers the seed instant |
| Chains.ChainGoesBack | diagnostics/analysis/src/analysis/propagation.py:360-463 | along a chain neither episode starts nor buffer conditions ever move forward in time |
| Chains.ChainIsBounded | diagnostics/analysis/src/analysis/propagation.py:355-376 | a chain has at most as many links as the timeline has distinct (station, start) steps, the carrier loop included |
| Chains.ReturnIsInstantaneous | diagnostics/analysis/src/analysis/propagation.py:360-376 | a chain that comes back to a step it used has stood still: every episode and condition since began at one instant |
| Causes.DerivationCollects | diagnostics/analysis/src/analysis/propagation.py:351-463 | what the walk sets aside is accounted for link by link |
| Causes.CandidatesAreTheFaultsInReach | diagnostics/analysis/src/analysis/propagation.py:278-291 | the cause candidates are exactly the faults some link had in reach and the fault the chain ended at |
| Causes.CandidatesRepeatExactlyWhenShared | diagnostics/analysis/src/analysis/propagation.py:278-291 | one fault is listed twice exactly when two links look to the same station with that fault in both lead-ins |
| Limits.OneFaultReadAsTwo | diagnostics/analysis/src/analysis/propagation.py:282-285 | a log of transitions with one fault whose derivation is called ambiguous |
| Causes.CandidatesAreFaults | diagnostics/analysis/src/analysis/propagation.py:278-291 | every candidate is a `Held` or `Aborted` episode of the timeline |
| Causes.CategoryIsTotal | diagnostics/analysis/src/analysis/propagation.py:293-321 | the category is absent exactly when the walk is unexplained, and then an explanation is present; `internal` and `ambiguous` exactly when they should be |
| Causes.ExternalIsEarned | diagnostics/analysis/src/analysis/propagation.py:466-549 | an external category needs an end of the line: no joining buffer, none outside the station on that side, and never a lack of carriers |
| Faults.CandidatesAreBlamed | diagnostics/analysis/src/analysis/propagation.py:278-291 | said of the timeline before anything is derived: the candidates are exactly the faults in reach of, or lying, behind the seed |
| Faults.AmbiguousExactlyWhen | diagnostics/analysis/src/analysis/propagation.py:293-321 | a derivation is ambiguous exactly when an explained end lies behind its seed and either two different faults are to blame there or one is in reach of two episodes |
| Faults.AmbiguousMeansTwoFaults | diagnostics/analysis/src/analysis/propagation.py:282-285 | an ambiguous derivation names two different faults exactly when its seed does not mislead, that is, does not have one fault to blame which two episodes behind it reach |
| Faults.AmbiguityIsHonest | diagnostics/analysis/src/analysis/propagation.py:282-285 | over a closed log, ambiguous means two faults at every station and instant exactly when no episode of the log misleads |
| Faults.NoCommonFaultIsHonest | diagnostics/analysis/src/analysis/propagation.py:282-285 | a simple condition: no fault in reach of two episodes |
| Faults.OneWayIsHonest | diagnostics/analysis/src/analysis/propagation.py:282-285 | another: buffers that do not go round, and every suspension that waits for a buffer of the line waiting one way; then no candidate is ever repeated |
| Reads.CoversExactlyLatest | diagnostics/analysis/src/analysis/queries.py:267-288 | a closed episode covers an instant exactly when its row is the station's latest transition by then |
| Reads.EpisodesAreTheirRows | diagnostics/analysis/src/analysis/queries.py:267-288 | an episode carries its row's state, start, reason and buffer, and lasts until the station's next row |
| Reads.OneEpisodeAtATime | diagnostics/analysis/src/analysis/queries.py:267-288 | from a station's first transition on, exactly one of its episodes covers each instant |
| Reads.CarryInCompletes | diagnostics/analysis/src/analysis/queries.py:227-288 | a read from h, with its carry-in row, is exactly the episodes still open at h or later |
| Horizon.HorizonSuffices | diagnostics/analysis/src/analysis/propagation.py:552-654 | two bodies of evidence that agree from h on derive the same answer as soon as one chain reads nothing from before h |
| Horizon.ReadAgrees | diagnostics/analysis/src/analysis/queries.py:227-311 | what the two queries return agrees with the whole history from h on |
| Horizon.ReadSuffices | diagnostics/analysis/src/analysis/queries.py:227-311 | the chain over a read from h is the chain over all of history when either of the two stays above h |
| Horizon.TwoLeadInsPerLink | diagnostics/analysis/src/analysis/config.py:60-69 | how far back a chain can reach when every explaining episode starts inside its lead-in: at most two lead-ins a link |
| Horizon.OrderDoesNotMatter | diagnostics/analysis/src/analysis/propagation.py:335-344 | the derivation does not depend on the order of episodes or samples whose steps and instants are unique |
| Settled.SettledExactly | diagnostics/analysis/src/analysis/config.py:60-69 | a read derives what every history with that read derives exactly when each link of its chain is settled: the read shows the run of its condition begin or reaches the whole lead-in, and what the far station carried in had begun a lead-in before |
| Settled.SettledExactlyForStops | diagnostics/analysis/src/analysis/routes_stops.py:277-320 | the same for the derivation behind a stop |
| Settled.ReadingFromSettles | diagnostics/analysis/src/analysis/propagation.py:552-654 | a link that reads nothing from before the read began is settled |
| Depth.LateReadsSuffice | diagnostics/analysis/src/analysis/config.py:60-69 | a read is the whole history, whatever is derived from it, when every `Suspended` episode it returned began two lead-ins or more after it starts |
| Depth.LateReadsSufficeForStops | diagnostics/analysis/src/analysis/routes_stops.py:277-320 | the same for the derivation behind a stop |
| Depth.FreshChainsFit | diagnostics/analysis/src/analysis/config.py:60-69 | a chain of n links whose explanations began inside their lead-ins is complete over 2n lead-ins of history, and over 2(n - 1) when it is finished; it may be the chain over that read or over all of history |
| Reach.FreshChainsNeedTwoLeadInsPerLink | diagnostics/analysis/src/analysis/config.py:60-69 | for every n above 1 a line on which such a finished chain of n links is complete over 2(n - 1) lead-ins and loses its category over any history two ticks shorter |
| Reach.FewerLeadInsLoseIt | diagnostics/analysis/src/analysis/config.py:60-69 | so any number of lead-ins below 2(n - 1) is too few for it, one for each link among them from three links on |
| Limits.NoHistoryIsEnough | diagnostics/analysis/src/analysis/config.py:60-69 | for every horizon there is a log, three links deep, whose category the read from that horizon loses |
| Limits.NoMultipleIsEnough | diagnostics/analysis/src/analysis/config.py:60-69 | so neither six lead-ins nor any other number of them is enough history for every line |
| Edges.ClosedEarlier | diagnostics/analysis/src/analysis/queries.py:267-288 | a read that ends earlier returns the same episodes, those still running then left open |
| Edges.LaterRecordsDoNotMatter | diagnostics/analysis/src/analysis/propagation.py:324-463 | what is recorded after the seed instant changes nothing in a derivation but whether its episodes have ended |
| StopDerivation.ClosedEpisodesAreUnique | diagnostics/analysis/src/analysis/queries.py:267-288 | closing an ordered log gives episodes with pairwise distinct (station, start) |
| StopDerivation.ChainStartsWhereTheTailStopped | diagnostics/analysis/src/analysis/routes_stops.py:345-368 | when the tail left `Execute` inside the stop, the chain starts at the earliest episode in which it did |
| StopDerivation.StopDerivationSuffices | diagnostics/analysis/src/analysis/routes_stops.py:277-320 | the derivation of a stop over a truncated read is the one over all history whenever its own chain reads nothing older |
| Seeds.SameEpisodeExactly | diagnostics/analysis/src/analysis/propagation.py:552-566 | two instants of a station lie in one episode exactly when no transition lies between them |
| Seeds.SeededAlikeExactly | diagnostics/analysis/src/analysis/routes_stops.py:345-368 | a span and a longer one around it are seeded in one episode exactly when the tail first left `Execute` inside the shorter, or before it and still stands when it starts with no leaving inside, or never left and did not change between the two starts |
| Categories.BeginAlikeExactly | diagnostics/analysis/src/analysis/routes_stops.py:98-255 | the derivations of two spans over two reads begin with one episode, whatever history each has, exactly on that condition on the tail's transitions |
| Categories.SeededAlikeShowsOneCategory | diagnostics/analysis/src/analysis/routes_stops.py:98-255 | and when both reads are enough they are then one chain, each as far as its read goes, with one category |
| Categories.StopsInTheWindowAreSeededAlike | diagnostics/analysis/src/analysis/routes_stops.py:345-368 | for a stop that began inside its window the condition is that the tail left `Execute` inside the listed part or not at all; a stop the window holds whole always meets it |
| Categories.ListedIdKeepsItsDerivation | diagnostics/analysis/src/analysis/routes_stops.py:98-255 | the same of the endpoints: what a stop is listed with and what its id opens onto begin with one episode exactly on that condition, and are one chain with one category when both reads are enough |
| Clipped.OpeningEdgeCanDiffer | diagnostics/analysis/src/analysis/routes_stops.py:98-255 | a stop already running when its window opens, listed without a category, whose id opens onto an internal cause |
| Clipped.ClosingEdgeCanDiffer | diagnostics/analysis/src/analysis/routes_stops.py:98-255 | a stop that began inside its window and was still running when it closed, with the same difference |
| Limits.ReasonReadsBack | diagnostics/analysis/src/analysis/propagation.py:114-138 | a reason rendered from a direction and a detail reads back as both |
| Stops.DetectStops | diagnostics/analysis/src/analysis/stops.py:73-114 | the loop over boundaries returns the stops and the micro-stop count of the specification |
| Stops.StopsAreTheLongGaps | diagnostics/analysis/src/analysis/stops.py:92-114 | the stops are exactly the maximal output-free gaps longer than threshold and floor, with the two flags exactly right |
| Stops.StopsAreDisjoint | diagnostics/analysis/src/analysis/stops.py:92-114 | stops come in order and do not overlap |
| Stops.SilenceLiesInOneStop | diagnostics/analysis/src/analysis/stops.py:92-114 | every long enough stretch of silence lies in exactly one stop |
| Stops.MicroStopsAreTheShortGaps | diagnostics/analysis/src/analysis/stops.py:92-114 | the micro-stop count is the number of maximal gaps above the floor and within the threshold |
| Stops.GapsFillTheWindow | diagnostics/analysis/src/analysis/stops.py:92-114 | ordinary cycles, micro-stops and stops together are the window |
| Stops.PartsMayComeInAnyOrder | diagnostics/analysis/src/analysis/stops.py:92-94 | the order of the input does not matter |
| Calendar.InstantsAreWrittenOnce | diagnostics/analysis/src/analysis/routes_stops.py:71-94 | an instant has one way of being written as a date and time |
| Calendar.FieldsOfInstant | diagnostics/analysis/src/analysis/routes_stops.py:71-94 | reading an instant's fields undoes writing them, leap years included |
| Calendar.MonthsAreAsLong | diagnostics/analysis/src/analysis/routes_stops.py:71-94 | the months have their lengths, leap years included |
| StopIds.StopIdReadsBack | diagnostics/analysis/src/analysis/routes_stops.py:71-94 | the padded id of an instant always reads back as it; the id the platform writes does exactly when it is that one, on a platform that pads years or from the year 1000 on |
| StopIds.SpellingIsPaddedId | diagnostics/analysis/src/analysis/routes_stops.py:80-94 | an accepted string, in the digits of any script, is the padded id of its instant digit for digit |
| StopIds.SpellingsAgreeInValue | diagnostics/analysis/src/analysis/routes_stops.py:80-94 | two accepted strings name one instant exactly when all their digits agree in value |
| StopIds.OneAsciiSpelling | diagnostics/analysis/src/analysis/routes_stops.py:71-94 | among the spellings of an instant the padded id is the only one in ASCII |
| StopIds.TwoSpellings | diagnostics/analysis/src/analysis/routes_stops.py:57-94 | an instant written with an Arabic-Indic year and with an ASCII one: two strings, both accepted |
| Spellings.AcceptedExactly | diagnostics/analysis/src/analysis/routes_stops.py:80-94 | a string names an instant exactly when it is the instant's padded id with digits of any script in the year and in the last digit of the minute, the second, a day from 10 to 29 and an hour before 20 |
| Spellings.YearsAreWritten | diagnostics/analysis/src/analysis/routes_stops.py:71-77 | a year is written as its number, in four digits where the platform pads and else without a leading zero |
| StopIdentity.AtOrBeforeIsLatest | diagnostics/analysis/src/analysis/queries.py:176-183 | the last output at or before an instant |
| StopIdentity.AfterIsNext | diagnostics/analysis/src/analysis/queries.py:186-193 | the first output strictly after an instant |
| StopIdentity.AnchorIsTheLastPart | diagnostics/analysis/src/analysis/routes_stops.py:258-274 | every listed stop is anchored at the last part out at or before its start, whatever window it was found in |
| StopIdentity.InterruptionExactly | diagnostics/analysis/src/analysis/routes_stops.py:183-218 | the interruption an instant lies in runs from the last part out at or before it to the next one after it, or to the clock when there is none, with no part inside, and is longer than the threshold |
| StopIdentity.GetStopExactly | diagnostics/analysis/src/analysis/routes_stops.py:152-255 | over the parts alone: an id that names no instant is refused, one whose instant lies in such an interruption opens it under its own id, and any other is not found |
| StopIdentity.AnchorResolves | diagnostics/analysis/src/analysis/routes_stops.py:183-218 | an anchor resolves to an interval that contains the listed stop exactly when a later part has left or the window is over |
| StopIdentity.ListedIdResolves | diagnostics/analysis/src/analysis/routes_stops.py:98-255 | the same of the id strings: `get_stop` answers a listed id with the same id and a containing interval, exactly then |
| StopIdentity.OneIdPerInterruption | diagnostics/analysis/src/analysis/routes_stops.py:71-77 | two windows cite the same id exactly when no part left between the two starts |
| StopIdentity.NoIdMeansNoHistory | diagnostics/analysis/src/analysis/routes_stops.py:258-274 | a stop has no id exactly when no part left at or before it |
| StopIdentity.ResolvingIsCanonical | diagnostics/analysis/src/analysis/routes_stops.py:183-255 | an instant anywhere inside an interruption resolves to it, and so does its canonical id |
| StopIdentity.AnswersAreCanonical | diagnostics/analysis/src/analysis/routes_stops.py:183-255 | `get_stop` answers every spelling of an instant alike, and always under the ASCII id that `stop_id` writes |
| StopIdentity.InventedIdsAreRefused | diagnostics/analysis/src/analysis/routes_stops.py:173-203 | an id with no part at or before its instant is never a stop |
| Windows.InstantsCount | diagnostics/analysis/src/analysis/windows.py:19-44 | a window's duration is the number of instants it contains |
| Coverage.MergedDuration | diagnostics/analysis/src/analysis/coverage.py:94-116 | the sort-and-merge sweep equals the size of the union of the intervals |
| Coverage.ComputeCoverage | diagnostics/analysis/src/analysis/coverage.py:64-91 | clipping, sorting and merging any rows reports one minus the lost share of the window |
| Coverage.FractionIsAShare | diagnostics/analysis/src/analysis/coverage.py:59-91 | the fraction lies in [0, 1], is 1 exactly when no gap touches the window and 0 exactly when every instant was lost |
| Coverage.ReportedGapsAreTheLostTime | diagnostics/analysis/src/analysis/coverage.py:64-91 | an instant is in a reported gap exactly when it was lost |
| Coverage.EveryRowIsReportedOnce | diagnostics/analysis/src/analysis/coverage.py:74-84 | every row that touches the window is reported once, by the part of it inside and under its own reason, in order of the starts |
| Coverage.LostTimeAddsUp | diagnostics/analysis/src/analysis/coverage.py:64-116 | lost time adds up when a window is cut anywhere |
| Coverage.RowsAreASet | diagnostics/analysis/src/analysis/coverage.py:64-116 | order and repetition of rows do not change the measure |
| StepUp.BenjaminiHochberg | diagnostics/analysis/src/analysis/patterns.py:344-356 | the backwards pass with a running minimum gives every test the order-free step-up value |
| StepUp.RunningMinIsStepUp | diagnostics/analysis/src/analysis/patterns.py:344-356 | min(1, least q·m / #{r ≤ q} over tests q no stronger), so ties share a value whatever key broke them |
| StepUp.StepUpIsUnique | diagnostics/analysis/src/analysis/patterns.py:344-356 | the order-free description determines the value |
| StepUp.AdjustedBelowAlphaIsStepUpSet | diagnostics/analysis/src/analysis/patterns.py:344-356 | adjusted values at most alpha are ranks 1 to k for the largest k with p(k) at most k·alpha/m |
| StepUp.BelowAlphaWhenCarried | diagnostics/analysis/src/analysis/patterns.py:344-356 | the same set without ranks |
| StepUp.Adjust | diagnostics/analysis/src/analysis/patterns.py:325-341 | each of the three corrections, key by key |
| StepUp.CorrectionsAreOrdered | diagnostics/analysis/src/analysis/patterns.py:325-356 | raw is at most step-up, step-up at most Bonferroni |
| StepUp.StepUpKeepsOrder | diagnostics/analysis/src/analysis/patterns.py:344-346 | a test is never adjusted past one that was less convincing |
| StepUp.AdjustedIsUnique | diagnostics/analysis/src/analysis/patterns.py:325-341 | an adjusted value is determined by the family, and never below the raw one |
| Patterns.Compare | diagnostics/analysis/src/analysis/patterns.py:284-312 | the two counters give every value its leave-one-out comparison |
| Patterns.Group | diagnostics/analysis/src/analysis/patterns.py:235-244 | one pass sorts observations into strata and counts the unattributed |
| Patterns.CompareStrata | diagnostics/analysis/src/analysis/patterns.py:246-249 | every value of every stratum is compared once, inside its stratum |
| Patterns.FamilyIs | diagnostics/analysis/src/analysis/patterns.py:251-256 | the multiplicity family is every stratum's comparisons that cleared the sample gate, together |
| Patterns.FindPatterns | diagnostics/analysis/src/analysis/patterns.py:202-281 | the whole report meets its order-free description |
| Tables.PatternsCompareLikeWithLike | diagnostics/analysis/src/analysis/patterns.py:235-312 | field by field: a pattern compares the observations that have its value with those that have another, both of one value along `within` |
| Tables.IncompleteIsUnattributed | diagnostics/analysis/src/analysis/patterns.py:230-244 | unattributed are the observations without a value along the dimension or along `within` |
| Tables.CompleteIsCompared | diagnostics/analysis/src/analysis/patterns.py:235-249 | every other observation is in exactly one pattern |
| Tables.FindingsAreTested | diagnostics/analysis/src/analysis/patterns.py:140-161 | a pattern is tested exactly when both sides are large enough, its p-value adjusted as each correction says, and is a finding when that is at most alpha |
| Tables.FamilyIsTheTested | diagnostics/analysis/src/analysis/patterns.py:251-256 | the family is the tested patterns of the report |
| Tables.PatternsStandInOrder | diagnostics/analysis/src/analysis/patterns.py:268-275 | the tested patterns come first, by adjusted value, then by value and stratum |
| Patterns.ReportIsUnique | diagnostics/analysis/src/analysis/patterns.py:202-281 | there is one such report |
| Patterns.ReportIgnoresOrder | diagnostics/analysis/src/analysis/patterns.py:169-173 | permuting the observations changes no verdict, no adjusted value and no position |
| Patterns.RestIsEverythingElse | diagnostics/analysis/src/analysis/patterns.py:284-312 | a value and its rest make up the stratum, in trials and successes, and neither side is ever an invalid count |
| Patterns.EveryObservationIsCounted | diagnostics/analysis/src/analysis/patterns.py:235-249 | trials over all patterns plus the unattributed are the observations |
| Patterns.VerdictIsNeverStronger | diagnostics/analysis/src/analysis/patterns.py:140-161 | no corrected verdict is stronger than the uncorrected one, and the adjusted value is absent exactly when the sample gate was missed |
| Patterns.FindingsAreTheStepUpSet | diagnostics/analysis/src/analysis/patterns.py:315-356 | under the step-up, the findings of a report are exactly the classical step-up set |
| EventStream.ParseBlock | diagnostics/ui/src/api.ts:759-767 | the line loop keeps the last `event:` and the last `data:` value |
| EventStream.BlocksMean | diagnostics/ui/src/api.ts:759-767 | a block is an event exactly when a value of `event:` is left, the last one given, with the last one of `data:` |
| EventStream.TrimTakesOnlyBlanks | diagnostics/ui/src/api.ts:759-767 | trimming a field takes off blanks at its ends and nothing else |
| EventStream.Drain | diagnostics/ui/src/api.ts:746-754 | draining the buffer yields every complete block and keeps the rest |
| EventStream.Events | diagnostics/ui/src/api.ts:733-757 | for any chunking, the events are those of the whole text |
| EventStream.BatchContinues | diagnostics/ui/src/api.ts:746-754 | later text only ever meets what is left in the buffer |
| EventStream.BatchIsPrintable | diagnostics/ui/src/api.ts:759-767 | whatever the text, an event that comes out has a name and no newline or outer blank |
| EventStream.RoundTrip | diagnostics/agent/src/agent/app.py:145-146 | a list of events comes back as printed exactly when each has a trimmed one-line name, not empty, and trimmed one-line data |
| EventStream.ReportedIsFinal | diagnostics/ui/src/api.ts:714-723 | what has been reported is never taken back |
| EventStream.Send | diagnostics/agent/src/agent/app.py:149-178 | session first, steps in order, and one answer exactly when the run gave both an answer and a trace |
| EventStream.Ask | diagnostics/ui/src/api.ts:713-731 | the fold over events reports every step and exchange and keeps the last answer |
| EventStream.ClientSeesTheRun | diagnostics/ui/src/api.ts:688-731 | what is sent is what the client reports |
| Delivery.EveryRunReachesTheClient | diagnostics/agent/src/agent/app.py:149-178 | every run's steps and its one answer reach the client, however the network cuts the text |
| Delivery.RaisingRunsShowNoAnswer | diagnostics/ui/src/api.ts:713-731 | a run that raises leaves the client its steps and no answer |
| Routing.IndexIgnoresOrder | diagnostics/knowledge/src/knowledge/documents.py:208-223 | an index of documents with different ids does not depend on the order they were read in |
| Routing.Specificity | diagnostics/agent/src/agent/routing.py:167-205 | the accumulated total is the sum of the five overlaps |
| Routing.ScoreMeasuresOverlap | diagnostics/agent/src/agent/routing.py:167-205 | a score is symmetric, between 0 and 5, positive exactly when some key shares a value, and 5 exactly on five equal non-empty keys |
| Routing.ScoreIsTheSumOfShares | diagnostics/agent/src/agent/routing.py:167-205 | a score adds up, for each of the five keys, the share of the values named on either side that both name |
| Routing.TakeWhatFits | diagnostics/agent/src/agent/routing.py:120-131 | the greedy loop stops at the first document that does not fit |
| Routing.Route | diagnostics/agent/src/agent/routing.py:96-137 | the selection: always-loaded, reserved, and the longest prefix of the ranking that fits; kept and dropped together are the ranking |
| Routing.KeptIsLongest | diagnostics/agent/src/agent/routing.py:120-131 | no longer prefix of the ranking fits |
| Routing.CapsHold | diagnostics/agent/src/agent/routing.py:39-54 | each cap holds over reserved and kept unless the reserved documents alone break it |
| Routing.NothingLostOrRepeated | diagnostics/agent/src/agent/routing.py:96-164 | no document twice, every always-loaded and reserved one present, every other match present or reported dropped |
| Routing.SelectionFollowsTheRules | diagnostics/agent/src/agent/routing.py:96-164 | facet by facet: reserved are the documents that apply by question type alone and to its own; ranked, best score first and then by id, the others that name a value it names |
| Routing.SizesAreCharacters | diagnostics/agent/src/agent/routing.py:39-54 | a selection is charged the characters of its bodies put together |
| Routing.SelectionIgnoresOrder | diagnostics/agent/src/agent/routing.py:96-137 | the order of the tree cannot change what a question gets |
| Answers.RefusedExactlyWhenDataIsCarried | diagnostics/agent/src/agent/answer.py:138-158 | a chart specification is refused exactly when some path in it, at any depth, ends on a data key, and the path named is one |
| Citations.StampingWritesTheRunWindow | diagnostics/agent/src/agent/citations.py:69-101 | after stamping a citation carries the run's window exactly when its kind takes one, and stamping again changes nothing |
| Citations.ModelWindowsAreOverwritten | diagnostics/agent/src/agent/citations.py:69-101 | two lists of findings that differ only in windows are stamped alike |
| Passes.ResolveOnce | diagnostics/agent/src/agent/citations.py:165-267 | one citation decided by the questions it needs, each answered when it is put; a report already fetched is not fetched again |
| Passes.Keep | diagnostics/agent/src/agent/citations.py:104-162 | the pass keeps exactly the findings none of whose citations was decided against, and names the labels of those that were, sorted, once each |
| Passes.DecisionsAreAnswers | diagnostics/agent/src/agent/citations.py:134-150 | against a service that may answer every question differently, each citation is decided once, by what the service said when it was asked; all alarms are read off one report and all patterns off another |
| Passes.NoCitationIsKeptAndDropped | diagnostics/agent/src/agent/citations.py:104-162 | no citation is kept in one finding and dropped in another: every finding that went has one that no kept finding has |
| Passes.QuestionsAreFew | diagnostics/agent/src/agent/citations.py:252-267 | a pass puts the questions of a referent once, however often it is cited, and one for each report |
| Passes.SteadyServiceResolves | diagnostics/agent/src/agent/citations.py:165-249 | while the service stands still, a pass decides every citation as direct resolution does |
| Passes.FailuresAreReported | diagnostics/agent/src/agent/citations.py:104-162 | no label is reported exactly when nothing was removed |
| Passes.VerificationIsUnique | diagnostics/agent/src/agent/citations.py:104-162 | the decisions of a pass determine its outcome |
| Compose.Collapse | diagnostics/agent/src/agent/compose.py:63-72 | the loop keeps the first finding of each statement |
| Compose.CollapsedKeepsStatements | diagnostics/agent/src/agent/compose.py:63-72 | collapsing loses no statement and repeats none |
| Compose.GatherCitations | diagnostics/agent/src/agent/compose.py:78-82 | the summary cites exactly what its leads cite, each once |
| Compose.Summarise | diagnostics/agent/src/agent/compose.py:75-96 | the summary's basis is the least certain of its leads', and it states their strengths when that is a hypothesis |
| Compose.SummaryIsAsCertainAsItsLeads | diagnostics/agent/src/agent/compose.py:75-96 | a summary is a hypothesis as soon as one lead is, measured only when all are, and derived otherwise |
| Compose.Compose | diagnostics/agent/src/agent/compose.py:40-60 | what is shipped and printed, with and without a summary |
| Compose.LeadsAreTheCited | diagnostics/agent/src/agent/compose.py:49-50 | the findings with citations lead and the others support them; with none to open, the first finding leads |
| Compose.ArrangementLosesNothing | diagnostics/agent/src/agent/compose.py:48-50 | leads and support are the collapsed findings again |
| Compose.NoCitationIsInvented | diagnostics/agent/src/agent/compose.py:75-96 | every citation shipped is a citation of a finding handed in |
| Compose.ShippedAreValid | diagnostics/agent/src/agent/compose.py:84-96 | composing valid findings never builds one that is refused |
| Compose.EveryStatementIsShipped | diagnostics/agent/src/agent/compose.py:40-60 | nothing handed in goes unsaid; a summary is made exactly when there are enough findings |
| Preparation.AskingBackNeedsTwoReadings | diagnostics/agent/src/agent/classify.py:76-91 | whatever the classification, a question is asked back only between two readings or more |
| Running.Recorder.constructor | diagnostics/agent/src/agent/pipeline.py:137-152 | a recorder starts empty, with its limit |
| Running.Investigate | diagnostics/agent/src/agent/pipeline.py:320-488 | the budgeted loop with its retry and its abort refines the specification `Loop`; at every door it yields one answer, last, or it raises and has yielded steps only |
| Running.Deliver | diagnostics/agent/src/agent/pipeline.py:696-741 | the delivered answer is the composition of what verification left |
| Running.Stages | diagnostics/agent/src/agent/pipeline.py:235-488 | every door out yields the answer described for it exactly once, and stops; the only other way out is an error |
| Running.CountsFixPlaces | diagnostics/agent/src/agent/pipeline.py:207-232 | one answer at the end of the stages and one trace after them leave nothing but steps in front |
| Running.Stream | diagnostics/agent/src/agent/pipeline.py:199-232 | steps, exactly one answer, exactly one trace, in that order, and they are those of a run of the question; a run that raises yields steps only |
| Pipeline.CallsKeepCoherent | diagnostics/agent/src/agent/pipeline.py:394-466 | every call keeps names, failure count and record in step, and stops the turn exactly at the limit |
| Pipeline.LoopEndsWell | diagnostics/agent/src/agent/pipeline.py:329-488 | what holds of the state at every door of the loop |
| Transcript.TurnMakesItsCalls | diagnostics/agent/src/agent/pipeline.py:394-466 | a turn makes the calls its reply asks for, in order, records each with what the tool answered and tells the provider so, and leaves out only those after the one that stopped it |
| Transcript.EveryTurnIsToldEverything | diagnostics/agent/src/agent/pipeline.py:320-335 | on every turn a run reaches, what the provider is given is the question and every recorded call with its result, and at most one request for correction |
| Transcript.WholeRunIsTold | diagnostics/agent/src/agent/pipeline.py:235-335 | nothing said or noted before the loop is taken back |
| Transcript.FinalTurnsAreSettled | diagnostics/agent/src/agent/pipeline.py:336-392 | a final turn is raised over, sent back once with exactly the labels that failed, or delivered as verified |
| Transcript.DeliveredSaysEverything | diagnostics/agent/src/agent/pipeline.py:696-741 | a delivered answer carries every caveat of the loop and of the provider, what was removed, and the disagreement as stated |
| Questions.RunsAreOverTheWindowAsked | diagnostics/agent/src/agent/pipeline.py:519-547 | a run that investigates is over the window its question names, and over the default, with the assumption among its caveats, when the question names none that the calendar reads; its steps, its gaps and its windowed citations are of that window |
| Questions.NoWindowRaisesExactly | diagnostics/agent/src/agent/pipeline.py:519-547 | a run raises before its loop exactly when the calendar reads neither |
| Questions.FirstDoorsExactly | diagnostics/agent/src/agent/pipeline.py:271-299 | a question is asked back exactly when it is not ranked and two readings differ in type, with every reading offered; no tool runs then, nor when it is out of scope |
| Questions.DocumentsAreTheSelected | diagnostics/agent/src/agent/pipeline.py:261-269 | the documents a run consults, traces and names are those routing selected, in order |
| Wording.DecimalReadsBack | diagnostics/agent/src/agent/pipeline.py:662-741 | a number is written in figures that read back as it |
| Wording.LabelsTellApart | diagnostics/agent/src/agent/answer.py:317-329 | the labels of citations by one id name the kind and the id, so no two different ones share a label |
| Wording.LabelsCanBeShared | diagnostics/agent/src/agent/answer.py:317-329 | two scopes of one size are two citations under one label |
| Wording.RemovalIsTold | diagnostics/agent/src/agent/citations.py:30-66 | a removal is told exactly when a label failed, with the number of claims and every failed label |
| Wording.AbortIsTold | diagnostics/agent/src/agent/pipeline.py:662-693 | an aborted run names how many calls failed, the last one and its result |
| Wording.ExhaustionIsTold | diagnostics/agent/src/agent/pipeline.py:468-488 | an exhausted run names its budget and the calls it made |
| Wording.ReadingIsTold | diagnostics/agent/src/agent/pipeline.py:279-291 | a question with more than one reading is told which was taken and every other |
| Wording.AskingBackIsTold | diagnostics/agent/src/agent/pipeline.py:631-659 | what is asked back is the question and every reading |
| Wording.EmptinessIsTold | diagnostics/agent/src/agent/pipeline.py:568-604 | an empty window is named, with the last data there is, if any |
| Wording.RoutingIsTold | diagnostics/agent/src/agent/pipeline.py:246-275 | who answered, a question not understood, every correction and the documents left out are noted, each exactly when it is so |
| Wording.EverythingIsPrinted | diagnostics/agent/src/agent/compose.py:40-60 | every caveat, every supporting statement and the summary, or else every lead, is printed |
| Wording.PlainIsPrinted | diagnostics/agent/src/agent/pipeline.py:293-298 | an answer without findings prints its line and then every caveat |
| Wording.GapsAreTold | diagnostics/agent/src/agent/pipeline.py:308-314 | gaps are noted exactly when there are some, with their number |
| Wording.LabelsMention | diagnostics/agent/src/agent/answer.py:317-329 | the other labels name the station and signal, the dimension and value, the number of serials, or the chart and its call |
| Guarantees.TurnsStayInBudget | diagnostics/agent/src/agent/pipeline.py:329-331 | turns never exceed the budget |
| Guarantees.CorrectedAtMostOnce | diagnostics/agent/src/agent/pipeline.py:359-371 | the citation correction is asked at most once |
| Guarantees.AbortsAtTheFirstFullRunOfFailures | diagnostics/agent/src/agent/pipeline.py:451-466 | a run aborts exactly when its last calls, as many as the limit, all failed, and at the first such call |
| Guarantees.MethodMatchesTheTrace | diagnostics/agent/src/agent/pipeline.py:379-488 | through the loop the answer names the recorded calls, and its turns are the recorded turns exactly when the budget is not negative |
| Guarantees.ToolsMatchTheTraceExactly | diagnostics/agent/src/agent/pipeline.py:568-604 | over every run, the tools an answer names are the recorded calls exactly when the run asked back, declined, or found data in its window |
| Guarantees.RaisesOverWrongStatements | diagnostics/agent/src/agent/pipeline.py:336-392 | a run has an answer exactly when it does not raise, and it raises only over a calendar that refuses its own default, a finding or a contradiction that is stated wrongly |
| Guarantees.NoUnverifiedClaimShips | diagnostics/agent/src/agent/pipeline.py:336-392 | every citation of every finding delivered, the summary's included, was found when this run's verification asked the service for it, over this run's window, and carries that window exactly when its kind takes one |
| Guarantees.ChartsRestOnRecordedAnswers | diagnostics/agent/src/agent/citations.py:242-251 | the calls behind a delivered chart's series and behind its bands were recorded and answered; a repeated id means the later call |
| Guarantees.ChartsHoldExactly | diagnostics/agent/src/agent/citations.py:190-201 | a chart is decided for exactly when those calls answered, so such a chart is never the reason a finding goes |
| Guarantees.ProceduresWereLoaded | diagnostics/agent/src/agent/citations.py:219-222 | a delivered procedure was loaded by routing and existed when the verification asked |
| Claims.EveryKindWasFound | diagnostics/agent/src/agent/citations.py:165-249 | kind by kind: the part, component, stop, lot, signal, alarm, section value, procedure or scope that a delivered finding cites was found when the verification asked for it |
| Claims.StampingKeepsClaims | diagnostics/agent/src/agent/citations.py:69-101 | stamping changes no claim, no citation and no referent |
| Guarantees.EveryAnswerIsAccepted | diagnostics/agent/src/agent/answer.py:362-475 | whatever the provider states, no answer that a run yields is refused by its validators, those of its findings, contradiction and clarification included |
| Claims.OnlyRightStatementsAreDelivered | diagnostics/agent/src/agent/answer.py:382-492 | the loop raises only over a hypothesis without its strength or a contradiction without two different roots and a reason, and delivers none |
| Guarantees.NoWindowFromTheModelReachesTheAnswer | diagnostics/agent/src/agent/citations.py:69-101 | runs whose providers differ only in the windows they write are the same run |
| Guarantees.CorrectionOnTheLastTurnLosesTheAnswer | diagnostics/agent/src/agent/pipeline.py:359-371 | a run whose final answer comes on the last turn delivers it exactly when nothing failed or the retry was spent; otherwise its answer has no findings, though some may have resolved |
| LostAnswer.OneTurnLosesTheVerifiedClaim | diagnostics/agent/src/agent/pipeline.py:359-371 | such a run: one turn, two claims of which one resolves, and an answer without either |

## Left out

- The exact two-sided test behind a p-value: any function into [0, 1] stands for it. Effect sizes are not modelled.
- Floating-point rounding, of p-values, scores and fractions alike.
- SQL, connection pools, HTTP, authentication, logging and timings; each query is a function on a sequence of rows, and durations are absent from traces.
- The truncation of a list of stops to `stop_limit`, and the alarms and buffer levels returned beside a stop.
- The sentences of an `Unexplained`: each is a constructor with the values the sentence quotes.
- What the platform decides about ids is a parameter: the value of each decimal digit, and whether a year before 1000 is padded when it is written. A digit pair in a date is read as the pattern behind `strptime` reads it, which keeps some first digits to ASCII.
- StopIdentity.ListedIdResolves: ids of anchors that the platform does not write in full are left to `StopIds.StopIdReadsBack`, which says that they do not parse.
- Categories.ListedIdKeepsItsDerivation: two derivations that begin with different episodes may still show one category, by different chains; which of them do is not characterised.
- Stops.StopsAreTheLongGaps: a threshold and a floor that are both negative are not covered; a gap of no width between two parts at one instant would then count as a stop.
- Classification, the shift calendar and the coverage query: their results are given, with the sentences that correct unknown facets. The choice of the longest of several stops is part of a tool's outcome.
- Quoted phrases in a caveat carry plain quotes; the escapes of a phrase that itself holds quotes are not modelled.
- The text of tool results, and the field of a failed result that the abort note quotes: a result is one string.
- Errors of the analysis service that escape a run before or inside verification: only those that the agent's own validators and calendar raise are modelled.
- The payload checks of a citation: one constructor per kind carries exactly that kind's payload. Chart types and channels are reduced to the type, the source and the bands.
- The database-level guarantees of sessions, containment queries, the gateway, and the user interface beyond its stream reader. UTF-8 decoding: text is a sequence of characters.
- JSON text: any encoding without newlines and outer blanks stands for it.
