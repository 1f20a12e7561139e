/**
 Which documents a question gets, after `diagnostics/agent/src/agent/routing.py`: always-loaded
 ones, the procedures of the question's own type, then the best matches that fit the budget.
 Scores are exact reals.
 */
module Routing {
  import opened Measures
  import opened Sequences
  import opened Ordering

  datatype Facets = Facets(
    questionTypes: set<string>, defectClasses: set<string>, dimensions: set<string>,
    stations: set<string>, alarmCodes: set<string>)
  {
    function Keys(): seq<set<string>> {
      [questionTypes, defectClasses, dimensions, stations, alarmCodes]
    }

    predicate DeclaresOnlyQuestionTypes() {
      questionTypes != {} && defectClasses == {} && dimensions == {} && stations == {} && alarmCodes == {}
    }
  }

  datatype Document = Document(id: string, body: string, alwaysLoad: bool, appliesTo: Facets)
  {
    function Size(): nat { |body| }
  }

  datatype Budget = Budget(documents: int, characters: int)

  datatype Selection = Selection(documents: seq<Document>, reserved: seq<Document>, dropped: seq<Document>)

  // ----- the index -----

  predicate ById(a: Document, b: Document) {
    StringLe(a.id, b.id)
  }

  ghost predicate UniqueIds(documents: seq<Document>) {
    forall a, b :: a in documents && b in documents && a.id == b.id ==> a == b
  }

  ghost predicate IdsDiffer(documents: seq<Document>) {
    Distinct(documents) && UniqueIds(documents)
  }

  /** The tree as an index: in id order. */
  function Index(documents: seq<Document>): seq<Document> {
    Sort(ById, documents)
  }

  lemma ByIdIsTotalPreorder()
    ensures TotalPreorder(ById)
  {
    forall a, b ensures ById(a, b) || ById(b, a) {
      StringLeTotal(a.id, b.id);
    }
    forall a, b, c | ById(a, b) && ById(b, c) ensures ById(a, c) {
      StringLeTransitive(a.id, b.id, c.id);
    }
  }

  lemma IndexIgnoresOrder(a: seq<Document>, b: seq<Document>)
    requires multiset(a) == multiset(b) && IdsDiffer(a)
    ensures Index(a) == Index(b) && IdsDiffer(Index(a))
  {
    forall x, y | x in a && y in a && ById(x, y) && ById(y, x) ensures x == y {
      StringLeAntisymmetric(x.id, y.id);
    }
    ByIdIsTotalPreorder();
    SortPermutation(ById, a, b);
    DistinctCount(a);
    DistinctCount(Index(a));
  }

  // ----- specificity -----

  /** The overlap of one key, or nothing when neither side names it. */
  function Overlap(declared: set<string>, asked: set<string>): real {
    if declared + asked == {} then 0.0 else |declared * asked| as real / |declared + asked| as real
  }

  function SumOverlaps(declared: seq<set<string>>, asked: seq<set<string>>, n: nat): real
    requires n <= |declared| && n <= |asked|
  {
    if n == 0 then 0.0 else SumOverlaps(declared, asked, n - 1) + Overlap(declared[n - 1], asked[n - 1])
  }

  function Score(declared: Facets, asked: Facets): real {
    SumOverlaps(declared.Keys(), asked.Keys(), 5)
  }

  method Specificity(declared: Facets, asked: Facets) returns (total: real)
    ensures total == Score(declared, asked)
  {
    hide Overlap;
    var left, right := declared.Keys(), asked.Keys();
    total := 0.0;
    for key := 0 to |left|
      invariant total == SumOverlaps(left, right, key)
    {
      total := total + Overlap(left[key], right[key]);
    }
  }

  lemma OverlapIsShare(a: set<string>, b: set<string>)
    ensures 0.0 <= Overlap(a, b) <= 1.0
    ensures Overlap(a, b) == Overlap(b, a)
    ensures Overlap(a, b) > 0.0 <==> a * b != {}
    ensures Overlap(a, b) == 1.0 <==> a == b != {}
  {
    assert a + b == b + a && a * b == b * a;
    SubsetCount(a * b, a + b);
    if a + b != {} {
      assert a * b == a + b <==> a == b;
      ShareBounds(|a * b|, |a + b|);
    }
  }

  lemma {:induction false} SumBounds(declared: seq<set<string>>, asked: seq<set<string>>, n: nat)
    requires n <= |declared| && n <= |asked|
    ensures 0.0 <= SumOverlaps(declared, asked, n) <= n as real
    ensures SumOverlaps(declared, asked, n) == SumOverlaps(asked, declared, n)
    ensures SumOverlaps(declared, asked, n) > 0.0 <==> exists k :: 0 <= k < n && declared[k] * asked[k] != {}
    ensures SumOverlaps(declared, asked, n) == n as real <==> forall k :: 0 <= k < n ==> declared[k] == asked[k] != {}
  {
    hide Overlap;
    if n > 0 {
      SumBounds(declared, asked, n - 1);
      OverlapIsShare(declared[n - 1], asked[n - 1]);
    }
  }

  /** A score is symmetric, at most one per key, and positive exactly when some key shares a value. */
  lemma ScoreMeasuresOverlap(declared: Facets, asked: Facets)
    ensures 0.0 <= Score(declared, asked) == Score(asked, declared) <= 5.0
    ensures Score(declared, asked) > 0.0 <==>
            || declared.questionTypes * asked.questionTypes != {} || declared.defectClasses * asked.defectClasses != {}
            || declared.dimensions * asked.dimensions != {} || declared.stations * asked.stations != {}
            || declared.alarmCodes * asked.alarmCodes != {}
    ensures Score(declared, asked) == 5.0 <==> declared == asked && forall k :: 0 <= k < 5 ==> declared.Keys()[k] != {}
  {
    hide SumOverlaps;
    SumBounds(declared.Keys(), asked.Keys(), 5);
    var l, r := declared.Keys(), asked.Keys();
    assert l[0] * r[0] == declared.questionTypes * asked.questionTypes;
    assert l[1] * r[1] == declared.defectClasses * asked.defectClasses;
    assert l[2] * r[2] == declared.dimensions * asked.dimensions;
    assert l[3] * r[3] == declared.stations * asked.stations;
    assert l[4] * r[4] == declared.alarmCodes * asked.alarmCodes;
  }

  /** `r` is the part of the union of two sets that they share, and nothing when both are empty. */
  ghost predicate IsShare(r: real, a: set<string>, b: set<string>) {
    if a == {} && b == {} then r == 0.0 else r * |a + b| as real == |a * b| as real
  }

  lemma OverlapIsTheShare(a: set<string>, b: set<string>)
    ensures IsShare(Overlap(a, b), a, b)
  {
    if a + b == {} {
      assert a == {} && b == {};
    } else {
      assert |a + b| > 0;
      QuotientTimes(|a * b| as real, |a + b| as real);
    }
  }

  lemma QuotientTimes(x: real, y: real)
    requires y != 0.0
    ensures x / y * y == x
  {
  }

  /** A score adds up, key by key, the share of the values named on either side that both name. */
  lemma ScoreIsTheSumOfShares(declared: Facets, asked: Facets) returns (q: real, c: real, d: real, s: real, a: real)
    ensures IsShare(q, declared.questionTypes, asked.questionTypes)
    ensures IsShare(c, declared.defectClasses, asked.defectClasses)
    ensures IsShare(d, declared.dimensions, asked.dimensions)
    ensures IsShare(s, declared.stations, asked.stations)
    ensures IsShare(a, declared.alarmCodes, asked.alarmCodes)
    ensures Score(declared, asked) == q + c + d + s + a
  {
    hide Overlap, IsShare;
    q, c := Overlap(declared.questionTypes, asked.questionTypes), Overlap(declared.defectClasses, asked.defectClasses);
    d, s := Overlap(declared.dimensions, asked.dimensions), Overlap(declared.stations, asked.stations);
    a := Overlap(declared.alarmCodes, asked.alarmCodes);
    OverlapIsTheShare(declared.questionTypes, asked.questionTypes);
    OverlapIsTheShare(declared.defectClasses, asked.defectClasses);
    OverlapIsTheShare(declared.dimensions, asked.dimensions);
    OverlapIsTheShare(declared.stations, asked.stations);
    OverlapIsTheShare(declared.alarmCodes, asked.alarmCodes);
    FiveTerms(declared.Keys(), asked.Keys());
  }

  lemma FiveTerms(x: seq<set<string>>, y: seq<set<string>>)
    requires |x| == |y| == 5
    ensures SumOverlaps(x, y, 5)
         == Overlap(x[0], y[0]) + Overlap(x[1], y[1]) + Overlap(x[2], y[2]) + Overlap(x[3], y[3]) + Overlap(x[4], y[4])
  {
    hide Overlap;
    assert SumOverlaps(x, y, 1) == SumOverlaps(x, y, 0) + Overlap(x[0], y[0]);
    assert SumOverlaps(x, y, 2) == SumOverlaps(x, y, 1) + Overlap(x[1], y[1]);
    assert SumOverlaps(x, y, 3) == SumOverlaps(x, y, 2) + Overlap(x[2], y[2]);
    assert SumOverlaps(x, y, 4) == SumOverlaps(x, y, 3) + Overlap(x[3], y[3]);
  }

  // ----- what a selection is -----

  predicate IsProcedure(d: Document, asked: Facets) {
    && !d.alwaysLoad
    && d.appliesTo.DeclaresOnlyQuestionTypes()
    && d.appliesTo.questionTypes * asked.questionTypes != {}
  }

  function ProcedureFor(asked: Facets): Document -> bool { (d: Document) => IsProcedure(d, asked) }

  function AlwaysLoaded(): Document -> bool { (d: Document) => d.alwaysLoad }

  function Procedures(index: seq<Document>, asked: Facets): seq<Document> {
    Filter(ProcedureFor(asked), index)
  }

  /** Best score first, ties by id. */
  predicate Before(asked: Facets, a: Document, b: Document) {
    var x, y := Score(a.appliesTo, asked), Score(b.appliesTo, asked);
    x > y || (x == y && StringLe(a.id, b.id))
  }

  function Ranking(asked: Facets): (Document, Document) -> bool {
    (a: Document, b: Document) => Before(asked, a, b)
  }

  predicate Matches(d: Document, asked: Facets) {
    !d.alwaysLoad && !IsProcedure(d, asked) && Score(d.appliesTo, asked) > 0.0
  }

  /** Exactly the positively scored documents that are neither always loaded nor reserved. */
  ghost predicate IsRanked(index: seq<Document>, asked: Facets, matched: seq<Document>) {
    && Sorted(Ranking(asked), matched)
    && Distinct(matched)
    && forall d :: d in matched <==> d in index && Matches(d, asked)
  }

  function Sizes(documents: seq<Document>): nat {
    if documents == [] then 0 else Sizes(documents[..|documents| - 1]) + documents[|documents| - 1].Size()
  }

  predicate Fits(budget: Budget, reserved: seq<Document>, kept: seq<Document>) {
    |reserved| + |kept| <= budget.documents && Sizes(reserved) + Sizes(kept) <= budget.characters
  }

  ghost predicate IsSelection(index: seq<Document>, asked: Facets, budget: Budget, kept: seq<Document>, s: Selection) {
    && s.reserved == Procedures(index, asked)
    && s.documents == Filter(AlwaysLoaded(), index) + s.reserved + kept
    && IsRanked(index, asked, kept + s.dropped)
    && (kept != [] ==> Fits(budget, s.reserved, kept))
    && (s.dropped != [] ==> !Fits(budget, s.reserved, kept + [s.dropped[0]]))
  }

  // ----- route -----

  datatype Scored = Scored(score: real, document: Document)

  predicate Better(a: Scored, b: Scored) {
    a.score > b.score || (a.score == b.score && StringLe(a.document.id, b.document.id))
  }

  ghost predicate ScoredFor(asked: Facets, s: seq<Scored>) {
    forall i :: 0 <= i < |s| ==> s[i].score == Score(s[i].document.appliesTo, asked)
  }

  function Documents(s: seq<Scored>): seq<Document> {
    seq(|s|, i requires 0 <= i < |s| => s[i].document)
  }

  function Positive(): Scored -> bool { (s: Scored) => s.score > 0.0 }

  lemma BetterIsTotalPreorder()
    ensures TotalPreorder(Better)
  {
    forall a, b ensures Better(a, b) || Better(b, a) {
      StringLeTotal(a.document.id, b.document.id);
    }
    forall a, b, c | Better(a, b) && Better(b, c) ensures Better(a, c) {
      if a.score == b.score == c.score {
        StringLeTransitive(a.document.id, b.document.id, c.document.id);
      }
    }
  }

  function Unreserved(asked: Facets): Document -> bool {
    (d: Document) => !d.alwaysLoad && !IsProcedure(d, asked)
  }

  lemma RankedHasScores(asked: Facets, scored: seq<Scored>)
    requires ScoredFor(asked, scored)
    ensures ScoredFor(asked, Filter(Positive(), Sort(Better, scored)))
  {
    hide Score;
    var ranked := Filter(Positive(), Sort(Better, scored));
    forall i | 0 <= i < |ranked| ensures ranked[i].score == Score(ranked[i].document.appliesTo, asked) {
      assert ranked[i] in scored;
    }
  }

  lemma RankedIsDistinct(asked: Facets, scored: seq<Scored>)
    requires ScoredFor(asked, scored) && Distinct(Documents(scored))
    ensures Distinct(Documents(Filter(Positive(), Sort(Better, scored))))
  {
    hide Score;
    forall i, j | 0 <= i < j < |scored| ensures scored[i] != scored[j] {
      assert Documents(scored)[i] != Documents(scored)[j];
    }
    DistinctCount(scored);
    DistinctCount(Sort(Better, scored));
    FilterKeepsDistinct(Positive(), Sort(Better, scored));
    var ranked := Filter(Positive(), Sort(Better, scored));
    RankedHasScores(asked, scored);
    forall i, j | 0 <= i < j < |ranked| ensures ranked[i].document != ranked[j].document {
      assert ranked[i] != ranked[j];
    }
  }

  lemma RankedIsSorted(asked: Facets, scored: seq<Scored>)
    requires ScoredFor(asked, scored)
    ensures Sorted(Ranking(asked), Documents(Filter(Positive(), Sort(Better, scored))))
  {
    hide Score;
    BetterIsTotalPreorder();
    SortSorts(Better, scored);
    FilterKeepsOrder(Better, Positive(), Sort(Better, scored));
    RankedHasScores(asked, scored);
    var ranked := Filter(Positive(), Sort(Better, scored));
    forall i, j | 0 <= i < j < |ranked| ensures Before(asked, ranked[i].document, ranked[j].document) {
      assert Better(ranked[i], ranked[j]);
    }
  }

  lemma DocumentsHold(s: seq<Scored>, d: Document)
    ensures d in Documents(s) <==> exists x :: x in s && x.document == d
  {
    if x :| x in s && x.document == d {
      var i :| 0 <= i < |s| && s[i] == x;
      assert Documents(s)[i] == d;
    }
  }

  lemma ScoreOf(asked: Facets, s: seq<Scored>, x: Scored)
    requires ScoredFor(asked, s) && x in s
    ensures x.score == Score(x.document.appliesTo, asked)
  {
  }

  lemma RankedHolds(index: seq<Document>, asked: Facets, scored: seq<Scored>, d: Document)
    requires ScoredFor(asked, scored) && Documents(scored) == Filter(Unreserved(asked), index)
    ensures d in Documents(Filter(Positive(), Sort(Better, scored))) <==> d in index && Matches(d, asked)
  {
    hide Score, Sort, Filter, ScoredFor, Documents, IsProcedure;
    DocumentsHold(scored, d);
    DocumentsHold(Filter(Positive(), Sort(Better, scored)), d);
    forall x | x in scored ensures x.score == Score(x.document.appliesTo, asked) {
      ScoreOf(asked, scored, x);
    }
  }

  lemma ScoredIsRanked(index: seq<Document>, asked: Facets, scored: seq<Scored>)
    requires IdsDiffer(index)
    requires ScoredFor(asked, scored) && Documents(scored) == Filter(Unreserved(asked), index)
    ensures IsRanked(index, asked, Documents(Filter(Positive(), Sort(Better, scored))))
  {
    hide ScoredFor, Documents, Ranking;
    FilterKeepsDistinct(Unreserved(asked), index);
    RankedIsDistinct(asked, scored);
    RankedIsSorted(asked, scored);
    forall d ensures d in Documents(Filter(Positive(), Sort(Better, scored))) <==> d in index && Matches(d, asked) {
      RankedHolds(index, asked, scored, d);
    }
  }

  lemma AddScored(asked: Facets, scored: seq<Scored>, x: Scored)
    requires ScoredFor(asked, scored) && x.score == Score(x.document.appliesTo, asked)
    ensures ScoredFor(asked, scored + [x]) && Documents(scored + [x]) == Documents(scored) + [x.document]
  {
    hide Score;
  }

  lemma ScoreOneMore(asked: Facets, done: seq<Document>, d: Document, scored: seq<Scored>)
    requires ScoredFor(asked, scored) && Documents(scored) == Filter(Unreserved(asked), done)
    ensures !Unreserved(asked)(d) ==> Documents(scored) == Filter(Unreserved(asked), done + [d])
    ensures Unreserved(asked)(d) ==>
              var next := scored + [Scored(Score(d.appliesTo, asked), d)];
              ScoredFor(asked, next) && Documents(next) == Filter(Unreserved(asked), done + [d])
  {
    hide Score, IsProcedure, ScoredFor, Documents, Filter, Unreserved;
    FilterOneMore(Unreserved(asked), done, d);
    AddScored(asked, scored, Scored(Score(d.appliesTo, asked), d));
  }

  lemma ReservedById(index: seq<Document>, asked: Facets, d: Document)
    requires IdsDiffer(index) && d in index
    ensures (exists r :: r in Procedures(index, asked) && r.id == d.id) <==> IsProcedure(d, asked)
  {
  }

  method Route(index: seq<Document>, asked: Facets, budget: Budget) returns (s: Selection)
    requires IdsDiffer(index)
    ensures exists kept :: IsSelection(index, asked, budget, kept, s)
  {
    hide IsRanked, ScoredFor, Documents, IdsDiffer, Score, Filter, Sort, IsProcedure, Fits;
    var reserved := Procedures(index, asked);
    var reservedIds := set d | d in reserved :: d.id;
    var scored: seq<Scored> := [];
    NothingScored(asked);
    for i := 0 to |index|
      invariant ScoredFor(asked, scored) && Documents(scored) == Filter(Unreserved(asked), index[..i])
    {
      var d := index[i];
      assert index[..i + 1] == index[..i] + [d];
      ScoreOneMore(asked, index[..i], d, scored);
      ReservedById(index, asked, d);
      if !d.alwaysLoad && d.id !in reservedIds {
        var score := Specificity(d.appliesTo, asked);
        scored := scored + [Scored(score, d)];
      }
    }
    assert index[..|index|] == index;
    ScoredIsRanked(index, asked, scored);
    var matched := Documents(Filter(Positive(), Sort(Better, scored)));
    var taken := TakeWhatFits(matched, reserved, budget);
    var kept := matched[..taken];
    assert kept + matched[taken..] == matched;
    s := Selection(Filter(AlwaysLoaded(), index) + reserved + kept, reserved, matched[taken..]);
    assert IsSelection(index, asked, budget, kept, s);
  }

  lemma NothingScored(asked: Facets)
    ensures ScoredFor(asked, []) && Documents([]) == Filter(Unreserved(asked), [])
  {
  }

  /** The greedy loop: takes documents in order until one does not fit. */
  method TakeWhatFits(matched: seq<Document>, reserved: seq<Document>, budget: Budget) returns (cut: nat)
    ensures cut <= |matched|
    ensures cut > 0 ==> Fits(budget, reserved, matched[..cut])
    ensures cut < |matched| ==> !Fits(budget, reserved, matched[..cut] + [matched[cut]])
  {
    var room := budget.documents - |reserved|;
    var characters := budget.characters - Sizes(reserved);
    var kept: seq<Document>, size := [], 0;
    cut := |matched|;
    for position := 0 to |matched|
      invariant kept == matched[..position] && size == Sizes(kept)
      invariant position > 0 ==> Fits(budget, reserved, kept)
      invariant cut == |matched|
    {
      var d := matched[position];
      assert (kept + [d])[..|kept|] == kept;
      if |kept| >= room || size + d.Size() > characters {
        cut := position;
        break;
      }
      kept := kept + [d];
      size := size + d.Size();
    }
    assert matched[..|matched|] == matched;
  }

  // ----- what that guarantees -----

  lemma {:induction false} SizesAppend(a: seq<Document>, b: seq<Document>)
    ensures Sizes(a + b) == Sizes(a) + Sizes(b)
  {
    if b == [] {
      assert a + b == a;
    } else {
      assert (a + b)[..|a + b| - 1] == a + b[..|b| - 1];
      SizesAppend(a, b[..|b| - 1]);
    }
  }

  /** Nothing longer fits: kept is the longest prefix of the ranking inside both caps. */
  lemma KeptIsLongest(
    index: seq<Document>, asked: Facets, budget: Budget, kept: seq<Document>, s: Selection, longer: seq<Document>)
    requires IsSelection(index, asked, budget, kept, s)
    requires kept < longer <= kept + s.dropped
    ensures !Fits(budget, s.reserved, longer)
  {
    hide IsRanked;
    var next := kept + [s.dropped[0]];
    assert longer[|kept|] == (kept + s.dropped)[|kept|];
    assert next + longer[|kept| + 1..] == longer;
    SizesAppend(next, longer[|kept| + 1..]);
  }

  /** A cap is broken only when the reserved documents alone break it. */
  lemma CapsHold(index: seq<Document>, asked: Facets, budget: Budget, kept: seq<Document>, s: Selection)
    requires IsSelection(index, asked, budget, kept, s)
    ensures |s.reserved| <= budget.documents ==> |s.reserved + kept| <= budget.documents
    ensures Sizes(s.reserved) <= budget.characters ==> Sizes(s.reserved + kept) <= budget.characters
    ensures |s.reserved| > budget.documents || Sizes(s.reserved) > budget.characters ==> kept == []
  {
    hide IsRanked;
    SizesAppend(s.reserved, kept);
  }

  /** No document appears twice; every always-loaded and every reserved one is present; and what
      else matches is either there or reported as dropped. */
  lemma NothingLostOrRepeated(index: seq<Document>, asked: Facets, budget: Budget, kept: seq<Document>, s: Selection)
    requires IdsDiffer(index) && IsSelection(index, asked, budget, kept, s)
    ensures Distinct(s.documents + s.dropped)
    ensures forall d :: d in s.documents + s.dropped <==>
                        d in index && (d.alwaysLoad || IsProcedure(d, asked) || Score(d.appliesTo, asked) > 0.0)
    ensures forall d :: d in index && (d.alwaysLoad || IsProcedure(d, asked)) ==> d in s.documents
  {
    hide Score, Sorted, Fits;
    var always, ranked := Filter(AlwaysLoaded(), index), kept + s.dropped;
    assert s.documents + s.dropped == always + s.reserved + ranked;
    FilterKeepsDistinct(AlwaysLoaded(), index);
    FilterKeepsDistinct(ProcedureFor(asked), index);
    DistinctAppend(always, s.reserved);
    DistinctAppend(always + s.reserved, ranked);
  }

  lemma RankingIsUnique(index: seq<Document>, asked: Facets, a: seq<Document>, b: seq<Document>)
    requires UniqueIds(index) && IsRanked(index, asked, a) && IsRanked(index, asked, b)
    ensures a == b
  {
    hide Score;
    SameMembersSameMultiset(a, b);
    forall x, y | x in a && y in a && Ranking(asked)(x, y) && Ranking(asked)(y, x) ensures x == y {
      StringLeAntisymmetric(x.id, y.id);
    }
    SortedUnique(Ranking(asked), a, b);
  }

  /** The tree's order on disk cannot change what a question gets. */
  lemma SelectionIgnoresOrder(
    a: seq<Document>, b: seq<Document>, asked: Facets, budget: Budget,
    ka: seq<Document>, kb: seq<Document>, sa: Selection, sb: Selection)
    requires multiset(a) == multiset(b) && IdsDiffer(a)
    requires IsSelection(Index(a), asked, budget, ka, sa) && IsSelection(Index(b), asked, budget, kb, sb)
    ensures sa == sb && ka == kb
  {
    hide IsRanked, Fits, IdsDiffer, Procedures;
    IndexIgnoresOrder(a, b);
    SelectionIsUnique(Index(a), asked, budget, ka, kb, sa, sb);
  }

  lemma SelectionIsUnique(
    index: seq<Document>, asked: Facets, budget: Budget,
    ka: seq<Document>, kb: seq<Document>, sa: Selection, sb: Selection)
    requires IdsDiffer(index)
    requires IsSelection(index, asked, budget, ka, sa) && IsSelection(index, asked, budget, kb, sb)
    ensures sa == sb && ka == kb
  {
    hide IsRanked, Fits, Procedures;
    var ranked := ka + sa.dropped;
    RankingIsUnique(index, asked, ranked, kb + sb.dropped);
    if |ka| < |kb| {
      PrefixesCompare(ka, kb, ranked);
      KeptIsLongest(index, asked, budget, ka, sa, kb);
    } else if |kb| < |ka| {
      PrefixesCompare(kb, ka, ranked);
      KeptIsLongest(index, asked, budget, kb, sb, ka);
    }
    assert ka == ranked[..|ka|] && kb == ranked[..|kb|];
    assert sa.dropped == ranked[|ka|..] && sb.dropped == ranked[|kb|..];
  }

  // ----- the rules, facet by facet -----

  /** The document applies by question type alone, and to this question's. */
  ghost predicate Governs(d: Document, asked: Facets) {
    && d.alwaysLoad == false
    && d.appliesTo == Facets(d.appliesTo.questionTypes, {}, {}, {}, {})
    && exists t :: t in d.appliesTo.questionTypes && t in asked.questionTypes
  }

  /** Some value is named on both sides under one key. */
  ghost predicate Touches(d: Facets, asked: Facets) {
    || (exists v :: v in d.questionTypes && v in asked.questionTypes)
    || (exists v :: v in d.defectClasses && v in asked.defectClasses)
    || (exists v :: v in d.dimensions && v in asked.dimensions)
    || (exists v :: v in d.stations && v in asked.stations)
    || (exists v :: v in d.alarmCodes && v in asked.alarmCodes)
  }

  lemma SharesValue(a: set<string>, b: set<string>)
    ensures a * b != {} <==> exists v :: v in a && v in b
  {
    if v :| v in a && v in b {
      assert v in a * b;
    }
  }

  lemma GovernsIsProcedure(d: Document, asked: Facets)
    ensures IsProcedure(d, asked) <==> Governs(d, asked)
  {
    SharesValue(d.appliesTo.questionTypes, asked.questionTypes);
  }

  lemma TouchesIsPositive(d: Facets, asked: Facets)
    ensures Score(d, asked) > 0.0 <==> Touches(d, asked)
  {
    hide Score;
    ScoreMeasuresOverlap(d, asked);
    SharesValue(d.questionTypes, asked.questionTypes);
    SharesValue(d.defectClasses, asked.defectClasses);
    SharesValue(d.dimensions, asked.dimensions);
    SharesValue(d.stations, asked.stations);
    SharesValue(d.alarmCodes, asked.alarmCodes);
  }

  /** What a question gets: reserved are the documents that apply by question type alone and to its own, and
      ranked, best score first and then by id, the others that name a value it names. */
  lemma SelectionFollowsTheRules(
    index: seq<Document>, asked: Facets, budget: Budget, kept: seq<Document>, s: Selection, d: Document)
    requires IsSelection(index, asked, budget, kept, s)
    ensures d in s.reserved <==> d in index && Governs(d, asked)
    ensures d in kept + s.dropped <==>
              d in index && !d.alwaysLoad && !Governs(d, asked) && Touches(d.appliesTo, asked)
    ensures d in s.documents <==> (d in index && d.alwaysLoad) || d in s.reserved || d in kept
    ensures (var ranked := kept + s.dropped;
             forall i, j :: 0 <= i < j < |ranked| ==>
               var x, y := Score(ranked[i].appliesTo, asked), Score(ranked[j].appliesTo, asked);
               x > y || (x == y && StringLe(ranked[i].id, ranked[j].id)))
  {
    hide Score, Fits, Governs, Touches, IsProcedure;
    GovernsIsProcedure(d, asked);
    TouchesIsPositive(d.appliesTo, asked);
    var ranked := kept + s.dropped;
    forall i, j | 0 <= i < j < |ranked| ensures Before(asked, ranked[i], ranked[j]) {
      assert Ranking(asked)(ranked[i], ranked[j]);
    }
  }

  function Bodies(documents: seq<Document>): seq<string> {
    if documents == [] then [] else Bodies(documents[..|documents| - 1]) + [documents[|documents| - 1].body]
  }

  /** The characters a selection is charged for are those of its bodies, put together. */
  lemma {:induction false} SizesAreCharacters(documents: seq<Document>)
    ensures Sizes(documents) == |Flatten(Bodies(documents))|
  {
    if documents != [] {
      var n := |documents| - 1;
      SizesAreCharacters(documents[..n]);
      assert Bodies(documents)[..|Bodies(documents)| - 1] == Bodies(documents[..n]);
    }
  }
}
