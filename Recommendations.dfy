/** The recommendation engine: catalog items within budget are shortlisted, scored
    against the detected clothing and the user's style, and ranked by score. */
module Recommendations {
  import opened Wrappers
  import Seqs
  import Detection

  datatype CatalogItem =
    CatalogItem(id: int, itemType: string, colors: seq<string>, brands: seq<string>, price: int)

  /** A catalog item with a match score added (the object spread `{...item, matchScore}`). */
  datatype Recommendation =
    Recommendation(id: int, itemType: string, colors: seq<string>, brands: seq<string>, price: int, matchScore: real)

  /** The budget as JavaScript compares it: a number, or a value that converts to NaN
      (undefined, a non-numeric string), against which every `<=` is false. */
  datatype Budget = Amount(value: real) | NotANumber

  /** The built-in clothing database, in its declared order. */
  const Catalog: seq<CatalogItem> := [
    CatalogItem(1, "shirt", ["blue", "white", "black"], ["Nike", "Adidas"], 50),
    CatalogItem(2, "pants", ["black", "blue", "grey"], ["Levi", "Gap"], 80),
    CatalogItem(3, "shoes", ["black", "white", "grey"], ["Nike", "Puma"], 120),
    CatalogItem(4, "jacket", ["black", "brown", "grey"], ["Zara", "H&M"], 150),
    CatalogItem(5, "dress", ["red", "black", "white"], ["Forever21", "H&M"], 60)
  ]

  const MaxRecommendations: nat := 6

  /** The lowest price in the catalog. */
  const CheapestPrice: int := 50

  function Min(a: real, b: real): real
  {
    if a <= b then a else b
  }

  predicate WithinBudget(price: int, budget: Budget)
  {
    budget.Amount? && price as real <= budget.value
  }

  /** Each draw is a value Math.random() can return. */
  predicate ValidDraws(draws: seq<real>)
  {
    forall i :: 0 <= i < |draws| ==> 0.0 <= draws[i] < 1.0
  }

  /** Ids strictly increasing along the sequence (the catalog's declared order). */
  predicate IdsIncreasing(items: seq<CatalogItem>)
  {
    forall i, j :: 0 <= i < j < |items| ==> items[i].id < items[j].id
  }

  /** `userStyle && userStyle.includes(type)`: an absent style list never matches. */
  predicate StyleMatch(userStyle: Option<seq<string>>, itemType: string)
  {
    userStyle.Some? && itemType in userStyle.value
  }

  /** The base score `Math.random() * 0.3 + 0.7` for a draw in [0, 1). */
  function BaseScore(draw: real): (base: real)
    requires 0.0 <= draw < 1.0
    ensures 0.7 <= base < 1.0
  {
    draw * 0.3 + 0.7
  }

  /** The multiplier applied when any clothing was detected. */
  function CompatibilityFactor(detected: seq<Detection.DetectedItem>): real
  {
    if |detected| > 0 then 0.9 else 1.0
  }

  /** calculateMatchScore with Math.random() supplied as `draw`. */
  function MatchScore(item: CatalogItem, detected: seq<Detection.DetectedItem>,
                      userStyle: Option<seq<string>>, draw: real): (score: real)
    requires 0.0 <= draw < 1.0
    ensures 0.63 <= score <= 1.0
    ensures !StyleMatch(userStyle, item.itemType) ==>
      score == BaseScore(draw) * CompatibilityFactor(detected)
    ensures StyleMatch(userStyle, item.itemType) ==>
      score == Min(BaseScore(draw) * CompatibilityFactor(detected) + 0.1, 1.0)
  {
    var base := BaseScore(draw);
    var adjusted := if |detected| > 0 then base * 0.9 else base;
    var styled := if StyleMatch(userStyle, item.itemType) then adjusted + 0.1 else adjusted;
    Min(styled, 1.0)
  }

  /** With nothing detected and no style match the score is the base score itself. */
  lemma ScoreIsBaseWithoutAdjustments(item: CatalogItem, userStyle: Option<seq<string>>, draw: real)
    requires 0.0 <= draw < 1.0
    requires !StyleMatch(userStyle, item.itemType)
    ensures MatchScore(item, [], userStyle, draw) == BaseScore(draw)
  {
  }

  /** An absent or empty style list adds nothing. */
  lemma NoStyleNoBonus(item: CatalogItem, detected: seq<Detection.DetectedItem>, draw: real)
    requires 0.0 <= draw < 1.0
    ensures MatchScore(item, detected, None, draw) == MatchScore(item, detected, Some([]), draw)
    ensures MatchScore(item, detected, None, draw) == BaseScore(draw) * CompatibilityFactor(detected)
  {
  }

  /** A style match never lowers the score, and detected clothing never raises it. */
  lemma ScoreMonotone(item: CatalogItem, detected: seq<Detection.DetectedItem>,
                      userStyle: Option<seq<string>>, draw: real)
    requires 0.0 <= draw < 1.0
    ensures MatchScore(item, detected, None, draw) <= MatchScore(item, detected, userStyle, draw)
    ensures MatchScore(item, detected, userStyle, draw) <= MatchScore(item, [], userStyle, draw)
  {
  }

  /** The catalog items within budget, in catalog order. */
  function InBudget(items: seq<CatalogItem>, budget: Budget): (kept: seq<CatalogItem>)
    ensures |kept| <= |items|
    ensures forall x :: x in kept <==> x in items && WithinBudget(x.price, budget)
  {
    Seqs.Filter(items, (x: CatalogItem) => WithinBudget(x.price, budget))
  }

  /** filter then slice(0, 6): the first six within-budget items in catalog order. */
  function Shortlist(items: seq<CatalogItem>, budget: Budget): (shortlist: seq<CatalogItem>)
    ensures |shortlist| <= MaxRecommendations
    ensures shortlist <= InBudget(items, budget)
    ensures |shortlist| == |InBudget(items, budget)| || |shortlist| == MaxRecommendations
  {
    Seqs.Take(InBudget(items, budget), MaxRecommendations)
  }

  function Attach(item: CatalogItem, matchScore: real): Recommendation
  {
    Recommendation(item.id, item.itemType, item.colors, item.brands, item.price, matchScore)
  }

  /** The catalog item a recommendation was made from. */
  function Item(r: Recommendation): CatalogItem
  {
    CatalogItem(r.id, r.itemType, r.colors, r.brands, r.price)
  }

  function Items(rs: seq<Recommendation>): seq<CatalogItem>
  {
    seq(|rs|, i requires 0 <= i < |rs| => Item(rs[i]))
  }

  /** The map step: the i-th shortlisted item is scored with the i-th draw. */
  function Score(shortlist: seq<CatalogItem>, detected: seq<Detection.DetectedItem>,
                 userStyle: Option<seq<string>>, draws: seq<real>): (scored: seq<Recommendation>)
    requires |draws| >= |shortlist| && ValidDraws(draws)
    ensures Items(scored) == shortlist
    ensures forall i :: 0 <= i < |scored| ==>
      0.63 <= scored[i].matchScore <= 1.0 &&
      scored[i].matchScore == MatchScore(shortlist[i], detected, userStyle, draws[i])
  {
    seq(|shortlist|, i requires 0 <= i < |shortlist| =>
      Attach(shortlist[i], MatchScore(shortlist[i], detected, userStyle, draws[i])))
  }

  /** `sort((a, b) => b.matchScore - a.matchScore)`: Array.prototype.sort is stable, so an
      insertion sort that places each element before the first one it does not score below. */
  function SortByScore(rs: seq<Recommendation>): (sorted: seq<Recommendation>)
    ensures multiset(sorted) == multiset(rs)
    ensures |sorted| == |rs|
  {
    assert rs != [] ==> rs == [rs[0]] + rs[1..];
    if rs == [] then [] else Insert(rs[0], SortByScore(rs[1..]))
  }

  /** One insertion step: `x` goes before the first element it does not score below. */
  function Insert(x: Recommendation, rs: seq<Recommendation>): (r: seq<Recommendation>)
    ensures multiset(r) == multiset(rs) + multiset{x}
    ensures |r| == |rs| + 1
  {
    assert rs != [] ==> rs == [rs[0]] + rs[1..];
    if rs == [] then [x]
    else if rs[0].matchScore <= x.matchScore then [x] + rs
    else [rs[0]] + Insert(x, rs[1..])
  }

  /** Scores never increase from one recommendation to a later one. */
  predicate ScoreNonIncreasing(rs: seq<Recommendation>)
  {
    forall i, j :: 0 <= i < j < |rs| ==> rs[i].matchScore >= rs[j].matchScore
  }

  /** Descending by score, and among equal scores ascending by id. */
  predicate Ranked(rs: seq<Recommendation>)
  {
    forall i, j :: 0 <= i < j < |rs| ==>
      rs[i].matchScore > rs[j].matchScore || (rs[i].matchScore == rs[j].matchScore && rs[i].id < rs[j].id)
  }

  lemma ItemsAppend(a: seq<Recommendation>, b: seq<Recommendation>)
    ensures Items(a + b) == Items(a) + Items(b)
  {
  }

  /** Insertion adds exactly one catalog item, that of the inserted recommendation. */
  lemma {:induction false} InsertCarriesItems(x: Recommendation, rs: seq<Recommendation>)
    ensures multiset(Items(Insert(x, rs))) == multiset(Items(rs)) + multiset{Item(x)}
  {
    if rs == [] {
      assert Items([x]) == [Item(x)];
    } else if rs[0].matchScore <= x.matchScore {
      ItemsAppend([x], rs);
      assert Items([x]) == [Item(x)];
    } else {
      InsertCarriesItems(x, rs[1..]);
      ItemsAppend([rs[0]], rs[1..]);
      ItemsAppend([rs[0]], Insert(x, rs[1..]));
      assert Items([rs[0]]) == [Item(rs[0])];
      assert rs == [rs[0]] + rs[1..];
    }
  }

  lemma ItemsCons(rs: seq<Recommendation>)
    requires rs != []
    ensures multiset(Items(rs)) == multiset{Item(rs[0])} + multiset(Items(rs[1..]))
  {
    assert Items(rs) == [Item(rs[0])] + Items(rs[1..]);
  }

  /** The sort permutes the catalog items the recommendations carry. */
  lemma {:induction false} SortCarriesItems(rs: seq<Recommendation>)
    ensures multiset(Items(SortByScore(rs))) == multiset(Items(rs))
  {
    if rs != [] {
      var tail := SortByScore(rs[1..]);
      assert SortByScore(rs) == Insert(rs[0], tail);
      SortCarriesItems(rs[1..]);
      InsertCarriesItems(rs[0], tail);
      ItemsCons(rs);
      calc {
        multiset(Items(SortByScore(rs)));
        multiset(Items(tail)) + multiset{Item(rs[0])};
        multiset(Items(rs[1..])) + multiset{Item(rs[0])};
        multiset(Items(rs));
      }
    }
  }

  lemma {:induction false} InsertKeepsOrder(x: Recommendation, rs: seq<Recommendation>)
    requires ScoreNonIncreasing(rs)
    ensures ScoreNonIncreasing(Insert(x, rs))
  {
    if rs != [] && rs[0].matchScore > x.matchScore {
      InsertKeepsOrder(x, rs[1..]);
      var tail := Insert(x, rs[1..]);
      forall j | 0 <= j < |tail| ensures rs[0].matchScore >= tail[j].matchScore {
        assert tail[j] in multiset(rs[1..]) + multiset{x};
      }
    }
  }

  /** The sorted recommendations never increase in score. */
  lemma {:induction false} SortOrders(rs: seq<Recommendation>)
    ensures ScoreNonIncreasing(SortByScore(rs))
  {
    if rs != [] {
      SortOrders(rs[1..]);
      InsertKeepsOrder(rs[0], SortByScore(rs[1..]));
    }
  }

  lemma {:induction false} InsertKeepsRank(x: Recommendation, rs: seq<Recommendation>)
    requires Ranked(rs)
    requires forall r :: r in rs ==> x.id < r.id
    ensures Ranked(Insert(x, rs))
  {
    if rs != [] && rs[0].matchScore > x.matchScore {
      InsertKeepsRank(x, rs[1..]);
      var tail := Insert(x, rs[1..]);
      forall j | 0 <= j < |tail|
        ensures rs[0].matchScore > tail[j].matchScore
             || (rs[0].matchScore == tail[j].matchScore && rs[0].id < tail[j].id)
      {
        assert tail[j] in multiset(rs[1..]) + multiset{x};
      }
    }
  }

  /** Stability: when the input is in increasing id order, equal scores end up in
      increasing id order. */
  lemma {:induction false} SortRanks(rs: seq<Recommendation>)
    requires IdsIncreasing(Items(rs))
    ensures Ranked(SortByScore(rs))
  {
    if rs != [] {
      assert Items(rs[1..]) == Items(rs)[1..];
      SortRanks(rs[1..]);
      SortCarriesItems(rs[1..]);
      forall r | r in SortByScore(rs[1..]) ensures rs[0].id < r.id {
        assert r in multiset(rs[1..]);
        var k :| 0 <= k < |rs[1..]| && rs[1..][k] == r;
        assert Items(rs)[0].id < Items(rs)[k + 1].id;
      }
      InsertKeepsRank(rs[0], SortByScore(rs[1..]));
    }
  }

  /** Filtering by budget keeps the catalog's id order. */
  lemma {:induction false} InBudgetKeepsIds(items: seq<CatalogItem>, budget: Budget)
    requires IdsIncreasing(items)
    ensures IdsIncreasing(InBudget(items, budget))
  {
    if items != [] {
      InBudgetKeepsIds(items[1..], budget);
      var rest := InBudget(items[1..], budget);
      assert InBudget(items, budget) == (if WithinBudget(items[0].price, budget) then [items[0]] else []) + rest;
      forall r | r in rest ensures items[0].id < r.id {
        var k :| 0 <= k < |items[1..]| && items[1..][k] == r;
        assert items[k + 1] == r;
      }
    }
  }

  /** What scoring guarantees of each scored recommendation. */
  lemma ScoreFacts(database: seq<CatalogItem>, detected: seq<Detection.DetectedItem>,
                   userStyle: Option<seq<string>>, budget: Budget, draws: seq<real>, r: Recommendation)
    requires |draws| >= |Shortlist(database, budget)| && ValidDraws(draws)
    requires r in multiset(Score(Shortlist(database, budget), detected, userStyle, draws))
    ensures Item(r) in database && WithinBudget(r.price, budget) && 0.63 <= r.matchScore <= 1.0
    ensures exists i :: (0 <= i < |Shortlist(database, budget)| &&
      Shortlist(database, budget)[i] == Item(r) &&
      r.matchScore == MatchScore(Item(r), detected, userStyle, draws[i]))
  {
    var shortlist := Shortlist(database, budget);
    var scored := Score(shortlist, detected, userStyle, draws);
    var i :| 0 <= i < |scored| && scored[i] == r;
    assert shortlist[i] in InBudget(database, budget);
    assert Item(r) == shortlist[i];
  }

  /** A database in id order gives a ranking whose ties are in id order. */
  lemma ShortlistRanks(database: seq<CatalogItem>, detected: seq<Detection.DetectedItem>,
                       userStyle: Option<seq<string>>, budget: Budget, draws: seq<real>)
    requires |draws| >= |Shortlist(database, budget)| && ValidDraws(draws)
    ensures IdsIncreasing(database) ==>
      Ranked(SortByScore(Score(Shortlist(database, budget), detected, userStyle, draws)))
  {
    if IdsIncreasing(database) {
      InBudgetKeepsIds(database, budget);
      var scored := Score(Shortlist(database, budget), detected, userStyle, draws);
      assert Items(scored) == Shortlist(database, budget);
      SortRanks(scored);
    }
  }

  /** The recommendation engine over a given database. Every recommendation is a
      shortlisted item (within budget, among the first six such) with its score added,
      the score is the one the item's own draw gives, and the list is sorted by score. */
  function RecommendFrom(database: seq<CatalogItem>, detected: seq<Detection.DetectedItem>,
                         userStyle: Option<seq<string>>, budget: Budget, draws: seq<real>): (recs: seq<Recommendation>)
    requires |draws| >= |Shortlist(database, budget)| && ValidDraws(draws)
    ensures |recs| == |Shortlist(database, budget)| <= MaxRecommendations
    ensures multiset(Items(recs)) == multiset(Shortlist(database, budget))
    ensures forall r :: r in recs ==>
      && Item(r) in database
      && WithinBudget(r.price, budget)
      && 0.63 <= r.matchScore <= 1.0
    ensures forall r :: r in recs ==>
      (exists i :: 0 <= i < |Shortlist(database, budget)| &&
         Shortlist(database, budget)[i] == Item(r) &&
         r.matchScore == MatchScore(Item(r), detected, userStyle, draws[i]))
    ensures ScoreNonIncreasing(recs)
    ensures IdsIncreasing(database) ==> Ranked(recs)
  {
    var shortlist := Shortlist(database, budget);
    var scored := Score(shortlist, detected, userStyle, draws);
    assert Items(scored) == shortlist;
    SortCarriesItems(scored);
    SortOrders(scored);
    forall r | r in SortByScore(scored)
      ensures Item(r) in database && WithinBudget(r.price, budget) && 0.63 <= r.matchScore <= 1.0
      ensures exists i :: (0 <= i < |shortlist| && shortlist[i] == Item(r) &&
        r.matchScore == MatchScore(Item(r), detected, userStyle, draws[i]))
    {
      assert r in multiset(SortByScore(scored));
      ScoreFacts(database, detected, userStyle, budget, draws, r);
    }
    ShortlistRanks(database, detected, userStyle, budget, draws);
    SortByScore(scored)
  }

  /** The database lists its items in increasing id order. */
  lemma CatalogInIdOrder()
    ensures IdsIncreasing(Catalog)
  {
    assert forall i :: 0 <= i < |Catalog| ==> Catalog[i].id == i + 1;
  }

  /** generateRecommendations, with the Math.random() results it consumes supplied as `draws`. */
  function GenerateRecommendations(detected: seq<Detection.DetectedItem>, userStyle: Option<seq<string>>,
                                   budget: Budget, draws: seq<real>): (recs: seq<Recommendation>)
    requires |draws| >= |Shortlist(Catalog, budget)| && ValidDraws(draws)
    ensures |recs| <= MaxRecommendations
    ensures multiset(Items(recs)) == multiset(Shortlist(Catalog, budget))
    ensures forall r :: r in recs ==> Item(r) in Catalog && WithinBudget(r.price, budget) && 0.63 <= r.matchScore <= 1.0
    ensures forall r :: r in recs ==>
      (exists i :: 0 <= i < |Shortlist(Catalog, budget)| &&
         Shortlist(Catalog, budget)[i] == Item(r) &&
         r.matchScore == MatchScore(Item(r), detected, userStyle, draws[i]))
    ensures Ranked(recs)
  {
    CatalogInIdOrder();
    RecommendFrom(Catalog, detected, userStyle, budget, draws)
  }

  /** The database holds five items, so the cap of six never removes a within-budget item. */
  lemma CapNeverBitesOnCatalog(budget: Budget)
    ensures Shortlist(Catalog, budget) == InBudget(Catalog, budget)
  {
  }

  /** No catalog item costs less than 50. */
  lemma CheapestPriceIsLowest()
    ensures forall x :: x in Catalog ==> CheapestPrice <= x.price
    ensures exists x :: x in Catalog && x.price == CheapestPrice
  {
    assert Catalog[0].price == CheapestPrice;
  }

  /** A budget below the cheapest price (a negative one included), or one that is not a
      number, yields no recommendations. */
  lemma {:induction false} BudgetBelowCheapestIsEmpty(detected: seq<Detection.DetectedItem>,
                                                      userStyle: Option<seq<string>>, budget: Budget, draws: seq<real>)
    requires budget.NotANumber? || budget.value < CheapestPrice as real
    requires ValidDraws(draws)
    ensures InBudget(Catalog, budget) == []
    ensures GenerateRecommendations(detected, userStyle, budget, draws) == []
  {
    CheapestPriceIsLowest();
  }

  /** A budget of at least the highest price keeps the whole catalog. */
  lemma {:induction false} AmpleBudgetKeepsCatalog(budget: Budget)
    requires budget.Amount? && budget.value >= 150.0
    ensures InBudget(Catalog, budget) == Catalog
    ensures Shortlist(Catalog, budget) == Catalog
  {
    var p := (x: CatalogItem) => WithinBudget(x.price, budget);
    assert forall x :: x in Catalog ==> p(x);
    Seqs.FilterKeepsAll(Catalog, p);
  }

  /** Filtering unfolds one catalog item at a time. */
  lemma InBudgetUnfold(items: seq<CatalogItem>, budget: Budget)
    requires items != []
    ensures InBudget(items, budget) ==
      (if WithinBudget(items[0].price, budget) then [items[0]] else []) + InBudget(items[1..], budget)
  {
  }

  /** A budget from 80 up to (not including) 120 keeps the shirt, the pants and the dress,
      in catalog order. */
  lemma {:induction false} BudgetEightyKeeps(budget: Budget)
    requires budget.Amount? && 80.0 <= budget.value < 120.0
    ensures InBudget(Catalog, budget) == [Catalog[0], Catalog[1], Catalog[4]]
    ensures Shortlist(Catalog, budget) == [Catalog[0], Catalog[1], Catalog[4]]
  {
    InBudgetUnfold(Catalog[4..], budget);
    assert Catalog[4..][1..] == [];
    InBudgetUnfold(Catalog[3..], budget);
    assert Catalog[3..][1..] == Catalog[4..];
    InBudgetUnfold(Catalog[2..], budget);
    assert Catalog[2..][1..] == Catalog[3..];
    InBudgetUnfold(Catalog[1..], budget);
    assert Catalog[1..][1..] == Catalog[2..];
    InBudgetUnfold(Catalog, budget);
  }

  /** Stability: a list already in non-increasing score order is left as it is. */
  lemma {:induction false} SortKeepsOrderedInput(rs: seq<Recommendation>)
    requires ScoreNonIncreasing(rs)
    ensures SortByScore(rs) == rs
  {
    if rs != [] {
      SortKeepsOrderedInput(rs[1..]);
      assert rs == [rs[0]] + rs[1..];
    }
  }

  /** generateRecommendations is the sort of the scored shortlist. */
  lemma GenerateUnfold(detected: seq<Detection.DetectedItem>, userStyle: Option<seq<string>>,
                       budget: Budget, draws: seq<real>)
    requires |draws| >= |Shortlist(Catalog, budget)| && ValidDraws(draws)
    ensures GenerateRecommendations(detected, userStyle, budget, draws) ==
      SortByScore(Score(Shortlist(Catalog, budget), detected, userStyle, draws))
  {
  }

  /** The scores of the shirt, the pants and the dress for the style ['shirt'], nothing
      detected and one draw `d` for each, already in ranking order. */
  lemma ShirtStyleScores(draws: seq<real>, d: real)
    requires |draws| >= 3 && ValidDraws(draws)
    requires draws[0] == d && draws[1] == d && draws[2] == d
    ensures Score([Catalog[0], Catalog[1], Catalog[4]], [], Some(["shirt"]), draws) ==
      [ Attach(Catalog[0], Min(BaseScore(d) + 0.1, 1.0)),
        Attach(Catalog[1], BaseScore(d)),
        Attach(Catalog[4], BaseScore(d)) ]
    ensures SortByScore(Score([Catalog[0], Catalog[1], Catalog[4]], [], Some(["shirt"]), draws)) ==
      Score([Catalog[0], Catalog[1], Catalog[4]], [], Some(["shirt"]), draws)
  {
    var scored := Score([Catalog[0], Catalog[1], Catalog[4]], [], Some(["shirt"]), draws);
    assert ScoreNonIncreasing(scored);
    SortKeepsOrderedInput(scored);
  }

  /** With a budget from 80 up to 120, the user's style ['shirt'], nothing detected and the
      same draw `d` for the three shortlisted items, the shirt (price 50, with the style
      bonus) is ranked first, then the pants (80) and the dress (60) with the base score,
      in id order; the shoes and the jacket are over budget. */
  lemma {:induction false} BudgetEightyShirtStyleExample(budget: Budget, draws: seq<real>, d: real)
    requires budget.Amount? && 80.0 <= budget.value < 120.0
    requires |draws| >= 3 && ValidDraws(draws)
    requires draws[0] == d && draws[1] == d && draws[2] == d
    ensures GenerateRecommendations([], Some(["shirt"]), budget, draws) ==
      [ Attach(Catalog[0], Min(BaseScore(d) + 0.1, 1.0)),
        Attach(Catalog[1], BaseScore(d)),
        Attach(Catalog[4], BaseScore(d)) ]
  {
    BudgetEightyKeeps(budget);
    ShirtStyleScores(draws, d);
    GenerateUnfold([], Some(["shirt"]), budget, draws);
  }

  /** With nothing detected, no style list and a budget that covers every price, all five
      catalog items are recommended, each scored with its own base score only. */
  lemma AmpleBudgetNoStyleExample(budget: Budget, draws: seq<real>)
    requires budget.Amount? && budget.value >= 150.0
    requires |draws| >= |Catalog| && ValidDraws(draws)
    ensures Shortlist(Catalog, budget) == Catalog
    ensures var recs := GenerateRecommendations([], None, budget, draws);
      && multiset(Items(recs)) == multiset(Catalog)
      && forall r :: r in recs ==>
        (exists i :: 0 <= i < |Catalog| && Catalog[i] == Item(r) && r.matchScore == BaseScore(draws[i]))
  {
    AmpleBudgetKeepsCatalog(budget);
    var recs := GenerateRecommendations([], None, budget, draws);
    forall r | r in recs
      ensures exists i :: 0 <= i < |Catalog| && Catalog[i] == Item(r) && r.matchScore == BaseScore(draws[i])
    {
      var i :| 0 <= i < |Catalog| && Catalog[i] == Item(r) &&
        r.matchScore == MatchScore(Item(r), [], None, draws[i]);
      ScoreIsBaseWithoutAdjustments(Item(r), None, draws[i]);
    }
  }
}
