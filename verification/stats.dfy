/**
 `get_analytics` (analytics_endpoints.py) as in-process computation: the match
 stage selects restaurants, the `$project` stage turns each into flags, an
 optional rating and an optional price value, the `$group` stage sums them,
 and the handler shapes the summary returned to the caller.
 */
module Stats {
  import opened Optional
  import opened Text
  import opened Models
  import opened Query
  import opened Counting

  // ---------------------------------------------------------------------------
  // $project
  // ---------------------------------------------------------------------------

  /** A flag field counts as true when its lower-case form is "si". */
  predicate IsSi(flag: string)
  {
    Lower(flag) == "si"
  }

  /** `avg_rating` when it is a number greater than zero; no upper bound is applied. */
  function RatingValue(a: Rating): Option<real>
  {
    if a.Number? && a.x > 0.0 then Some(a.x) else None
  }

  /** barato, regular and caro, in any letter case, are price levels 1, 2 and 3. */
  function PriceValue(cat: string): Option<nat>
  {
    var c := Lower(cat);
    if c == "barato" then Some(1)
    else if c == "regular" then Some(2)
    else if c == "caro" then Some(3)
    else None
  }

  /** One document after the `$project` stage. */
  datatype Projected = Projected(
    vegetarian: bool,
    vegan: bool,
    gluten: bool,
    rating: Option<real>,
    priceValue: Option<nat>)

  function Project(r: Restaurant): Projected
  {
    Projected(IsSi(r.vegetarianFriendly), IsSi(r.veganOptions), IsSi(r.glutenFree),
              RatingValue(r.avgRating), PriceValue(r.priceLevelCat))
  }

  // ---------------------------------------------------------------------------
  // $group
  // ---------------------------------------------------------------------------

  /** The single document the `$group` stage produces. */
  datatype Group = Group(
    total: nat,
    vegetarianCount: nat,
    veganCount: nat,
    glutenFreeCount: nat,
    ratingSum: real,
    ratingCount: nat,
    priceSum: nat)

  function Bit(b: bool): nat
  {
    if b then 1 else 0
  }

  /** The accumulators of `$group` after the given documents, in order (`$sum` skips nulls). */
  function Accumulate(rs: seq<Restaurant>): (g: Group)
    ensures g.total == |rs|
    ensures g.vegetarianCount <= g.total && g.veganCount <= g.total && g.glutenFreeCount <= g.total
    ensures g.ratingCount <= g.total
    ensures g.priceSum <= 3 * g.total
    ensures g.ratingCount == 0 <==> g.ratingSum == 0.0
    ensures g.ratingSum >= 0.0
  {
    if rs == [] then Group(0, 0, 0, 0, 0.0, 0, 0)
    else
      var g := Accumulate(rs[..|rs| - 1]);
      var p := Project(rs[|rs| - 1]);
      Group(g.total + 1,
            g.vegetarianCount + Bit(p.vegetarian),
            g.veganCount + Bit(p.vegan),
            g.glutenFreeCount + Bit(p.gluten),
            g.ratingSum + (if p.rating.Some? then p.rating.value else 0.0),
            g.ratingCount + Bit(p.rating.Some?),
            g.priceSum + (if p.priceValue.Some? then p.priceValue.value else 0))
  }

  /** `$group` with `_id: None`: no document at all when nothing matched. */
  function GroupStage(rs: seq<Restaurant>): Option<Group>
  {
    if rs == [] then None else Some(Accumulate(rs))
  }

  // Reference definitions of what the accumulators count.

  predicate VegetarianFriendly(r: Restaurant) { IsSi(r.vegetarianFriendly) }
  predicate VeganOptions(r: Restaurant) { IsSi(r.veganOptions) }
  predicate GlutenFree(r: Restaurant) { IsSi(r.glutenFree) }
  predicate Rated(r: Restaurant) { RatingValue(r.avgRating).Some? }
  predicate Cheap(r: Restaurant) { PriceValue(r.priceLevelCat) == Some(1) }
  predicate MidPriced(r: Restaurant) { PriceValue(r.priceLevelCat) == Some(2) }
  predicate Expensive(r: Restaurant) { PriceValue(r.priceLevelCat) == Some(3) }

  /** The sum of the ratings greater than zero, taken from the front. */
  function PositiveRatingSum(rs: seq<Restaurant>): real
  {
    if rs == [] then 0.0
    else (if Rated(rs[0]) then RatingValue(rs[0].avgRating).value else 0.0) + PositiveRatingSum(rs[1..])
  }

  lemma {:induction false} PositiveRatingSumSnoc(rs: seq<Restaurant>, r: Restaurant)
    ensures PositiveRatingSum(rs + [r]) == PositiveRatingSum(rs) + PositiveRatingSum([r])
  {
    if rs != [] {
      assert (rs + [r])[1..] == rs[1..] + [r];
      PositiveRatingSumSnoc(rs[1..], r);
    }
  }

  /** The three flag counters count the documents whose flag lowers to "si". */
  lemma {:induction false} FlagCounts(rs: seq<Restaurant>)
    ensures var g := Accumulate(rs);
            && g.vegetarianCount == Count(rs, VegetarianFriendly)
            && g.veganCount == Count(rs, VeganOptions)
            && g.glutenFreeCount == Count(rs, GlutenFree)
  {
    if rs != [] {
      var front := rs[..|rs| - 1];
      var last := rs[|rs| - 1];
      assert rs == front + [last];
      FlagCounts(front);
      CountSnoc(front, last, VegetarianFriendly);
      CountSnoc(front, last, VeganOptions);
      CountSnoc(front, last, GlutenFree);
    }
  }

  /** The rating accumulators count and add up the ratings greater than zero. */
  lemma {:induction false} RatingCounts(rs: seq<Restaurant>)
    ensures var g := Accumulate(rs);
            && g.ratingCount == Count(rs, Rated)
            && g.ratingSum == PositiveRatingSum(rs)
  {
    if rs != [] {
      var front := rs[..|rs| - 1];
      var last := rs[|rs| - 1];
      assert rs == front + [last];
      RatingCounts(front);
      CountSnoc(front, last, Rated);
      PositiveRatingSumSnoc(front, last);
    }
  }

  /** The price accumulator weighs each known price level 1, 2 or 3. */
  lemma {:induction false} PriceCounts(rs: seq<Restaurant>)
    ensures Accumulate(rs).priceSum == Count(rs, Cheap) + 2 * Count(rs, MidPriced) + 3 * Count(rs, Expensive)
  {
    if rs != [] {
      var front := rs[..|rs| - 1];
      var last := rs[|rs| - 1];
      assert rs == front + [last];
      PriceCounts(front);
      CountSnoc(front, last, Cheap);
      CountSnoc(front, last, MidPriced);
      CountSnoc(front, last, Expensive);
    }
  }

  /** Each accumulator counts exactly the documents its condition describes. */
  lemma AccumulateCounts(rs: seq<Restaurant>)
    ensures var g := Accumulate(rs);
            && g.vegetarianCount == Count(rs, VegetarianFriendly)
            && g.veganCount == Count(rs, VeganOptions)
            && g.glutenFreeCount == Count(rs, GlutenFree)
            && g.ratingCount == Count(rs, Rated)
            && g.ratingSum == PositiveRatingSum(rs)
            && g.priceSum == Count(rs, Cheap) + 2 * Count(rs, MidPriced) + 3 * Count(rs, Expensive)
  {
    FlagCounts(rs);
    RatingCounts(rs);
    PriceCounts(rs);
  }

  // ---------------------------------------------------------------------------
  // Shaping the response
  // ---------------------------------------------------------------------------

  /** The category returned when nothing matched. */
  const NoData: string := "sin datos"

  /** The response of `get_analytics` (ratings as exact reals, before rounding). */
  datatype Summary = Summary(
    totalRestaurants: nat,
    vegetarianFriendly: nat,
    veganOptions: nat,
    glutenFree: nat,
    avgRating: real,
    avgPriceCategory: string)

  const EmptySummary: Summary := Summary(0, 0, 0, 0, 0.0, NoData)

  /** The average price level `priceSum / total`, named by the thresholds 1.5 and 2.5. */
  function PriceCategory(priceSum: nat, total: nat): (cat: string)
    requires total > 0
    ensures cat == "barato" <==> 2 * priceSum < 3 * total
    ensures cat == "regular" <==> 3 * total <= 2 * priceSum < 5 * total
    ensures cat == "caro" <==> 5 * total <= 2 * priceSum
  {
    var avg := priceSum as real / total as real;
    BelowThreshold(priceSum as real, total as real, 1.5);
    BelowThreshold(priceSum as real, total as real, 2.5);
    if avg < 1.5 then "barato"
    else if avg < 2.5 then "regular"
    else "caro"
  }

  /** For a positive `t`, `p / t < k` exactly when `p < k * t`. */
  lemma BelowThreshold(p: real, t: real, k: real)
    requires t > 0.0
    ensures p / t < k <==> p < k * t
  {
    var a := p / t;
    assert p == a * t;
    if a < k {
      assert (k - a) * t > 0.0;
    } else {
      assert (a - k) * t >= 0.0;
    }
  }

  /** The handler's shaping of the `$group` result. */
  function Shape(result: Option<Group>): (s: Summary)
    ensures result.None? ==> s == EmptySummary
    ensures result.Some? && result.value.total > 0 ==> s.avgPriceCategory != NoData
    ensures result.Some? && result.value.ratingCount == 0 ==> s.avgRating == 0.0
    ensures result.Some? && result.value.ratingCount > 0 ==>
              s.avgRating * result.value.ratingCount as real == result.value.ratingSum
  {
    match result
    case None => EmptySummary
    case Some(d) =>
      var ratingAvg := if d.ratingCount != 0 then d.ratingSum / d.ratingCount as real else 0.0;
      var category := if d.total != 0 then PriceCategory(d.priceSum, d.total) else NoData;
      Summary(d.total, d.vegetarianCount, d.veganCount, d.glutenFreeCount, ratingAvg, category)
  }

  /** The `$project` and `$group` stages and the shaping, over the matched documents `m`. */
  function Summarize(m: seq<Restaurant>): (s: Summary)
    ensures s.totalRestaurants == |m|
    ensures m == [] <==> s == EmptySummary
    ensures s.avgPriceCategory == NoData <==> m == []
    ensures s.vegetarianFriendly <= s.totalRestaurants
    ensures s.veganOptions <= s.totalRestaurants
    ensures s.glutenFree <= s.totalRestaurants
    ensures s.avgRating >= 0.0
  {
    var s := Shape(GroupStage(m));
    assert m != [] ==> s.avgPriceCategory != NoData && s.totalRestaurants > 0;
    assert m != [] ==> s.avgRating >= 0.0 by {
      if m != [] {
        var g := Accumulate(m);
        if g.ratingCount > 0 {
          assert s.avgRating == g.ratingSum / g.ratingCount as real;
        }
      }
    }
    s
  }

  /** `get_analytics(filters)` over the collection `rs`. */
  function GetAnalytics(f: FilterParams, rs: seq<Restaurant>): (s: Summary)
    ensures var m := Select(BuildMatch(f), rs);
            && s.totalRestaurants == |m| == Count(rs, r => Matches(BuildMatch(f), r))
            && (m == [] <==> s == EmptySummary)
            && (s.avgPriceCategory == NoData <==> m == [])
  {
    KeepCount(rs, r => Matches(BuildMatch(f), r));
    Summarize(Select(BuildMatch(f), rs))
  }

  /** The analytics match keeps exactly the restaurants the filters describe. */
  lemma AnalyticsSelection(f: FilterParams, rs: seq<Restaurant>)
    ensures var m := Select(BuildMatch(f), rs);
            && (forall r :: r in m ==> r in rs && Selected(f, r))
            && (forall r :: r in rs && Selected(f, r) ==> r in m)
  {
    forall r | r in rs
      ensures Matches(BuildMatch(f), r) <==> Selected(f, r)
    {
      MatchSelects(f, r);
    }
  }

  /**
   The summary counts the matched restaurants whose flags read "si" and
   averages the ratings greater than zero.
   */
  lemma SummaryCounts(m: seq<Restaurant>)
    ensures var s := Summarize(m);
            var rated := Count(m, Rated);
            && s.vegetarianFriendly == Count(m, VegetarianFriendly)
            && s.veganOptions == Count(m, VeganOptions)
            && s.glutenFree == Count(m, GlutenFree)
            && (rated == 0 ==> s.avgRating == 0.0)
            && (rated > 0 ==> s.avgRating == PositiveRatingSum(m) / rated as real)
  {
    if m == [] {
      EmptyCount(m, VegetarianFriendly);
      EmptyCount(m, VeganOptions);
      EmptyCount(m, GlutenFree);
      EmptyCount(m, Rated);
    } else {
      var g := Accumulate(m);
      var s := Summarize(m);
      assert GroupStage(m) == Some(g);
      assert s == Shape(Some(g));
      AccumulateCounts(m);
    }
  }

  /**
   The summary names the average price level over all matched restaurants, an
   unknown level counting as 0: below 1.5 is "barato", below 2.5 "regular",
   anything else "caro".
   */
  lemma SummaryPriceCategory(m: seq<Restaurant>)
    requires m != []
    ensures var cat := Summarize(m).avgPriceCategory;
            var priceSum := Count(m, Cheap) + 2 * Count(m, MidPriced) + 3 * Count(m, Expensive);
            && (cat == "barato" <==> 2 * priceSum < 3 * |m|)
            && (cat == "regular" <==> 3 * |m| <= 2 * priceSum < 5 * |m|)
            && (cat == "caro" <==> 5 * |m| <= 2 * priceSum)
  {
    var g := Accumulate(m);
    assert GroupStage(m) == Some(g);
    assert Summarize(m) == Shape(Some(g));
    AccumulateCounts(m);
  }
}
