/**
 The find/match documents built from request filters (analytics_endpoints.py),
 and the meaning MongoDB gives them on a restaurant document.
 */
module Query {
  import opened Optional
  import opened Text
  import opened Models
  import Counting

  /** The condition stored under one key of a query document. */
  datatype Cond =
    | EqText(text: string)          // {"field": "text"}
    | EqNumber(x: real)             // {"field": 4.0}
    | InTexts(texts: seq<string>)   // {"field": {"$in": [...]}}

  /** The restaurant document fields a query can name. */
  datatype DocField =
    | Country | Province | City | Service | PriceLevelCat | MealsList | CuisinesList | TopTagsList

  /** The field's name in the MongoDB document. */
  function Name(k: DocField): string
  {
    match k
    case Country => "country"
    case Province => "province"
    case City => "city"
    case Service => "service"
    case PriceLevelCat => "price_level_cat"
    case MealsList => "meals_list"
    case CuisinesList => "cuisines_list"
    case TopTagsList => "top_tags_list"
  }

  /** A query document: field to condition; every condition must hold. */
  type QueryDoc = map<DocField, Cond>

  /** A document field as the query engine sees it. */
  datatype FieldValue = TextValue(s: string) | NumberValue(x: real) | TextList(xs: seq<string>)

  /** The value of field `k` of `r`. */
  function FieldOf(r: Restaurant, k: DocField): FieldValue
  {
    match k
    case Country => TextValue(r.country)
    case Province => TextValue(r.province)
    case City => TextValue(r.city)
    case Service => NumberValue(r.service)
    case PriceLevelCat => TextValue(r.priceLevelCat)
    case MealsList => TextList(r.mealsList)
    case CuisinesList => TextList(r.cuisinesList)
    case TopTagsList => TextList(r.topTagsList)
  }

  /**
   MongoDB's query semantics for one condition: an equality on an array field
   holds when some element is equal; `$in` holds when the value, or some
   element of an array value, is in the list.
   */
  predicate Satisfies(v: FieldValue, c: Cond)
  {
    match c
    case EqText(t) =>
      (v.TextValue? && v.s == t) || (v.TextList? && t in v.xs)
    case EqNumber(x) =>
      v.NumberValue? && v.x == x
    case InTexts(ts) =>
      (v.TextValue? && v.s in ts) || (v.TextList? && exists e :: e in v.xs && e in ts)
  }

  predicate Matches(q: QueryDoc, r: Restaurant)
  {
    forall k :: k in q ==> Satisfies(FieldOf(r, k), q[k])
  }

  /** The `$match` / `find` stage: the matching documents, in collection order. */
  function Select(q: QueryDoc, rs: seq<Restaurant>): seq<Restaurant>
  {
    Counting.Keep(rs, r => Matches(q, r))
  }

  // ---------------------------------------------------------------------------
  // get_analytics: the match stage
  // ---------------------------------------------------------------------------

  /** A text filter is applied when it is given, non-empty and not the placeholder "string" in any case. */
  predicate Usable(v: Option<string>)
  {
    v.Some? && v.value != [] && Lower(v.value) != "string"
  }

  /** The service filter is applied when it is given and not zero. */
  predicate ServiceGiven(v: Option<real>)
  {
    v.Some? && v.value != 0.0
  }

  /** The keys `BuildMatch` can write. */
  const MatchKeys: set<DocField> :=
    {Country, City, Province, Service, MealsList, CuisinesList, PriceLevelCat}

  /** `q[key] = c` when there is a condition `c` to store. */
  function PutGiven(q: QueryDoc, key: DocField, c: Option<Cond>): QueryDoc
  {
    if c.Some? then q[key := c.value] else q
  }

  /** The equality condition a usable text filter becomes. */
  function TextFilter(v: Option<string>): (c: Option<Cond>)
    ensures c.Some? <==> Usable(v)
    ensures c.Some? ==> c.value == EqText(v.value)
  {
    if Usable(v) then Some(EqText(v.value)) else None
  }

  /** The one-element `$in` condition a usable list filter becomes. */
  function ListFilter(v: Option<string>): (c: Option<Cond>)
    ensures c.Some? <==> Usable(v)
    ensures c.Some? ==> c.value == InTexts([v.value])
  {
    if Usable(v) then Some(InTexts([v.value])) else None
  }

  /** The first four assignments of `match_stage`: the place and service filters. */
  function PlaceMatch(f: FilterParams): (q: QueryDoc)
    ensures q.Keys <= {Country, City, Province, Service}
    ensures Country in q <==> Usable(f.country)
    ensures City in q <==> Usable(f.city)
    ensures Province in q <==> Usable(f.province)
    ensures Service in q <==> ServiceGiven(f.service)
    ensures Usable(f.country) ==> q[Country] == EqText(f.country.value)
    ensures Usable(f.city) ==> q[City] == EqText(f.city.value)
    ensures Usable(f.province) ==> q[Province] == EqText(f.province.value)
    ensures ServiceGiven(f.service) ==> q[Service] == EqNumber(f.service.value)
  {
    var q := map[];
    var q := PutGiven(q, Country, TextFilter(f.country));
    var q := PutGiven(q, City, TextFilter(f.city));
    var q := PutGiven(q, Province, TextFilter(f.province));
    PutGiven(q, Service, if ServiceGiven(f.service) then Some(EqNumber(f.service.value)) else None)
  }

  /** The `match_stage` dict of `get_analytics`. */
  function BuildMatch(f: FilterParams): (q: QueryDoc)
    ensures q.Keys <= MatchKeys
    ensures Country in q <==> Usable(f.country)
    ensures City in q <==> Usable(f.city)
    ensures Province in q <==> Usable(f.province)
    ensures Service in q <==> ServiceGiven(f.service)
    ensures MealsList in q <==> Usable(f.mealList)
    ensures CuisinesList in q <==> Usable(f.cuisinesList)
    ensures PriceLevelCat in q <==> Usable(f.priceLevelCat)
    ensures Usable(f.country) ==> q[Country] == EqText(f.country.value)
    ensures Usable(f.city) ==> q[City] == EqText(f.city.value)
    ensures Usable(f.province) ==> q[Province] == EqText(f.province.value)
    ensures ServiceGiven(f.service) ==> q[Service] == EqNumber(f.service.value)
    ensures Usable(f.mealList) ==> q[MealsList] == InTexts([f.mealList.value])
    ensures Usable(f.cuisinesList) ==> q[CuisinesList] == InTexts([f.cuisinesList.value])
    ensures Usable(f.priceLevelCat) ==> q[PriceLevelCat] == EqText(f.priceLevelCat.value)
  {
    var q := PlaceMatch(f);
    var q := PutGiven(q, MealsList, ListFilter(f.mealList));
    var q := PutGiven(q, CuisinesList, ListFilter(f.cuisinesList));
    PutGiven(q, PriceLevelCat, TextFilter(f.priceLevelCat))
  }

  /** Which restaurants the analytics filters select, field by field. */
  predicate Selected(f: FilterParams, r: Restaurant)
  {
    && (Usable(f.country) ==> r.country == f.country.value)
    && (Usable(f.city) ==> r.city == f.city.value)
    && (Usable(f.province) ==> r.province == f.province.value)
    && (ServiceGiven(f.service) ==> r.service == f.service.value)
    && (Usable(f.mealList) ==> f.mealList.value in r.mealsList)
    && (Usable(f.cuisinesList) ==> f.cuisinesList.value in r.cuisinesList)
    && (Usable(f.priceLevelCat) ==> r.priceLevelCat == f.priceLevelCat.value)
  }

  /** A list filter's one-element `$in` holds exactly when the value is among the list's elements. */
  lemma InSingleton(xs: seq<string>, v: string)
    ensures Satisfies(TextList(xs), InTexts([v])) <==> v in xs
  {
    if v in xs {
      assert v in [v];
    }
  }

  /** Every restaurant the match stage keeps satisfies the applied filters. */
  lemma MatchedIsSelected(f: FilterParams, r: Restaurant)
    requires Matches(BuildMatch(f), r)
    ensures Selected(f, r)
  {
    var q := BuildMatch(f);
    if Usable(f.mealList) {
      assert Satisfies(FieldOf(r, MealsList), q[MealsList]);
      InSingleton(r.mealsList, f.mealList.value);
    }
    if Usable(f.cuisinesList) {
      assert Satisfies(FieldOf(r, CuisinesList), q[CuisinesList]);
      InSingleton(r.cuisinesList, f.cuisinesList.value);
    }
  }

  /** Every restaurant satisfying the applied filters passes the match stage. */
  lemma SelectedIsMatched(f: FilterParams, r: Restaurant)
    requires Selected(f, r)
    ensures Matches(BuildMatch(f), r)
  {
    var q := BuildMatch(f);
    forall k | k in q
      ensures Satisfies(FieldOf(r, k), q[k])
    {
      match k
      case MealsList => InSingleton(r.mealsList, f.mealList.value);
      case CuisinesList => InSingleton(r.cuisinesList, f.cuisinesList.value);
      case _ =>
    }
  }

  /** The match stage selects exactly the restaurants the filters describe. */
  lemma MatchSelects(f: FilterParams, r: Restaurant)
    ensures Matches(BuildMatch(f), r) <==> Selected(f, r)
  {
    if Matches(BuildMatch(f), r) {
      MatchedIsSelected(f, r);
    }
    if Selected(f, r) {
      SelectedIsMatched(f, r);
    }
  }

  /** The text-valued fields of the analytics filters. */
  datatype TextField =
    | CountryFilter | CityFilter | ProvinceFilter | MealListFilter | CuisinesListFilter | PriceLevelCatFilter

  /** `f` with text field `field` set to `v`. */
  function WithText(f: FilterParams, field: TextField, v: Option<string>): FilterParams
  {
    match field
    case CountryFilter => f.(country := v)
    case CityFilter => f.(city := v)
    case ProvinceFilter => f.(province := v)
    case MealListFilter => f.(mealList := v)
    case CuisinesListFilter => f.(cuisinesList := v)
    case PriceLevelCatFilter => f.(priceLevelCat := v)
  }

  /** Filters that turn into the same conditions build the same match stage. */
  lemma SameConditions(g: FilterParams, h: FilterParams)
    requires TextFilter(g.country) == TextFilter(h.country)
    requires TextFilter(g.city) == TextFilter(h.city)
    requires TextFilter(g.province) == TextFilter(h.province)
    requires g.service == h.service
    requires ListFilter(g.mealList) == ListFilter(h.mealList)
    requires ListFilter(g.cuisinesList) == ListFilter(h.cuisinesList)
    requires TextFilter(g.priceLevelCat) == TextFilter(h.priceLevelCat)
    ensures BuildMatch(g) == BuildMatch(h)
  {
    assert PlaceMatch(g) == PlaceMatch(h);
  }

  /** A placeholder text filter ("", "string", "STRING", ...) is the same as leaving the field out. */
  lemma PlaceholderIgnored(f: FilterParams, field: TextField, s: string)
    requires s == [] || Lower(s) == "string"
    ensures BuildMatch(WithText(f, field, Some(s))) == BuildMatch(WithText(f, field, None))
  {
    var g := WithText(f, field, Some(s));
    var h := WithText(f, field, None);
    assert !Usable(Some(s));
    match field
    case CountryFilter =>
      assert TextFilter(g.country) == TextFilter(h.country);
      SameConditions(g, h);
    case CityFilter =>
      assert TextFilter(g.city) == TextFilter(h.city);
      SameConditions(g, h);
    case ProvinceFilter =>
      assert TextFilter(g.province) == TextFilter(h.province);
      SameConditions(g, h);
    case MealListFilter =>
      assert ListFilter(g.mealList) == ListFilter(h.mealList);
      SameConditions(g, h);
    case CuisinesListFilter =>
      assert ListFilter(g.cuisinesList) == ListFilter(h.cuisinesList);
      SameConditions(g, h);
    case PriceLevelCatFilter =>
      assert TextFilter(g.priceLevelCat) == TextFilter(h.priceLevelCat);
      SameConditions(g, h);
  }

  /** A service filter of zero is the same as leaving it out. */
  lemma ZeroServiceIgnored(f: FilterParams)
    ensures BuildMatch(f.(service := Some(0.0))) == BuildMatch(f.(service := None))
  {
  }

  // ---------------------------------------------------------------------------
  // get_restaurant_locations: the find query
  // ---------------------------------------------------------------------------

  /** Python truthiness of an optional text: given and non-empty. */
  predicate Truthy(v: Option<string>)
  {
    v.Some? && v.value != []
  }

  /** The `query` dict of `get_restaurant_locations`. */
  function BuildLocationQuery(f: FilterLocationParams): (q: QueryDoc)
    ensures q.Keys <= {Country, Province, City}
    ensures Country in q <==> Truthy(f.country)
    ensures Province in q <==> Truthy(f.province)
    ensures City in q <==> Truthy(f.city)
    ensures Truthy(f.country) ==> q[Country] == EqText(f.country.value)
    ensures Truthy(f.province) ==> q[Province] == EqText(f.province.value)
    ensures Truthy(f.city) ==> q[City] == EqText(f.city.value)
  {
    var q := map[];
    var q := PutGiven(q, Country, if Truthy(f.country) then Some(EqText(f.country.value)) else None);
    var q := PutGiven(q, Province, if Truthy(f.province) then Some(EqText(f.province.value)) else None);
    PutGiven(q, City, if Truthy(f.city) then Some(EqText(f.city.value)) else None)
  }

  /** The location query selects the restaurants equal on every non-empty field; "string" is not special here. */
  lemma LocationQuerySelects(f: FilterLocationParams, r: Restaurant)
    ensures Matches(BuildLocationQuery(f), r) <==>
              && (Truthy(f.country) ==> r.country == f.country.value)
              && (Truthy(f.province) ==> r.province == f.province.value)
              && (Truthy(f.city) ==> r.city == f.city.value)
  {
    var q := BuildLocationQuery(f);
    if && (Truthy(f.country) ==> r.country == f.country.value)
       && (Truthy(f.province) ==> r.province == f.province.value)
       && (Truthy(f.city) ==> r.city == f.city.value)
    {
      forall k | k in q
        ensures Satisfies(FieldOf(r, k), q[k])
      {
      }
    }
  }

  /** Largest number of documents `get_restaurant_locations` returns. */
  const LocationLimit: nat := 10000

  /** `collection.find(query).to_list(length=10000)`: the first matching documents, in collection order. */
  function RestaurantLocations(f: FilterLocationParams, rs: seq<Restaurant>): (out: seq<Restaurant>)
    ensures var all := Select(BuildLocationQuery(f), rs);
            && out <= all
            && |out| == if |all| <= LocationLimit then |all| else LocationLimit
    ensures forall i :: 0 <= i < |out| ==> Matches(BuildLocationQuery(f), out[i])
  {
    var all := Select(BuildLocationQuery(f), rs);
    if |all| <= LocationLimit then all else all[..LocationLimit]
  }
}
