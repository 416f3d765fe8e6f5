/**
 The record and request shapes the analytics endpoints work on (models.py),
 reduced to the fields the endpoints read.
 */
module Models {
  import opened Optional

  /** `avg_rating` as stored: a number, a NaN, or no number at all (missing, null or text). */
  datatype Rating = Number(x: real) | NaNRating | NotNumber

  /** A restaurant document of the `restaurants` collection. */
  datatype Restaurant = Restaurant(
    country: string,
    province: string,
    city: string,
    service: real,
    vegetarianFriendly: string,
    veganOptions: string,
    glutenFree: string,
    avgRating: Rating,
    priceLevelCat: string,
    mealsList: seq<string>,
    topTagsList: seq<string>,
    cuisinesList: seq<string>)

  /** The body of `POST /analytics`; every field may be left out. */
  datatype FilterParams = FilterParams(
    country: Option<string>,
    city: Option<string>,
    province: Option<string>,
    service: Option<real>,
    mealList: Option<string>,
    cuisinesList: Option<string>,
    priceLevelCat: Option<string>)

  /** The body of `POST /restaurant-locations`. */
  datatype FilterLocationParams = FilterLocationParams(
    country: Option<string>,
    province: Option<string>,
    city: Option<string>)
}
