/** The restaurant record and the recommendation request as the backend
    reads them. A record is a dictionary from the catalog; every key the
    backend reads with a default is an `Option` here, and each accessor
    below supplies the same default. */
module Records {
  import opened Wrappers

  datatype Restaurant = Restaurant(
    name: string,
    locality: Option<string>,
    costForTwo: Option<int>,
    rating: Option<real>,
    spicyLevel: Option<string>,
    latitude: Option<real>,
    longitude: Option<real>,
    // written by the recommendation loop: "distance_km", then "ai_score"
    distanceKm: Option<real>,
    aiScore: Option<real>)

  /** The body of a recommendation request, with the request model's defaults:
      no area, no coordinates (0.0), "spicy", and the open budget 0..99999. */
  datatype Request = Request(
    city: string,
    area: string,
    latitude: real,
    longitude: real,
    tastePreference: string,
    budgetMin: int,
    budgetMax: int)

  /** A `budget_max` at or above this means "no upper budget". */
  const OpenBudget: int := 99999

  /** The cost assumed for a record without "cost_for_two". */
  const DefaultCost: int := 500

  /** `str(r.get("locality", ""))` */
  function LocalityOf(r: Restaurant): string {
    match r.locality
    case Some(l) => l
    case None => ""
  }

  /** `r.get("cost_for_two", 500)` */
  function CostOf(r: Restaurant): int {
    match r.costForTwo
    case Some(c) => c
    case None => DefaultCost
  }

  /** `r.get("rating", 0)` */
  function RatingOf(r: Restaurant): real {
    match r.rating
    case Some(x) => x
    case None => 0.0
  }

  /** `r.get("distance_km", 5.0)` */
  function DistanceOf(r: Restaurant): real {
    match r.distanceKm
    case Some(d) => d
    case None => 5.0
  }
}
