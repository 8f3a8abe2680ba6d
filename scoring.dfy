/** `calculate_ai_score`: a fixed weighted sum of a rating score, a distance
    score, a budget score and a constant taste share. Computed over exact
    reals. */
module Scoring {
  import opened Wrappers
  import opened Records

  function Abs(x: real): real { if x < 0.0 then -x else x }

  /** `rating / 5.0`. */
  function RatingScore(rating: real): real {
    rating / 5.0
  }

  /** `max(0.0, 1.0 - d / 20.0)`: 1 at distance 0, falling linearly to 0 at
      20 km and staying 0 beyond. */
  function DistanceScore(d: real): (s: real)
    ensures 0.0 <= s
    ensures d >= 0.0 ==> s <= 1.0
    ensures d <= 20.0 ==> s == 1.0 - d / 20.0
    ensures d >= 20.0 ==> s == 0.0
  {
    if 1.0 - d / 20.0 > 0.0 then 1.0 - d / 20.0 else 0.0
  }

  /** The middle of the requested budget band, `(budget_min + budget_max) / 2`. */
  function Mid(lo: int, hi: int): real {
    (lo + hi) as real / 2.0
  }

  /** The budget score: with a bounded budget, 1.0 within 200 of the band's
      middle, 0.7 within 500, 0.4 further out; 0.8 for an open budget. */
  function BudgetScore(cost: int, lo: int, hi: int): (b: real)
    ensures hi >= OpenBudget ==> b == 0.8
    ensures hi < OpenBudget ==> (b == 1.0 <==> Abs(cost as real - Mid(lo, hi)) < 200.0)
    ensures hi < OpenBudget && 200.0 <= Abs(cost as real - Mid(lo, hi)) < 500.0 ==> b == 0.7
    ensures hi < OpenBudget ==> (b == 0.4 <==> Abs(cost as real - Mid(lo, hi)) >= 500.0)
    ensures 0.4 <= b <= 1.0
  {
    if hi < OpenBudget then
      var diff := Abs(cost as real - Mid(lo, hi));
      if diff < 200.0 then 1.0 else if diff < 500.0 then 0.7 else 0.4
    else
      0.8
  }

  /** The share every record gets for its taste: the taste stage already
      kept only records of the wanted spice level. */
  const TasteShare: real := 0.15

  /** `calculate_ai_score` of a record for a request. For a rating within
      0..5 and a non-negative distance, the score lies in [0.23, 1.0]. */
  function AiScore(r: Restaurant, req: Request): (score: real)
    ensures 0.0 <= RatingOf(r) <= 5.0 && DistanceOf(r) >= 0.0 ==> 0.23 <= score <= 1.0
  {
    0.35 * RatingScore(RatingOf(r))
    + 0.30 * DistanceScore(DistanceOf(r))
    + 0.20 * BudgetScore(CostOf(r), req.budgetMin, req.budgetMax)
    + TasteShare
  }

  /** Moving the cost further from the middle of the band never raises the
      budget score. */
  lemma BudgetScoreMonotone(c1: int, c2: int, lo: int, hi: int)
    requires Abs(c1 as real - Mid(lo, hi)) <= Abs(c2 as real - Mid(lo, hi))
    ensures BudgetScore(c1, lo, hi) >= BudgetScore(c2, lo, hi)
  {
  }

  /** A better rating never lowers the score, everything else equal. */
  lemma AiScoreMonotoneInRating(r: Restaurant, req: Request, better: real)
    requires RatingOf(r) <= better
    ensures AiScore(r, req) <= AiScore(r.(rating := Some(better)), req)
  {
  }

  /** A greater distance never raises the score, everything else equal. */
  lemma AiScoreAntitoneInDistance(r: Restaurant, req: Request, farther: real)
    requires DistanceOf(r) <= farther
    ensures AiScore(r.(distanceKm := Some(farther)), req) <= AiScore(r, req)
  {
  }

  /** Without GPS the recommendation loop sets the distance to 0.0, so the
      distance score is full and the score only depends on rating and budget. */
  lemma AiScoreWithoutGps(r: Restaurant, req: Request)
    requires r.distanceKm == Some(0.0)
    ensures AiScore(r, req) ==
              0.35 * RatingOf(r) / 5.0 + 0.30 + 0.20 * BudgetScore(CostOf(r), req.budgetMin, req.budgetMax) + 0.15
  {
  }
}
