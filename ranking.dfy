/** The recommendation endpoint after filtering: write "distance_km" and
    "ai_score" into every candidate, sort the candidates in place by score,
    highest first, keeping the input order among equal scores, and keep the
    first twenty. */
module Ranking {
  import opened Wrappers
  import opened Records
  import opened Filters
  import opened Scoring

  /** How many recommendations are returned at most. */
  const TopN: nat := 20

  /** The coordinates used for a record whose own are missing or zero. */
  const DefaultLatitude: real := 17.3850
  const DefaultLongitude: real := 78.4867

  /** `request.latitude and request.longitude`: both coordinates non-zero. */
  predicate HasGps(req: Request) {
    req.latitude != 0.0 && req.longitude != 0.0
  }

  /** `r.get(key) or fallback`: a missing or zero coordinate falls back. */
  function CoordOr(c: Option<real>, fallback: real): real {
    match c
    case Some(v) => if v != 0.0 then v else fallback
    case None => fallback
  }

  /** The "distance_km" written for a record: the distance from the user to
      the record when the request has GPS, else 0.0. `distance` stands for
      `calculate_distance`. */
  function DistanceFor(r: Restaurant, req: Request, distance: (real, real, real, real) -> real): real {
    if HasGps(req) then
      distance(req.latitude, req.longitude, CoordOr(r.latitude, DefaultLatitude), CoordOr(r.longitude, DefaultLongitude))
    else 0.0
  }

  function WithDistance(r: Restaurant, req: Request, distance: (real, real, real, real) -> real): Restaurant {
    r.(distanceKm := Some(DistanceFor(r, req, distance)))
  }

  function WithScore(r: Restaurant, req: Request): Restaurant {
    r.(aiScore := Some(AiScore(r, req)))
  }

  /** The candidates after both annotation loops. */
  function Annotated(rs: seq<Restaurant>, req: Request, distance: (real, real, real, real) -> real): (out: seq<Restaurant>)
    ensures |out| == |rs| && AllScored(out)
    ensures !HasGps(req) ==> forall i :: 0 <= i < |out| ==> out[i].distanceKm == Some(0.0)
  {
    seq(|rs|, i requires 0 <= i < |rs| => WithScore(WithDistance(rs[i], req, distance), req))
  }

  // ---------------------------------------------------------------------
  // Sorting by score, highest first, stable
  // ---------------------------------------------------------------------

  /** Every record carries an "ai_score". */
  predicate AllScored(s: seq<Restaurant>) {
    forall i :: 0 <= i < |s| ==> s[i].aiScore.Some?
  }

  /** The sort key, `x["ai_score"]`. Every record is scored before the sort,
      so the 0.0 for a record without a score is never used there. */
  function Key(r: Restaurant): real {
    match r.aiScore
    case Some(v) => v
    case None => 0.0
  }

  /** Scores never increase along `s`. */
  predicate SortedDesc(s: seq<Restaurant>) {
    forall i, j :: 0 <= i < j < |s| ==> Key(s[i]) >= Key(s[j])
  }

  /** Insert `x` into `s` after every element whose score is at least
      `x`'s, scanning from the right. */
  function InsertDesc(s: seq<Restaurant>, x: Restaurant): (out: seq<Restaurant>)
    ensures |out| == |s| + 1
  {
    if s == [] then [x]
    else if Key(s[|s| - 1]) >= Key(x) then s + [x]
    else InsertDesc(s[..|s| - 1], x) + [s[|s| - 1]]
  }

  /** Insertion sort, highest score first; the reference for the in-place sort. */
  function SortDesc(s: seq<Restaurant>): (out: seq<Restaurant>)
    ensures |out| == |s|
  {
    if s == [] then []
    else InsertDesc(SortDesc(s[..|s| - 1]), s[|s| - 1])
  }

  /** Inserting adds exactly `x`. */
  lemma {:induction false} InsertDescPerm(s: seq<Restaurant>, x: Restaurant)
    ensures multiset(InsertDesc(s, x)) == multiset(s) + multiset{x}
  {
    if s != [] {
      var init, last := s[..|s| - 1], s[|s| - 1];
      assert s == init + [last];
      if Key(last) < Key(x) {
        InsertDescPerm(init, x);
      }
    }
  }

  /** The sort is a permutation of its input. */
  lemma {:induction false} SortDescPerm(s: seq<Restaurant>)
    ensures multiset(SortDesc(s)) == multiset(s)
  {
    if s != [] {
      var init, last := s[..|s| - 1], s[|s| - 1];
      assert s == init + [last];
      SortDescPerm(init);
      InsertDescPerm(SortDesc(init), last);
    }
  }

  /** Where `x` lands: after the first `j` elements, when the elements from
      `j` on all score lower than `x` and the one before them does not. */
  lemma {:induction false} InsertDescAt(s: seq<Restaurant>, x: Restaurant, j: nat)
    requires j <= |s|
    requires forall k :: j <= k < |s| ==> Key(s[k]) < Key(x)
    requires j > 0 ==> Key(s[j - 1]) >= Key(x)
    ensures InsertDesc(s, x) == s[..j] + [x] + s[j..]
  {
    if j < |s| {
      var init, last := s[..|s| - 1], s[|s| - 1];
      assert InsertDesc(s, x) == InsertDesc(init, x) + [last];
      InsertDescAt(init, x, j);
      assert init[..j] == s[..j];
      assert init[j..] + [last] == s[j..];
    } else {
      assert s[..j] == s;
    }
  }

  lemma {:induction false} InsertSorted(s: seq<Restaurant>, x: Restaurant)
    requires SortedDesc(s)
    ensures SortedDesc(InsertDesc(s, x))
  {
    if s != [] && Key(s[|s| - 1]) < Key(x) {
      var init, last := s[..|s| - 1], s[|s| - 1];
      var front := InsertDesc(init, x);
      assert SortedDesc(front) by {
        InsertSorted(init, x);
      }
      forall y | y in front
        ensures Key(y) >= Key(last)
      {
        InsertDescPerm(init, x);
        assert y in multiset(front);
      }
      var out := front + [last];
      assert InsertDesc(s, x) == out;
      assert SortedDesc(out) by {
        forall i, j | 0 <= i < j < |out|
          ensures Key(out[i]) >= Key(out[j])
        {
          if j == |front| {
            assert out[i] in front;
          } else {
            assert out[i] == front[i] && out[j] == front[j];
          }
        }
      }
    }
  }

  /** The insertion sort orders by score, highest first. */
  lemma {:induction false} SortDescSorted(s: seq<Restaurant>)
    ensures SortedDesc(SortDesc(s))
  {
    if s != [] {
      var init := s[..|s| - 1];
      SortDescSorted(init);
      InsertSorted(SortDesc(init), s[|s| - 1]);
    }
  }

  /** Selects the records whose score is `k`. */
  function HasScore(k: real): Restaurant -> bool {
    (r: Restaurant) => Key(r) == k
  }

  lemma ScoreClassSingle(y: Restaurant, k: real)
    ensures Filter([y], HasScore(k)) == if Key(y) == k then [y] else []
  {
    assert [y][1..] == [];
  }

  /** Inserting into a list keeps the order among equal scores: `x` lands
      after every element of its own score. */
  lemma {:induction false} InsertStable(s: seq<Restaurant>, x: Restaurant, k: real)
    ensures Filter(InsertDesc(s, x), HasScore(k)) == Filter(s + [x], HasScore(k))
  {
    var f := HasScore(k);
    if s != [] && Key(s[|s| - 1]) < Key(x) {
      var init, last := s[..|s| - 1], s[|s| - 1];
      var before, mine, theirs := Filter(init, f), Filter([x], f), Filter([last], f);
      assert Filter(InsertDesc(s, x), f) == (before + mine) + theirs by {
        InsertStable(init, x, k);
        FilterAppend(InsertDesc(init, x), [last], f);
        FilterAppend(init, [x], f);
      }
      assert Filter(s + [x], f) == (before + theirs) + mine by {
        assert s == init + [last];
        FilterAppend(s, [x], f);
        FilterAppend(init, [last], f);
      }
      assert mine + theirs == theirs + mine by {
        ScoreClassSingle(x, k);
        ScoreClassSingle(last, k);
      }
    }
  }

  /** The insertion sort is stable: the records of any one score come out
      in the order they went in. Together with the permutation property this
      pins the result down completely. */
  lemma {:induction false} SortDescStable(s: seq<Restaurant>, k: real)
    ensures Filter(SortDesc(s), HasScore(k)) == Filter(s, HasScore(k))
  {
    if s != [] {
      var init, last := s[..|s| - 1], s[|s| - 1];
      assert s == init + [last];
      SortDescStable(init, k);
      InsertStable(SortDesc(init), last, k);
      FilterAppend(SortDesc(init), [last], HasScore(k));
      FilterAppend(init, [last], HasScore(k));
    }
  }

  // ---------------------------------------------------------------------
  // The ranked answer
  // ---------------------------------------------------------------------

  /** The first twenty of the sorted records. */
  function Top(s: seq<Restaurant>): seq<Restaurant> {
    SortDesc(s)[..Min(|s|, TopN)]
  }

  /** The first twenty hold min(n, 20) of the n records, all taken from the
      records and none twice, with scores non-increasing along them. */
  lemma TopFacts(s: seq<Restaurant>)
    ensures |Top(s)| == Min(|s|, TopN)
    ensures multiset(Top(s)) <= multiset(s)
    ensures forall r :: r in Top(s) ==> r in s
    ensures SortedDesc(Top(s))
  {
    var sorted, top := SortDesc(s), Top(s);
    assert SortedDesc(top) by {
      SortDescSorted(s);
    }
    assert multiset(top) <= multiset(s) by {
      SortDescPerm(s);
      assert sorted == top + sorted[|top|..];
    }
    forall r | r in top
      ensures r in s
    {
      assert r in multiset(top);
    }
  }

  /** Within the first twenty, the records of any one score are the first
      records of that score, in their input order. */
  lemma TopStable(s: seq<Restaurant>, k: real)
    ensures Filter(Top(s), HasScore(k)) <= Filter(s, HasScore(k))
  {
    var sorted, top := SortDesc(s), Top(s);
    assert sorted == top + sorted[|top|..];
    FilterAppend(top, sorted[|top|..], HasScore(k));
    SortDescStable(s, k);
  }

  /** Candidates, annotated, sorted, cut to the first twenty. */
  function Ranked(all: seq<Restaurant>, req: Request, distance: (real, real, real, real) -> real): seq<Restaurant> {
    Top(Annotated(Candidates(all, req), req, distance))
  }

  /** The answer holds min(n, 20) of the n candidates, never none when the
      city has records, every one of them an annotated candidate with a
      score, scores non-increasing along it, and without GPS every distance
      is 0.0. */
  lemma RankedFacts(all: seq<Restaurant>, req: Request, distance: (real, real, real, real) -> real)
    ensures |Ranked(all, req, distance)| == Min(|Candidates(all, req)|, TopN)
    ensures all != [] ==> Ranked(all, req, distance) != []
    ensures multiset(Ranked(all, req, distance)) <= multiset(Annotated(Candidates(all, req), req, distance))
    ensures AllScored(Ranked(all, req, distance)) && SortedDesc(Ranked(all, req, distance))
    ensures !HasGps(req) ==> forall r :: r in Ranked(all, req, distance) ==> r.distanceKm == Some(0.0)
  {
    var scored := Annotated(Candidates(all, req), req, distance);
    TopFacts(scored);
    var top := Top(scored);
    forall i | 0 <= i < |top|
      ensures top[i].aiScore.Some?
      ensures !HasGps(req) ==> top[i].distanceKm == Some(0.0)
    {
      assert top[i] in scored;
    }
  }

  /** Among the answers, the records of any one score appear in candidate
      order: they are the first of that score's candidates. */
  lemma RankedStable(all: seq<Restaurant>, req: Request, distance: (real, real, real, real) -> real, k: real)
    ensures Filter(Ranked(all, req, distance), HasScore(k)) <=
              Filter(Annotated(Candidates(all, req), req, distance), HasScore(k))
  {
    TopStable(Annotated(Candidates(all, req), req, distance), k);
  }

  // ---------------------------------------------------------------------
  // The loops as the backend runs them
  // ---------------------------------------------------------------------

  /** The distance loop: write "distance_km" into every record. */
  method SetDistances(a: array<Restaurant>, req: Request, distance: (real, real, real, real) -> real)
    modifies a
    ensures forall i :: 0 <= i < a.Length ==> a[i] == WithDistance(old(a[i]), req, distance)
  {
    for i := 0 to a.Length
      invariant forall k :: 0 <= k < i ==> a[k] == WithDistance(old(a[k]), req, distance)
      invariant forall k :: i <= k < a.Length ==> a[k] == old(a[k])
    {
      a[i] := WithDistance(a[i], req, distance);
    }
  }

  /** The scoring loop: write "ai_score" into every record. */
  method SetScores(a: array<Restaurant>, req: Request)
    modifies a
    ensures forall i :: 0 <= i < a.Length ==> a[i] == WithScore(old(a[i]), req)
  {
    for i := 0 to a.Length
      invariant forall k :: 0 <= k < i ==> a[k] == WithScore(old(a[k]), req)
      invariant forall k :: i <= k < a.Length ==> a[k] == old(a[k])
    {
      a[i] := WithScore(a[i], req);
    }
  }

  /** One pass of the insertion sort: move `a[i]` left past every element
      of `a[..i]` with a lower score. */
  method InsertAt(a: array<Restaurant>, i: nat)
    requires i < a.Length
    modifies a
    ensures a[..i + 1] == InsertDesc(old(a[..i]), old(a[i]))
    ensures forall k :: i < k < a.Length ==> a[k] == old(a[k])
  {
    ghost var sorted := a[..i];
    var x := a[i];
    var j := i;
    while j > 0 && Key(a[j - 1]) < Key(x)
      invariant 0 <= j <= i
      invariant forall k :: 0 <= k < j ==> a[k] == sorted[k]
      invariant a[j] == x
      invariant forall k :: j < k <= i ==> a[k] == sorted[k - 1]
      invariant forall k :: i < k < a.Length ==> a[k] == old(a[k])
      invariant forall k :: j <= k < i ==> Key(sorted[k]) < Key(x)
    {
      a[j - 1], a[j] := a[j], a[j - 1];
      j := j - 1;
    }
    InsertDescAt(sorted, x, j);
    assert a[..i + 1] == sorted[..j] + [x] + sorted[j..] by {
      forall k | 0 <= k <= i
        ensures a[..i + 1][k] == (sorted[..j] + [x] + sorted[j..])[k]
      {
      }
    }
  }

  /** `final_list.sort(key=ai_score, reverse=True)`: a stable in-place
      sort, highest score first, by insertion. */
  method SortByScore(a: array<Restaurant>)
    modifies a
    ensures a[..] == SortDesc(old(a[..]))
  {
    ghost var input := a[..];
    var i := 0;
    while i < a.Length
      invariant 0 <= i <= a.Length
      invariant a[..i] == SortDesc(input[..i])
      invariant forall k :: i <= k < a.Length ==> a[k] == input[k]
    {
      assert input[..i + 1][..i] == input[..i];
      assert a[..i + 1] == a[..i] + [input[i]];
      InsertAt(a, i);
      i := i + 1;
    }
    assert input[..a.Length] == input;
  }

  /** The recommendation endpoint from the city's records on: no records
      is the "No restaurants found" error (`None`); otherwise copy the
      candidates into an array, annotate them, sort them and answer with the
      first twenty. */
  method Recommend(all: seq<Restaurant>, req: Request, distance: (real, real, real, real) -> real)
    returns (top: Option<seq<Restaurant>>)
    ensures top.None? <==> all == []
    ensures top.Some? ==> top.value == Ranked(all, req, distance)
    ensures top.Some? ==> 0 < |top.value| == Min(|Candidates(all, req)|, TopN)
    ensures top.Some? ==> AllScored(top.value) && SortedDesc(top.value)
  {
    if all == [] {
      return None;
    }
    var candidates := Candidates(all, req);
    var a := new Restaurant[|candidates|](i requires 0 <= i < |candidates| => candidates[i]);
    SetDistances(a, req, distance);
    SetScores(a, req);
    assert a[..] == Annotated(candidates, req, distance);
    SortByScore(a);
    top := Some(a[..Min(a.Length, TopN)]);
    assert top.value == Top(Annotated(candidates, req, distance));
    RankedFacts(all, req, distance);
  }
}
