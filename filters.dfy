/** The candidate filter pipeline of the recommendation endpoint: an area
    stage, a budget stage and a taste stage, run in that order. Every stage
    keeps the records that match it, but hands on its input unchanged when
    none does, so a non-empty candidate list never becomes empty. */
module Filters {
  import opened Wrappers
  import opened Text
  import opened Records

  /** `xs` can be obtained from `ys` by deleting elements: the elements of
      `xs` occur in `ys` in the same order. */
  ghost predicate IsSubsequence<T>(xs: seq<T>, ys: seq<T>)
    decreases |ys|
  {
    xs == [] ||
    (ys != [] && ((xs[0] == ys[0] && IsSubsequence(xs[1..], ys[1..])) || IsSubsequence(xs, ys[1..])))
  }

  lemma {:induction false} SubsequenceRefl<T>(xs: seq<T>)
    ensures IsSubsequence(xs, xs)
  {
    if xs != [] {
      SubsequenceRefl(xs[1..]);
    }
  }

  lemma {:induction false} SubsequenceTrans<T>(xs: seq<T>, ys: seq<T>, zs: seq<T>)
    requires IsSubsequence(xs, ys) && IsSubsequence(ys, zs)
    ensures IsSubsequence(xs, zs)
    decreases |zs|
  {
    if xs != [] {
      if ys[0] == zs[0] && IsSubsequence(ys[1..], zs[1..]) {
        if xs[0] == ys[0] && IsSubsequence(xs[1..], ys[1..]) {
          SubsequenceTrans(xs[1..], ys[1..], zs[1..]);
        } else {
          SubsequenceTrans(xs, ys[1..], zs[1..]);
        }
      } else {
        SubsequenceTrans(xs, ys, zs[1..]);
      }
    }
  }

  /** A Python list comprehension `[x for x in xs if keep(x)]`. */
  function Filter<T(!new)>(xs: seq<T>, keep: T -> bool): (kept: seq<T>)
    ensures forall x :: x in kept <==> x in xs && keep(x)
    ensures IsSubsequence(kept, xs)
  {
    if xs == [] then []
    else
      var rest := Filter(xs[1..], keep);
      assert forall x :: x in xs <==> x == xs[0] || x in xs[1..];
      if keep(xs[0]) then [xs[0]] + rest else rest
  }

  lemma {:induction false} FilterAppend<T(!new)>(xs: seq<T>, ys: seq<T>, keep: T -> bool)
    ensures Filter(xs + ys, keep) == Filter(xs, keep) + Filter(ys, keep)
  {
    if xs == [] {
      assert xs + ys == ys;
    } else {
      assert (xs + ys)[0] == xs[0] && (xs + ys)[1..] == xs[1..] + ys;
      FilterAppend(xs[1..], ys, keep);
      if keep(xs[0]) {
        assert [xs[0]] + (Filter(xs[1..], keep) + Filter(ys, keep))
            == ([xs[0]] + Filter(xs[1..], keep)) + Filter(ys, keep);
      }
    }
  }

  /** Filtering keeps every element that passes as often as it occurs in
      the input, and drops every other one. */
  lemma {:induction false} FilterMultiset<T(!new)>(xs: seq<T>, keep: T -> bool)
    ensures forall x :: multiset(Filter(xs, keep))[x] == if keep(x) then multiset(xs)[x] else 0
  {
    if xs != [] {
      FilterMultiset(xs[1..], keep);
      assert xs == [xs[0]] + xs[1..];
    }
  }

  /** Two tests that agree everywhere filter alike. */
  lemma {:induction false} FilterExt<T(!new)>(xs: seq<T>, f: T -> bool, g: T -> bool)
    requires forall x :: f(x) == g(x)
    ensures Filter(xs, f) == Filter(xs, g)
  {
    if xs != [] {
      FilterExt(xs[1..], f, g);
    }
  }

  /** Passes both tests. */
  function Both<T>(f: T -> bool, g: T -> bool): T -> bool {
    x => f(x) && g(x)
  }

  /** Filtering twice is filtering once by both tests. */
  lemma {:induction false} FilterFilter<T(!new)>(xs: seq<T>, f: T -> bool, g: T -> bool)
    ensures Filter(Filter(xs, f), g) == Filter(xs, Both(f, g))
  {
    if xs != [] {
      FilterFilter(xs[1..], f, g);
      if f(xs[0]) {
        assert ([xs[0]] + Filter(xs[1..], f))[0] == xs[0];
        assert ([xs[0]] + Filter(xs[1..], f))[1..] == Filter(xs[1..], f);
      }
    }
  }

  /** The `[...] or xs` idiom of every stage: the matching elements if
      there are any, else all of `xs`. */
  function KeepOrAll<T(!new)>(xs: seq<T>, keep: T -> bool): (out: seq<T>)
    ensures (exists x :: x in xs && keep(x)) ==> out == Filter(xs, keep)
    ensures (forall x :: x in xs ==> !keep(x)) ==> out == xs
    ensures IsSubsequence(out, xs)
    ensures xs != [] ==> out != []
  {
    var kept := Filter(xs, keep);
    SubsequenceRefl(xs);
    assert kept != [] ==> kept[0] in kept;
    if kept != [] then kept else xs
  }

  // ---------------------------------------------------------------------
  // The three stages
  // ---------------------------------------------------------------------

  /** The record's locality equals the requested area, ignoring case. */
  predicate InArea(area: string, r: Restaurant) {
    Lower(LocalityOf(r)) == Lower(area)
  }

  function AreaMatch(area: string): Restaurant -> bool {
    r => InArea(area, r)
  }

  /** Area stage: skipped for an empty area; otherwise the records in that
      area, or all records when none is. */
  function AreaStage(rs: seq<Restaurant>, area: string): (out: seq<Restaurant>)
    ensures area == "" ==> out == rs
    ensures area != "" && (exists r :: r in rs && InArea(area, r)) ==>
              out == Filter(rs, AreaMatch(area)) && forall r :: r in out <==> r in rs && InArea(area, r)
    ensures (forall r :: r in rs ==> !InArea(area, r)) ==> out == rs
    ensures IsSubsequence(out, rs)
    ensures rs != [] ==> out != []
  {
    if area == "" then
      SubsequenceRefl(rs);
      rs
    else
      KeepOrAll(rs, AreaMatch(area))
  }

  /** The record's cost for two (500 when unknown) lies in the closed band. */
  predicate InBudget(lo: int, hi: int, r: Restaurant) {
    lo <= CostOf(r) <= hi
  }

  function BudgetMatch(lo: int, hi: int): Restaurant -> bool {
    r => InBudget(lo, hi, r)
  }

  /** Budget stage: skipped when the upper bound is open (99999 or more);
      otherwise the records within budget, or all records when none is. */
  function BudgetStage(rs: seq<Restaurant>, lo: int, hi: int): (out: seq<Restaurant>)
    ensures hi >= OpenBudget ==> out == rs
    ensures hi < OpenBudget && (exists r :: r in rs && InBudget(lo, hi, r)) ==>
              out == Filter(rs, BudgetMatch(lo, hi)) && forall r :: r in out <==> r in rs && InBudget(lo, hi, r)
    ensures (forall r :: r in rs ==> !InBudget(lo, hi, r)) ==> out == rs
    ensures IsSubsequence(out, rs)
    ensures rs != [] ==> out != []
  {
    if hi >= OpenBudget then
      SubsequenceRefl(rs);
      rs
    else
      KeepOrAll(rs, BudgetMatch(lo, hi))
  }

  /** The preference asks for spicy food: it equals "spicy" ignoring case. */
  predicate WantsSpicy(preference: string) {
    Lower(preference) == "spicy"
  }

  /** A spicy request wants spice level "High"; any other request wants
      "Low" or "Medium". A record without a spice level matches neither. */
  predicate TasteMatches(spicy: bool, r: Restaurant) {
    if spicy then r.spicyLevel == Some("High")
    else r.spicyLevel == Some("Low") || r.spicyLevel == Some("Medium")
  }

  function TasteMatch(spicy: bool): Restaurant -> bool {
    r => TasteMatches(spicy, r)
  }

  /** `filter_by_taste`: the records of the wanted spice levels, or all
      records when none has one. */
  function TasteStage(rs: seq<Restaurant>, preference: string): (out: seq<Restaurant>)
    ensures (exists r :: r in rs && TasteMatches(WantsSpicy(preference), r)) ==>
              out == Filter(rs, TasteMatch(WantsSpicy(preference))) &&
              forall r :: r in out <==> r in rs && TasteMatches(WantsSpicy(preference), r)
    ensures (forall r :: r in rs ==> !TasteMatches(WantsSpicy(preference), r)) ==> out == rs
    ensures IsSubsequence(out, rs)
    ensures rs != [] ==> out != []
  {
    KeepOrAll(rs, TasteMatch(WantsSpicy(preference)))
  }

  // ---------------------------------------------------------------------
  // The pipeline
  // ---------------------------------------------------------------------

  /** Area, then budget, then taste. */
  function Candidates(all: seq<Restaurant>, req: Request): (out: seq<Restaurant>)
    ensures IsSubsequence(out, all)
    ensures all != [] ==> out != []
  {
    var byArea := AreaStage(all, req.area);
    var byBudget := BudgetStage(byArea, req.budgetMin, req.budgetMax);
    var byTaste := TasteStage(byBudget, req.tastePreference);
    SubsequenceTrans(byTaste, byBudget, byArea);
    SubsequenceTrans(byTaste, byArea, all);
    byTaste
  }

  /** A record satisfies every criterion the request sets (an empty area or
      an open budget sets none). */
  predicate FullMatch(req: Request, r: Restaurant) {
    && (req.area == "" || InArea(req.area, r))
    && (req.budgetMax >= OpenBudget || InBudget(req.budgetMin, req.budgetMax, r))
    && TasteMatches(WantsSpicy(req.tastePreference), r)
  }

  function FullMatchOf(req: Request): Restaurant -> bool {
    r => FullMatch(req, r)
  }

  /** The three stages when none of them falls back. */
  function Staged(all: seq<Restaurant>, req: Request): seq<Restaurant> {
    var byArea := if req.area == "" then all else Filter(all, AreaMatch(req.area));
    var byBudget := if req.budgetMax >= OpenBudget then byArea
                    else Filter(byArea, BudgetMatch(req.budgetMin, req.budgetMax));
    Filter(byBudget, TasteMatch(WantsSpicy(req.tastePreference)))
  }

  /** A record meeting every criterion keeps every stage from falling back. */
  lemma NoFallback(all: seq<Restaurant>, req: Request, w: Restaurant)
    requires w in all && FullMatch(req, w)
    ensures Candidates(all, req) == Staged(all, req)
  {
    var byArea := AreaStage(all, req.area);
    var byBudget := BudgetStage(byArea, req.budgetMin, req.budgetMax);
    assert byArea == if req.area == "" then all else Filter(all, AreaMatch(req.area)) by {
      assert req.area != "" ==> InArea(req.area, w);
    }
    assert w in byArea;
    assert w in byBudget;
  }

  /** The stages without fallback filter by all criteria at once. */
  lemma StagedIsFullMatch(all: seq<Restaurant>, req: Request)
    ensures Staged(all, req) == Filter(all, FullMatchOf(req))
  {
    var area, budget := AreaMatch(req.area), BudgetMatch(req.budgetMin, req.budgetMax);
    var taste := TasteMatch(WantsSpicy(req.tastePreference));
    if req.area == "" && req.budgetMax >= OpenBudget {
      FilterExt(all, taste, FullMatchOf(req));
    } else if req.area == "" {
      FilterFilter(all, budget, taste);
      FilterExt(all, Both(budget, taste), FullMatchOf(req));
    } else if req.budgetMax >= OpenBudget {
      FilterFilter(all, area, taste);
      FilterExt(all, Both(area, taste), FullMatchOf(req));
    } else {
      FilterFilter(all, area, budget);
      FilterFilter(all, Both(area, budget), taste);
      FilterExt(all, Both(Both(area, budget), taste), FullMatchOf(req));
    }
  }

  /** When some record satisfies every criterion, no stage falls back, and
      the candidates are exactly the records that satisfy every criterion,
      each as often and in the same order as among the city's records. */
  lemma CandidatesWhenSomeFullMatch(all: seq<Restaurant>, req: Request)
    requires exists r :: r in all && FullMatch(req, r)
    ensures Candidates(all, req) == Filter(all, FullMatchOf(req))
    ensures forall r :: r in Candidates(all, req) <==> r in all && FullMatch(req, r)
  {
    var w :| w in all && FullMatch(req, w);
    NoFallback(all, req, w);
    StagedIsFullMatch(all, req);
  }
}
