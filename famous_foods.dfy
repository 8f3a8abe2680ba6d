/** Famous-food selection for a city: from the aggregated cuisine rows
    (one per cuisine, most popular first) pick up to seven cuisines, the
    "must-show" ones first, then the most popular of the rest. */
module FamousFoods {
  import opened Text
  import opened Wrappers

  /** One row of the per-city aggregation: the cuisine name (`_id`) and its
      popularity score (number of restaurants times their average rating). */
  datatype CuisineRow = CuisineRow(id: string, popularityScore: real)

  /** One entry of the answer: the cuisine under both of its keys and its score. */
  datatype FamousFood = FamousFood(name: string, cuisineType: string, popularityScore: real)

  /** The cuisines shown whenever the city has them, in the order they are tried. */
  const MustShow: seq<string> := ["Biryani", "South Indian", "Haleem", "Andhra", "Cafe"]

  /** The most cuisines the answer holds. */
  const MaxFamous: nat := 7

  /** The cuisine names of a list of rows. */
  function Ids(rows: seq<CuisineRow>): set<string> {
    set r | r in rows :: r.id
  }

  /** No cuisine name occurs twice; the aggregation groups by name, so its
      rows always have this property. */
  predicate DistinctIds(rows: seq<CuisineRow>) {
    forall i, j :: 0 <= i < j < |rows| ==> rows[i].id != rows[j].id
  }

  /** `cuisine_map[id]` when `id in cuisine_map`, and `None` otherwise. */
  function Lookup(rows: seq<CuisineRow>, id: string): (found: Option<CuisineRow>)
    ensures found.Some? ==> found.value in rows && found.value.id == id
    ensures found.None? ==> id !in Ids(rows)
  {
    if rows == [] then None
    else if rows[0].id == id then Some(rows[0])
    else Lookup(rows[1..], id)
  }

  /** The cuisine name contains the word, ignoring case. */
  predicate MatchesWord(row: CuisineRow, word: string) {
    Contains(Lower(row.id), Lower(word))
  }

  /** The first row, in popularity order, that is not yet chosen and whose
      name contains `word` case-insensitively. */
  function FirstMatch(rows: seq<CuisineRow>, word: string, seen: set<string>): (found: Option<CuisineRow>)
    ensures found.Some? ==> found.value.id !in seen && MatchesWord(found.value, word)
    ensures found.Some? ==> exists i :: 0 <= i < |rows| && rows[i] == found.value &&
                              forall j :: 0 <= j < i ==> rows[j].id in seen || !MatchesWord(rows[j], word)
    ensures found.None? ==> forall r :: r in rows ==> r.id in seen || !MatchesWord(r, word)
  {
    if rows == [] then None
    else if MatchesWord(rows[0], word) && rows[0].id !in seen then Some(rows[0])
    else
      FirstMatch(rows[1..], word, seen)
  }

  /** What one must-show word contributes: the row named exactly `word` if
      there is one and it is not yet chosen, otherwise the first unchosen
      row whose name contains the word, otherwise nothing. */
  function Pick(rows: seq<CuisineRow>, word: string, seen: set<string>): Option<CuisineRow> {
    var exact := Lookup(rows, word);
    if exact.Some? && word !in seen then exact else FirstMatch(rows, word, seen)
  }

  /** The rows chosen after the first `k` must-show words were tried. */
  function MustPhase(rows: seq<CuisineRow>, k: nat): (chosen: seq<CuisineRow>)
    requires k <= |MustShow|
  {
    if k == 0 then []
    else
      var before := MustPhase(rows, k - 1);
      match Pick(rows, MustShow[k - 1], Ids(before))
      case Some(r) => before + [r]
      case None => before
  }

  /** The rows, in their order, whose names are not in `seen`. */
  function Unchosen(rows: seq<CuisineRow>, seen: set<string>): seq<CuisineRow> {
    if rows == [] then []
    else
      var last := rows[|rows| - 1];
      Unchosen(rows[..|rows| - 1], seen) + (if last.id in seen then [] else [last])
  }

  /** The first `n` elements, or all of them when there are fewer. */
  function Take(rows: seq<CuisineRow>, n: nat): seq<CuisineRow> {
    rows[..Min(|rows|, n)]
  }

  /** The selection as a whole: the must-show rows, then as many of the
      remaining rows, most popular first, as fit in seven. */
  function Famous(rows: seq<CuisineRow>): seq<CuisineRow> {
    var must := MustPhase(rows, |MustShow|);
    must + Take(Unchosen(rows, Ids(must)), MaxFamous - Min(|must|, MaxFamous))
  }

  /** The answer's entries: each cuisine's name doubles as its type. */
  function Present(chosen: seq<CuisineRow>): (foods: seq<FamousFood>)
    ensures |foods| == |chosen|
    ensures forall i :: 0 <= i < |foods| ==>
              foods[i].name == chosen[i].id && foods[i].cuisineType == chosen[i].id &&
              foods[i].popularityScore == chosen[i].popularityScore
  {
    seq(|chosen|, i requires 0 <= i < |chosen| => FamousFood(chosen[i].id, chosen[i].id, chosen[i].popularityScore))
  }

  // ---------------------------------------------------------------------
  // Properties of the selection
  // ---------------------------------------------------------------------

  /** A must-show word contributes a row exactly when some unchosen row's
      name contains it; an exact name match wins; whatever is contributed
      is an unchosen row of the input that matches the word. */
  lemma PickSpec(rows: seq<CuisineRow>, word: string, seen: set<string>)
    ensures Pick(rows, word, seen).None? <==>
              forall r :: r in rows ==> r.id in seen || !MatchesWord(r, word)
    ensures word in Ids(rows) && word !in seen ==>
              Pick(rows, word, seen).Some? && Pick(rows, word, seen).value.id == word
    ensures Pick(rows, word, seen).Some? ==>
              var r := Pick(rows, word, seen).value;
              r in rows && r.id !in seen && MatchesWord(r, word)
  {
    var exact := Lookup(rows, word);
    if exact.Some? {
      assert Lower(word) <= Lower(exact.value.id);
    }
    var found := FirstMatch(rows, word, seen);
    if found.Some? {
      var i :| 0 <= i < |rows| && rows[i] == found.value &&
               forall j :: 0 <= j < i ==> rows[j].id in seen || !MatchesWord(rows[j], word);
    }
  }

  lemma IdsAppend(a: seq<CuisineRow>, b: seq<CuisineRow>)
    ensures Ids(a + b) == Ids(a) + Ids(b)
  {
    assert forall r :: r in a + b <==> r in a || r in b;
  }

  /** The must-show phase adds at most one row per word, only rows of the
      input, and never a cuisine twice. */
  lemma {:induction false} MustPhaseFacts(rows: seq<CuisineRow>, k: nat)
    requires k <= |MustShow|
    ensures |MustPhase(rows, k)| <= k
    ensures forall r :: r in MustPhase(rows, k) ==> r in rows
    ensures DistinctIds(MustPhase(rows, k))
  {
    if k > 0 {
      MustPhaseFacts(rows, k - 1);
      var before := MustPhase(rows, k - 1);
      PickSpec(rows, MustShow[k - 1], Ids(before));
    }
  }

  /** One step of the must-show phase, with the names it adds. */
  lemma MustPhaseStep(rows: seq<CuisineRow>, m: nat)
    requires m < |MustShow|
    ensures var before := MustPhase(rows, m);
            var pick := Pick(rows, MustShow[m], Ids(before));
            && (pick.None? ==> MustPhase(rows, m + 1) == before)
            && (pick.Some? ==>
                  MustPhase(rows, m + 1) == before + [pick.value] &&
                  Ids(MustPhase(rows, m + 1)) == Ids(before) + {pick.value.id})
  {
    var before := MustPhase(rows, m);
    var pick := Pick(rows, MustShow[m], Ids(before));
    if pick.Some? {
      IdsAppend(before, [pick.value]);
      assert Ids([pick.value]) == {pick.value.id};
    }
  }

  /** The unchosen rows are rows of the input whose names are not in `seen`. */
  lemma {:induction false} UnchosenFacts(rows: seq<CuisineRow>, seen: set<string>)
    ensures forall r :: r in Unchosen(rows, seen) ==> r in rows && r.id !in seen
    ensures Ids(Unchosen(rows, seen)) <= Ids(rows)
  {
    if rows != [] {
      var init := rows[..|rows| - 1];
      UnchosenFacts(init, seen);
      assert rows == init + [rows[|rows| - 1]];
    }
  }

  /** Splitting the last row off a list without repeated names. */
  lemma DropLast(rows: seq<CuisineRow>)
    requires rows != [] && DistinctIds(rows)
    ensures rows == rows[..|rows| - 1] + [rows[|rows| - 1]]
    ensures DistinctIds(rows[..|rows| - 1])
    ensures rows[|rows| - 1].id !in Ids(rows[..|rows| - 1])
    ensures Ids(rows) == Ids(rows[..|rows| - 1]) + {rows[|rows| - 1].id}
  {
    var init := rows[..|rows| - 1];
    var last := rows[|rows| - 1];
    assert rows == init + [last];
    forall r | r in init
      ensures r.id != last.id
    {
      var i :| 0 <= i < |init| && init[i] == r;
      assert rows[i] == r;
    }
    IdsAppend(init, [last]);
    assert Ids([last]) == {last.id};
  }

  /** From a list without repeated names, dropping the names in `seen`
      leaves a list without repeated names. */
  lemma {:induction false} UnchosenDistinct(rows: seq<CuisineRow>, seen: set<string>)
    requires DistinctIds(rows)
    ensures DistinctIds(Unchosen(rows, seen))
  {
    if rows != [] {
      var init := rows[..|rows| - 1];
      var last := rows[|rows| - 1];
      DropLast(rows);
      UnchosenDistinct(init, seen);
      UnchosenFacts(init, seen);
      var before := Unchosen(init, seen);
      if last.id !in seen {
        var after := before + [last];
        assert Unchosen(rows, seen) == after;
        forall i, j | 0 <= i < j < |after|
          ensures after[i].id != after[j].id
        {
          if j == |before| {
            assert after[i] in before;
          } else {
            assert after[i] == before[i] && after[j] == before[j];
          }
        }
      } else {
        assert Unchosen(rows, seen) == before + [];
      }
    }
  }

  /** Adding a fresh name to a set adds one to its overlap with `seen`
      exactly when the name is in `seen`. */
  lemma OverlapStep(names: set<string>, seen: set<string>, x: string)
    requires x !in names
    ensures x in seen ==> |(names + {x}) * seen| == |names * seen| + 1
    ensures x !in seen ==> (names + {x}) * seen == names * seen
  {
    if x in seen {
      assert (names + {x}) * seen == names * seen + {x};
    }
  }

  /** From a list without repeated names, dropping the names in `seen`
      leaves one row for each name of the list not in `seen`. */
  lemma {:induction false} UnchosenCount(rows: seq<CuisineRow>, seen: set<string>)
    requires DistinctIds(rows)
    ensures |Unchosen(rows, seen)| + |Ids(rows) * seen| == |rows|
  {
    if rows != [] {
      var init, last := rows[..|rows| - 1], rows[|rows| - 1];
      DropLast(rows);
      UnchosenCount(init, seen);
      OverlapStep(Ids(init), seen, last.id);
      assert |Unchosen(rows, seen)| == |Unchosen(init, seen)| + (if last.id in seen then 0 else 1);
    }
  }

  /** A list without repeated names has as many names as rows. */
  lemma {:induction false} DistinctCount(rows: seq<CuisineRow>)
    requires DistinctIds(rows)
    ensures |Ids(rows)| == |rows|
  {
    if rows != [] {
      DropLast(rows);
      DistinctCount(rows[..|rows| - 1]);
    }
  }

  /** Two lists without repeated names, whose names do not overlap, make a
      list without repeated names. */
  lemma DistinctAppend(a: seq<CuisineRow>, b: seq<CuisineRow>)
    requires DistinctIds(a) && DistinctIds(b)
    requires forall r :: r in b ==> r.id !in Ids(a)
    ensures DistinctIds(a + b)
  {
    forall i, j | 0 <= i < j < |a + b|
      ensures (a + b)[i].id != (a + b)[j].id
    {
      if i < |a| <= j {
        assert b[j - |a|] in b;
        assert a[i] in a;
      }
    }
  }

  /** With distinct names, the fill-up rows number the rows minus the
      must-show rows. */
  lemma FillCount(rows: seq<CuisineRow>)
    requires DistinctIds(rows)
    ensures var must := MustPhase(rows, |MustShow|);
            |Unchosen(rows, Ids(must))| == |rows| - |must|
  {
    var must := MustPhase(rows, |MustShow|);
    MustPhaseFacts(rows, |MustShow|);
    UnchosenCount(rows, Ids(must));
    DistinctCount(must);
    assert Ids(rows) * Ids(must) == Ids(must);
  }

  /** The fill-up rows repeat neither each other nor a must-show row. */
  lemma FillDistinct(rows: seq<CuisineRow>)
    requires DistinctIds(rows)
    ensures DistinctIds(Famous(rows))
  {
    var must := MustPhase(rows, |MustShow|);
    MustPhaseFacts(rows, |MustShow|);
    var rest := Unchosen(rows, Ids(must));
    var taken := Take(rest, MaxFamous - Min(|must|, MaxFamous));
    UnchosenDistinct(rows, Ids(must));
    UnchosenFacts(rows, Ids(must));
    forall r | r in taken
      ensures r.id !in Ids(must)
    {
      assert r in rest;
    }
    DistinctAppend(must, taken);
  }

  /** The selection holds min(n, 7) of the n rows, all taken from the
      input, no cuisine twice, the must-show rows first. */
  lemma FamousFacts(rows: seq<CuisineRow>)
    requires DistinctIds(rows)
    ensures |Famous(rows)| == Min(|rows|, MaxFamous)
    ensures forall r :: r in Famous(rows) ==> r in rows
    ensures DistinctIds(Famous(rows))
    ensures Famous(rows)[..|MustPhase(rows, |MustShow|)|] == MustPhase(rows, |MustShow|)
  {
    var must := MustPhase(rows, |MustShow|);
    MustPhaseFacts(rows, |MustShow|);
    var rest := Unchosen(rows, Ids(must));
    var taken := Take(rest, MaxFamous - |must|);
    assert Famous(rows) == must + taken;
    FillCount(rows);
    FillDistinct(rows);
    assert forall r :: r in must + taken ==> r in rows by {
      UnchosenFacts(rows, Ids(must));
      forall r | r in must + taken
        ensures r in rows
      {
        assert r in must || r in rest;
      }
    }
  }

  /** Taking from a list with one more row at the end. */
  lemma TakeSnoc(done: seq<CuisineRow>, x: CuisineRow, n: nat)
    ensures Take(done + [x], n) == if |done| < n then Take(done, n) + [x] else Take(done, n)
  {
    if |done| < n {
      assert Take(done + [x], n) == done + [x];
    } else {
      assert Take(done + [x], n) == done[..n];
    }
  }

  /** One step of the fill-up loop: the next row is appended exactly when
      its name is not chosen yet and fewer than seven rows are chosen. */
  lemma FillStep(rows: seq<CuisineRow>, must: seq<CuisineRow>, j: nat)
    requires DistinctIds(rows) && |must| <= MaxFamous && j < |rows|
    ensures var final := must + Take(Unchosen(rows[..j], Ids(must)), MaxFamous - |must|);
            var next := must + Take(Unchosen(rows[..j + 1], Ids(must)), MaxFamous - |must|);
            && (rows[j].id in Ids(final) <==> rows[j].id in Ids(must))
            && next == if rows[j].id !in Ids(final) && |final| < MaxFamous then final + [rows[j]] else final
  {
    var n := MaxFamous - |must|;
    var done := Unchosen(rows[..j], Ids(must));
    var final := must + Take(done, n);
    assert rows[..j + 1][..j] == rows[..j];
    assert rows[j].id !in Ids(rows[..j]) by {
      DropLast(rows[..j + 1]);
    }
    assert Ids(final) == Ids(must) + Ids(Take(done, n)) by {
      IdsAppend(must, Take(done, n));
    }
    assert rows[j].id !in Ids(Take(done, n)) by {
      UnchosenFacts(rows[..j], Ids(must));
      forall r | r in Take(done, n)
        ensures r.id != rows[j].id
      {
        assert r in done;
      }
    }
    assert Unchosen(rows[..j + 1], Ids(must)) == done + (if rows[j].id in Ids(must) then [] else [rows[j]]);
    if rows[j].id !in Ids(must) {
      TakeSnoc(done, rows[j], n);
    } else {
      assert done + [] == done;
    }
  }

  // ---------------------------------------------------------------------
  // The selection as the backend runs it
  // ---------------------------------------------------------------------

  /** The inner scan of the must-show loop: walk the rows in popularity
      order and stop at the first unchosen one whose name contains `word`. */
  method ScanForWord(rows: seq<CuisineRow>, word: string, seen: set<string>) returns (found: Option<CuisineRow>)
    ensures found == FirstMatch(rows, word, seen)
  {
    found := None;
    var k := 0;
    while k < |rows|
      invariant 0 <= k <= |rows|
      invariant FirstMatch(rows, word, seen) == FirstMatch(rows[k..], word, seen)
    {
      assert rows[k..][1..] == rows[k + 1..];
      if MatchesWord(rows[k], word) && rows[k].id !in seen {
        found := Some(rows[k]);
        break;
      }
      k := k + 1;
    }
  }

  /** The must-show loop of `get_famous_foods`: for each must-show word in
      turn, take the exact row if present and unchosen, else the first
      unchosen row containing the word, else nothing. */
  method ChooseMustShow(rows: seq<CuisineRow>) returns (final: seq<CuisineRow>, seen: set<string>)
    ensures final == MustPhase(rows, |MustShow|)
    ensures seen == Ids(final)
  {
    final, seen := [], {};
    var m := 0;
    while m < |MustShow|
      invariant 0 <= m <= |MustShow|
      invariant final == MustPhase(rows, m)
      invariant seen == Ids(final)
    {
      var word := MustShow[m];
      ghost var pick := Pick(rows, word, seen);
      MustPhaseStep(rows, m);
      var exact := Lookup(rows, word);
      if exact.Some? && word !in seen {
        assert pick == exact;
        final := final + [exact.value];
        seen := seen + {word};
      } else {
        var found := ScanForWord(rows, word, seen);
        assert pick == found;
        if found.Some? {
          final := final + [found.value];
          seen := seen + {found.value.id};
        }
      }
      assert pick.Some? ==> final == MustPhase(rows, m) + [pick.value];
      m := m + 1;
    }
  }

  /** The fill-up loop of `get_famous_foods`: walk the rows in popularity
      order and append each unchosen one while fewer than seven are chosen. */
  method FillUp(rows: seq<CuisineRow>, must: seq<CuisineRow>, seen0: set<string>)
    returns (final: seq<CuisineRow>, seen: set<string>)
    requires DistinctIds(rows)
    requires |must| <= MaxFamous && seen0 == Ids(must)
    ensures final == must + Take(Unchosen(rows, Ids(must)), MaxFamous - |must|)
    ensures seen == Ids(final)
  {
    final, seen := must, seen0;
    var j := 0;
    while j < |rows|
      invariant 0 <= j <= |rows|
      invariant final == must + Take(Unchosen(rows[..j], Ids(must)), MaxFamous - |must|)
      invariant seen == Ids(final)
    {
      FillStep(rows, must, j);
      if rows[j].id !in seen && |final| < MaxFamous {
        IdsAppend(final, [rows[j]]);
        assert Ids([rows[j]]) == {rows[j].id};
        final := final + [rows[j]];
        seen := seen + {rows[j].id};
      }
      j := j + 1;
    }
    assert rows[..|rows|] == rows;
  }

  /** `get_famous_foods` after the aggregation: the must-show loop, the
      fill-up loop, then the first seven chosen rows as answer entries. */
  method GetFamousFoods(rows: seq<CuisineRow>) returns (foods: seq<FamousFood>)
    requires DistinctIds(rows)
    ensures foods == Present(Famous(rows))
    ensures |foods| == Min(|rows|, MaxFamous)
    ensures forall i :: 0 <= i < |foods| ==> foods[i].name == foods[i].cuisineType
    ensures forall i, j :: 0 <= i < j < |foods| ==> foods[i].name != foods[j].name
    ensures forall i :: 0 <= i < |foods| ==>
              CuisineRow(foods[i].name, foods[i].popularityScore) in rows
  {
    var final, seen := ChooseMustShow(rows);
    MustPhaseFacts(rows, |MustShow|);
    final, seen := FillUp(rows, final, seen);
    FamousFacts(rows);
    foods := Present(final[..Min(|final|, MaxFamous)]);
    assert final[..Min(|final|, MaxFamous)] == Famous(rows);
    forall i | 0 <= i < |foods|
      ensures CuisineRow(foods[i].name, foods[i].popularityScore) in rows
    {
      assert CuisineRow(foods[i].name, foods[i].popularityScore) == Famous(rows)[i];
    }
  }
}
