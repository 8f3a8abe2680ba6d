/** The one piece of the dataset importer that holds logic of its own:
    turning the spreadsheet's comma-separated cuisine cell into a list of
    cuisine names. */
module ImportData {
  import opened Text
  import opened Wrappers

  /** `clean_cuisines`: a missing cell gives no cuisines; a present one is
      split at every comma and each piece is stripped of surrounding
      whitespace. The cell arrives as pandas hands it over: `None` for a
      missing (NaN) value, `Some(s)` for the cell's text after `str()`. */
  function CleanCuisines(cell: Option<string>): (cuisines: seq<string>)
    ensures cell.None? ==> cuisines == []
    ensures cell.Some? ==> |cuisines| == Count(cell.value, ',') + 1
    ensures forall i :: 0 <= i < |cuisines| ==> ',' !in cuisines[i]
    ensures forall i :: 0 <= i < |cuisines| ==>
              cuisines[i] == [] || (!IsSpace(cuisines[i][0]) && !IsSpace(cuisines[i][|cuisines[i]| - 1]))
  {
    match cell
    case None => []
    case Some(s) =>
      var pieces := Split(s, ',');
      seq(|pieces|, i requires 0 <= i < |pieces| => Strip(pieces[i]))
  }

  /** The cuisines of a present cell are, in order, the stripped pieces of
      the cell between its commas: joining those pieces with commas gives
      back the cell exactly. */
  lemma CleanCuisinesInOrder(s: string)
    ensures var pieces := Split(s, ',');
            && Join(pieces, ',') == s
            && |CleanCuisines(Some(s))| == |pieces|
            && forall i :: 0 <= i < |pieces| ==> CleanCuisines(Some(s))[i] == Strip(pieces[i])
  {
    JoinSplit(s, ',');
  }

  /** A present but empty cell yields one empty cuisine, not an empty list. */
  lemma EmptyCellGivesOneEmptyPiece()
    ensures CleanCuisines(Some("")) == [""]
  {
    assert Count("", ',') == 0;
    assert Strip("") == "";
  }
}
