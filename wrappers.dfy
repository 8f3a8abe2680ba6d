/** Small helpers shared by every module: the optional value (a dictionary
    key that may be missing, a spreadsheet cell that may be empty, a search
    that may find nothing) and the smaller of two integers (Python's `min`,
    also the length of a slice `xs[:n]`). */
module Wrappers {
  datatype Option<T> = None | Some(value: T)

  function Min(a: int, b: int): int { if a <= b then a else b }
}
