/** numpy arrays the preprocessing updates in place, as two-dimensional
    Dafny arrays, and the masked assignment `a[mask] = x` that updates them. */
module Rasters {
  import opened Grids

  /** The current contents of an array, as a grid value. */
  function Contents<T>(a: array2<T>): (g: Grid<T>)
    reads a
    ensures g.Valid() && g.height == a.Length0 && g.width == a.Length1
    ensures forall i, j :: 0 <= i < a.Length0 && 0 <= j < a.Length1 ==> g.cells[i][j] == a[i, j]
  {
    Grid(a.Length0, a.Length1,
         seq(a.Length0, i requires 0 <= i < a.Length0 reads a =>
           seq(a.Length1, j requires 0 <= j < a.Length1 reads a => a[i, j])))
  }

  /** A new buffer holding `g` (a band read into memory, or `np.where`'s
      freshly allocated result). */
  method NewArray<T>(g: Grid<T>) returns (a: array2<T>)
    requires g.Valid()
    ensures fresh(a)
    ensures Contents(a) == g
  {
    a := new T[g.height, g.width]((i, j) requires 0 <= i < g.height && 0 <= j < g.width => g.cells[i][j]);
    Extensionality(Contents(a), g);
  }

  /** `a[mask] = x`: the pixels the mask selects are overwritten with `x`,
      row by row; all other pixels keep their value. */
  method AssignWhere<T>(a: array2<T>, mask: Grid<bool>, x: T)
    requires mask.Valid() && mask.height == a.Length0 && mask.width == a.Length1
    modifies a
    ensures Contents(a) == MaskedAssign(old(Contents(a)), mask, x)
  {
    ghost var before := Contents(a);
    var i := 0;
    while i < a.Length0
      invariant 0 <= i <= a.Length0
      invariant forall r, c :: 0 <= r < a.Length0 && 0 <= c < a.Length1 ==>
                  a[r, c] == if r < i && mask.cells[r][c] then x else before.cells[r][c]
    {
      var j := 0;
      while j < a.Length1
        invariant 0 <= j <= a.Length1
        invariant forall r, c :: 0 <= r < a.Length0 && 0 <= c < a.Length1 ==>
                    a[r, c] == if (r < i || (r == i && c < j)) && mask.cells[r][c] then x else before.cells[r][c]
      {
        if mask.cells[i][j] {
          a[i, j] := x;
        }
        j := j + 1;
      }
      i := i + 1;
    }
    Extensionality(Contents(a), MaskedAssign(before, mask, x));
  }
}
