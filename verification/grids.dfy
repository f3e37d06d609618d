/** Single-band rasters as values: a height, a width and the rows of
    samples. numpy arrays keep their shape even when one side is zero, so
    the shape is stored rather than read off the rows. */
module Grids {

  /** One pixel of a byte raster (numpy's `uint8`). */
  newtype Byte = x: int | 0 <= x < 256

  datatype Grid<T> = Grid(height: nat, width: nat, cells: seq<seq<T>>)
  {
    /** The rows agree with the stored shape. */
    predicate Valid()
    {
      |cells| == height && forall i :: 0 <= i < |cells| ==> |cells[i]| == width
    }
  }

  /** Both grids are well formed and have one shape, as numpy requires of
      the operands of an element-wise operation or a boolean index. */
  predicate SameShape<A, B>(a: Grid<A>, b: Grid<B>)
  {
    a.Valid() && b.Valid() && a.height == b.height && a.width == b.width
  }

  /** A grid of the given shape holding `x` everywhere (`np.zeros`, `np.full`). */
  function Constant<T>(height: nat, width: nat, x: T): (r: Grid<T>)
    ensures r.Valid() && r.height == height && r.width == width
    ensures forall i, j :: 0 <= i < height && 0 <= j < width ==> r.cells[i][j] == x
  {
    Grid(height, width, seq(height, i => seq(width, j => x)))
  }

  /** An element-wise numpy operation of one operand. */
  function Map<A, B>(a: Grid<A>, f: A -> B): (r: Grid<B>)
    requires a.Valid()
    ensures SameShape(r, a)
    ensures forall i, j :: 0 <= i < a.height && 0 <= j < a.width ==> r.cells[i][j] == f(a.cells[i][j])
  {
    Grid(a.height, a.width,
         seq(a.height, i requires 0 <= i < a.height =>
           seq(a.width, j requires 0 <= j < a.width => f(a.cells[i][j]))))
  }

  /** An element-wise numpy operation of two operands of one shape. */
  function Zip<A, B, C>(a: Grid<A>, b: Grid<B>, f: (A, B) -> C): (r: Grid<C>)
    requires SameShape(a, b)
    ensures SameShape(r, a)
    ensures forall i, j :: 0 <= i < a.height && 0 <= j < a.width ==>
              r.cells[i][j] == f(a.cells[i][j], b.cells[i][j])
  {
    Grid(a.height, a.width,
         seq(a.height, i requires 0 <= i < a.height =>
           seq(a.width, j requires 0 <= j < a.width => f(a.cells[i][j], b.cells[i][j]))))
  }

  /** numpy's `.T` on a two-dimensional array. */
  function Transpose<T>(g: Grid<T>): (r: Grid<T>)
    requires g.Valid()
    ensures r.Valid() && r.height == g.width && r.width == g.height
    ensures forall i, j :: 0 <= i < g.width && 0 <= j < g.height ==> r.cells[i][j] == g.cells[j][i]
  {
    Grid(g.width, g.height,
         seq(g.width, i requires 0 <= i < g.width =>
           seq(g.height, j requires 0 <= j < g.height => g.cells[j][i])))
  }

  /** `np.logical_and`. */
  function And(a: Grid<bool>, b: Grid<bool>): (r: Grid<bool>)
    requires SameShape(a, b)
    ensures SameShape(r, a)
    ensures forall i, j :: 0 <= i < a.height && 0 <= j < a.width ==>
              (r.cells[i][j] <==> a.cells[i][j] && b.cells[i][j])
  {
    Zip(a, b, (x, y) => x && y)
  }

  /** `g[mask] = x`, as a value: every pixel the mask selects becomes `x`,
      every other pixel keeps its value. */
  function MaskedAssign<T>(g: Grid<T>, mask: Grid<bool>, x: T): (r: Grid<T>)
    requires SameShape(g, mask)
    ensures SameShape(r, g)
    ensures forall i, j :: 0 <= i < g.height && 0 <= j < g.width ==>
              r.cells[i][j] == if mask.cells[i][j] then x else g.cells[i][j]
  {
    Zip(g, mask, (y, m) => if m then x else y)
  }

  /** Two grids of one shape that agree at every pixel are the same grid. */
  lemma Extensionality<T>(a: Grid<T>, b: Grid<T>)
    requires SameShape(a, b)
    requires forall i, j :: 0 <= i < a.height && 0 <= j < a.width ==> a.cells[i][j] == b.cells[i][j]
    ensures a == b
  {
    forall i | 0 <= i < a.height
      ensures a.cells[i] == b.cells[i]
    {
      assert forall j :: 0 <= j < a.width ==> a.cells[i][j] == b.cells[i][j];
    }
  }

  /** Transposing twice gives back the original grid. */
  lemma TransposeInvolution<T>(g: Grid<T>)
    requires g.Valid()
    ensures Transpose(Transpose(g)) == g
  {
    Extensionality(Transpose(Transpose(g)), g);
  }

  /** The order of the two operands of the merge does not matter. */
  lemma AndCommutes(a: Grid<bool>, b: Grid<bool>)
    requires SameShape(a, b)
    ensures And(a, b) == And(b, a)
  {
    Extensionality(And(a, b), And(b, a));
  }
}
