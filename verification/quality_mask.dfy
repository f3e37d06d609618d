/** `write_quality_mask`: the border, inner no-data and disturbed masks fused
    into one byte raster by three overwriting passes. */
module QualityMask {
  import opened Wrappers
  import opened Grids
  import opened Rasters
  import opened Profiles

  /** Quality codes. */
  const ValidCode: Byte := 0
  const InnerNodataCode: Byte := 1
  const DisturbedCode: Byte := 2
  const BorderNodataCode: Byte := 3

  /** The classification of one pixel by priority: border no-data before
      inner no-data before disturbed before valid. Each code is given
      exactly when its condition holds and no condition of higher
      priority does. */
  function Classify(border: bool, inner: bool, disturbed: bool): (c: Byte)
    ensures c <= 3
    ensures c == BorderNodataCode <==> border
    ensures c == InnerNodataCode <==> !border && inner
    ensures c == DisturbedCode <==> !border && !inner && disturbed
    ensures c == ValidCode <==> !border && !inner && !disturbed
  {
    if border then BorderNodataCode
    else if inner then InnerNodataCode
    else if disturbed then DisturbedCode
    else ValidCode
  }

  /** The masks `write_quality_mask` is given: all of the inner mask's shape,
      as numpy's boolean indexing demands. */
  predicate MasksAgree(border: Grid<bool>, inner: Grid<bool>, disturbed: Grid<bool>)
  {
    SameShape(border, inner) && SameShape(disturbed, inner)
  }

  /** The quality mask as a value: a zero raster of the inner mask's shape,
      overwritten with 2 where disturbed, then with 1 where inner no-data,
      then with 3 where border no-data. At every pixel the later passes win,
      which gives the priority classification. */
  function Fuse(border: Grid<bool>, inner: Grid<bool>, disturbed: Grid<bool>): (q: Grid<Byte>)
    requires MasksAgree(border, inner, disturbed)
    ensures SameShape(q, inner)
    ensures forall i, j :: 0 <= i < inner.height && 0 <= j < inner.width ==>
              q.cells[i][j] == Classify(border.cells[i][j], inner.cells[i][j], disturbed.cells[i][j])
  {
    var zeros := Constant(inner.height, inner.width, ValidCode);
    MaskedAssign(MaskedAssign(MaskedAssign(zeros, disturbed, DisturbedCode), inner, InnerNodataCode), border, BorderNodataCode)
  }

  /** Every pixel of the quality mask is one of the four codes. */
  lemma FuseRange(border: Grid<bool>, inner: Grid<bool>, disturbed: Grid<bool>, i: nat, j: nat)
    requires MasksAgree(border, inner, disturbed) && i < inner.height && j < inner.width
    ensures Fuse(border, inner, disturbed).cells[i][j] in {ValidCode, InnerNodataCode, DisturbedCode, BorderNodataCode}
  {
  }

  /** `write_quality_mask` without the final write to disk: allocates the
      zero mask, sets the profile to one byte band with no no-data value,
      and runs the three passes in place. */
  method WriteQualityMask(border: Grid<bool>, inner: Grid<bool>, disturbed: Grid<bool>, profile: Profile)
    returns (qualityMask: array2<Byte>)
    requires MasksAgree(border, inner, disturbed)
    modifies profile
    ensures fresh(qualityMask)
    ensures Contents(qualityMask) == Fuse(border, inner, disturbed)
    ensures profile.dtype == UInt8 && profile.count == 1 && profile.nodata == None
    ensures profile.width == old(profile.width) && profile.height == old(profile.height)
  {
    qualityMask := new Byte[inner.height, inner.width]((i, j) => ValidCode);
    Extensionality(Contents(qualityMask), Constant(inner.height, inner.width, ValidCode));

    profile.dtype := UInt8;
    profile.count := 1;
    profile.nodata := None;
    AssignWhere(qualityMask, disturbed, DisturbedCode);
    AssignWhere(qualityMask, inner, InnerNodataCode);
    AssignWhere(qualityMask, border, BorderNodataCode);
  }
}
