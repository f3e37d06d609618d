/** The border no-data mask: `border_nodata_computer`, run once along each
    axis over the whole DSM, and the merge of the two passes in
    `build_border_nodata_mask`. */
module BorderNodata {
  import opened Samples
  import opened Grids

  /** The native row scan `PyBorderNodata.build_border_nodata_mask(dsm,
      nodata)`, already cast to bytes. Its scanning rule is not part of this
      model; all that is relied on is that it returns a mask of the shape of
      the DSM it is given. */
  type RowScan = f: (Grid<Sample>, Sample) -> Grid<bool>
    | forall g: Grid<Sample>, nodata: Sample :: g.Valid() ==> SameShape(f(g, nodata), g)
    witness (g: Grid<Sample>, nodata: Sample) => Constant(g.height, g.width, false)

  /** `np.nan_to_num(dsm, nan=NO_DATA_VALUE)`: NaN samples become the
      sentinel, numbers are kept. */
  function NanToNum(dsm: Grid<Sample>): (r: Grid<Sample>)
    requires dsm.Valid()
    ensures SameShape(r, dsm)
    ensures forall i, j :: 0 <= i < dsm.height && 0 <= j < dsm.width ==>
              r.cells[i][j].Num? &&
              r.cells[i][j] == if dsm.cells[i][j].NaN? then NoDataValue else dsm.cells[i][j]
  {
    Map(dsm, (s: Sample) => if s.NaN? then NoDataValue else s)
  }

  /** The DSM and no-data value the scan is given: a NaN no-data value is
      replaced by the sentinel, and so is every NaN sample; a numeric
      no-data value leaves both as they are. */
  datatype Scanned = Scanned(dsm: Grid<Sample>, nodata: Sample)

  function Normalize(dsm: Grid<Sample>, nodata: Sample): (r: Scanned)
    requires dsm.Valid()
    ensures SameShape(r.dsm, dsm) && r.nodata.Num?
    ensures nodata.NaN? ==> r.nodata == NoDataValue && r.dsm == NanToNum(dsm)
    ensures nodata.Num? ==> r == Scanned(dsm, nodata)
  {
    if nodata.NaN? then Scanned(NanToNum(dsm), NoDataValue) else Scanned(dsm, nodata)
  }

  /** `border_nodata_computer`. With `doTranspose` set the scan runs over
      the rows of the DSM; with it clear (the first pass of
      `build_border_nodata_mask`) the scan runs over the rows of the
      transposed DSM, that is over its columns, and the result is
      transposed back. */
  function BorderNodataComputer(dsm: Grid<Sample>, nodata: Sample, doTranspose: bool, scan: RowScan): (r: Grid<bool>)
    requires dsm.Valid()
    ensures SameShape(r, dsm)
  {
    var n := Normalize(dsm, nodata);
    if doTranspose then scan(n.dsm, n.nodata)
    else Transpose(scan(Transpose(n.dsm), n.nodata))
  }

  /** `build_border_nodata_mask`: a pixel is border no-data when both passes
      flag it. */
  function BuildBorderNodataMask(dsm: Grid<Sample>, nodata: Sample, scan: RowScan): (r: Grid<bool>)
    requires dsm.Valid()
    ensures SameShape(r, dsm)
    ensures forall i, j :: 0 <= i < dsm.height && 0 <= j < dsm.width ==>
              (r.cells[i][j] <==> BorderNodataComputer(dsm, nodata, false, scan).cells[i][j]
                                  && BorderNodataComputer(dsm, nodata, true, scan).cells[i][j])
  {
    And(BorderNodataComputer(dsm, nodata, false, scan), BorderNodataComputer(dsm, nodata, true, scan))
  }

  /** Replacing NaN samples commutes with transposing. */
  lemma NanToNumTranspose(dsm: Grid<Sample>)
    requires dsm.Valid()
    ensures NanToNum(Transpose(dsm)) == Transpose(NanToNum(dsm))
  {
    Extensionality(NanToNum(Transpose(dsm)), Transpose(NanToNum(dsm)));
  }

  /** Normalizing the no-data value commutes with transposing. */
  lemma NormalizeTranspose(dsm: Grid<Sample>, nodata: Sample)
    requires dsm.Valid()
    ensures Normalize(Transpose(dsm), nodata) == Scanned(Transpose(Normalize(dsm, nodata).dsm), Normalize(dsm, nodata).nodata)
  {
    if nodata.NaN? {
      NanToNumTranspose(dsm);
    }
  }

  /** The pass with `doTranspose` clear is the pass with it set, run over
      the transposed DSM and transposed back: the two passes are one scan
      applied along the two axes. */
  lemma ColumnPassIsTransposedRowPass(dsm: Grid<Sample>, nodata: Sample, scan: RowScan)
    requires dsm.Valid()
    ensures BorderNodataComputer(dsm, nodata, false, scan)
            == Transpose(BorderNodataComputer(Transpose(dsm), nodata, true, scan))
  {
    NormalizeTranspose(dsm, nodata);
  }

  /** And the pass with `doTranspose` set, over the transposed DSM, is the
      other pass over the DSM, transposed. */
  lemma RowPassIsTransposedColumnPass(dsm: Grid<Sample>, nodata: Sample, scan: RowScan)
    requires dsm.Valid()
    ensures BorderNodataComputer(Transpose(dsm), nodata, false, scan)
            == Transpose(BorderNodataComputer(dsm, nodata, true, scan))
  {
    NormalizeTranspose(Transpose(dsm), nodata);
    TransposeInvolution(dsm);
    TransposeInvolution(Normalize(dsm, nodata).dsm);
  }

  /** Every border pixel is flagged by each of the two passes. */
  lemma BorderMaskInsideEachPass(dsm: Grid<Sample>, nodata: Sample, scan: RowScan, i: nat, j: nat)
    requires dsm.Valid() && i < dsm.height && j < dsm.width
    requires BuildBorderNodataMask(dsm, nodata, scan).cells[i][j]
    ensures BorderNodataComputer(dsm, nodata, false, scan).cells[i][j]
    ensures BorderNodataComputer(dsm, nodata, true, scan).cells[i][j]
  {
  }

  /** Running the passes in the other order gives the same mask. */
  lemma PassOrderIrrelevant(dsm: Grid<Sample>, nodata: Sample, scan: RowScan)
    requires dsm.Valid()
    ensures BuildBorderNodataMask(dsm, nodata, scan)
            == And(BorderNodataComputer(dsm, nodata, true, scan), BorderNodataComputer(dsm, nodata, false, scan))
  {
    AndCommutes(BorderNodataComputer(dsm, nodata, false, scan), BorderNodataComputer(dsm, nodata, true, scan));
  }

  /** The border mask does not depend on the orientation of the raster: the
      mask of the transposed DSM is the transposed mask. */
  lemma BorderMaskTranspose(dsm: Grid<Sample>, nodata: Sample, scan: RowScan)
    requires dsm.Valid()
    ensures BuildBorderNodataMask(Transpose(dsm), nodata, scan) == Transpose(BuildBorderNodataMask(dsm, nodata, scan))
  {
    ColumnPassIsTransposedRowPass(dsm, nodata, scan);
    RowPassIsTransposedColumnPass(dsm, nodata, scan);
    Extensionality(BuildBorderNodataMask(Transpose(dsm), nodata, scan), Transpose(BuildBorderNodataMask(dsm, nodata, scan)));
  }

  /** A DSM whose no-data value is NaN gives the mask of the same DSM with
      its NaN samples already replaced by the sentinel and the sentinel
      declared as no-data. */
  lemma NaNNodataSameAsSentinel(dsm: Grid<Sample>, doTranspose: bool, scan: RowScan)
    requires dsm.Valid()
    ensures BorderNodataComputer(dsm, NaN, doTranspose, scan)
            == BorderNodataComputer(NanToNum(dsm), NoDataValue, doTranspose, scan)
  {
  }
}
