/** The disturbance mask: `disturbedAreasComputer` over the whole DSM and
    the conversion to booleans in `build_disturbance_mask`. */
module Disturbance {
  import opened Wrappers
  import opened Samples
  import opened Grids
  import opened BorderNodata

  /** The native detector `PyDisturbedAreas(is_four_connexity)
      .build_disturbance_mask(dsm, slope_threshold, nodata)`, already cast
      to bytes. Its slope rule is not part of this model; all that is
      relied on is that it returns a mask of the shape of the DSM it is
      given. */
  type DisturbanceDetector = f: (Grid<Sample>, bool, real, Sample) -> Grid<Byte>
    | forall g: Grid<Sample>, fourConnexity: bool, slopeThreshold: real, nodata: Sample ::
        g.Valid() ==> SameShape(f(g, fourConnexity, slopeThreshold, nodata), g)
    witness (g: Grid<Sample>, fourConnexity: bool, slopeThreshold: real, nodata: Sample) => Constant(g.height, g.width, 0 as Byte)

  /** Python's `UnboundLocalError` for the local `dsm`, read in the NaN
      branch before anything is assigned to it. */
  datatype ComputeError = UnboundLocalDsm

  /** `disturbedAreasComputer` as written: a NaN no-data value takes the
      branch that reads the unassigned local `dsm` and raises; any other
      no-data value goes to the detector together with the unchanged DSM. */
  function DisturbedAreasComputerAsWritten(dsm: Grid<Sample>, nodata: Sample, slopeThreshold: real,
                                           fourConnexity: bool, detect: DisturbanceDetector)
    : (r: Result<Grid<Byte>, ComputeError>)
    requires dsm.Valid()
    ensures r.Err? <==> nodata.NaN?
    ensures r.Ok? ==> SameShape(r.value, dsm)
  {
    if nodata.NaN? then Err(UnboundLocalDsm)
    else Ok(detect(dsm, fourConnexity, slopeThreshold, nodata))
  }

  /** `disturbedAreasComputer` as evidently intended: the DSM and its no-data
      value are normalised exactly as the border computer does before the
      detector runs, so a NaN no-data value no longer fails and the detector
      never receives a NaN no-data value. Wherever the code as written
      succeeds, the two agree. */
  function DisturbedAreasComputer(dsm: Grid<Sample>, nodata: Sample, slopeThreshold: real,
                                  fourConnexity: bool, detect: DisturbanceDetector): (r: Grid<Byte>)
    requires dsm.Valid()
    ensures SameShape(r, dsm)
    ensures DisturbedAreasComputerAsWritten(dsm, nodata, slopeThreshold, fourConnexity, detect).Ok? ==>
              DisturbedAreasComputerAsWritten(dsm, nodata, slopeThreshold, fourConnexity, detect) == Ok(r)
    ensures nodata.NaN? ==> r == detect(NanToNum(dsm), fourConnexity, slopeThreshold, NoDataValue)
  {
    var n := Normalize(dsm, nodata);
    detect(n.dsm, fourConnexity, slopeThreshold, n.nodata)
  }

  /** `build_disturbance_mask`: a pixel is disturbed when the detector's
      byte is non-zero. */
  function BuildDisturbanceMask(dsm: Grid<Sample>, nodata: Sample, slopeThreshold: real,
                                fourConnexity: bool, detect: DisturbanceDetector): (r: Grid<bool>)
    requires dsm.Valid()
    ensures SameShape(r, dsm)
    ensures forall i, j :: 0 <= i < dsm.height && 0 <= j < dsm.width ==>
              (r.cells[i][j] <==> DisturbedAreasComputer(dsm, nodata, slopeThreshold, fourConnexity, detect).cells[i][j] != 0)
  {
    Map(DisturbedAreasComputer(dsm, nodata, slopeThreshold, fourConnexity, detect), (b: Byte) => b != 0)
  }

  /** The defect, on a concrete input: a one-pixel DSM whose no-data value
      is NaN makes the code as written fail, while the corrected computer
      hands the detector the pixel as the sentinel, with the sentinel as
      no-data value. */
  lemma NaNNodataFailsAsWritten(detect: DisturbanceDetector)
    ensures DisturbedAreasComputerAsWritten(Grid(1, 1, [[NaN]]), NaN, 2.0, true, detect) == Err(UnboundLocalDsm)
    ensures DisturbedAreasComputer(Grid(1, 1, [[NaN]]), NaN, 2.0, true, detect)
            == detect(Grid(1, 1, [[NoDataValue]]), true, 2.0, NoDataValue)
  {
    Extensionality(NanToNum(Grid(1, 1, [[NaN]])), Grid(1, 1, [[NoDataValue]]));
  }

  /** With the correction, a DSM whose no-data value is NaN gives the mask
      of the same DSM with its NaN samples already replaced by the sentinel
      and the sentinel declared as no-data. */
  lemma DisturbanceNaNNodataSameAsSentinel(dsm: Grid<Sample>, slopeThreshold: real, fourConnexity: bool, detect: DisturbanceDetector)
    requires dsm.Valid()
    ensures BuildDisturbanceMask(dsm, NaN, slopeThreshold, fourConnexity, detect)
            == BuildDisturbanceMask(NanToNum(dsm), NoDataValue, slopeThreshold, fourConnexity, detect)
  {
  }
}
