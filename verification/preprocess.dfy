/** `preprocess_pipeline`: resolves the no-data value, drops samples below
    the minimum valid height, builds the three masks, writes the quality
    mask and cleans the DSM of disturbed pixels. The on-disk DSM (read by
    the two detectors) and the in-memory DSM (after the minimum-height
    rewrite) are kept apart, as the pipeline keeps them. */
module Preprocess {
  import opened Wrappers
  import opened Samples
  import opened Grids
  import opened Rasters
  import opened Profiles
  import opened BorderNodata
  import opened Disturbance
  import opened QualityMask

  /** The working no-data value: the one given, or the sentinel when none is. */
  function ResolveNodata(nodata: Option<Sample>): (r: Sample)
    ensures nodata.None? ==> r == NoDataValue
    ensures nodata.Some? ==> r == nodata.value
  {
    match nodata
    case None => NoDataValue
    case Some(v) => v
  }

  /** `np.where(dsm < minValidHeight, nodata, dsm)`: samples strictly below
      the threshold become no-data; all others, NaN samples included, are
      kept. */
  function BelowToNodata(dsm: Grid<Sample>, minValidHeight: Sample, nodata: Sample): (r: Grid<Sample>)
    requires dsm.Valid()
    ensures SameShape(r, dsm)
    ensures forall i, j :: 0 <= i < dsm.height && 0 <= j < dsm.width ==>
              r.cells[i][j] == if Lt(dsm.cells[i][j], minValidHeight) then nodata else dsm.cells[i][j]
  {
    Map(dsm, (s: Sample) => if Lt(s, minValidHeight) then nodata else s)
  }

  /** The in-memory DSM after the optional minimum-height rewrite, which
      only runs when `minValidHeight` is truthy. */
  function MinValidHeightRewrite(dsm: Grid<Sample>, minValidHeight: Option<Sample>, nodata: Sample): (r: Grid<Sample>)
    requires dsm.Valid()
    ensures SameShape(r, dsm)
    ensures !Truthy(minValidHeight) ==> r == dsm
    ensures Truthy(minValidHeight) ==> r == BelowToNodata(dsm, minValidHeight.value, nodata)
    ensures forall i, j :: 0 <= i < dsm.height && 0 <= j < dsm.width && dsm.cells[i][j].NaN? ==>
              r.cells[i][j] == NaN
    ensures forall i, j :: 0 <= i < dsm.height && 0 <= j < dsm.width ==>
              r.cells[i][j] == nodata || r.cells[i][j] == dsm.cells[i][j]
  {
    if Truthy(minValidHeight) then BelowToNodata(dsm, minValidHeight.value, nodata) else dsm
  }

  /** After the rewrite, a sample below the minimum valid height can only
      be the no-data value. */
  lemma NothingLeftBelowMinValidHeight(dsm: Grid<Sample>, minValidHeight: Option<Sample>, nodata: Sample, i: nat, j: nat)
    requires dsm.Valid() && i < dsm.height && j < dsm.width && Truthy(minValidHeight)
    requires Lt(MinValidHeightRewrite(dsm, minValidHeight, nodata).cells[i][j], minValidHeight.value)
    ensures MinValidHeightRewrite(dsm, minValidHeight, nodata).cells[i][j] == nodata
  {
  }

  /** Rewriting twice changes nothing more than rewriting once. */
  lemma MinValidHeightRewriteIdempotent(dsm: Grid<Sample>, minValidHeight: Option<Sample>, nodata: Sample)
    requires dsm.Valid()
    ensures MinValidHeightRewrite(MinValidHeightRewrite(dsm, minValidHeight, nodata), minValidHeight, nodata)
            == MinValidHeightRewrite(dsm, minValidHeight, nodata)
  {
    var once := MinValidHeightRewrite(dsm, minValidHeight, nodata);
    Extensionality(MinValidHeightRewrite(once, minValidHeight, nodata), once);
  }

  /** `np.logical_and(np.logical_not(border), dsm == nodata)`: the no-data
      pixels of the in-memory DSM that are not border no-data. */
  function InnerNodataMask(border: Grid<bool>, dsm: Grid<Sample>, nodata: Sample): (r: Grid<bool>)
    requires SameShape(border, dsm)
    ensures SameShape(r, dsm)
    ensures forall i, j :: 0 <= i < dsm.height && 0 <= j < dsm.width ==>
              (r.cells[i][j] <==> Eq(dsm.cells[i][j], nodata) && !border.cells[i][j])
  {
    Zip(border, dsm, (b: bool, s: Sample) => !b && Eq(s, nodata))
  }

  /** A NaN no-data value equals no sample, so the inner mask is empty. */
  lemma InnerMaskEmptyForNaN(border: Grid<bool>, dsm: Grid<Sample>)
    requires SameShape(border, dsm)
    ensures InnerNodataMask(border, dsm, NaN) == Constant(dsm.height, dsm.width, false)
  {
    Extensionality(InnerNodataMask(border, dsm, NaN), Constant(dsm.height, dsm.width, false));
  }

  /** The three masks of one run. */
  datatype Masks = Masks(border: Grid<bool>, inner: Grid<bool>, disturbed: Grid<bool>)

  /** The masks the pipeline builds: border and disturbance from the
      on-disk DSM, inner no-data from the rewritten in-memory DSM. */
  function BuildMasks(diskDsm: Grid<Sample>, nodata: Sample, slopeThreshold: real, fourConnexity: bool,
                      minValidHeight: Option<Sample>, scan: RowScan, detect: DisturbanceDetector): (m: Masks)
    requires diskDsm.Valid()
    ensures SameShape(m.border, diskDsm) && SameShape(m.inner, diskDsm) && SameShape(m.disturbed, diskDsm)
    ensures forall i, j :: 0 <= i < diskDsm.height && 0 <= j < diskDsm.width ==>
              !(m.border.cells[i][j] && m.inner.cells[i][j])
  {
    var border := BuildBorderNodataMask(diskDsm, nodata, scan);
    var inner := InnerNodataMask(border, MinValidHeightRewrite(diskDsm, minValidHeight, nodata), nodata);
    var disturbed := BuildDisturbanceMask(diskDsm, nodata, slopeThreshold, fourConnexity, detect);
    Masks(border, inner, disturbed)
  }

  /** The quality code of a pixel, read against the DSMs it came from:
      3 for border no-data; else 1 where the rewritten DSM holds the
      no-data value; else 2 where disturbed; else 0. */
  lemma QualityCodeMeaning(diskDsm: Grid<Sample>, nodata: Sample, slopeThreshold: real, fourConnexity: bool,
                           minValidHeight: Option<Sample>, scan: RowScan, detect: DisturbanceDetector, i: nat, j: nat)
    requires diskDsm.Valid() && i < diskDsm.height && j < diskDsm.width
    ensures
      var m := BuildMasks(diskDsm, nodata, slopeThreshold, fourConnexity, minValidHeight, scan, detect);
      var q := Fuse(m.border, m.inner, m.disturbed).cells[i][j];
      var isNodata := Eq(MinValidHeightRewrite(diskDsm, minValidHeight, nodata).cells[i][j], nodata);
      && (q == BorderNodataCode <==> m.border.cells[i][j])
      && (q == InnerNodataCode <==> !m.border.cells[i][j] && isNodata)
      && (q == DisturbedCode <==> !m.border.cells[i][j] && !isNodata && m.disturbed.cells[i][j])
      && (q == ValidCode <==> !m.border.cells[i][j] && !isNodata && !m.disturbed.cells[i][j])
  {
    var m := BuildMasks(diskDsm, nodata, slopeThreshold, fourConnexity, minValidHeight, scan, detect);
    assert m.inner == InnerNodataMask(m.border, MinValidHeightRewrite(diskDsm, minValidHeight, nodata), nodata);
  }

  /** The cleaned DSM agrees with the quality mask: pixels coded inner
      no-data or disturbed hold the no-data value, and valid pixels hold a
      sample that is not equal to it. */
  lemma CleanedDsmMatchesQualityMask(diskDsm: Grid<Sample>, nodata: Sample, slopeThreshold: real, fourConnexity: bool,
                                     minValidHeight: Option<Sample>, scan: RowScan, detect: DisturbanceDetector, i: nat, j: nat)
    requires diskDsm.Valid() && i < diskDsm.height && j < diskDsm.width
    ensures
      var m := BuildMasks(diskDsm, nodata, slopeThreshold, fourConnexity, minValidHeight, scan, detect);
      var q := Fuse(m.border, m.inner, m.disturbed).cells[i][j];
      var cleaned := MaskedAssign(MinValidHeightRewrite(diskDsm, minValidHeight, nodata), m.disturbed, nodata).cells[i][j];
      && (q == InnerNodataCode || q == DisturbedCode ==> cleaned == nodata)
      && (q == ValidCode ==> !Eq(cleaned, nodata))
  {
    QualityCodeMeaning(diskDsm, nodata, slopeThreshold, fourConnexity, minValidHeight, scan, detect, i, j);
  }

  /** A sample the minimum-height rewrite removed is reported as inner
      no-data unless the border pass flagged it, provided the no-data value
      is a number. */
  lemma LowSampleIsInnerNodata(diskDsm: Grid<Sample>, nodata: Sample, slopeThreshold: real, fourConnexity: bool,
                               minValidHeight: Option<Sample>, scan: RowScan, detect: DisturbanceDetector, i: nat, j: nat)
    requires diskDsm.Valid() && i < diskDsm.height && j < diskDsm.width
    requires nodata.Num? && Truthy(minValidHeight) && Lt(diskDsm.cells[i][j], minValidHeight.value)
    requires !BuildBorderNodataMask(diskDsm, nodata, scan).cells[i][j]
    ensures
      var m := BuildMasks(diskDsm, nodata, slopeThreshold, fourConnexity, minValidHeight, scan, detect);
      Fuse(m.border, m.inner, m.disturbed).cells[i][j] == InnerNodataCode
  {
    QualityCodeMeaning(diskDsm, nodata, slopeThreshold, fourConnexity, minValidHeight, scan, detect, i, j);
  }

  /** With a NaN no-data value, the border and disturbance masks are those
      of the DSM with its NaN samples replaced by the sentinel, and the
      inner no-data mask is empty. */
  lemma NaNNodataMasks(diskDsm: Grid<Sample>, slopeThreshold: real, fourConnexity: bool,
                       minValidHeight: Option<Sample>, scan: RowScan, detect: DisturbanceDetector)
    requires diskDsm.Valid()
    ensures
      var m := BuildMasks(diskDsm, NaN, slopeThreshold, fourConnexity, minValidHeight, scan, detect);
      var s := BuildMasks(NanToNum(diskDsm), NoDataValue, slopeThreshold, fourConnexity, minValidHeight, scan, detect);
      && m.border == s.border
      && m.disturbed == s.disturbed
      && m.inner == Constant(diskDsm.height, diskDsm.width, false)
  {
    var m := BuildMasks(diskDsm, NaN, slopeThreshold, fourConnexity, minValidHeight, scan, detect);
    Extensionality(m.border, BuildBorderNodataMask(NanToNum(diskDsm), NoDataValue, scan));
    DisturbanceNaNNodataSameAsSentinel(diskDsm, slopeThreshold, fourConnexity, detect);
    InnerMaskEmptyForNaN(m.border, MinValidHeightRewrite(diskDsm, minValidHeight, NaN));
  }

  /** The pipeline's two rasters and the profiles they are written with. */
  method PreprocessPipeline(diskDsm: Grid<Sample>, dataset: Profile, nodata: Option<Sample>,
                            slopeThreshold: real, fourConnexity: bool, minValidHeight: Option<Sample>,
                            scan: RowScan, detect: DisturbanceDetector)
    returns (preprocessedDsm: array2<Sample>, preprocessedProfile: Profile,
             qualityMask: array2<Byte>, qualityProfile: Profile)
    requires diskDsm.Valid()
    ensures fresh(preprocessedDsm) && fresh(preprocessedProfile) && fresh(qualityMask) && fresh(qualityProfile)
    ensures
      var nd := ResolveNodata(nodata);
      var m := BuildMasks(diskDsm, nd, slopeThreshold, fourConnexity, minValidHeight, scan, detect);
      && Contents(qualityMask) == Fuse(m.border, m.inner, m.disturbed)
      && Contents(preprocessedDsm) == MaskedAssign(MinValidHeightRewrite(diskDsm, minValidHeight, nd), m.disturbed, nd)
      && preprocessedProfile.nodata == Some(nd)
    ensures preprocessedProfile.dtype == dataset.dtype && preprocessedProfile.count == dataset.count
    ensures preprocessedProfile.width == dataset.width && preprocessedProfile.height == dataset.height
    ensures qualityProfile.dtype == UInt8 && qualityProfile.count == 1 && qualityProfile.nodata == None
    ensures qualityProfile.width == dataset.width && qualityProfile.height == dataset.height
  {
    var nd := ResolveNodata(nodata);

    var dsm := NewArray(diskDsm);
    if Truthy(minValidHeight) {
      dsm := NewArray(BelowToNodata(Contents(dsm), minValidHeight.value, nd));
    }

    preprocessedProfile := dataset.Copy();
    preprocessedProfile.nodata := Some(nd);

    var border := BuildBorderNodataMask(diskDsm, nd, scan);
    var inner := InnerNodataMask(border, Contents(dsm), nd);
    var disturbed := BuildDisturbanceMask(diskDsm, nd, slopeThreshold, fourConnexity, detect);

    qualityProfile := dataset.Copy();
    qualityMask := WriteQualityMask(border, inner, disturbed, qualityProfile);

    AssignWhere(dsm, disturbed, nd);
    preprocessedDsm := dsm;
  }
}
