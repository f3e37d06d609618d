# Bulldozer DSM preprocessing: mask fusion and DSM cleaning

This project models the preprocessing stage of Bulldozer
(`src/bulldozer/preprocessing/dsm_preprocess.py`). The stage takes a Digital
Surface Model (DSM) and produces two outputs for terrain extraction:

- a *quality mask*: one byte per pixel, 0 = valid, 1 = inner no-data,
  2 = disturbed, 3 = border no-data;
- a *cleaned DSM*: the DSM with every disturbed pixel set to the no-data value.

The model covers:

- the no-data default (`-32768`);
- the optional minimum-valid-height rewrite (`np.where`);
- the border no-data wrapper. It replaces a NaN no-data value and NaN samples
  by the sentinel, then scans the DSM or its transpose. The flag is named
  backwards: `doTranspose=False` is the pass that transposes;
- the merge of the two border passes with `np.logical_and`;
- the inner no-data mask;
- the `!= 0` step of the disturbance mask;
- the three ordered overwrite passes of `write_quality_mask`;
- the in-place masked assignment that cleans the DSM;
- the profile updates.

The module layout follows the pipeline:

- `samples.dfy`: samples, `Num(real) | NaN`. `==` and `<` follow IEEE 754, so NaN equals nothing.
- `grids.dfy`: rasters as values, plus the element-wise numpy operations and `.T`.
- `rasters.dfy`: arrays updated in place, and `a[mask] = x`.
- `profiles.dfy`: the profile dictionary as a class, and `generate_output_profile_for_mask`.
- `border_nodata.dfy`: `border_nodata_computer` and `build_border_nodata_mask`.
- `disturbance.dfy`: `disturbedAreasComputer` and `build_disturbance_mask`.
- `quality_mask.dfy`: `write_quality_mask`.
- `preprocess.dfy`: `preprocess_pipeline`.

The native detectors `PyBorderNodata` and `PyDisturbedAreas` are parameters of
the model. Their types are subset types of function types (`RowScan` and
`DisturbanceDetector`), and the only thing their constraint says is that the
output mask has the shape of the input. The detectors' internal rules are
therefore not modelled. The tiled executor `scaleRun` is treated as running its
per-tile computer once over the whole DSM.

The pipeline reads two different DSMs, and the model keeps them as separate
values. The border and disturbance masks come from the on-disk DSM
(`diskDsm`, the one input). The inner mask comes from the in-memory DSM,
derived from it as `MinValidHeightRewrite(diskDsm, …)`.

`Preprocess.BuildMasks` and `Preprocess.PreprocessPipeline` model the pipeline
with the corrected disturbance computer (`Disturbance.DisturbedAreasComputer`,
see "## Findings"). With a NaN no-data value the code as written raises inside
`disturbedAreasComputer` and so aborts at line 273: it produces no disturbance
mask, no quality mask and no cleaned DSM.

Points of behaviour worth knowing:

- **Missing no-data value.** When `nodata` is `None`, the pipeline uses
  `-32768`. It does not read the DSM's own profile; a comment says the caller
  has already done that.
- **NaN no-data value.** The sentinel replaces NaN only inside the border
  computer (and inside the corrected disturbance computer). The pipeline's
  `dsm == nodata` still compares against NaN, so the inner mask is empty.
  With the corrected disturbance computer, interior NaN holes are therefore
  not coded 1, and the inner mask differs from that of the DSM pre-converted
  to -32768; the border and disturbance masks are the same as for the
  pre-converted DSM (`Preprocess.NaNNodataMasks`).
- **Profiles are copies.** rasterio's `dataset.profile` builds a new dictionary
  on every access. `write_quality_mask` changes its own copy, so the
  preprocessed DSM keeps the dataset's dtype and count
  (`Profiles.Profile.Copy`, `Preprocess.PreprocessPipeline`).

## Model

| member | source | states |
|---|---|---|
| `Grids.Transpose` | src/bulldozer/preprocessing/dsm_preprocess.py:78-79 | `.T` swaps height and width, and pixel (i, j) of the result is pixel (j, i) of the input |
| `Grids.TransposeInvolution` | src/bulldozer/preprocessing/dsm_preprocess.py:78-79 | transposing twice gives back the original grid, so transposing the scan's result restores the DSM's shape and orientation |
| `Grids.And` | src/bulldozer/preprocessing/dsm_preprocess.py:124 | `np.logical_and` keeps the shape, and a pixel is set exactly when it is set in both operands |
| `Grids.AndCommutes` | src/bulldozer/preprocessing/dsm_preprocess.py:124 | swapping the two operands of the merge gives the same mask |
| `Grids.MaskedAssign` | src/bulldozer/preprocessing/dsm_preprocess.py:215-217 | `g[mask] = x` as a value: the selected pixels become x and every other pixel is unchanged |
| `Rasters.AssignWhere` | src/bulldozer/preprocessing/dsm_preprocess.py:280 | the in-place `a[mask] = x` loop leaves the array equal to `MaskedAssign` of its old contents |
| `Rasters.NewArray` | src/bulldozer/preprocessing/dsm_preprocess.py:255-260 | a band read into memory, or `np.where`'s result, is a fresh array holding exactly the given grid |
| `Profiles.Profile.Copy` | src/bulldozer/preprocessing/dsm_preprocess.py:262-263 | every access to `dataset.profile` yields a fresh dictionary with the same entries |
| `Profiles.GenerateOutputProfileForMask` | src/bulldozer/preprocessing/dsm_preprocess.py:46-49 | returns the very dictionary it was given, with dtype set to unsigned bytes and every other entry unchanged |
| `BorderNodata.NanToNum` | src/bulldozer/preprocessing/dsm_preprocess.py:67-68 | keeps the shape and leaves no NaN sample: NaN samples become -32768 and numbers are kept |
| `BorderNodata.Normalize` | src/bulldozer/preprocessing/dsm_preprocess.py:67-69 | the scan never gets a NaN no-data value. A NaN no-data value becomes -32768 and the DSM has its NaNs replaced. A numeric no-data value leaves both unchanged |
| `BorderNodata.BorderNodataComputer` | src/bulldozer/preprocessing/dsm_preprocess.py:64-79 | in both branches the pass returns a mask of the DSM's shape |
| `BorderNodata.ColumnPassIsTransposedRowPass` | src/bulldozer/preprocessing/dsm_preprocess.py:74-79 | the `doTranspose=False` pass equals the transpose of the `doTranspose=True` pass run on the transposed DSM |
| `BorderNodata.RowPassIsTransposedColumnPass` | src/bulldozer/preprocessing/dsm_preprocess.py:74-79 | the `doTranspose=True` pass equals the transpose of the `doTranspose=False` pass run on the transposed DSM |
| `BorderNodata.NanToNumTranspose` | src/bulldozer/preprocessing/dsm_preprocess.py:67-68 | replacing NaN samples commutes with transposing |
| `BorderNodata.NormalizeTranspose` | src/bulldozer/preprocessing/dsm_preprocess.py:67-69 | normalising the no-data value commutes with transposing the DSM |
| `BorderNodata.BuildBorderNodataMask` | src/bulldozer/preprocessing/dsm_preprocess.py:98-124 | the border mask has the DSM's shape, and a pixel is border exactly when both directional passes flag it |
| `BorderNodata.BorderMaskInsideEachPass` | src/bulldozer/preprocessing/dsm_preprocess.py:124 | every border pixel is flagged by each of the two passes |
| `BorderNodata.PassOrderIrrelevant` | src/bulldozer/preprocessing/dsm_preprocess.py:104-124 | merging the passes in the other order gives the same border mask |
| `BorderNodata.BorderMaskTranspose` | src/bulldozer/preprocessing/dsm_preprocess.py:98-124 | the border mask of the transposed DSM is the transposed border mask, so it does not depend on the raster's orientation |
| `BorderNodata.NaNNodataSameAsSentinel` | src/bulldozer/preprocessing/dsm_preprocess.py:67-69 | a pass with NaN no-data gives the same mask as the DSM pre-converted to -32768 with -32768 as no-data |
| `Disturbance.DisturbedAreasComputerAsWritten` | src/bulldozer/preprocessing/dsm_preprocess.py:142-152 | the computer as written fails exactly when the no-data value is NaN. Otherwise it returns a mask of the DSM's shape |
| `Disturbance.DisturbedAreasComputer` | src/bulldozer/preprocessing/dsm_preprocess.py:142-152 | the corrected computer returns a mask of the DSM's shape. It agrees with the code as written wherever that succeeds. With NaN no-data it runs the detector on the sentinel-normalised DSM |
| `Disturbance.NaNNodataFailsAsWritten` | src/bulldozer/preprocessing/dsm_preprocess.py:144-146 | a one-pixel NaN DSM with NaN no-data makes the code as written raise, and the corrected computer hands the detector the sentinel |
| `Disturbance.BuildDisturbanceMask` | src/bulldozer/preprocessing/dsm_preprocess.py:182-190 | the disturbed mask has the DSM's shape, and a pixel is disturbed exactly when the detector's byte is non-zero |
| `Disturbance.DisturbanceNaNNodataSameAsSentinel` | src/bulldozer/preprocessing/dsm_preprocess.py:144-151 | with the correction, a NaN no-data DSM gives the same disturbed mask as the DSM pre-converted to the sentinel |
| `QualityMask.Classify` | src/bulldozer/preprocessing/dsm_preprocess.py:215-217 | reference priority border > inner > disturbed > valid. Each code is given exactly when its condition holds and no condition of higher priority does. All codes are at most 3 |
| `QualityMask.Fuse` | src/bulldozer/preprocessing/dsm_preprocess.py:208-217 | the zero raster overwritten with 2, then 1, then 3 has the inner mask's shape and gives every pixel the priority classification |
| `QualityMask.FuseRange` | src/bulldozer/preprocessing/dsm_preprocess.py:208-217 | every pixel of the quality mask is one of 0, 1, 2, 3 |
| `QualityMask.WriteQualityMask` | src/bulldozer/preprocessing/dsm_preprocess.py:208-217 | the three in-place passes produce a fresh array equal to `Fuse`. The profile becomes uint8, count 1, no no-data, with width and height unchanged |
| `Preprocess.ResolveNodata` | src/bulldozer/preprocessing/dsm_preprocess.py:248-250 | a missing no-data value becomes -32768, and a given one is kept |
| `Preprocess.BelowToNodata` | src/bulldozer/preprocessing/dsm_preprocess.py:260 | samples strictly below the threshold become no-data, and all others, NaN included, are kept |
| `Preprocess.MinValidHeightRewrite` | src/bulldozer/preprocessing/dsm_preprocess.py:258-260 | a falsy threshold (None or 0) leaves the DSM untouched; a truthy one applies `BelowToNodata` with its value. NaN samples stay NaN. Every sample is either kept or becomes no-data |
| `Preprocess.NothingLeftBelowMinValidHeight` | src/bulldozer/preprocessing/dsm_preprocess.py:258-260 | after the rewrite, a sample below the threshold can only be the no-data value |
| `Preprocess.MinValidHeightRewriteIdempotent` | src/bulldozer/preprocessing/dsm_preprocess.py:258-260 | a second rewrite changes nothing |
| `Preprocess.InnerNodataMask` | src/bulldozer/preprocessing/dsm_preprocess.py:268 | a pixel is inner no-data exactly when its sample equals no-data (IEEE) and it is not border, so inner and border are disjoint |
| `Preprocess.InnerMaskEmptyForNaN` | src/bulldozer/preprocessing/dsm_preprocess.py:268 | with a NaN no-data value the inner mask is empty |
| `Preprocess.BuildMasks` | src/bulldozer/preprocessing/dsm_preprocess.py:265-273 | the three masks have the DSM's shape, and border and inner never overlap |
| `Preprocess.QualityCodeMeaning` | src/bulldozer/preprocessing/dsm_preprocess.py:265-278 | per pixel: 3 iff border; 1 iff not border and the rewritten DSM holds no-data; 2 iff neither and disturbed; 0 otherwise |
| `Preprocess.CleanedDsmMatchesQualityMask` | src/bulldozer/preprocessing/dsm_preprocess.py:273-280 | pixels coded 1 or 2 hold no-data in the cleaned DSM, and pixels coded 0 hold a sample not equal to it |
| `Preprocess.LowSampleIsInnerNodata` | src/bulldozer/preprocessing/dsm_preprocess.py:258-268 | with a numeric no-data value, a sample removed for being below the minimum valid height is coded 1 unless the border passes flag it |
| `Preprocess.NaNNodataMasks` | src/bulldozer/preprocessing/dsm_preprocess.py:265-273 | with NaN no-data and the corrected disturbance computer, the border and disturbed masks equal those of the sentinel-converted DSM, and the inner mask is empty |
| `Preprocess.PreprocessPipeline` | src/bulldozer/preprocessing/dsm_preprocess.py:222-290 | with the corrected disturbance computer, the quality mask equals `Fuse` of the masks. The cleaned DSM equals the rewritten DSM with the disturbed pixels set to no-data. The DSM profile carries the resolved no-data value and keeps the dataset's dtype and count. The mask profile is uint8, count 1, with no no-data |

## Left out

- Preprocess.PreprocessPipeline: models the pipeline with the corrected disturbance computer; the code as written aborts at line 273 with `UnboundLocalError` when the no-data value is NaN, and that failure of the whole run is not modelled (it is shown for the computer alone by `Disturbance.NaNNodataFailsAsWritten`).
- Raster I/O is not modelled: `rasterio.open`, `read`, `write_dataset`, the output paths and the returned path strings. The DSM band is an input, and the two rasters and their profiles are returned.
- The tiled executor `scaleRun` is not modelled: its tiling, margins, `inMemory` buffers and worker parallelism. Its source is not part of this model, and its output is taken to be the per-tile computer applied to the whole DSM.
- The native `PyBorderNodata` and `PyDisturbedAreas` detectors are foreign code. They appear only as shape-preserving functions. The row-scan rule (a border pixel is connected to the edge through no-data) and the slope rule, with its monotonicity in the threshold, are therefore not stated.
- `bulldozer/preprocessing/regular_detection/regular_detector.py` is not part of this model. It is a wrapper over a Cython detector and the eoscale executor.
- Logging, the `@Runtime` timing decorator, `tqdm` and the unused `fillnodata`/`ndimage` imports are left out. They do not affect any result.
- Floating point: samples are finite reals or NaN. Infinities, and `nan_to_num`'s replacement of them, are not modelled. Neither are dtype conversions of `np.where` on integer DSMs.
- `BorderNodata.NanToNum`: `copy=False` rewrites the tile buffer in place. The model returns a new value, because the buffer is not read again.
- `BorderNodata.BorderNodataComputer`: with its default `nodata=None`, `build_border_nodata_mask` would fail in `np.isnan`. The pipeline never passes `None`, so the no-data value is always a sample.
- `QualityMask.WriteQualityMask`: numpy raises `IndexError` when a mask's shape differs from the inner mask's. The pipeline always passes masks of one shape, so equal shapes are required rather than modelled as an error.
- Profiles keep only `dtype`, `count`, `nodata`, `width` and `height`. Georeferencing entries are passed through and not modelled, as are the `desc` entries of the parameter dictionaries.
- The output profiles that `scaleRun` receives from `generate_output_profile_for_mask` are not followed further. The masks stay in memory and that profile is never written.

## Findings

| source | as written | input that shows it | evidently intended | confidence | as-written member | corrected member |
|---|---|---|---|---|---|---|
| src/bulldozer/preprocessing/dsm_preprocess.py:144-151 | When the no-data value is NaN, `disturbedAreasComputer` calls `np.nan_to_num(dsm, …)` on a local `dsm` that has not been assigned, and raises `UnboundLocalError`. It also passes the unnormalised `params["nodata"]` and the original buffer to the detector | a DSM whose no-data value is NaN, for example the one-pixel DSM `[[NaN]]` with nodata NaN | normalise the buffer and the no-data value as `border_nodata_computer` does, then run the detector on the normalised pair | high (reading of the code; not executed) | `Disturbance.NaNNodataFailsAsWritten` | `Disturbance.DisturbedAreasComputer` |
