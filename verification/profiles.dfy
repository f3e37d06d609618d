/** Raster profiles: the metadata dictionary rasterio attaches to a band.
    Only the entries the preprocessing reads or writes are kept; the
    georeferencing entries are passed through untouched and not modelled. */
module Profiles {
  import opened Wrappers
  import opened Samples

  /** Pixel data types. numpy's `ubyte` and `uint8` are the same type. */
  datatype DType = UInt8 | Int16 | UInt16 | Int32 | Float32 | Float64

  /** A mutable profile dictionary. */
  class Profile {
    var dtype: DType
    var count: nat
    var nodata: Option<Sample>
    var width: nat
    var height: nat

    constructor (dtype: DType, count: nat, nodata: Option<Sample>, width: nat, height: nat)
      ensures this.dtype == dtype && this.count == count && this.nodata == nodata
      ensures this.width == width && this.height == height
    {
      this.dtype := dtype;
      this.count := count;
      this.nodata := nodata;
      this.width := width;
      this.height := height;
    }

    /** A dataset's `profile` attribute: every access builds a new
        dictionary, so changing one copy leaves the dataset and every other
        copy as they were. */
    method Copy() returns (p: Profile)
      ensures fresh(p)
      ensures p.dtype == dtype && p.count == count && p.nodata == nodata
      ensures p.width == width && p.height == height
    {
      p := new Profile(dtype, count, nodata, width, height);
    }
  }

  /** `generate_output_profile_for_mask`: sets the data type of the given
      profile to unsigned bytes and returns that same dictionary, so the
      caller's profile is changed too; no other entry changes. */
  method GenerateOutputProfileForMask(input: Profile) returns (output: Profile)
    modifies input
    ensures output == input
    ensures input.dtype == UInt8
    ensures input.count == old(input.count) && input.nodata == old(input.nodata)
    ensures input.width == old(input.width) && input.height == old(input.height)
  {
    output := input;
    output.dtype := UInt8;
  }
}
