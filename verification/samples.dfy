/** Elevation samples of a floating-point DSM and the comparisons the
    preprocessing applies to them. Only `==` and `<` are ever evaluated on
    samples, so no arithmetic is modelled; NaN follows IEEE 754 rules. */
module Samples {
  import opened Wrappers

  /** One DSM sample: a finite value or NaN. */
  datatype Sample = Num(v: real) | NaN

  /** `NO_DATA_VALUE`, the sentinel used when no no-data value is given and
      the value NaN no-data is normalised to. */
  const NoDataValue: Sample := Num(-32768.0)

  /** numpy's `==` on floats: NaN is equal to nothing, not even NaN. */
  predicate Eq(a: Sample, b: Sample)
  {
    a.Num? && b.Num? && a.v == b.v
  }

  /** numpy's `<` on floats: every comparison with NaN is false. */
  predicate Lt(a: Sample, b: Sample)
  {
    a.Num? && b.Num? && a.v < b.v
  }

  /** Python truthiness of an optional float, as in `if minValidHeight:`.
      `None` and zero are false; every other value, NaN included, is true. */
  predicate Truthy(m: Option<Sample>)
  {
    m.Some? && m.value != Num(0.0)
  }
}
