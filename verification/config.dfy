/** Build-time configuration shared by every launcher: the integer types a
    kernel may index with, the element types it may be instantiated for, and
    the feature flags that enable the optional ones. */
module Config {

  /** `std::numeric_limits<int32_t>::max()`. */
  const Int32Max: nat := 0x7FFF_FFFF

  /** `std::numeric_limits<int64_t>::max()`. */
  const Int64Max: nat := 0x7FFF_FFFF_FFFF_FFFF

  /** The `Index` template argument of a kernel. */
  datatype IndexWidth = Int32 | Int64

  /** The largest count an index of width `w` can hold. */
  function IndexMax(w: IndexWidth): (m: nat)
    ensures m >= Int32Max
  {
    match w
    case Int32 => Int32Max
    case Int64 => Int64Max
  }

  /** The element type `T`; nothing in the dispatch depends on it beyond
      whether it was instantiated. */
  datatype DataType = Float | Half | Double

  /** The compile-time feature flags SNN_USE_INT64, SNN_USE_HALF and
      SNN_USE_DOUBLE. */
  datatype Build = Build(useInt64: bool, useHalf: bool, useDouble: bool)

  /** `float` is always instantiated; `half` and `double` only behind their flags. */
  predicate TypeEnabled(b: Build, t: DataType)
  {
    match t
    case Float => true
    case Half => b.useHalf
    case Double => b.useDouble
  }
}
