/**
 * The severity levels of spdlog, as far as parseLogLevel depends on them.
 *
 * parseLogLevel produces values of `spdlog::level::level_enum` in two ways:
 * by naming one of its enumerators (the name table) and by converting an
 * integer with `level_enum(i)`. The numbering of the enumerators is fixed
 * by the spdlog header, which is not part of this model, so both pieces are
 * kept abstract: a `LevelEnum<L>` bundles the value of each enumerator and
 * the integer conversion, for an arbitrary representation `L` of levels.
 */
module Spdlog {

  /** The six enumerators of `spdlog::level` that parseLogLevel names. */
  datatype Enumerator = Critical | Err | Warn | Info | Debug | Trace

  /**
   * What the spdlog header decides: the level each enumerator denotes,
   * and the level `level_enum(i)` denotes for an integer `i`.
   */
  datatype LevelEnum<L> = LevelEnum(constant: Enumerator -> L, cast: int -> L)

  /** The conversion `level_enum(i)` tells the integers 0 to 5 apart. */
  predicate CastInjective<L(==)>(e: LevelEnum<L>)
  {
    forall i, j :: 0 <= i <= 5 && 0 <= j <= 5 && e.cast(i) == e.cast(j) ==> i == j
  }
}
