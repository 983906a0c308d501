/** Small shared vocabulary: optional values, the two forms of a name, and
    minimum/maximum. */
module Prelude {
  datatype Option<+T> = None | Some(value: T)
  {
    function GetOr(default: T): T {
      if Some? then value else default
    }
    /** Python's `a or b` on a value where "empty" is represented by None. */
    function Or(other: Option<T>): Option<T> {
      if Some? then this else other
    }
  }

  /** The preferred value where there is one, else the other. */
  predicate Chosen<T(==)>(got: Option<T>, preferred: Option<T>, other: Option<T>) {
    got == if preferred.Some? then preferred else other
  }

  /** `norm` is the identity form of a name, `grouping` the form albums are
      compared by, which also drops edition suffixes, `stem` a file name without
      its suffix. */
  datatype Naming = Naming(norm: string -> string, grouping: string -> string, stem: string -> string)

  /** Names are compared as they are. */
  const VERBATIM := Naming(s => s, s => s, s => s)

  function Max(x: real, y: real): real { if x < y then y else x }

  function Min(x: real, y: real): real { if x < y then x else y }
}
