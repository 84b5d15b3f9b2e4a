/**
 * Records as delivered by the host: a row maps column names to loosely typed
 * JavaScript values.
 */
module Rows {
  import opened Options

  /**
   * A JavaScript value found in a row.
   *  - `Undefined` is what a lookup of a missing key yields (and an explicit `undefined`);
   *  - `Num(x)` is a finite number; `NonFinite` is NaN, Infinity or -Infinity;
   *  - `Str` is a string and `Other` any other value (boolean, list, object).
   * `parseFloat` is not re-implemented: a string or other value carries `parsed`,
   * what `parseFloat` reads from its string form (`None` when that is NaN or infinite).
   */
  datatype Value =
    | Undefined
    | Null
    | Num(x: real)
    | NonFinite
    | Str(text: string, parsed: Option<real>)
    | Other(parsed: Option<real>)

  type Row = map<string, Value>

  /** `row[k]`: a missing key reads as `undefined`. */
  function Get(row: Row, k: string): (v: Value) {
    if k in row then row[k] else Undefined
  }

  /** `k in row && row[k] != null`: present, and neither null nor undefined (loose `!=`). */
  predicate IsSet(row: Row, k: string) {
    k in row && !row[k].Null? && !row[k].Undefined?
  }

  /** `Number.isFinite(v)`: true only of a finite number, never of a string (no coercion). */
  predicate IsFiniteNumber(v: Value) {
    v.Num?
  }

  /** `parseFloat(v)`, with `None` standing for a non-finite result. */
  function ParseFloat(v: Value): (r: Option<real>)
    ensures v.Num? ==> r == Some(v.x)
    ensures v.Null? || v.Undefined? || v.NonFinite? ==> r == None
  {
    match v
    case Num(x) => Some(x)
    case Str(_, p) => p
    case Other(p) => p
    case _ => None
  }
}
