/** Small value types shared by the models: an optional value and the
    conversion of detector output fields with Python's `int(...)`. */
module Basics {

  datatype Option<+T> = None | Some(value: T)

  /** One element of a detector/tracker row: a number, or anything that
      `int(...)` / `float(...)` refuses with a ValueError. */
  datatype Field = Number(value: real) | Unparsable

  /** Python `int(x)` on a float: truncation toward zero. */
  function Truncate(x: real): (r: int)
    ensures x >= 0.0 ==> r as real <= x < r as real + 1.0
    ensures x < 0.0 ==> r as real - 1.0 < x <= r as real
  {
    if x >= 0.0 then x.Floor else -((-x).Floor)
  }

  /** Python floor division `a // 2`; Dafny's `/` by a positive divisor
      rounds toward negative infinity as Python's does. */
  function HalfFloor(a: int): (r: int)
    ensures 2 * r <= a < 2 * r + 2
  {
    a / 2
  }

  /** The dictionary keys the programs read and write, one constructor per
      key string: 'north', 'south', 'east', 'west', 'emergency', 'light_ns',
      'emergency_ns', 'emergency_ew', 'north_wait', 'south_wait', 'east_wait'
      and 'west_wait'. */
  datatype Key = KeyNorth | KeySouth | KeyEast | KeyWest | KeyEmergency | KeyLightNs
               | KeyEmergencyNs | KeyEmergencyEw | KeyNorthWait | KeySouthWait | KeyEastWait | KeyWestWait

  /** A dictionary of counts keyed by name. */
  type Counts = map<Key, nat>

  /** `counts.get(key, 0)`. */
  function Get(counts: Counts, key: Key): nat
  {
    if key in counts then counts[key] else 0
  }
}
