/** What a file write can do. */
module Device {
  /** That many bytes at most, an error, or death once that many bytes are written. */
  datatype WriteAnswer = Writes(count: nat) | Throws | Dies(after: nat)

  function Min(a: nat, b: nat): (r: nat)
    ensures r <= a && r <= b && (r == a || r == b)
  {
    if a < b then a else b
  }

  /** What a file written by rename holds: its old content or the new, and the new for sure once that is reported. */
  predicate Replaced<T(==)>(before: T, intended: T, after: T, reported: bool) {
    (after == before || after == intended) && (reported ==> after == intended)
  }
}
