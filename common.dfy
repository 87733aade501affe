/** Values shared by every module of the backend model: optional values,
    results, Python's `str.lower()` on the letters the backend compares,
    and the percentage formula the statistics use everywhere. */
module Common {

  datatype Option<+T> = None | Some(value: T) {
    /** `d.get(key, default)` once the lookup is done */
    function GetOr(default: T): T {
      if Some? then value else default
    }
  }

  /** A computation that either returns a value or raises an exception */
  datatype Result<+T, +E> = Ok(value: T) | Err(error: E)

  /** Lower-casing of one character; only ASCII letters change */
  function LowerChar(c: char): (r: char)
    ensures 'A' <= c <= 'Z' ==> 'a' <= r <= 'z' && r as int - c as int == 32
    ensures !('A' <= c <= 'Z') ==> r == c
  {
    if 'A' <= c <= 'Z' then (c as int + 32) as char else c
  }

  function Lower(s: string): (r: string)
    ensures |r| == |s|
    ensures forall i :: 0 <= i < |s| ==> r[i] == LowerChar(s[i])
  {
    if s == [] then [] else [LowerChar(s[0])] + Lower(s[1..])
  }

  /** Python's `max(a, b)` */
  function Max(a: int, b: int): (m: int)
    ensures a <= m && b <= m && (m == a || m == b)
  {
    if a < b then b else a
  }

  /** Python's `min(a, b)` */
  function Min(a: int, b: int): (m: int)
    ensures m <= a && m <= b && (m == a || m == b)
  {
    if a < b then a else b
  }

  /** `part / whole * 100` when `whole > 0`, else 0, as the backend writes it */
  function Percentage(part: nat, whole: nat): (p: real)
    ensures whole == 0 ==> p == 0.0
    ensures 0 < whole ==> p * (whole as real) == (part as real) * 100.0
    ensures 0.0 <= p
    ensures part <= whole ==> p <= 100.0
  {
    if whole > 0 then
      var q := part as real / whole as real;
      assert q * (whole as real) == part as real;
      assert part <= whole ==> q <= 1.0;
      q * 100.0
    else 0.0
  }
}
