/** Small shared vocabulary: optional values, results and JavaScript's `||` on strings. */
module Common {

  datatype Option<+T> = None | Some(value: T)

  datatype Result<+T, +E> = Ok(value: T) | Err(error: E)

  /** `s || fallback` for a string `s`: the empty string is falsy. */
  function OrDefault(s: string, fallback: string): (r: string)
    ensures fallback != "" ==> r != ""
    ensures r == s || r == fallback
    ensures s != "" ==> r == s
  {
    if s != "" then s else fallback
  }

  /** 2 to the power `n`. */
  function Pow2(n: nat): (r: nat)
    ensures r >= 1
  {
    if n == 0 then 1 else 2 * Pow2(n - 1)
  }
}
