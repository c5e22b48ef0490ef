/** Arithmetic that several modules share, an option type and a law of sequences. */
module Numbers {

  datatype Option<+T> = None | Some(value: T)

  function Min(a: real, b: real): real { if b < a then b else a }

  function Max(a: real, b: real): real { if a < b then b else a }

  function Fabs(a: real): real { if a < 0.0 then -a else a }

  function Bound(x: real, low: real, high: real): (y: real)
    requires low <= high
    ensures low <= y <= high && (low <= x <= high ==> y == x) && (x < low ==> y == low) && (x > high ==> y == high)
  {
    if x < low then low else if high < x then high else x
  }

  lemma Multiples(a: int, b: int, c: int)
    requires c >= 0 && a <= b
    ensures c * a <= c * b
  {}

  lemma Regroup<T>(a: seq<T>, b: seq<T>, c: seq<T>)
    ensures a + b + c == a + (b + c)
  {}
}
