/** Identities, optional values and the integer rounding shared by the rating
    engine and the house account. */
module Common {

  /** A player's identity. The bot keys ranked players by Discord id and duo
      teams by PlayFab id; the model uses one id for both. */
  type PlayerId = nat

  datatype Option<T> = None | Some(value: T)

  function Min(a: int, b: int): int { if a <= b then a else b }

  function Max(a: int, b: int): int { if a <= b then b else a }

  /** Python's built-in round() applied to an exact real: the nearest integer,
      and on a tie the even one of the two neighbours. */
  function RoundHalfEven(x: real): (n: int)
    ensures x - 0.5 <= n as real <= x + 0.5
    ensures (n as real == x - 0.5 || n as real == x + 0.5) ==> n % 2 == 0
  {
    var f := x.Floor;
    var frac := x - f as real;
    if frac < 0.5 then f
    else if frac > 0.5 then f + 1
    else if f % 2 == 0 then f
    else f + 1
  }

  /** round() never moves a value across an integer bound it is already past:
      a value at least m rounds to at least m. */
  lemma RoundAtLeast(x: real, m: int)
    requires m as real <= x
    ensures m <= RoundHalfEven(x)
  {
  }

  /** Symmetrically, a value at most m rounds to at most m. */
  lemma RoundAtMost(x: real, m: int)
    requires x <= m as real
    ensures RoundHalfEven(x) <= m
  {
  }

  /** An integral value is left as it is. */
  lemma RoundOfInteger(m: int)
    ensures RoundHalfEven(m as real) == m
  {
    RoundAtLeast(m as real, m);
    RoundAtMost(m as real, m);
  }
}
