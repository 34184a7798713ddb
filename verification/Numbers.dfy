/** The smaller and the larger of two integers, and lists of positions. */
module Numbers {
  function Min(a: int, b: int): (m: int)
    ensures m <= a && m <= b && (m == a || m == b)
  {
    if b < a then b else a
  }

  function Max(a: int, b: int): (m: int)
    ensures a <= m && b <= m && (m == a || m == b)
  {
    if a < b then b else a
  }

  /** Positions below n in strictly increasing order. */
  predicate Increasing(picks: seq<nat>, n: nat) {
    && (forall k :: 0 <= k < |picks| ==> picks[k] < n)
    && (forall i, j :: 0 <= i < j < |picks| ==> picks[i] < picks[j])
  }
}
