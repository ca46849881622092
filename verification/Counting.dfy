/** How many rows before a place satisfy a predicate. */
module Counting {
  function CountBefore<T>(rows: seq<T>, counted: T -> bool, k: nat): (n: nat)
    requires k <= |rows|
    ensures n <= k
  {
    if k == 0 then 0 else CountBefore(rows, counted, k - 1) + if counted(rows[k - 1]) then 1 else 0
  }

  /** Rows from the place on do not matter. */
  lemma {:induction false} CountInPrefix<T>(rows: seq<T>, counted: T -> bool, n: nat, k: nat)
    requires k <= n <= |rows|
    ensures CountBefore(rows[..n], counted, k) == CountBefore(rows, counted, k)
  {
    if k == 0 {
    } else {
      CountInPrefix(rows, counted, n, k - 1);
    }
  }

  lemma {:induction false} CountRises<T>(rows: seq<T>, counted: T -> bool, j: nat, k: nat)
    requires j <= k <= |rows|
    ensures CountBefore(rows, counted, j) <= CountBefore(rows, counted, k)
    ensures j < k && counted(rows[j]) ==> CountBefore(rows, counted, j) < CountBefore(rows, counted, k)
  {
    if j == k {
    } else {
      CountRises(rows, counted, j, k - 1);
    }
  }

  /** The place up to which there are exactly so many. */
  lemma {:induction false} PlaceOfCount<T>(rows: seq<T>, counted: T -> bool, k: nat, count: nat) returns (m: nat)
    requires k <= |rows| && CountBefore(rows, counted, k) >= count
    ensures m <= k && CountBefore(rows, counted, m) == count
  {
    if CountBefore(rows, counted, k) == count {
      m := k;
    } else {
      m := PlaceOfCount(rows, counted, k - 1, count);
    }
  }
}
