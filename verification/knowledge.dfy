/** Knowledge sets: the secrets a peer holds are the identities of peers. */
module Knowledge {

  /** The identities 0 .. n-1: every secret of a group of `n` devices. */
  function Range(n: int): set<int>
    decreases n
  {
    if n <= 0 then {} else {n - 1} + Range(n - 1)
  }

  /** `Range(n)` holds exactly the identities 0 .. n-1. */
  lemma {:induction false} RangeMembers(n: int, i: int)
    ensures i in Range(n) <==> 0 <= i < n
    decreases n
  {
    if n > 0 {
      RangeMembers(n - 1, i);
    }
  }

  /** A group of `n` devices has exactly `n` secrets. */
  lemma {:induction false} RangeSize(n: nat)
    ensures |Range(n)| == n
  {
    if n > 0 {
      RangeSize(n - 1);
      RangeMembers(n - 1, n - 1);
    }
  }

  /** The secrets of fewer devices are among those of more devices. */
  lemma RangeMono(a: int, b: int)
    requires a <= b
    ensures Range(a) <= Range(b)
    ensures Range(a) + Range(b) == Range(b)
  {
    forall i | i in Range(a)
      ensures i in Range(b)
    {
      RangeMembers(a, i);
      RangeMembers(b, i);
    }
  }
}
