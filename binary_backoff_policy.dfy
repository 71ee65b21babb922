/** The binary backoff delay policy: each call sleeps for the stored delay and
    then doubles it. */
module BinaryBackoff {

  function Pow2(k: nat): (p: nat)
    ensures p >= 1
  {
    if k == 0 then 1 else 2 * Pow2(k - 1)
  }

  lemma {:induction false} Pow2StrictlyIncreasing(i: nat, j: nat)
    requires i < j
    ensures Pow2(i) < Pow2(j)
    decreases j
  {
    if i < j - 1 {
      Pow2StrictlyIncreasing(i, j - 1);
    }
  }

  /** The durations slept by k successive calls on a policy whose stored delay
      is d: sleep for d, then go on from the doubled delay. */
  function Schedule(d: int, k: nat): (s: seq<int>)
    ensures |s| == k
    decreases k
  {
    if k == 0 then [] else [d] + Schedule(2 * d, k - 1)
  }

  /** The j-th call (from 0) sleeps d * 2^j. */
  lemma {:induction false} ScheduleAt(d: int, k: nat, j: nat)
    requires j < k
    ensures Schedule(d, k)[j] == d * Pow2(j)
    decreases k
  {
    if j > 0 {
      ScheduleAt(2 * d, k - 1, j - 1);
      Doubled(d, Pow2(j - 1));
    }
  }

  lemma Doubled(d: int, p: int)
    ensures (2 * d) * p == d * (2 * p)
  {
  }

  /** With a positive seed the successive sleeps are strictly increasing. */
  lemma ScheduleIncreasing(d: int, k: nat)
    requires d > 0
    ensures forall i, j :: 0 <= i < j < k ==> Schedule(d, k)[i] < Schedule(d, k)[j]
  {
    var s := Schedule(d, k);
    forall i, j | 0 <= i < j < k ensures s[i] < s[j] {
      ScheduleAt(d, k, i);
      ScheduleAt(d, k, j);
      Pow2StrictlyIncreasing(i, j);
      ScaleStrictly(d, Pow2(i), Pow2(j));
    }
  }

  lemma ScaleStrictly(d: int, a: int, b: int)
    requires d > 0 && a < b
    ensures d * a < d * b
  {
  }

  /** One more call extends the schedule by the current delay times 2^k. */
  lemma ScheduleSnoc(d: int, k: nat)
    ensures Schedule(d, k + 1) == Schedule(d, k) + [d * Pow2(k)]
  {
    var s, t := Schedule(d, k + 1), Schedule(d, k) + [d * Pow2(k)];
    forall j | 0 <= j < k + 1 ensures s[j] == t[j] {
      ScheduleAt(d, k + 1, j);
      if j < k { ScheduleAt(d, k, j); }
    }
  }

  class BinaryBackoffPolicy {
    /** The delay the next call sleeps for; never reset. */
    var delay: int
    /** The object that made this policy and is the only one to hold it;
        bookkeeping for the proofs, not part of the Ruby object. */
    ghost const owner: object?

    constructor (initialDelay: int, ghost owner: object?)
      ensures delay == initialDelay && this.owner == owner
    {
      delay := initialDelay;
      this.owner := owner;
    }

    /** Sleeps for the stored delay (returned as the slept duration), then doubles it. */
    method Call() returns (slept: int)
      modifies this
      ensures slept == old(delay)
      ensures delay == 2 * old(delay)
    {
      slept := delay;
      delay := delay * 2;
    }
  }

  /** Three calls on a fresh policy seeded with 1 sleep 1, 2 and 4 seconds in order. */
  method DoublingExample() returns (slept: seq<int>)
    ensures slept == [1, 2, 4]
    ensures slept == Schedule(1, 3)
  {
    var policy := new BinaryBackoffPolicy(1, null);
    var a := policy.Call();
    var b := policy.Call();
    var c := policy.Call();
    slept := [a, b, c];
    assert Schedule(1, 3) == [1, 2, 4];
  }
}
