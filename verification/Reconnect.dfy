/** The reconnect loop of the hub client: how long it sleeps after each session.
    A session's outcome (true for a clean close) is an input. */
module Reconnect {
  import opened Common

  const DEFAULT_RECONNECT_DELAY: nat := 5
  const MAX_RECONNECT_DELAY: nat := 300

  function Pow2(k: nat): nat {
    if k == 0 then 1 else 2 * Pow2(k - 1)
  }

  /** Iterations since the delay was last the initial one: at the start, or at a
      clean close. */
  function SinceReset(clean: seq<bool>, i: nat): nat
    requires i < |clean|
  {
    if clean[i] || i == 0 then 0 else 1 + SinceReset(clean, i - 1)
  }

  function Backoff(k: nat): nat {
    Min(MAX_RECONNECT_DELAY, DEFAULT_RECONNECT_DELAY * Pow2(k))
  }

  lemma BackoffDoubles(k: nat)
    ensures Min(Backoff(k) * 2, MAX_RECONNECT_DELAY) == Backoff(k + 1)
  {
    assert Pow2(k + 1) == 2 * Pow2(k);
  }

  function Sleep(clean: seq<bool>, i: nat): nat
    requires i < |clean|
  {
    Backoff(SinceReset(clean, i))
  }

  /** The delay on entry to the i-th iteration. */
  function Delay(clean: seq<bool>, i: nat): nat
    requires i <= |clean|
  {
    if i == 0 then DEFAULT_RECONNECT_DELAY else Backoff(SinceReset(clean, i - 1) + 1)
  }

  lemma OneIteration(clean: seq<bool>, i: nat)
    requires i < |clean|
    ensures Sleep(clean, i) == if clean[i] then DEFAULT_RECONNECT_DELAY else Delay(clean, i)
    ensures Min(Sleep(clean, i) * 2, MAX_RECONNECT_DELAY) == Delay(clean, i + 1)
  {
    BackoffDoubles(SinceReset(clean, i));
    assert Pow2(0) == 1;
  }

  method Run(clean: seq<bool>) returns (slept: seq<nat>)
    ensures |slept| == |clean|
    ensures forall i | 0 <= i < |clean| :: slept[i] == Sleep(clean, i)
  {
    var delay := DEFAULT_RECONNECT_DELAY;
    slept := [];
    for i := 0 to |clean|
      invariant |slept| == i
      invariant forall j | 0 <= j < i :: slept[j] == Sleep(clean, j)
      invariant delay == Delay(clean, i)
    {
      if clean[i] {
        delay := DEFAULT_RECONNECT_DELAY;
      }
      OneIteration(clean, i);
      slept := slept + [delay];
      delay := Min(delay * 2, MAX_RECONNECT_DELAY);
    }
  }

  lemma {:induction false} Pow2Grows(j: nat, k: nat)
    requires j <= k
    ensures 1 <= Pow2(j) <= Pow2(k)
    decreases k
  {
    if j < k {
      Pow2Grows(j, k - 1);
    } else if k > 0 {
      Pow2Grows(k - 1, k - 1);
    }
  }

  /** Between resets the sleep never decreases, stays between the two constants,
      and reaches the cap from the sixth doubling on. */
  lemma BackoffShape(j: nat, k: nat)
    requires j <= k
    ensures DEFAULT_RECONNECT_DELAY <= Backoff(j) <= Backoff(k) <= MAX_RECONNECT_DELAY
    ensures Backoff(k) == MAX_RECONNECT_DELAY <==> 6 <= k
  {
    Pow2Grows(j, k);
    if k >= 6 {
      Pow2Grows(6, k);
      assert Pow2(6) == 64;
    } else {
      Pow2Grows(k, 5);
      assert Pow2(5) == 32;
    }
  }

  /** The first sleep and the one after a clean close are 5 s, any other is twice the one
      before, up to 300 s. */
  lemma SleepDoubles(clean: seq<bool>, i: nat)
    requires i < |clean|
    ensures clean[i] || i == 0 ==> Sleep(clean, i) == 5
    ensures !clean[i] && i > 0 ==>
              Sleep(clean, i) == if 2 * Sleep(clean, i - 1) <= 300 then 2 * Sleep(clean, i - 1) else 300
  {
    assert Pow2(0) == 1;
    if !clean[i] && i > 0 {
      BackoffDoubles(SinceReset(clean, i - 1));
    }
  }

  /** The closed form: k iterations after the last reset, at j, the sleep is
      min(300, 5 * 2^k). */
  lemma {:induction false} SleepAfterReset(clean: seq<bool>, j: nat, k: nat)
    requires j + k < |clean| && (clean[j] || j == 0)
    requires forall i | j < i <= j + k :: !clean[i]
    ensures Sleep(clean, j + k) == if 5 * Pow2(k) <= 300 then 5 * Pow2(k) else 300
  {
    SleepDoubles(clean, j + k);
    assert Pow2(0) == 1;
    if k > 0 {
      SleepAfterReset(clean, j, k - 1);
      assert Pow2(k) == 2 * Pow2(k - 1);
    }
  }

  /** Whatever the outcomes were, a clean close is followed by the initial delay and
      every other session by a delay no shorter than the previous one. */
  lemma SleepsInARun(clean: seq<bool>, i: nat)
    requires 0 < i < |clean|
    ensures clean[i] ==> Sleep(clean, i) == DEFAULT_RECONNECT_DELAY
    ensures !clean[i] ==> Sleep(clean, i - 1) <= Sleep(clean, i)
  {
    BackoffShape(SinceReset(clean, i - 1), SinceReset(clean, i - 1) + 1);
  }
}
