/**
 * The shared page-scroll lock (src/lib/scrollLock.ts). A module-level counter
 * records how many overlapping modals hold the lock; the page body's
 * `overflow` style is "hidden" while any of them does and is cleared when the
 * last one lets go. Unlocking an unheld lock does nothing.
 */
module ScrollLock {

  const Hidden: string := "hidden"
  const Cleared: string := ""

  datatype Op = Lock | Unlock

  /** The counter after applying `ops` in order, starting from `start`. */
  function CountAfter(start: nat, ops: seq<Op>): (count: nat)
    ensures count <= start + |ops|
    ensures start >= |ops| ==> count >= start - |ops|
    decreases |ops|
  {
    if ops == [] then start
    else
      var next := if ops[0] == Lock then start + 1 else if start == 0 then 0 else start - 1;
      CountAfter(next, ops[1..])
  }

  /** `k` copies of the same operation. */
  function Repeat(op: Op, k: nat): (ops: seq<Op>)
    ensures |ops| == k
    ensures forall i :: 0 <= i < k ==> ops[i] == op
  {
    if k == 0 then [] else [op] + Repeat(op, k - 1)
  }

  /** The counter after `ops` is the counter after a prefix, carried through the rest. */
  lemma {:induction false} CountAfterAppend(start: nat, ops: seq<Op>, more: seq<Op>)
    ensures CountAfter(start, ops + more) == CountAfter(CountAfter(start, ops), more)
    decreases |ops|
  {
    if ops == [] {
      assert ops + more == more;
    } else {
      assert (ops + more)[1..] == ops[1..] + more;
      var next := if ops[0] == Lock then start + 1 else if start == 0 then 0 else start - 1;
      CountAfterAppend(next, ops[1..], more);
    }
  }

  /** Each lock raises the counter by one. */
  lemma {:induction false} LocksAdd(start: nat, k: nat)
    ensures CountAfter(start, Repeat(Lock, k)) == start + k
    decreases k
  {
    if k > 0 {
      assert Repeat(Lock, k)[1..] == Repeat(Lock, k - 1);
      LocksAdd(start + 1, k - 1);
    }
  }

  /** Each unlock lowers the counter by one, never below zero. */
  lemma {:induction false} UnlocksSubtract(start: nat, j: nat)
    ensures CountAfter(start, Repeat(Unlock, j)) == if j <= start then start - j else 0
    decreases j
  {
    if j > 0 {
      assert Repeat(Unlock, j)[1..] == Repeat(Unlock, j - 1);
      UnlocksSubtract(if start == 0 then 0 else start - 1, j - 1);
    }
  }

  /**
   * Overlapping modals: after `k` locks from an unlocked page, the page stays
   * locked through the first `k - 1` unlocks and is released by the `k`-th.
   */
  lemma NestedLocksRelease(k: nat, j: nat)
    ensures CountAfter(0, Repeat(Lock, k) + Repeat(Unlock, j)) == if j <= k then k - j else 0
    ensures CountAfter(0, Repeat(Lock, k) + Repeat(Unlock, j)) > 0 <==> j < k
  {
    CountAfterAppend(0, Repeat(Lock, k), Repeat(Unlock, j));
    LocksAdd(0, k);
    UnlocksSubtract(k, j);
  }

  /** Unlocking more often than locking leaves the counter at zero, never negative. */
  lemma ExtraUnlocksAreHarmless(k: nat, extra: nat)
    ensures CountAfter(0, Repeat(Lock, k) + Repeat(Unlock, k + extra)) == 0
  {
    NestedLocksRelease(k, k + extra);
  }

  /** The page's scroll lock: the shared counter and the body's overflow style. */
  class BodyScrollLock {
    var count: int
    var overflow: string

    /** The counter is never negative and the style is "hidden" exactly while it is positive. */
    ghost predicate Valid()
      reads this
    {
      count >= 0 && overflow == (if count > 0 then Hidden else Cleared)
    }

    /** The module's initial state: no lock held, no style set. */
    constructor ()
      ensures Valid()
      ensures count == 0 && overflow == Cleared
    {
      count := 0;
      overflow := Cleared;
    }

    /** lockScroll: one more holder, and the page stops scrolling. */
    method LockScroll()
      modifies this
      ensures count == old(count) + 1
      ensures overflow == Hidden
      ensures old(Valid()) ==> Valid()
    {
      count := count + 1;
      overflow := Hidden;
    }

    /** unlockScroll: one holder fewer (never below zero); the style is cleared when none is left. */
    method UnlockScroll()
      modifies this
      ensures count == if old(count) - 1 > 0 then old(count) - 1 else 0
      ensures overflow == if count == 0 then Cleared else old(overflow)
      ensures old(Valid()) ==> Valid()
    {
      count := if 0 > count - 1 then 0 else count - 1;
      if count == 0 {
        overflow := Cleared;
      }
    }

    /** Applies a sequence of lock and unlock calls in order. */
    method Apply(ops: seq<Op>)
      requires Valid()
      modifies this
      ensures Valid()
      ensures count == CountAfter(old(count), ops)
    {
      var i := 0;
      while i < |ops|
        invariant 0 <= i <= |ops|
        invariant Valid()
        invariant CountAfter(old(count), ops) == CountAfter(count, ops[i..])
      {
        assert ops[i..][1..] == ops[i + 1..];
        if ops[i] == Lock {
          LockScroll();
        } else {
          UnlockScroll();
        }
        i := i + 1;
      }
    }
  }

  /**
   * Two modals opened over each other and closed in turn: the page stays
   * locked until the second one closes, and a stray extra close changes nothing.
   */
  method NestedModals() returns (afterFirstClose: string, afterSecondClose: string, afterStrayClose: string)
    ensures afterFirstClose == Hidden
    ensures afterSecondClose == Cleared
    ensures afterStrayClose == Cleared
  {
    var lock := new BodyScrollLock();
    lock.LockScroll();
    lock.LockScroll();
    lock.UnlockScroll();
    afterFirstClose := lock.overflow;
    lock.UnlockScroll();
    afterSecondClose := lock.overflow;
    lock.UnlockScroll();
    afterStrayClose := lock.overflow;
  }
}
