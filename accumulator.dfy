/** The result accumulator `AtomicHash`: four 64-bit lanes that start at
    zero and are combined lane by lane with XOR. */
module Accumulator {

  const LaneCount: nat := 4

  /** A 256-bit hash seen as four 64-bit lanes. */
  type Lanes = s: seq<bv64> | |s| == LaneCount witness [0, 0, 0, 0]

  const Zero: Lanes := [0, 0, 0, 0]

  /** Lane-wise XOR of two hashes. */
  function Xor(a: Lanes, b: Lanes): (r: Lanes)
  {
    seq(LaneCount, i requires 0 <= i < LaneCount => a[i] ^ b[i])
  }

  /** XOR of a sequence of hashes, the fingerprint of a run. */
  function XorAll(hs: seq<Lanes>): (r: Lanes)
    decreases |hs|
  {
    if hs == [] then Zero else Xor(hs[0], XorAll(hs[1..]))
  }

  /** The fresh accumulator is the identity of the combination. */
  lemma ZeroIsIdentity(a: Lanes)
    ensures Xor(Zero, a) == a && Xor(a, Zero) == a
  {
  }

  /** Merging the same update twice restores the previous lanes. */
  lemma XorSelfInverse(a: Lanes, u: Lanes)
    ensures Xor(Xor(a, u), u) == a
  {
  }

  /** Two updates applied in either order give the same lanes. */
  lemma XorCommutes(a: Lanes, u: Lanes, v: Lanes)
    ensures Xor(Xor(a, u), v) == Xor(Xor(a, v), u)
    ensures Xor(u, v) == Xor(v, u)
  {
  }

  lemma XorAssociates(a: Lanes, b: Lanes, c: Lanes)
    ensures Xor(Xor(a, b), c) == Xor(a, Xor(b, c))
  {
  }

  /** The fingerprint of two batches of hashes is the XOR of their
      fingerprints, whichever worker produced which batch. */
  lemma {:induction false} XorAllAppend(a: seq<Lanes>, b: seq<Lanes>)
    ensures XorAll(a + b) == Xor(XorAll(a), XorAll(b))
    decreases |a|
  {
    if a == [] {
      assert a + b == b;
      ZeroIsIdentity(XorAll(b));
    } else {
      assert (a + b)[1..] == a[1..] + b;
      XorAllAppend(a[1..], b);
      XorAssociates(a[0], XorAll(a[1..]), XorAll(b));
    }
  }

  /** Taking one hash out of a batch: the fingerprint is that hash XOR
      the fingerprint of the rest. */
  lemma XorAllRemove(b: seq<Lanes>, k: nat)
    requires k < |b|
    ensures XorAll(b) == Xor(b[k], XorAll(b[..k] + b[k + 1..]))
  {
    var left, right := b[..k], b[k + 1..];
    assert b == left + ([b[k]] + right);
    assert ([b[k]] + right)[1..] == right;
    calc {
      XorAll(b);
      { XorAllAppend(left, [b[k]] + right); }
      Xor(XorAll(left), Xor(b[k], XorAll(right)));
      { XorAssociates(XorAll(left), b[k], XorAll(right));
        XorCommutes(XorAll(left), b[k], XorAll(right));
        XorAssociates(b[k], XorAll(left), XorAll(right)); }
      Xor(b[k], Xor(XorAll(left), XorAll(right)));
      { XorAllAppend(left, right); }
      Xor(b[k], XorAll(left + right));
    }
  }

  /** Removing matching elements from two sequences with equal multisets
      leaves sequences with equal multisets. */
  lemma MultisetRemove<T>(a: seq<T>, b: seq<T>, k: nat)
    requires a != [] && k < |b| && b[k] == a[0]
    requires multiset(a) == multiset(b)
    ensures multiset(a[1..]) == multiset(b[..k] + b[k + 1..])
  {
    assert b == b[..k] + [b[k]] + b[k + 1..];
    assert a == [a[0]] + a[1..];
    assert multiset(b) == multiset(b[..k]) + multiset([b[k]]) + multiset(b[k + 1..]);
    assert multiset(a) == multiset([a[0]]) + multiset(a[1..]);
    assert multiset(b[..k] + b[k + 1..]) == multiset(b[..k]) + multiset(b[k + 1..]);
    assert multiset(a[1..]) == multiset(a) - multiset([a[0]]);
    assert multiset(b[..k] + b[k + 1..]) == multiset(b) - multiset([b[k]]);
  }

  /** The fingerprint does not depend on the order in which the hashes
      arrive: any rearrangement gives the same lanes. */
  lemma {:induction false} XorAllPermutation(a: seq<Lanes>, b: seq<Lanes>)
    requires multiset(a) == multiset(b)
    ensures XorAll(a) == XorAll(b)
    decreases |a|
  {
    if a == [] {
      assert |b| == |multiset(b)| == 0;
    } else {
      assert a[0] in multiset(b);
      var k :| 0 <= k < |b| && b[k] == a[0];
      MultisetRemove(a, b, k);
      XorAllPermutation(a[1..], b[..k] + b[k + 1..]);
      XorAllRemove(b, k);
    }
  }

  class AtomicHash {
    var hash: array<bv64>

    ghost predicate Valid()
      reads this
    {
      hash.Length == LaneCount
    }

    /** The current lanes. */
    ghost function Value(): (v: Lanes)
      reads this, hash
      requires Valid()
    {
      hash[..]
    }

    /** `AtomicHash()`: every lane starts at zero. */
    constructor ()
      ensures Valid() && fresh(hash)
      ensures Value() == Zero
    {
      var lanes := new bv64[LaneCount];
      var i := 0;
      while i < LaneCount
        invariant 0 <= i <= LaneCount
        invariant forall k :: 0 <= k < i ==> lanes[k] == 0
      {
        lanes[i] := 0;
        i := i + 1;
      }
      hash := lanes;
    }

    /** `xorWith(update)`: lane i becomes old lane i XOR update[i]; nothing
        else changes. The update may be the lane array itself. */
    method XorWith(update: array<bv64>)
      requires Valid() && update.Length == LaneCount
      modifies hash
      ensures Valid()
      ensures Value() == Xor(old(Value()), old(update[..]))
    {
      ghost var before, u := hash[..], update[..];
      var i := 0;
      while i < LaneCount
        invariant 0 <= i <= LaneCount
        invariant forall k :: 0 <= k < i ==> hash[k] == Xor(before, u)[k]
        invariant forall k :: i <= k < LaneCount ==> hash[k] == before[k]
        invariant forall k :: i <= k < LaneCount ==> update[k] == u[k]
      {
        hash[i] := hash[i] ^ update[i];
        i := i + 1;
      }
      assert hash[..] == Xor(before, u);
    }
  }
}
