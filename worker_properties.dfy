/** Closed forms of one worker's run: which inputs it hashes, which calls
    it makes, where it leaves the counter and what it merges. */
module WorkerProperties {
  import opened Uints
  import opened Accumulator
  import opened WorkItem
  import opened HashEngine
  import opened Allocator
  import opened Worker

  /** `Hash` calls on the items of nonces lo, ..., hi - 1. */
  function HashCalls(lo: u32, hi: u32): (r: seq<Call>)
    requires lo <= hi
  {
    seq(hi - lo, i requires 0 <= i < hi - lo => Hash(Item(lo + i)))
  }

  /** `HashNext` calls on the items of nonces lo + 1, ..., hi. */
  function NextCalls(lo: u32, hi: u32): (r: seq<Call>)
    requires lo <= hi
  {
    seq(hi - lo, i requires 0 <= i < hi - lo => HashNext(Item(lo + 1 + i)))
  }

  /** Values merged without batching: nonce n's hash (or its commitment)
      for n = lo, ..., hi - 1, in that order. */
  function NonBatchedMerges(e: Engine, commit: bool, lo: u32, hi: u32): (r: seq<Lanes>)
    requires lo <= hi
    decreases hi - lo
  {
    if lo == hi then []
    else [Merge(e, commit, Item(lo), e.hash(Item(lo)))] + NonBatchedMerges(e, commit, lo + 1, hi)
  }

  /** Values merged with batching: nonce n's hash for n = lo, ..., hi - 1,
      where a commitment is taken over the item of n + 1, the buffer at
      hand when the hash comes back. */
  function BatchedMerges(e: Engine, commit: bool, lo: u32, hi: u32): (r: seq<Lanes>)
    requires lo <= hi
    decreases hi - lo
  {
    if lo == hi then []
    else [Merge(e, commit, Item(lo + 1), e.hash(Item(lo)))] + BatchedMerges(e, commit, lo + 1, hi)
  }

  /** The k-th value merged without batching belongs to nonce lo + k. */
  lemma {:induction false} NonBatchedMergesAt(e: Engine, commit: bool, lo: u32, hi: u32, k: nat)
    requires lo <= hi
    ensures |NonBatchedMerges(e, commit, lo, hi)| == hi - lo
    ensures k < hi - lo ==>
      NonBatchedMerges(e, commit, lo, hi)[k] == Merge(e, commit, Item(lo + k), e.hash(Item(lo + k)))
    decreases hi - lo
  {
    if lo < hi {
      NonBatchedMergesAt(e, commit, lo + 1, hi, if k == 0 then 0 else k - 1);
    }
  }

  /** The k-th value merged with batching is the hash of nonce lo + k,
      committed over the item of lo + k + 1. */
  lemma {:induction false} BatchedMergesAt(e: Engine, commit: bool, lo: u32, hi: u32, k: nat)
    requires lo <= hi
    ensures |BatchedMerges(e, commit, lo, hi)| == hi - lo
    ensures k < hi - lo ==>
      BatchedMerges(e, commit, lo, hi)[k] == Merge(e, commit, Item(lo + k + 1), e.hash(Item(lo + k)))
    decreases hi - lo
  {
    if lo < hi {
      BatchedMergesAt(e, commit, lo + 1, hi, if k == 0 then 0 else k - 1);
    }
  }

  /** Without commitments both protocols merge the same hashes in the
      same order. */
  lemma {:induction false} MergesAgreeWithoutCommit(e: Engine, lo: u32, hi: u32)
    requires lo <= hi
    ensures BatchedMerges(e, false, lo, hi) == NonBatchedMerges(e, false, lo, hi)
    decreases hi - lo
  {
    if lo < hi {
      MergesAgreeWithoutCommit(e, lo + 1, hi);
    }
  }

  /** The values merged over [lo, hi) are those over [lo, mid) followed by
      those over [mid, hi). */
  lemma {:induction false} MergesConcat(e: Engine, commit: bool, lo: u32, mid: u32, hi: u32)
    requires lo <= mid <= hi
    ensures NonBatchedMerges(e, commit, lo, hi) == NonBatchedMerges(e, commit, lo, mid) + NonBatchedMerges(e, commit, mid, hi)
    decreases mid - lo
  {
    if lo < mid {
      MergesConcat(e, commit, lo + 1, mid, hi);
      var m := Merge(e, commit, Item(lo), e.hash(Item(lo)));
      var a, b := NonBatchedMerges(e, commit, lo + 1, mid), NonBatchedMerges(e, commit, mid, hi);
      assert [m] + (a + b) == ([m] + a) + b;
    } else {
      assert NonBatchedMerges(e, commit, lo, mid) == [];
    }
  }

  /** Splitting the non-batched merges over [lo, hi) at `mid` splits the
      fingerprint into the XOR of the two parts. */
  lemma MergesSplit(e: Engine, commit: bool, lo: u32, mid: u32, hi: u32)
    requires lo <= mid <= hi
    ensures XorAll(NonBatchedMerges(e, commit, lo, hi))
         == Xor(XorAll(NonBatchedMerges(e, commit, lo, mid)), XorAll(NonBatchedMerges(e, commit, mid, hi)))
  {
    MergesConcat(e, commit, lo, mid, hi);
    XorAllAppend(NonBatchedMerges(e, commit, lo, mid), NonBatchedMerges(e, commit, mid, hi));
  }

  /** The value a non-batched worker merges for nonce `n`. */
  function NonceMerge(e: Engine, commit: bool, n: u32): (r: Lanes)
  {
    Merge(e, commit, Item(n), e.hash(Item(n)))
  }

  /** The values a non-batched worker merges when it takes the nonces
      `ns`, in that order. */
  function MergesOf(e: Engine, commit: bool, ns: seq<u32>): (r: seq<Lanes>)
    ensures |r| == |ns|
    decreases |ns|
  {
    if ns == [] then [] else [NonceMerge(e, commit, ns[0])] + MergesOf(e, commit, ns[1..])
  }

  /** Taking the nonces lo, ..., hi - 1 in order merges `NonBatchedMerges`. */
  lemma {:induction false} MergesOfClaims(e: Engine, commit: bool, lo: u32, hi: u32)
    requires lo <= hi
    ensures MergesOf(e, commit, Claims(lo, hi - lo)) == NonBatchedMerges(e, commit, lo, hi)
    decreases hi - lo
  {
    if lo < hi {
      assert Claims(lo, hi - lo) == [lo] + Claims(lo + 1, hi - (lo + 1));
      assert Claims(lo, hi - lo)[1..] == Claims(lo + 1, hi - (lo + 1));
      MergesOfClaims(e, commit, lo + 1, hi);
    }
  }

  lemma {:induction false} MergesOfAppend(e: Engine, commit: bool, ns: seq<u32>, ms: seq<u32>)
    ensures MergesOf(e, commit, ns + ms) == MergesOf(e, commit, ns) + MergesOf(e, commit, ms)
    decreases |ns|
  {
    if ns == [] {
      assert ns + ms == ms;
    } else {
      assert (ns + ms)[0] == ns[0];
      assert (ns + ms)[1..] == ns[1..] + ms;
      MergesOfAppend(e, commit, ns[1..], ms);
      var m := NonceMerge(e, commit, ns[0]);
      assert [m] + (MergesOf(e, commit, ns[1..]) + MergesOf(e, commit, ms))
          == ([m] + MergesOf(e, commit, ns[1..])) + MergesOf(e, commit, ms);
    }
  }

  /** What is merged for `ms`, around its k-th nonce. */
  lemma MergesOfAround(e: Engine, commit: bool, ms: seq<u32>, k: nat)
    requires k < |ms|
    ensures MergesOf(e, commit, ms)
         == MergesOf(e, commit, ms[..k]) + [NonceMerge(e, commit, ms[k])] + MergesOf(e, commit, ms[k + 1..])
    ensures MergesOf(e, commit, ms[..k] + ms[k + 1..]) == MergesOf(e, commit, ms[..k]) + MergesOf(e, commit, ms[k + 1..])
  {
    assert ms == ms[..k] + [ms[k]] + ms[k + 1..];
    MergesOfAppend(e, commit, ms[..k] + [ms[k]], ms[k + 1..]);
    MergesOfAppend(e, commit, ms[..k], [ms[k]]);
    MergesOfAppend(e, commit, ms[..k], ms[k + 1..]);
    assert MergesOf(e, commit, [ms[k]]) == [NonceMerge(e, commit, ms[k])];
  }

  /** Taking nonce k out of `ms` takes its merged value out of what is
      merged. */
  lemma MergesOfRemove(e: Engine, commit: bool, ms: seq<u32>, k: nat)
    requires k < |ms|
    ensures multiset(MergesOf(e, commit, ms))
         == multiset(MergesOf(e, commit, ms[..k] + ms[k + 1..])) + multiset{NonceMerge(e, commit, ms[k])}
  {
    MergesOfAround(e, commit, ms, k);
    var a, m, b := MergesOf(e, commit, ms[..k]), NonceMerge(e, commit, ms[k]), MergesOf(e, commit, ms[k + 1..]);
    assert multiset(a + [m] + b) == multiset(a) + multiset([m]) + multiset(b);
    assert multiset(a + b) == multiset(a) + multiset(b);
  }

  /** Rearranging the nonces rearranges what is merged. */
  lemma {:induction false} MergesOfPermutation(e: Engine, commit: bool, ns: seq<u32>, ms: seq<u32>)
    requires multiset(ns) == multiset(ms)
    ensures multiset(MergesOf(e, commit, ns)) == multiset(MergesOf(e, commit, ms))
    decreases |ns|
  {
    if ns == [] {
      assert |ms| == |multiset(ms)| == 0;
    } else {
      assert ns[0] in multiset(ms);
      var k :| 0 <= k < |ms| && ms[k] == ns[0];
      MultisetRemove(ns, ms, k);
      MergesOfPermutation(e, commit, ns[1..], ms[..k] + ms[k + 1..]);
      MergesOfPermutationStep(e, commit, ns, ms, k);
    }
  }

  lemma MergesOfPermutationStep(e: Engine, commit: bool, ns: seq<u32>, ms: seq<u32>, k: nat)
    requires ns != [] && k < |ms| && ms[k] == ns[0]
    requires multiset(MergesOf(e, commit, ns[1..])) == multiset(MergesOf(e, commit, ms[..k] + ms[k + 1..]))
    ensures multiset(MergesOf(e, commit, ns)) == multiset(MergesOf(e, commit, ms))
  {
    MergesOfRemove(e, commit, ms, k);
    MergesOfRemove(e, commit, ns, 0);
    assert ns[..0] + ns[1..] == ns[1..];
  }

  /** Two workers sharing the counter: however the nonces lo, ..., hi - 1
      are shared out between them, and in whatever order each takes its
      share, the XOR of their fingerprints is the fingerprint of one worker
      taking all of them in order. */
  lemma SharedRangeFingerprint(e: Engine, commit: bool, lo: u32, hi: u32, mine: seq<u32>, theirs: seq<u32>)
    requires lo <= hi
    requires multiset(mine + theirs) == multiset(Claims(lo, hi - lo))
    ensures Xor(XorAll(MergesOf(e, commit, mine)), XorAll(MergesOf(e, commit, theirs)))
         == XorAll(NonBatchedMerges(e, commit, lo, hi))
  {
    MergesOfClaims(e, commit, lo, hi);
    MergesOfAppend(e, commit, mine, theirs);
    MergesOfPermutation(e, commit, mine + theirs, Claims(lo, hi - lo));
    XorAllPermutation(MergesOf(e, commit, mine + theirs), MergesOf(e, commit, Claims(lo, hi - lo)));
    XorAllAppend(MergesOf(e, commit, mine), MergesOf(e, commit, theirs));
  }

  lemma HashCallsCons(lo: u32, hi: u32)
    requires lo < hi
    ensures HashCalls(lo, hi) == [Hash(Item(lo))] + HashCalls(lo + 1, hi)
  {
  }

  lemma NextCallsCons(lo: u32, hi: u32)
    requires lo < hi
    ensures NextCalls(lo, hi) == [HashNext(Item(lo + 1))] + NextCalls(lo + 1, hi)
  {
  }

  lemma XorAllCons(hs: seq<Lanes>)
    requires hs != []
    ensures XorAll(hs) == Xor(hs[0], XorAll(hs[1..]))
  {
  }

  lemma LoopStepNonBatched(e: Engine, commit: bool, count: u32, nonce: u32, s: Snapshot)
    requires s.counter == Inc32(nonce) && nonce < count
    ensures Loop(e, false, commit, count, nonce, s)
         == Loop(e, false, commit, count, nonce + 1,
                 Snapshot(Inc32(nonce + 1), Xor(s.acc, Merge(e, commit, Item(nonce), e.hash(Item(nonce)))),
                          s.pending, s.calls + [Hash(Item(nonce))]))
  {
  }

  lemma LoopStepBatched(e: Engine, commit: bool, count: u32, nonce: u32, s: Snapshot)
    requires s.counter == Inc32(nonce) && nonce < count && s.pending.Some?
    ensures Loop(e, true, commit, count, nonce, s)
         == Loop(e, true, commit, count, nonce + 1,
                 Snapshot(Inc32(nonce + 1), Xor(s.acc, Merge(e, commit, Item(nonce + 1), e.hash(s.pending.value))),
                          Some(Item(nonce + 1)), s.calls + [HashNext(Item(nonce + 1))]))
  {
  }

  /** The non-batched loop from a claimed `nonce` up to the bound. */
  lemma {:induction false} LoopNonBatched(e: Engine, commit: bool, count: u32, nonce: u32, s: Snapshot)
    requires s.counter == Inc32(nonce) && nonce <= count
    ensures Loop(e, false, commit, count, nonce, s)
         == Snapshot(Inc32(count), Xor(s.acc, XorAll(NonBatchedMerges(e, commit, nonce, count))),
                     s.pending, s.calls + HashCalls(nonce, count))
    decreases count - nonce
  {
    if nonce == count {
      assert NonBatchedMerges(e, commit, nonce, count) == [];
      assert HashCalls(nonce, count) == [];
      ZeroIsIdentity(s.acc);
    } else {
      var input := Item(nonce);
      var m := Merge(e, commit, input, e.hash(input));
      var s' := Snapshot(Inc32(nonce + 1), Xor(s.acc, m), s.pending, s.calls + [Hash(input)]);
      LoopStepNonBatched(e, commit, count, nonce, s);
      LoopNonBatched(e, commit, count, nonce + 1, s');
      var rest := NonBatchedMerges(e, commit, nonce + 1, count);
      assert NonBatchedMerges(e, commit, nonce, count) == [m] + rest;
      XorAllCons([m] + rest);
      assert ([m] + rest)[1..] == rest;
      XorAssociates(s.acc, m, XorAll(rest));
      HashCallsCons(nonce, count);
      assert s'.calls + HashCalls(nonce + 1, count) == s.calls + HashCalls(nonce, count);
    }
  }

  /** The batched loop from a claimed and submitted `nonce` up to the bound. */
  lemma {:induction false} LoopBatched(e: Engine, commit: bool, count: u32, nonce: u32, s: Snapshot)
    requires s.counter == Inc32(nonce) && nonce <= count
    requires s.pending == Some(Item(nonce))
    ensures Loop(e, true, commit, count, nonce, s)
         == Snapshot(Inc32(count), Xor(s.acc, XorAll(BatchedMerges(e, commit, nonce, count))),
                     Some(Item(count)), s.calls + NextCalls(nonce, count))
    decreases count - nonce
  {
    if nonce == count {
      assert BatchedMerges(e, commit, nonce, count) == [];
      assert NextCalls(nonce, count) == [];
      ZeroIsIdentity(s.acc);
    } else {
      var input := Item(nonce + 1);
      var m := Merge(e, commit, input, e.hash(Item(nonce)));
      var s' := Snapshot(Inc32(nonce + 1), Xor(s.acc, m), Some(input), s.calls + [HashNext(input)]);
      LoopStepBatched(e, commit, count, nonce, s);
      LoopBatched(e, commit, count, nonce + 1, s');
      var rest := BatchedMerges(e, commit, nonce + 1, count);
      assert BatchedMerges(e, commit, nonce, count) == [m] + rest;
      XorAllCons([m] + rest);
      assert ([m] + rest)[1..] == rest;
      XorAssociates(s.acc, m, XorAll(rest));
      NextCallsCons(nonce, count);
      assert s'.calls + NextCalls(nonce + 1, count) == s.calls + NextCalls(nonce, count);
    }
  }

  /** A whole non-batched call: the claimed values init.counter, ...,
      count - 1 are hashed in order, the first claimed value at or past the
      bound is dropped unhashed, and the counter ends one past it. */
  lemma RunNonBatched(e: Engine, commit: bool, count: u32, init: Snapshot)
    ensures Run(e, false, commit, count, init)
         == if init.counter < count then
              Snapshot(Inc32(count), Xor(init.acc, XorAll(NonBatchedMerges(e, commit, init.counter, count))),
                       init.pending, init.calls + HashCalls(init.counter, count))
            else init.(counter := Inc32(init.counter))
  {
    if init.counter < count {
      LoopNonBatched(e, commit, count, init.counter, init.(counter := Inc32(init.counter)));
    }
  }

  /** A whole batched call: one priming `HashFirst` on the first claimed
      value, made before the bound is checked; then one `HashNext` per value
      below the bound, each submitting the next claimed value and returning
      the previous value's hash; the last submission is never collected. */
  lemma RunBatched(e: Engine, commit: bool, count: u32, init: Snapshot)
    ensures Run(e, true, commit, count, init)
         == if init.counter < count then
              Snapshot(Inc32(count), Xor(init.acc, XorAll(BatchedMerges(e, commit, init.counter, count))),
                       Some(Item(count)), init.calls + [HashFirst(Item(init.counter))] + NextCalls(init.counter, count))
            else Snapshot(Inc32(init.counter), init.acc, Some(Item(init.counter)),
                          init.calls + [HashFirst(Item(init.counter))])
  {
    var s0 := init.counter;
    var primed := Snapshot(Inc32(s0), init.acc, Some(Item(s0)), init.calls + [HashFirst(Item(s0))]);
    if s0 < count {
      LoopBatched(e, commit, count, s0, primed);
      assert primed.calls + NextCalls(s0, count) == init.calls + [HashFirst(Item(s0))] + NextCalls(s0, count);
    }
  }

  /** Non-batched, from a counter at 0 with bound N: exactly N `Hash` calls,
      the i-th on the template with nonce i; the counter ends at N + 1
      (mod 2^32); a fresh accumulator ends as the XOR, over n in [0, N), of
      the hash of nonce n's item, or of its commitment when `commit` is set. */
  lemma NonBatchedFromZero(e: Engine, commit: bool, count: u32, init: Snapshot)
    requires init.counter == 0 && init.acc == Zero
    ensures |init.calls| <= |Run(e, false, commit, count, init).calls|
    ensures var r := Run(e, false, commit, count, init);
      var made := r.calls[|init.calls|..];
      var merged := NonBatchedMerges(e, commit, 0, count);
      && r.calls[..|init.calls|] == init.calls
      && |made| == count
      && (forall i :: 0 <= i < count ==> made[i] == Hash(Item(i)))
      && r.counter == Inc32(count)
      && r.acc == XorAll(merged)
      && |merged| == count
      && (forall n :: 0 <= n < count ==> merged[n] == Merge(e, commit, Item(n), e.hash(Item(n))))
  {
    RunNonBatched(e, commit, count, init);
    var merged := NonBatchedMerges(e, commit, 0, count);
    ZeroIsIdentity(XorAll(merged));
    NonBatchedMergesAt(e, commit, 0, count, 0);
    forall n | 0 <= n < count
      ensures merged[n] == Merge(e, commit, Item(n), e.hash(Item(n)))
    {
      NonBatchedMergesAt(e, commit, 0, count, n);
    }
  }

  /** Batched, from a counter at 0 with bound N: one `HashFirst` on nonce 0
      and exactly N `HashNext` calls, the i-th submitting nonce i; the
      hashes collected are those of nonces 0, ..., N - 1; nonce N is
      submitted and never collected; the counter ends at N + 1 (mod 2^32). */
  lemma BatchedFromZero(e: Engine, count: u32, init: Snapshot)
    requires init.counter == 0 && init.acc == Zero
    ensures |init.calls| <= |Run(e, true, false, count, init).calls|
    ensures var r := Run(e, true, false, count, init);
      var made := r.calls[|init.calls|..];
      var merged := NonBatchedMerges(e, false, 0, count);
      && r.calls[..|init.calls|] == init.calls
      && |made| == count + 1
      && made[0] == HashFirst(Item(0))
      && (forall i :: 1 <= i <= count ==> made[i] == HashNext(Item(i)))
      && r.pending == Some(Item(count))
      && r.counter == Inc32(count)
      && r.acc == XorAll(merged)
      && |merged| == count
      && (forall n :: 0 <= n < count ==> merged[n] == e.hash(Item(n)))
  {
    RunBatched(e, false, count, init);
    MergesAgreeWithoutCommit(e, 0, count);
    var merged := NonBatchedMerges(e, false, 0, count);
    ZeroIsIdentity(XorAll(merged));
    NonBatchedMergesAt(e, false, 0, count, 0);
    forall n | 0 <= n < count
      ensures merged[n] == e.hash(Item(n))
    {
      NonBatchedMergesAt(e, false, 0, count, n);
    }
    BatchedFromZeroCalls(e, false, count, init);
  }

  /** Batched, from a counter at 0 with bound N, with or without
      commitments: one `HashFirst` on nonce 0, then one `HashNext` on each
      of nonces 1, ..., N. */
  lemma BatchedFromZeroCalls(e: Engine, commit: bool, count: u32, init: Snapshot)
    requires init.counter == 0
    ensures |init.calls| <= |Run(e, true, commit, count, init).calls|
    ensures var made := Run(e, true, commit, count, init).calls[|init.calls|..];
      && Run(e, true, commit, count, init).calls[..|init.calls|] == init.calls
      && |made| == count + 1
      && made[0] == HashFirst(Item(0))
      && (forall i :: 1 <= i <= count ==> made[i] == HashNext(Item(i)))
  {
    RunAppendsCalls(e, true, commit, count, init);
    var made := RunCalls(true, 0, count);
    var calls := init.calls + made;
    assert calls[..|init.calls|] == init.calls;
    assert calls[|init.calls|..] == made;
    if count > 0 {
      forall i | 1 <= i <= count
        ensures made[i] == HashNext(Item(i))
      {
        assert made[i] == NextCalls(0, count)[i - 1];
      }
    }
  }

  /** Batched mode calls the engine even when the bound is already reached:
      the priming call is made and nothing is merged. */
  lemma BatchedPrimesPastBound(e: Engine, commit: bool, count: u32, init: Snapshot)
    requires init.counter >= count
    ensures var r := Run(e, true, commit, count, init);
      && r.calls == init.calls + [HashFirst(Item(init.counter))]
      && r.acc == init.acc
      && r.counter == Inc32(init.counter)
  {
    RunBatched(e, commit, count, init);
  }

  /** Without batching, a claimed value at or past the bound is discarded:
      no engine call, nothing merged, only the counter advances. */
  lemma NonBatchedDiscardsPastBound(e: Engine, commit: bool, count: u32, init: Snapshot)
    requires init.counter >= count
    ensures var r := Run(e, false, commit, count, init);
      && r.calls == init.calls && r.acc == init.acc && r.pending == init.pending
      && r.counter == Inc32(init.counter)
  {
    RunNonBatched(e, commit, count, init);
  }

  /** With commitments off, the batched and non-batched protocols merge the
      same hashes and leave the counter at the same value. */
  lemma ModesAgreeWithoutCommit(e: Engine, count: u32, init: Snapshot)
    ensures Run(e, true, false, count, init).acc == Run(e, false, false, count, init).acc
    ensures Run(e, true, false, count, init).counter == Run(e, false, false, count, init).counter
  {
    RunBatched(e, false, count, init);
    RunNonBatched(e, false, count, init);
    if init.counter < count {
      MergesAgreeWithoutCommit(e, init.counter, count);
    }
  }

  /** The calls one run appends to the VM's log, from a counter at `s0`. */
  function RunCalls(batch: bool, s0: u32, count: u32): (r: seq<Call>)
  {
    var looped := if s0 < count then (if batch then NextCalls(s0, count) else HashCalls(s0, count)) else [];
    if batch then [HashFirst(Item(s0))] + looped else looped
  }

  lemma RunAppendsCalls(e: Engine, batch: bool, commit: bool, count: u32, init: Snapshot)
    ensures Run(e, batch, commit, count, init).calls == init.calls + RunCalls(batch, init.counter, count)
  {
    if batch {
      RunBatched(e, commit, count, init);
    } else {
      RunNonBatched(e, commit, count, init);
    }
  }

  /** The i-th call a run appends is given the item of the i-th value
      claimed, and the claims do not pass 2^32 - 1. */
  lemma RunCallsInputs(batch: bool, s0: u32, count: u32)
    ensures var made := RunCalls(batch, s0, count);
      && s0 + |made| <= Two32
      && forall i :: 0 <= i < |made| ==> made[i].input == Item(s0 + i)
  {
    var made := RunCalls(batch, s0, count);
    if batch && s0 < count {
      forall i | 0 <= i < |made|
        ensures made[i].input == Item(s0 + i)
      {
        if i > 0 {
          assert made[i] == NextCalls(s0, count)[i - 1];
        }
      }
    }
  }

  /** The calls of one run extend the VM's log, and the i-th new call is
      given the item of the i-th value claimed. */
  lemma CallInputs(e: Engine, batch: bool, commit: bool, count: u32, init: Snapshot)
    ensures |init.calls| <= |Run(e, batch, commit, count, init).calls|
    ensures var r := Run(e, batch, commit, count, init);
      && r.calls[..|init.calls|] == init.calls
      && init.counter + (|r.calls| - |init.calls|) <= Two32
      && forall i :: |init.calls| <= i < |r.calls| ==> r.calls[i].input == Item(init.counter + (i - |init.calls|))
  {
    var made := RunCalls(batch, init.counter, count);
    RunAppendsCalls(e, batch, commit, count, init);
    RunCallsInputs(batch, init.counter, count);
    var calls := init.calls + made;
    assert calls[..|init.calls|] == init.calls;
    forall i | |init.calls| <= i < |calls|
      ensures calls[i].input == Item(init.counter + (i - |init.calls|))
    {
      assert calls[i] == made[i - |init.calls|];
    }
  }

  /** The engine calls of one run, in order, carry the values the worker
      claimed from the counter, which are consecutive, hence strictly
      increasing, so no input is given to the engine twice. */
  lemma CallsCarryClaims(e: Engine, batch: bool, commit: bool, count: u32, init: Snapshot)
    ensures |init.calls| <= |Run(e, batch, commit, count, init).calls|
    ensures var made := Run(e, batch, commit, count, init).calls[|init.calls|..];
      && init.counter + |made| <= Two32
      && (forall i :: 0 <= i < |made| ==>
            OutsideNonceIsTemplate(made[i].input) && NonceOf(made[i].input) == Claims(init.counter, |made|)[i])
      && (forall i, j :: 0 <= i < j < |made| ==> NonceOf(made[i].input) < NonceOf(made[j].input))
      && (forall i, j :: 0 <= i < j < |made| ==> made[i].input != made[j].input)
  {
    var s0 := init.counter;
    CallInputs(e, batch, commit, count, init);
    var made := Run(e, batch, commit, count, init).calls[|init.calls|..];
    ClaimsConsecutive(s0, |made|);
    forall i | 0 <= i < |made|
      ensures made[i].input == Item(s0 + i)
      ensures OutsideNonceIsTemplate(made[i].input) && NonceOf(made[i].input) == s0 + i
    {
      ItemLayout(s0 + i);
    }
    forall i, j | 0 <= i < j < |made|
      ensures made[i].input != made[j].input
    {
      ItemInjective(s0 + i, s0 + j);
    }
  }
}
