/** Batched mode with commitments: `randomx_calculate_commitment` is given
    the buffer just patched with the newly claimed nonce, while the hash it
    commits to, returned by `hash_next`, is that of the previous nonce. The
    fingerprint then depends on the protocol. This module exhibits an
    engine on which the two protocols disagree, and states the corrected
    worker, which commits over the input whose hash was collected. */
module WorkerFindings {
  import opened Uints
  import opened Accumulator
  import opened WorkItem
  import opened HashEngine
  import opened Allocator
  import opened Worker
  import opened WorkerProperties

  /** An engine whose hash is constant and whose commitment exposes the
      nonce's low byte of the input it is given. */
  function ProbeEngine(): (e: Engine)
  {
    Engine(x => Zero, (x, h) => if |x| > NonceOffset then [x[NonceOffset] as bv64, 0, 0, 0] else Zero)
  }

  /** As written: with bound 1 and a fresh counter and accumulator, the
      batched and non-batched workers leave different fingerprints when
      commitments are on. */
  lemma BatchedCommitDisagrees()
    ensures var init := Snapshot(0, Zero, None, []);
      Run(ProbeEngine(), true, true, 1, init).acc != Run(ProbeEngine(), false, true, 1, init).acc
  {
    var e, init := ProbeEngine(), Snapshot(0, Zero, None, []);
    RunBatched(e, true, 1, init);
    RunNonBatched(e, true, 1, init);
    ItemLayout(0);
    ItemLayout(1);
    assert Item(1)[NonceOffset] == 1;
    assert Item(0)[NonceOffset] == 0;
    var b := Run(e, true, true, 1, init).acc;
    assert BatchedMerges(e, true, 0, 1) == [[1, 0, 0, 0]];
    assert b == Xor(Zero, Xor([1, 0, 0, 0], Zero));
    assert b[0] == 1;
    assert NonBatchedMerges(e, true, 0, 1) == [[0, 0, 0, 0]];
    assert Run(e, false, true, 1, init).acc[0] == 0;
  }

  /** The corrected loop: as `Loop`, except that in batched mode the
      commitment is taken over the input whose hash `hash_next` returned. */
  ghost function CorrectedLoop(e: Engine, batch: bool, commit: bool, count: u32, nonce: u32, s: Snapshot): (r: Snapshot)
    requires s.counter == Inc32(nonce)
    requires batch ==> s.pending.Some?
    ensures r.counter == Inc32(if nonce < count then count else nonce)
    ensures batch ==> r.pending.Some?
    decreases count - nonce
  {
    if nonce >= count then s
    else
      var claimed := if batch then s.counter else nonce;
      var counter := if batch then Inc32(s.counter) else s.counter;
      var input := Item(claimed);
      var hashed := if batch then s.pending.value else input;
      var pending := if batch then Some(input) else s.pending;
      var call := if batch then HashNext(input) else Hash(input);
      var acc := Xor(s.acc, Merge(e, commit, hashed, e.hash(hashed)));
      var nonce' := if batch then claimed else counter;
      var counter' := if batch then counter else Inc32(counter);
      CorrectedLoop(e, batch, commit, count, nonce', Snapshot(counter', acc, pending, s.calls + [call]))
  }

  ghost function CorrectedRun(e: Engine, batch: bool, commit: bool, count: u32, init: Snapshot): (r: Snapshot)
    ensures r.counter == Inc32(if init.counter < count then count else init.counter)
  {
    var nonce := init.counter;
    var s := init.(counter := Inc32(nonce));
    var primed := if batch then s.(pending := Some(Item(nonce)), calls := s.calls + [HashFirst(Item(nonce))]) else s;
    CorrectedLoop(e, batch, commit, count, nonce, primed)
  }

  lemma CorrectedStepBatched(e: Engine, commit: bool, count: u32, nonce: u32, s: Snapshot)
    requires s.counter == Inc32(nonce) && nonce < count && s.pending == Some(Item(nonce))
    ensures CorrectedLoop(e, true, commit, count, nonce, s)
         == CorrectedLoop(e, true, commit, count, nonce + 1,
                 Snapshot(Inc32(nonce + 1), Xor(s.acc, Merge(e, commit, Item(nonce), e.hash(Item(nonce)))),
                          Some(Item(nonce + 1)), s.calls + [HashNext(Item(nonce + 1))]))
  {
  }

  /** The corrected batched loop merges exactly what the non-batched loop
      merges. */
  lemma {:induction false} CorrectedLoopBatched(e: Engine, commit: bool, count: u32, nonce: u32, s: Snapshot)
    requires s.counter == Inc32(nonce) && nonce <= count
    requires s.pending == Some(Item(nonce))
    ensures CorrectedLoop(e, true, commit, count, nonce, s)
         == Snapshot(Inc32(count), Xor(s.acc, XorAll(NonBatchedMerges(e, commit, nonce, count))),
                     Some(Item(count)), s.calls + NextCalls(nonce, count))
    decreases count - nonce
  {
    if nonce == count {
      ZeroIsIdentity(s.acc);
    } else {
      var m := Merge(e, commit, Item(nonce), e.hash(Item(nonce)));
      var s' := Snapshot(Inc32(nonce + 1), Xor(s.acc, m), Some(Item(nonce + 1)), s.calls + [HashNext(Item(nonce + 1))]);
      CorrectedStepBatched(e, commit, count, nonce, s);
      CorrectedLoopBatched(e, commit, count, nonce + 1, s');
      var rest := NonBatchedMerges(e, commit, nonce + 1, count);
      assert NonBatchedMerges(e, commit, nonce, count) == [m] + rest;
      XorAllCons([m] + rest);
      assert ([m] + rest)[1..] == rest;
      XorAssociates(s.acc, m, XorAll(rest));
      NextCallsCons(nonce, count);
      assert s'.calls + NextCalls(nonce + 1, count) == s.calls + NextCalls(nonce, count);
    }
  }

  /** The correction leaves the non-batched worker as it is. */
  lemma {:induction false} CorrectedLoopNonBatched(e: Engine, commit: bool, count: u32, nonce: u32, s: Snapshot)
    requires s.counter == Inc32(nonce)
    ensures CorrectedLoop(e, false, commit, count, nonce, s) == Loop(e, false, commit, count, nonce, s)
    decreases count - nonce
  {
    if nonce < count {
      var m := Merge(e, commit, Item(nonce), e.hash(Item(nonce)));
      var s' := Snapshot(Inc32(nonce + 1), Xor(s.acc, m), s.pending, s.calls + [Hash(Item(nonce))]);
      LoopStepNonBatched(e, commit, count, nonce, s);
      CorrectedLoopNonBatched(e, commit, count, nonce + 1, s');
    }
  }

  /** Corrected, the fingerprint, the counter and the inputs hashed no
      longer depend on the protocol, with or without commitments; the
      calls differ only by the protocol's own pipeline. */
  lemma CorrectedModesAgree(e: Engine, commit: bool, count: u32, init: Snapshot)
    ensures CorrectedRun(e, true, commit, count, init).acc == CorrectedRun(e, false, commit, count, init).acc
    ensures CorrectedRun(e, true, commit, count, init).counter == CorrectedRun(e, false, commit, count, init).counter
    ensures CorrectedRun(e, false, commit, count, init) == Run(e, false, commit, count, init)
  {
    var s0 := init.counter;
    var s := init.(counter := Inc32(s0));
    CorrectedLoopNonBatched(e, commit, count, s0, s);
    RunNonBatched(e, commit, count, init);
    if s0 < count {
      CorrectedLoopBatched(e, commit, count, s0, s.(pending := Some(Item(s0)), calls := s.calls + [HashFirst(Item(s0))]));
    }
  }

  /** One corrected iteration: the input submitted before is kept, and
      in batched mode the commitment is taken over it. */
  method IterateCorrected(vm: Vm, atomicNonce: NonceCounter, result: AtomicHash, hash: array<bv64>,
                          blockTemplate: array<u8>, nonce: u32, noncesCount: u32, batch: bool, commit: bool)
    returns (next: u32)
    requires nonce < noncesCount
    requires hash.Length == LaneCount && hash != result.hash
    requires OutsideNonceIsTemplate(blockTemplate[..])
    requires atomicNonce.value == Inc32(nonce)
    requires batch ==> vm.pending == Some(blockTemplate[..])
    requires result.Valid()
    modifies vm, atomicNonce, result.hash, hash, blockTemplate
    ensures next == nonce + 1
    ensures blockTemplate[..] == Item(if batch then next else nonce)
    ensures atomicNonce.value == Inc32(next)
    ensures vm.pending == if batch then Some(Item(next)) else old(vm.pending)
    ensures vm.calls == old(vm.calls) + [if batch then HashNext(Item(next)) else Hash(Item(nonce))]
    ensures result.Valid()
    ensures var hashed := if batch then old(vm.pending).value else Item(nonce);
      result.Value() == Xor(old(result.Value()), Merge(vm.engine, commit, hashed, vm.engine.hash(hashed)))
    ensures CorrectedLoop(vm.engine, batch, commit, noncesCount, next, Observe(vm, atomicNonce, result))
         == CorrectedLoop(vm.engine, batch, commit, noncesCount, nonce, old(Observe(vm, atomicNonce, result)))
  {
    var submitted := blockTemplate[..];
    next := nonce;
    if batch {
      next := atomicNonce.FetchAdd();
    }
    Store32(blockTemplate, NonceOffset, next);
    PatchedIsItem(submitted, next);
    if batch {
      vm.CalculateHashNext(blockTemplate[..], hash);
    } else {
      vm.CalculateHash(blockTemplate[..], hash);
    }
    if commit {
      CalculateCommitment(vm.engine, if batch then submitted else blockTemplate[..], hash);
    }
    result.XorWith(hash);
    if !batch {
      next := atomicNonce.FetchAdd();
    }
  }

  /** The worker with the correction applied: in batched mode it keeps a
      copy of the input it submitted and commits over that copy. */
  method MineCorrected(vm: Vm, atomicNonce: NonceCounter, result: AtomicHash, noncesCount: u32, batch: bool, commit: bool)
    requires result.Valid()
    modifies vm, atomicNonce, result.hash
    ensures result.Valid()
    ensures Observe(vm, atomicNonce, result)
         == CorrectedRun(vm.engine, batch, commit, noncesCount, old(Observe(vm, atomicNonce, result)))
  {
    ghost var e := vm.engine;
    ghost var goal := CorrectedRun(e, batch, commit, noncesCount, Observe(vm, atomicNonce, result));
    var hash := new bv64[LaneCount];
    var blockTemplate := CopyTemplate();
    var nonce: u32 := atomicNonce.FetchAdd();
    if batch {
      Store32(blockTemplate, NonceOffset, nonce);
      PatchedIsItem(BlockTemplate, nonce);
      vm.CalculateHashFirst(blockTemplate[..]);
    }
    while nonce < noncesCount
      invariant fresh(hash) && fresh(blockTemplate)
      invariant hash.Length == LaneCount
      invariant OutsideNonceIsTemplate(blockTemplate[..])
      invariant atomicNonce.value == Inc32(nonce)
      invariant batch ==> vm.pending == Some(blockTemplate[..])
      invariant result.Valid()
      invariant CorrectedLoop(e, batch, commit, noncesCount, nonce, Observe(vm, atomicNonce, result)) == goal
      decreases noncesCount - nonce
    {
      nonce := IterateCorrected(vm, atomicNonce, result, hash, blockTemplate, nonce, noncesCount, batch, commit);
    }
  }
}
