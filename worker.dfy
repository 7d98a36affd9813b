/** The mining worker `mine<batch, commit>` for one thread running alone:
    it claims nonces from the shared counter, hashes the template patched
    with each nonce, optionally replaces each hash by its commitment, and
    XORs the result into the shared accumulator. */
module Worker {
  import opened Uints
  import opened Accumulator
  import opened WorkItem
  import opened HashEngine
  import opened Allocator

  /** What the worker changes outside itself: the shared counter, the
      shared accumulator, the VM's pipeline and the calls made on the VM. */
  datatype Snapshot = Snapshot(counter: u32, acc: Lanes, pending: Option<seq<u8>>, calls: seq<Call>)

  /** The value merged for one hash: the hash, or its commitment. */
  function Merge(e: Engine, commit: bool, input: seq<u8>, h: Lanes): (r: Lanes)
  {
    if commit then e.commit(input, h) else h
  }

  /** The loop at lines 135-148, one iteration at a time, from the moment
      `nonce` has been claimed. */
  ghost function Loop(e: Engine, batch: bool, commit: bool, count: u32, nonce: u32, s: Snapshot): (r: Snapshot)
    requires s.counter == Inc32(nonce)
    requires batch ==> s.pending.Some?
    ensures r.counter == Inc32(if nonce < count then count else nonce)
    ensures batch ==> r.pending.Some?
    decreases count - nonce
  {
    if nonce >= count then s
    else
      var claimed := if batch then s.counter else nonce;
      var counter := if batch then Inc32(s.counter) else s.counter;
      var input := Item(claimed);
      var h := if batch then e.hash(s.pending.value) else e.hash(input);
      var pending := if batch then Some(input) else s.pending;
      var call := if batch then HashNext(input) else Hash(input);
      var acc := Xor(s.acc, Merge(e, commit, input, h));
      var nonce' := if batch then claimed else counter;
      var counter' := if batch then counter else Inc32(counter);
      Loop(e, batch, commit, count, nonce', Snapshot(counter', acc, pending, s.calls + [call]))
  }

  /** A whole call of `mine`: the first claim, the priming call in batched
      mode, then the loop. */
  ghost function Run(e: Engine, batch: bool, commit: bool, count: u32, init: Snapshot): (r: Snapshot)
    ensures r.counter == Inc32(if init.counter < count then count else init.counter)
  {
    var nonce := init.counter;
    var s := init.(counter := Inc32(nonce));
    var primed := if batch then s.(pending := Some(Item(nonce)), calls := s.calls + [HashFirst(Item(nonce))]) else s;
    Loop(e, batch, commit, count, nonce, primed)
  }

  /** The part of the state `mine` changes outside itself. */
  ghost function Observe(vm: Vm, atomicNonce: NonceCounter, result: AtomicHash): (r: Snapshot)
    reads vm, atomicNonce, result, result.hash
    requires result.Valid()
  {
    Snapshot(atomicNonce.value, result.Value(), vm.pending, vm.calls)
  }

  /** One iteration of the loop at lines 136-147: claim (batched),
      patch, hash, commit (optionally), merge, claim (non-batched). */
  method Iterate(vm: Vm, atomicNonce: NonceCounter, result: AtomicHash, hash: array<bv64>, blockTemplate: array<u8>,
                 nonce: u32, noncesCount: u32, batch: bool, commit: bool) returns (next: u32)
    requires nonce < noncesCount
    requires hash.Length == LaneCount && hash != result.hash
    requires OutsideNonceIsTemplate(blockTemplate[..])
    requires atomicNonce.value == Inc32(nonce)
    requires batch ==> vm.pending.Some?
    requires result.Valid()
    modifies vm, atomicNonce, result.hash, hash, blockTemplate
    ensures next == nonce + 1
    ensures blockTemplate[..] == Item(if batch then next else nonce)
    ensures atomicNonce.value == Inc32(next)
    ensures vm.pending == if batch then Some(Item(next)) else old(vm.pending)
    ensures vm.calls == old(vm.calls) + [if batch then HashNext(Item(next)) else Hash(Item(nonce))]
    ensures result.Valid()
    ensures result.Value()
         == Xor(old(result.Value()),
                if batch then Merge(vm.engine, commit, Item(next), vm.engine.hash(old(vm.pending).value))
                else Merge(vm.engine, commit, Item(nonce), vm.engine.hash(Item(nonce))))
    ensures Loop(vm.engine, batch, commit, noncesCount, next, Observe(vm, atomicNonce, result))
         == Loop(vm.engine, batch, commit, noncesCount, nonce, old(Observe(vm, atomicNonce, result)))
  {
    next := nonce;
    if batch {
      next := atomicNonce.FetchAdd();
    }
    ghost var before := blockTemplate[..];
    Store32(blockTemplate, NonceOffset, next);
    PatchedIsItem(before, next);
    if batch {
      vm.CalculateHashNext(blockTemplate[..], hash);
    } else {
      vm.CalculateHash(blockTemplate[..], hash);
    }
    if commit {
      CalculateCommitment(vm.engine, blockTemplate[..], hash);
    }
    result.XorWith(hash);
    if !batch {
      next := atomicNonce.FetchAdd();
    }
  }

  /** `mine<batch, commit>(vm, atomicNonce, result, noncesCount, ...)`,
      without the thread affinity call. */
  method Mine(vm: Vm, atomicNonce: NonceCounter, result: AtomicHash, noncesCount: u32, batch: bool, commit: bool)
    requires result.Valid()
    modifies vm, atomicNonce, result.hash
    ensures result.Valid()
    ensures Observe(vm, atomicNonce, result) == Run(vm.engine, batch, commit, noncesCount, old(Observe(vm, atomicNonce, result)))
  {
    ghost var e := vm.engine;
    ghost var goal := Run(e, batch, commit, noncesCount, Observe(vm, atomicNonce, result));
    var hash := new bv64[LaneCount];
    var blockTemplate := CopyTemplate();
    var nonce: u32 := atomicNonce.FetchAdd();
    if batch {
      Store32(blockTemplate, NonceOffset, nonce);
      PatchedIsItem(BlockTemplate, nonce);
      vm.CalculateHashFirst(blockTemplate[..]);
    }
    while nonce < noncesCount
      invariant fresh(hash) && fresh(blockTemplate)
      invariant hash.Length == LaneCount
      invariant OutsideNonceIsTemplate(blockTemplate[..])
      invariant atomicNonce.value == Inc32(nonce)
      invariant batch ==> vm.pending.Some?
      invariant result.Valid()
      invariant Loop(e, batch, commit, noncesCount, nonce, Observe(vm, atomicNonce, result)) == goal
      decreases noncesCount - nonce
    {
      nonce := Iterate(vm, atomicNonce, result, hash, blockTemplate, nonce, noncesCount, batch, commit);
    }
  }
}
