# RandomX micro-mode runner: the mining worker, verified

This project models the per-thread mining worker of RandomX's
`micro-mode-runner` test program (`src/tests/micro-mode-runner.cpp`). The
worker runs one thread's share of a benchmark. It claims nonces from a
shared 32-bit counter and patches each one into a private copy of a
76-byte block template. It hashes the result with the RandomX VM,
optionally replaces the hash by its commitment, and XORs the result into
a shared four-lane accumulator (`AtomicHash`). The model runs one worker
alone and in sequence.

- `uints.dfy` (`Uints`): byte and 32-bit unsigned types; `Inc32`, the
  wrapping increment of `fetch_add(1)` on a `uint32_t`.
- `allocator.dfy` (`Allocator`): the shared counter `NonceCounter`, with
  `FetchAdd`, and the values that successive claims return.
- `work_item.dfy` (`WorkItem`): the constant template `blockTemplate_`,
  the little-endian nonce field at offset 39, `store32`, the `memcpy` that
  makes the private copy, and `Item(n)`, the input hashed for nonce `n`.
- `accumulator.dfy` (`Accumulator`): `AtomicHash` as a class over a
  4-element `bv64` array. It also defines lane-wise XOR and `XorAll`, the
  XOR of a sequence of hashes, with their algebra.
- `engine.dfy` (`HashEngine`): the RandomX library as the worker sees it.
  The hash and commitment functions are fields of an `Engine` value. The
  VM is a class `Vm` with a `pending` input for the pipelined pair and a
  ghost log of calls.
- `worker.dfy` (`Worker`): `mine<batch, commit>` as the method `Mine`,
  proved against `Run`. `Run` takes the first claim and, in batched mode,
  the priming call; then `Loop` runs the while loop one iteration at a
  time.
- `worker_properties.dfy` (`WorkerProperties`): closed forms of `Run`,
  proved by induction. They give the calls made and the inputs they
  carry, where the counter ends, and what is merged into the accumulator.
- `worker_findings.dfy` (`WorkerFindings`): the batched-commit
  discrepancy below, with its correction.

The VM's behaviour is an assumed contract, because the library is not part
of this model. `randomx_calculate_hash` returns the engine's hash of its
input. `randomx_calculate_hash_first` submits an input. Each
`randomx_calculate_hash_next` returns the hash of the input submitted
before it and submits its own. `randomx_calculate_hash` leaves the
pending submission of the pipelined pair as it was. `randomx_calculate_commitment`
returns the engine's commitment of an input and a hash. `Vm` and
`CalculateCommitment` implement exactly this contract over the functions
in `Engine`. Every property below holds for every choice of those
functions, except `WorkerFindings.BatchedCommitDisagrees`, which exhibits
one engine, `ProbeEngine`.

The model follows the code as written, including these points of its
behaviour, which are easy to misread:
- The template has 76 bytes (four rows of 19 at lines 51-54).
  The nonce field is bytes 39 to 42, which are zero in the template.
- With a bound of 0, a batched worker still makes one engine call: the
  priming `hash_first` happens before the bound is checked
  (`BatchedPrimesPastBound`). Only a non-batched worker makes no call
  (`NonBatchedDiscardsPastBound`).
- In batched mode the first claimed value's hash is collected, by the
  first `hash_next`. What is never collected is the hash of the last
  submission, the first claimed value at or past the bound
  (`BatchedFromZero`: the final `pending` input).
- With commitments on, batched and non-batched runs can produce different
  fingerprints (see Findings). They agree on an engine whose commitment
  ignores its input.
- `main` never calls `mine`. The worker is dead code in this file, though
  it is the file's only logic.

## Model

| member | source | states |
|---|---|---|
| `Uints.Inc32` | src/tests/micro-mode-runner.cpp:128 | the counter's increment is +1 below 2^32 - 1 and wraps to 0 from it |
| `Allocator.NonceCounter.FetchAdd` | src/tests/micro-mode-runner.cpp:128 | a claim returns the counter's current value and advances it by exactly 1 mod 2^32 |
| `Allocator.Claims` | src/tests/micro-mode-runner.cpp:128-146 | definition: the values k successive `fetch_add(1)` calls return, k of them, each one `Inc32` past the previous |
| `Allocator.ClaimsConsecutive` | src/tests/micro-mode-runner.cpp:128-146 | claims that do not pass 2^32 - 1 return start, start+1, ..., so they strictly increase |
| `WorkItem.Le32RoundTrip` | src/tests/micro-mode-runner.cpp:139 | reading back the four bytes `store32` writes gives the nonce |
| `WorkItem.Load32RoundTrip` | src/tests/micro-mode-runner.cpp:139 | any four bytes are the little-endian encoding of the value they read as |
| `WorkItem.Le32` | src/tests/micro-mode-runner.cpp:139 | definition: the four bytes `store32` writes, least significant first; the two round trips above show it is a bijection on 32-bit values |
| `WorkItem.Item` | src/tests/micro-mode-runner.cpp:125-127 | the input for a nonce keeps the template outside bytes 39..42 and has length 76 |
| `WorkItem.ItemLayout` | src/tests/micro-mode-runner.cpp:50-55 | nonce n's input equals the template byte for byte except bytes 39..42, which hold n little-endian; the nonce read back from it is n |
| `WorkItem.ItemInjective` | src/tests/micro-mode-runner.cpp:127 | two nonces give the same input if and only if they are equal |
| `WorkItem.ItemOfNonce` | src/tests/micro-mode-runner.cpp:127 | a buffer that keeps the template outside the nonce field is the input of the nonce it carries |
| `WorkItem.CopyTemplate` | src/tests/micro-mode-runner.cpp:125-126 | the private buffer is a fresh byte-for-byte copy of `blockTemplate_` |
| `WorkItem.Store32` | src/tests/micro-mode-runner.cpp:139 | `store32` writes the nonce's four little-endian bytes at the offset and changes no other byte |
| `WorkItem.PatchedIsItem` | src/tests/micro-mode-runner.cpp:131 | patching a template copy's nonce field with n yields exactly nonce n's input |
| `Accumulator.ZeroIsIdentity` | src/tests/micro-mode-runner.cpp:59-62 | the all-zero accumulator is the identity of XOR |
| `Accumulator.XorSelfInverse` | src/tests/micro-mode-runner.cpp:63-66 | merging the same update twice restores the previous lanes |
| `Accumulator.XorCommutes` | src/tests/micro-mode-runner.cpp:63-66 | two updates applied in either order give the same lanes |
| `Accumulator.XorAssociates` | src/tests/micro-mode-runner.cpp:63-66 | merging is associative |
| `Accumulator.Xor` | src/tests/micro-mode-runner.cpp:63-66 | definition: lane i is lane i of the first value XOR lane i of the second, for the four lanes |
| `Accumulator.XorAll` | src/tests/micro-mode-runner.cpp:144 | definition: the XOR of a sequence of hashes, `Zero` for none; what a fresh accumulator holds after merging them |
| `Accumulator.XorAllAppend` | src/tests/micro-mode-runner.cpp:144 | the fingerprint of two batches of hashes is the XOR of their fingerprints |
| `Accumulator.XorAllRemove` | src/tests/micro-mode-runner.cpp:144 | a fingerprint is any one of its hashes XOR the fingerprint of the others |
| `Accumulator.XorAllPermutation` | src/tests/micro-mode-runner.cpp:144 | the fingerprint is the same for every order in which the hashes arrive |
| `Accumulator.AtomicHash.constructor` | src/tests/micro-mode-runner.cpp:59-62 | a new accumulator has four lanes, all zero |
| `Accumulator.AtomicHash.XorWith` | src/tests/micro-mode-runner.cpp:63-66 | lane i becomes old lane i XOR update[i] for i in 0..3, and nothing else changes, even when the update is the lane array itself |
| `HashEngine.Vm.CalculateHash` | src/tests/micro-mode-runner.cpp:140 | (assumed) the output is the hash of the input; the pipeline is untouched; one call is logged |
| `HashEngine.Vm.CalculateHashFirst` | src/tests/micro-mode-runner.cpp:132 | (assumed) the input becomes the pending submission; one call is logged |
| `HashEngine.Vm.CalculateHashNext` | src/tests/micro-mode-runner.cpp:140 | (assumed) the output is the hash of the previous submission, and the input replaces it |
| `HashEngine.CalculateCommitment` | src/tests/micro-mode-runner.cpp:141-143 | the hash buffer is overwritten in place by the commitment of the buffer and the old hash |
| `Worker.Merge` | src/tests/micro-mode-runner.cpp:141-144 | definition: the value `xorWith` receives, the commitment of the input and the hash when commitments are on, otherwise the hash |
| `Worker.Loop` | src/tests/micro-mode-runner.cpp:135-148 | the while loop, one iteration per call, from the moment `nonce` is claimed; it ends with the counter one past the bound (or one past `nonce` if that is already at the bound), and with a submission pending in batched mode |
| `Worker.Run` | src/tests/micro-mode-runner.cpp:128-148 | the first claim, the priming `hash_first` in batched mode, then `Loop`; the counter ends one past the larger of the start value and the bound |
| `Worker.Iterate` | src/tests/micro-mode-runner.cpp:136-147 | one pass of the loop body: the nonce advances by one; the buffer becomes the item of the nonce just patched; the counter moves one past it; batched, that item becomes the pending submission and one `hash_next` is logged, else the pending submission is kept and one `hash` is logged; the lanes are XORed with the merge of the hash returned (the previous submission's when batched); and the state left leads `Loop` to the same end as the state before |
| `Worker.Mine` | src/tests/micro-mode-runner.cpp:116-149 | counter, lanes, pending submission and call log after `mine` are those `Run` gives from their values before; the private buffer keeping the template outside the nonce field is its loop invariant, not part of the contract |
| `WorkerProperties.NonBatchedMergesAt` | src/tests/micro-mode-runner.cpp:139-144 | without batching, the k-th merged value is nonce lo+k's hash, or the commitment of nonce lo+k's input and hash |
| `WorkerProperties.BatchedMergesAt` | src/tests/micro-mode-runner.cpp:139-144 | with batching, the k-th merged value is nonce lo+k's hash, committed over nonce lo+k+1's input |
| `WorkerProperties.MergesAgreeWithoutCommit` | src/tests/micro-mode-runner.cpp:136-144 | without commitments both protocols merge the same hashes in the same order |
| `WorkerProperties.MergesConcat` | src/tests/micro-mode-runner.cpp:135-147 | the values merged over a nonce range are those over its two halves, in order |
| `WorkerProperties.MergesSplit` | src/tests/micro-mode-runner.cpp:135-147 | the non-batched merges over [lo, hi) split at any mid: the fingerprint is the XOR of the fingerprints of the two parts |
| `WorkerProperties.MergesOf` | src/tests/micro-mode-runner.cpp:139-146 | a non-batched worker that takes the nonces `ns` merges one value per nonce, in order |
| `WorkerProperties.NonceMerge` | src/tests/micro-mode-runner.cpp:139-144 | definition: the value merged for a nonce, its item's hash or that hash's commitment |
| `WorkerProperties.MergesOfClaims` | src/tests/micro-mode-runner.cpp:128-146 | taking the consecutive claims lo, ..., hi - 1 in order merges exactly `NonBatchedMerges` over [lo, hi) |
| `WorkerProperties.MergesOfAppend` | src/tests/micro-mode-runner.cpp:144 | taking two runs of nonces one after the other merges their values one after the other |
| `WorkerProperties.MergesOfPermutation` | src/tests/micro-mode-runner.cpp:144 | taking the same nonces in another order merges the same values in another order (equal multisets) |
| `WorkerProperties.SharedRangeFingerprint` | src/tests/micro-mode-runner.cpp:128-146 | however the nonces lo, ..., hi - 1 are shared out between two workers on one counter, and in whatever order each takes its share, the XOR of their fingerprints is the fingerprint of one worker taking them all in order |
| `WorkerProperties.LoopNonBatched` | src/tests/micro-mode-runner.cpp:135-148 | the non-batched loop from nonce n below the bound N makes one hash call per nonce n..N-1 in order, merges their values, and leaves the counter at N+1 mod 2^32 |
| `WorkerProperties.LoopBatched` | src/tests/micro-mode-runner.cpp:135-148 | the batched loop from a submitted nonce n makes one `hash_next` per nonce n+1..N, collects the hashes of n..N-1, leaves N submitted, and leaves the counter at N+1 mod 2^32 |
| `WorkerProperties.RunNonBatched` | src/tests/micro-mode-runner.cpp:128-148 | a non-batched call from counter s: if s < N, nonces s..N-1 are hashed and the counter ends at N+1; otherwise the claimed value is discarded unhashed and only the counter moves |
| `WorkerProperties.RunBatched` | src/tests/micro-mode-runner.cpp:128-148 | a batched call from counter s: one priming call on s, then if s < N one `hash_next` per nonce s+1..N collecting the hashes of s..N-1; the last submission is never collected |
| `WorkerProperties.NonBatchedFromZero` | src/tests/micro-mode-runner.cpp:135-147 | from a counter at 0 with bound N: exactly N hash calls, the i-th on nonce i; the counter ends at N+1; a fresh accumulator ends as the XOR over n in [0, N) of nonce n's hash, or of its commitment |
| `WorkerProperties.BatchedFromZero` | src/tests/micro-mode-runner.cpp:128-144 | from a counter at 0 with bound N, commit off: one `hash_first` on nonce 0, then exactly N `hash_next` on nonces 1..N; the collected hashes are those of nonces 0..N-1; nonce N stays submitted; the counter ends at N+1 |
| `WorkerProperties.BatchedFromZeroCalls` | src/tests/micro-mode-runner.cpp:128-140 | from a counter at 0 with bound N, batched, with or without commitments: N + 1 calls, `hash_first` on nonce 0, then `hash_next` on nonces 1..N |
| `WorkerProperties.BatchedPrimesPastBound` | src/tests/micro-mode-runner.cpp:128-135 | batched, with the bound already reached: one `hash_first` call is still made and nothing is merged |
| `WorkerProperties.NonBatchedDiscardsPastBound` | src/tests/micro-mode-runner.cpp:128-135 | non-batched, with the bound already reached: no engine call, nothing merged, the counter advances once |
| `WorkerProperties.RunAppendsCalls` | src/tests/micro-mode-runner.cpp:128-146 | a run only appends to the VM's call log: a priming call in batched mode, then one call per value claimed below the bound |
| `WorkerProperties.RunCallsInputs` | src/tests/micro-mode-runner.cpp:128-146 | the i-th call appended carries the input of the i-th value claimed, and the claims stay below 2^32 |
| `WorkerProperties.ModesAgreeWithoutCommit` | src/tests/micro-mode-runner.cpp:130-146 | without commitments the batched and non-batched workers leave the same accumulator and counter |
| `WorkerProperties.CallInputs` | src/tests/micro-mode-runner.cpp:128-146 | a run appends to the VM's log, and its i-th call carries the input of the i-th value claimed |
| `WorkerProperties.CallsCarryClaims` | src/tests/micro-mode-runner.cpp:128-146 | the nonces in a run's calls are the values claimed, in order: consecutive and strictly increasing, so no input reaches the engine twice |
| `WorkerFindings.BatchedCommitDisagrees` | src/tests/micro-mode-runner.cpp:139-142 | with commitments on, an engine exists on which the batched and non-batched workers end with different fingerprints |
| `WorkerFindings.CorrectedLoop` | src/tests/micro-mode-runner.cpp:135-148 | `Loop` with the batched commitment taken over the input whose hash `hash_next` returned; the same final counter and pending submission |
| `WorkerFindings.CorrectedRun` | src/tests/micro-mode-runner.cpp:128-148 | `Run` over `CorrectedLoop`; the counter ends one past the larger of the start value and the bound |
| `WorkerFindings.CorrectedLoopBatched` | src/tests/micro-mode-runner.cpp:135-148 | the corrected batched loop merges exactly the non-batched values |
| `WorkerFindings.CorrectedLoopNonBatched` | src/tests/micro-mode-runner.cpp:135-148 | the correction does not change the non-batched loop |
| `WorkerFindings.CorrectedModesAgree` | src/tests/micro-mode-runner.cpp:139-142 | corrected, accumulator and counter do not depend on the protocol, with or without commitments |
| `WorkerFindings.IterateCorrected` | src/tests/micro-mode-runner.cpp:136-147 | as `Iterate`, except that the value merged is the commitment (when on) of the input whose hash was returned, with the same one-step counter, pending submission, call log and buffer |
| `WorkerFindings.MineCorrected` | src/tests/micro-mode-runner.cpp:116-149 | the corrected worker's counter, lanes, pending submission and call log are those `CorrectedRun` gives |

## Left out

- Concurrency: the model runs one worker alone, so the `std::atomic`
  operations become plain field updates. Several threads racing on the
  counter and the accumulator are not modelled. That the order of merges
  does not matter is stated by `XorAllPermutation`. How non-batched workers
  share the nonces does not matter either: that is `SharedRangeFingerprint`,
  over any sharing of a range between two workers.
- Thread affinity (`set_thread_affinity`, lines 118-123): an operating
  system call whose failure is only logged. `Mine` has no `thread` or
  `cpuid` parameter.
- The RandomX library: cache and dataset allocation, VM creation, and
  the computation of hashes and commitments. The hash and commitment are
  arbitrary functions in `Engine`, and the VM's calling contract is
  assumed (above). `randomx.h` is not part of this model.
- `main` (lines 151-231): option parsing and library set-up, ending in a
  path marked as crashing; it never calls `mine`. The option readers are
  in `utility.hpp`, which is not part of this model.
- `printUsage`, `AtomicHash::print` and `outputHex`: console output only.
- `MemoryException`, `CacheAllocException` and `DatasetAllocException`
  (lines 101-112): never thrown in this file, and no modelled operation
  can fail.
- MergesSplit: splits the non-batched merges at one contiguous point only;
  nonces that two workers on one counter claim interleave, and that general
  sharing is `SharedRangeFingerprint`.
- SharedRangeFingerprint: covers the non-batched protocol with or without
  commitments, and the batched protocol without them, where each merge is
  the nonce's hash alone (`MergesAgreeWithoutCommit`). With batching and
  commitments, a worker commits over the next nonce it claims itself, so
  its merge depends on how the claims interleave, and no sharing lemma is
  stated for that case.
- `HashEngine.Vm.CalculateHashNext` requires a prior submission. The
  library's behaviour without one is not known here, and `mine` always
  primes first.

## Findings

| source | as written | input that shows it | evidently intended | confidence | as-written member | corrected member |
|---|---|---|---|---|---|---|
| src/tests/micro-mode-runner.cpp:139-142 | in batched mode the commitment is taken over the buffer just patched with the newly claimed nonce, while `hash_next` returned the hash of the previous nonce's input | bound 1, fresh counter and accumulator, commit on, an engine whose hash is constant and whose commitment exposes byte 39 of its input: batched lane 0 ends 1, non-batched lane 0 ends 0 | commit over the input whose hash was returned, so the fingerprint does not depend on the protocol | medium, not executed | `WorkerFindings.BatchedCommitDisagrees` | `WorkerFindings.CorrectedModesAgree` |

`Worker.Mine` models the code as written. `WorkerFindings.MineCorrected` is
the corrected worker. It keeps a copy of the submitted input and commits
over that copy.
