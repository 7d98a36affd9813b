/** The shared nonce counter (`std::atomic<uint32_t> atomicNonce`),
    modelled for one sequential worker: `fetch_add(1)` returns the current
    value and advances the counter by one modulo 2^32. */
module Allocator {
  import opened Uints

  class NonceCounter {
    var value: u32

    constructor (start: u32)
      ensures value == start
    {
      value := start;
    }

    /** `atomicNonce.fetch_add(1)`. */
    method FetchAdd() returns (claimed: u32)
      modifies this
      ensures claimed == old(value)
      ensures value == Inc32(old(value))
    {
      claimed := value;
      value := Inc32(value);
    }
  }

  /** The values returned by `k` successive claims from a counter at `start`. */
  function Claims(start: u32, k: nat): (r: seq<u32>)
    ensures |r| == k
    decreases k
  {
    if k == 0 then [] else [start] + Claims(Inc32(start), k - 1)
  }

  /** Claims from `start` that do not pass 2^32 - 1 return consecutive,
      hence strictly increasing, values. */
  lemma {:induction false} ClaimsConsecutive(start: u32, k: nat)
    requires start + k <= Two32
    ensures |Claims(start, k)| == k
    ensures forall i :: 0 <= i < k ==> Claims(start, k)[i] == start + i
    ensures forall i, j :: 0 <= i < j < k ==> Claims(start, k)[i] < Claims(start, k)[j]
    decreases k
  {
    if k > 0 {
      if k > 1 {
        ClaimsConsecutive(Inc32(start), k - 1);
      }
    }
  }
}
