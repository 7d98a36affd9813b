/** The hashing engine, which this model does not contain. Hashing and
    commitment are functions passed in with the engine value; the VM is
    an object whose methods state the calling contract the worker relies
    on. That contract is an assumption about the library: for the pipelined
    pair, `hash_first` submits an input, and each `hash_next` returns the
    hash of the previously submitted input and submits its own. */
module HashEngine {
  import opened Uints
  import opened Accumulator

  datatype Option<T> = None | Some(value: T)

  /** `randomx_calculate_hash` and `randomx_calculate_commitment` as pure
      functions of their inputs. */
  datatype Engine = Engine(hash: seq<u8> -> Lanes, commit: (seq<u8>, Lanes) -> Lanes)

  /** One call into the VM, with the input it was given. */
  datatype Call = Hash(input: seq<u8>) | HashFirst(input: seq<u8>) | HashNext(input: seq<u8>)

  /** Writes the four lanes of `h` into `output`. */
  method StoreLanes(output: array<bv64>, h: Lanes)
    requires output.Length == LaneCount
    modifies output
    ensures output[..] == h
  {
    output[0], output[1], output[2], output[3] := h[0], h[1], h[2], h[3];
  }

  /** A per-worker `randomx_vm`. Inputs are passed as the bytes the library
      reads from the caller's buffer. `pending` is the input submitted to
      the pipeline and not yet collected; `calls` records every call made. */
  class Vm {
    const engine: Engine
    var pending: Option<seq<u8>>
    ghost var calls: seq<Call>

    constructor (e: Engine)
      ensures engine == e && pending == None && calls == []
    {
      engine := e;
      pending := None;
      calls := [];
    }

    /** `randomx_calculate_hash`: the hash of `input`, synchronously. */
    method CalculateHash(input: seq<u8>, output: array<bv64>)
      requires output.Length == LaneCount
      modifies this, output
      ensures output[..] == engine.hash(input)
      ensures pending == old(pending)
      ensures calls == old(calls) + [Hash(input)]
    {
      StoreLanes(output, engine.hash(input));
      calls := calls + [Hash(input)];
    }

    /** `randomx_calculate_hash_first`: submits `input`, returns nothing. */
    method CalculateHashFirst(input: seq<u8>)
      modifies this
      ensures pending == Some(input)
      ensures calls == old(calls) + [HashFirst(input)]
    {
      pending := Some(input);
      calls := calls + [HashFirst(input)];
    }

    /** `randomx_calculate_hash_next`: returns the hash of the input
        submitted before and submits `input` in its place. */
    method CalculateHashNext(input: seq<u8>, output: array<bv64>)
      requires output.Length == LaneCount
      requires pending.Some?
      modifies this, output
      ensures output[..] == engine.hash(old(pending).value)
      ensures pending == Some(input)
      ensures calls == old(calls) + [HashNext(input)]
    {
      StoreLanes(output, engine.hash(pending.value));
      pending := Some(input);
      calls := calls + [HashNext(input)];
    }
  }

  /** `randomx_calculate_commitment(input, size, hash, hash)`: overwrites
      the hash buffer in place with the commitment of `input` and the hash. */
  method CalculateCommitment(e: Engine, input: seq<u8>, hash: array<bv64>)
    requires hash.Length == LaneCount
    modifies hash
    ensures hash[..] == e.commit(input, old(hash[..]))
  {
    StoreLanes(hash, e.commit(input, hash[..]));
  }
}
