/** The work item: the worker's private copy of the 76-byte block
    template with a 32-bit little-endian nonce field at byte offset 39. */
module WorkItem {
  import opened Uints

  const TemplateSize: nat := 76
  const NonceOffset: nat := 39

  /** The constant block template `blockTemplate_`. */
  const BlockTemplate: seq<u8> := [
    0x07, 0x07, 0xf7, 0xa4, 0xf0, 0xd6, 0x05, 0xb3, 0x03, 0x26, 0x08, 0x16, 0xba, 0x3f, 0x10, 0x90, 0x2e, 0x1a, 0x14,
    0x5a, 0xc5, 0xfa, 0xd3, 0xaa, 0x3a, 0xf6, 0xea, 0x44, 0xc1, 0x18, 0x69, 0xdc, 0x4f, 0x85, 0x3f, 0x00, 0x2b, 0x2e,
    0xea, 0x00, 0x00, 0x00, 0x00, 0x77, 0xb2, 0x06, 0xa0, 0x2c, 0xa5, 0xb1, 0xd4, 0xce, 0x6b, 0xbf, 0xdf, 0x0a, 0xca,
    0xc3, 0x8b, 0xde, 0xd3, 0x4d, 0x2d, 0xcd, 0xee, 0xf9, 0x5c, 0xd2, 0x0c, 0xef, 0xc1, 0x2f, 0x61, 0xd5, 0x61, 0x09
  ]

  /** The four bytes `store32` writes for `v`, least significant first. */
  function Le32(v: u32): (b: seq<u8>)
    ensures |b| == 4
  {
    [v % 256, v / 256 % 256, v / 256 / 256 % 256, v / 256 / 256 / 256]
  }

  /** The value of four little-endian bytes (`load32`). */
  function Load32(b: seq<u8>): (v: u32)
    requires |b| == 4
  {
    b[0] as int + 256 * (b[1] as int) + 65536 * (b[2] as int) + 16777216 * (b[3] as int)
  }

  lemma Le32RoundTrip(v: u32)
    ensures Load32(Le32(v)) == v
  {
  }

  lemma Load32RoundTrip(b: seq<u8>)
    requires |b| == 4
    ensures Le32(Load32(b)) == b
  {
  }

  /** A buffer that agrees with the template everywhere except, possibly,
      in the nonce field. */
  predicate OutsideNonceIsTemplate(buf: seq<u8>)
  {
    && |buf| == TemplateSize
    && buf[..NonceOffset] == BlockTemplate[..NonceOffset]
    && buf[NonceOffset + 4..] == BlockTemplate[NonceOffset + 4..]
  }

  /** The input hashed for nonce `n`: the template with `n` stored at
      offset 39. */
  function Item(n: u32): (w: seq<u8>)
    ensures OutsideNonceIsTemplate(w)
  {
    BlockTemplate[..NonceOffset] + Le32(n) + BlockTemplate[NonceOffset + 4..]
  }

  /** The nonce carried by a work item. */
  function NonceOf(w: seq<u8>): (n: u32)
    requires OutsideNonceIsTemplate(w)
  {
    Load32(w[NonceOffset..NonceOffset + 4])
  }

  /** Byte-for-byte layout of a work item, and the nonce it carries. */
  lemma ItemLayout(n: u32)
    ensures |Item(n)| == TemplateSize
    ensures forall i :: 0 <= i < TemplateSize && !(NonceOffset <= i < NonceOffset + 4) ==>
      Item(n)[i] == BlockTemplate[i]
    ensures Item(n)[NonceOffset..NonceOffset + 4] == Le32(n)
    ensures NonceOf(Item(n)) == n
  {
    var w := Item(n);
    assert w[NonceOffset..NonceOffset + 4] == Le32(n);
    Le32RoundTrip(n);
    forall i | 0 <= i < TemplateSize && !(NonceOffset <= i < NonceOffset + 4)
      ensures w[i] == BlockTemplate[i]
    {
      if i < NonceOffset {
        assert w[i] == w[..NonceOffset][i];
      } else {
        assert w[i] == w[NonceOffset + 4..][i - NonceOffset - 4];
      }
    }
  }

  /** Distinct nonces give distinct inputs, and a buffer that keeps the
      template outside the nonce field is the item of the nonce it carries. */
  lemma ItemInjective(m: u32, n: u32)
    ensures Item(m) == Item(n) <==> m == n
  {
    if Item(m) == Item(n) {
      ItemLayout(m);
      ItemLayout(n);
    }
  }

  lemma ItemOfNonce(buf: seq<u8>)
    requires OutsideNonceIsTemplate(buf)
    ensures Item(NonceOf(buf)) == buf
  {
    var f := buf[NonceOffset..NonceOffset + 4];
    Load32RoundTrip(f);
    assert buf == buf[..NonceOffset] + f + buf[NonceOffset + 4..];
  }

  /** `memcpy(blockTemplate, blockTemplate_, sizeof(blockTemplate))`. */
  method CopyTemplate() returns (buf: array<u8>)
    ensures fresh(buf)
    ensures buf[..] == BlockTemplate
  {
    buf := new u8[TemplateSize](i requires 0 <= i < TemplateSize => BlockTemplate[i]);
  }

  /** `store32(buf + offset, v)`: writes the four little-endian bytes of `v`
      at `offset` and leaves every other byte as it was. */
  method Store32(buf: array<u8>, offset: nat, v: u32)
    requires offset + 4 <= buf.Length
    modifies buf
    ensures buf[..] == old(buf[..offset]) + Le32(v) + old(buf[offset + 4..])
  {
    var bytes := Le32(v);
    buf[offset] := bytes[0];
    buf[offset + 1] := bytes[1];
    buf[offset + 2] := bytes[2];
    buf[offset + 3] := bytes[3];
    assert buf[..] == old(buf[..offset]) + Le32(v) + old(buf[offset + 4..]);
  }

  /** Patching the nonce field of a buffer that keeps the template outside
      it yields exactly the work item for that nonce. */
  lemma PatchedIsItem(buf: seq<u8>, n: u32)
    requires OutsideNonceIsTemplate(buf)
    ensures buf[..NonceOffset] + Le32(n) + buf[NonceOffset + 4..] == Item(n)
  {
  }
}
