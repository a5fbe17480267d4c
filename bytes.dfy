/** Little-endian view of a 32-bit word as four bytes (`u32::to_le_bytes` and
    `u32::from_le_bytes`). */
module Bytes {
  import opened Addr

  /** `u32::to_le_bytes`: the least significant byte first. */
  function ToLeBytes(w: u32): (b: seq<u8>)
    ensures |b| == 4
  {
    [w % 0x100, (w / 0x100) % 0x100, (w / 0x1_0000) % 0x100, w / 0x100_0000]
  }

  /** `u32::from_le_bytes`. */
  function FromLeBytes(b: seq<u8>): (w: u32)
    requires |b| == 4
  {
    b[0] as int + 0x100 * b[1] as int + 0x1_0000 * b[2] as int + 0x100_0000 * b[3] as int
  }

  /** Decoding an encoded word gives the word back. */
  lemma WordRoundTrip(w: u32)
    ensures FromLeBytes(ToLeBytes(w)) == w
  {
    var b := ToLeBytes(w);
    assert w == w % 0x100 + 0x100 * (w / 0x100);
    assert w / 0x100 == (w / 0x100) % 0x100 + 0x100 * (w / 0x1_0000);
    assert w / 0x1_0000 == (w / 0x1_0000) % 0x100 + 0x100 * (w / 0x100_0000);
  }

  /** Encoding a decoded word gives the four bytes back. */
  lemma BytesRoundTrip(b: seq<u8>)
    requires |b| == 4
    ensures ToLeBytes(FromLeBytes(b)) == b
  {
    var w := FromLeBytes(b);
    assert w % 0x100 == b[0];
    assert w / 0x100 == b[1] as int + 0x100 * b[2] as int + 0x1_0000 * b[3] as int;
    assert w / 0x1_0000 == b[2] as int + 0x100 * b[3] as int;
    assert w / 0x100_0000 == b[3];
  }

  /** Byte `k` of `w`, counting from the least significant one. */
  function ByteOf(w: nat, k: nat): u8
    decreases k
  {
    if k == 0 then w % 0x100 else ByteOf(w / 0x100, k - 1)
  }

  /** `w` with its byte `k` replaced by `b`. */
  function SetByte(w: nat, k: nat, b: u8): nat
    decreases k
  {
    if k == 0 then w - w % 0x100 + b else SetByte(w / 0x100, k - 1, b) * 0x100 + w % 0x100
  }

  function Pow256(n: nat): nat {
    if n == 0 then 1 else 0x100 * Pow256(n - 1)
  }

  /** Replacing byte `k` puts `b` there and leaves every other byte as it was. */
  lemma {:induction false} SetByteBytes(w: nat, k: nat, b: u8, k2: nat)
    ensures ByteOf(SetByte(w, k, b), k2) == if k2 == k then b else ByteOf(w, k2)
    decreases k
  {
    var r := SetByte(w, k, b);
    if k == 0 {
      assert r == 0x100 * (w / 0x100) + b;
      if k2 != 0 {
        assert r / 0x100 == w / 0x100;
      }
    } else {
      var q := SetByte(w / 0x100, k - 1, b);
      assert r / 0x100 == q && r % 0x100 == w % 0x100;
      if k2 != 0 {
        SetByteBytes(w / 0x100, k - 1, b, k2 - 1);
      }
    }
  }

  /** Replacing a byte of an `n`-byte number gives an `n`-byte number. */
  lemma {:induction false} SetByteBound(w: nat, k: nat, b: u8, n: nat)
    requires w < Pow256(n) && k < n
    ensures SetByte(w, k, b) < Pow256(n)
    decreases k
  {
    assert Pow256(n) == 0x100 * Pow256(n - 1);
    if k > 0 {
      SetByteBound(w / 0x100, k - 1, b, n - 1);
    }
  }

  /** The four bytes of `u32::to_le_bytes` are bytes 0 to 3 of the word. */
  lemma ToLeBytesByteOf(w: u32, k: nat)
    requires k < 4
    ensures ToLeBytes(w)[k] == ByteOf(w, k)
  {
    assert w / 0x100 / 0x100 == w / 0x1_0000;
    assert w / 0x1_0000 / 0x100 == w / 0x100_0000;
    if k == 3 {
      assert ByteOf(w, 3) == ByteOf(w / 0x100 / 0x100 / 0x100, 0);
    }
  }

  /** The word `w` with its byte at `offset` replaced by `b`, as `store_u8` builds
      it; still a 32-bit word. */
  function WithByte(w: u32, offset: nat, b: u8): (r: u32)
    requires offset < 4
    ensures ByteOf(r, offset) == b
  {
    assert Pow256(4) == U32_LIMIT;
    SetByteBound(w, offset, b, 4);
    SetByteBytes(w, offset, b, offset);
    SetByte(w, offset, b)
  }

  /** `store_u8`'s round trip through `to_le_bytes` and `from_le_bytes` is the byte
      replacement. */
  lemma StoreViaLeBytes(w: u32, offset: nat, b: u8)
    requires offset < 4
    ensures FromLeBytes(ToLeBytes(w)[offset := b]) == WithByte(w, offset, b)
  {
    var bs := ToLeBytes(w)[offset := b];
    var r := WithByte(w, offset, b);
    forall k | 0 <= k < 4
      ensures bs[k] == ToLeBytes(r)[k]
    {
      ToLeBytesByteOf(r, k);
      ToLeBytesByteOf(w, k);
      SetByteBytes(w, offset, b, k);
    }
    assert bs == ToLeBytes(r);
    WordRoundTrip(r);
  }
}
