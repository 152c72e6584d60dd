/** Byte-level helpers with the semantics of Node's Buffer: little-endian
    32-bit reads and writes, clamped slicing, and big-endian opcode bytes. */
module Bytes {

  type byte = x: int | 0 <= x < 256

  const TWO_32: nat := 0x1_0000_0000

  /** 256 to the power `n`: the number of values `n` bytes can hold. */
  function Power256(n: nat): (p: nat)
    ensures p >= 1
  {
    if n == 0 then 1 else 0x100 * Power256(n - 1)
  }

  /** The `n` bytes of `v`, least significant first; higher bytes of `v`
      are dropped. */
  function LittleEndian(v: nat, n: nat): (r: seq<byte>)
    ensures |r| == n
  {
    if n == 0 then [] else [v % 0x100] + LittleEndian(v / 0x100, n - 1)
  }

  /** The number the `n` bytes of `s` from `off` on spell, least
      significant first. */
  function ReadLittleEndian(s: seq<byte>, off: nat, n: nat): (v: nat)
    requires off + n <= |s|
    ensures v < Power256(n)
    decreases n
  {
    if n == 0 then 0 else s[off] as nat + 0x100 * ReadLittleEndian(s, off + 1, n - 1)
  }

  /** `Buffer.writeUInt32LE(v)`: the four bytes of `v`, least significant first. */
  function U32LE(v: nat): (r: seq<byte>)
    requires v < TWO_32
    ensures |r| == 4
  {
    LittleEndian(v, 4)
  }

  /** `Buffer.readUInt32LE(off)`; the source throws a RangeError when
      fewer than four bytes remain, which callers model before calling. */
  function ReadU32LE(s: seq<byte>, off: nat): (v: nat)
    requires off + 4 <= |s|
    ensures v < TWO_32
  {
    assert Power256(4) == TWO_32;
    ReadLittleEndian(s, off, 4)
  }

  /** Writing `n` bytes then reading them recovers a value that fits,
      wherever the bytes sit. */
  lemma {:induction false} ReadOfLittleEndian(prefix: seq<byte>, v: nat, n: nat, suffix: seq<byte>)
    requires v < Power256(n)
    ensures ReadLittleEndian(prefix + LittleEndian(v, n) + suffix, |prefix|, n) == v
    decreases n
  {
    if n > 0 {
      var b: byte := v % 0x100;
      assert prefix + LittleEndian(v, n) + suffix == (prefix + [b]) + LittleEndian(v / 0x100, n - 1) + suffix;
      ReadOfLittleEndian(prefix + [b], v / 0x100, n - 1, suffix);
    }
  }

  /** Reading `n` bytes and writing them back reproduces those bytes. */
  lemma {:induction false} LittleEndianOfRead(s: seq<byte>, off: nat, n: nat)
    requires off + n <= |s|
    ensures LittleEndian(ReadLittleEndian(s, off, n), n) == s[off..off + n]
    decreases n
  {
    if n > 0 {
      var rest := ReadLittleEndian(s, off + 1, n - 1);
      var v := s[off] as nat + 0x100 * rest;
      assert v % 0x100 == s[off] && v / 0x100 == rest;
      LittleEndianOfRead(s, off + 1, n - 1);
      assert s[off..off + n] == [s[off]] + s[off + 1..off + n];
    }
  }

  /** Writing then reading a 32-bit value recovers it, wherever it sits. */
  lemma ReadU32LEOfU32LE(prefix: seq<byte>, v: nat, suffix: seq<byte>)
    requires v < TWO_32
    ensures ReadU32LE(prefix + U32LE(v) + suffix, |prefix|) == v
  {
    assert Power256(4) == TWO_32;
    ReadOfLittleEndian(prefix, v, 4, suffix);
  }

  /** Reading four bytes and writing them back reproduces those bytes. */
  lemma U32LEOfReadU32LE(s: seq<byte>, off: nat)
    requires off + 4 <= |s|
    ensures U32LE(ReadU32LE(s, off)) == s[off..off + 4]
  {
    LittleEndianOfRead(s, off, 4);
  }

  /** `Buffer.slice(start, end)`: the bytes from `start` up to but not
      including `end`, stopping at the end of the buffer; it never throws. */
  function Slice(s: seq<byte>, start: nat, end: nat): seq<byte>
    decreases end - start
  {
    if start >= |s| || end <= start then [] else [s[start]] + Slice(s, start + 1, end)
  }

  /** Within the buffer, `Slice` is the subsequence between its bounds. */
  lemma {:induction false} SliceWithin(s: seq<byte>, start: nat, end: nat)
    requires start <= end <= |s|
    ensures Slice(s, start, end) == s[start..end]
    decreases end - start
  {
    if start < end {
      SliceWithin(s, start + 1, end);
      assert s[start..end] == [s[start]] + s[start + 1..end];
    }
  }

  /** An end past the buffer is clamped to the buffer's end. */
  lemma {:induction false} SliceClampsEnd(s: seq<byte>, start: nat, end: nat)
    requires start <= |s| < end
    ensures Slice(s, start, end) == s[start..]
    decreases end - start
  {
    if start < |s| {
      SliceClampsEnd(s, start + 1, end);
      assert s[start..] == [s[start]] + s[start + 1..];
    }
  }

  /** The number the first `k` bytes of `s` spell, most significant byte
      first (`k` is at most four, the widest opcode). */
  function PrefixValue(s: seq<byte>, k: nat): nat
    requires 1 <= k <= 4 && k <= |s|
  {
    if k == 1 then s[0] as nat
    else if k == 2 then s[0] as nat * 0x100 + s[1] as nat
    else if k == 3 then (s[0] as nat * 0x100 + s[1] as nat) * 0x100 + s[2] as nat
    else ((s[0] as nat * 0x100 + s[1] as nat) * 0x100 + s[2] as nat) * 0x100 + s[3] as nat
  }

  /** The least significant byte of `v`. */
  function LowByte(v: nat): byte
  {
    v % 0x100
  }

  /** The minimal big-endian byte string of an opcode of at most four bytes,
      the encoding a packet type is written in on the wire. */
  function OpcodeBytes(op: nat): (r: seq<byte>)
    requires op < TWO_32
    ensures 1 <= |r| <= 4
    ensures op < 0x100 <==> |r| == 1
    ensures op < 0x1_0000 <==> |r| <= 2
    ensures op < 0x100_0000 <==> |r| <= 3
    ensures PrefixValue(r, |r|) == op
    ensures |r| > 1 ==> r[0] != 0
  {
    if op < 0x100 then [op]
    else
      var high := OpcodeBytes(op / 0x100);
      PrefixValueOfConcat(high, [op % 0x100], |high|);
      high + [op % 0x100]
  }

  /** Appending bytes leaves the value of a prefix unchanged. */
  lemma PrefixValueOfConcat(s: seq<byte>, t: seq<byte>, k: nat)
    requires 1 <= k <= 4 && k <= |s|
    ensures PrefixValue(s + t, k) == PrefixValue(s, k)
  {
    assert (s + t)[..k] == s[..k];
  }

  /** The leading bytes of an opcode's encoding encode the opcode with its
      trailing bytes shifted out. */
  lemma OpcodeBytesPrefix(op: nat)
    requires 0x100 <= op < TWO_32
    ensures OpcodeBytes(op) == OpcodeBytes(op / 0x100) + [op % 0x100]
  {
  }
}
