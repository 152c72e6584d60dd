/** The projectile hit report carried by `Weapon.ProjectileHitReport`
    (weapon.ts lines 374-403): the fields of `hitReportSchema`, then a run
    of unknown bytes, a shot count and one more byte, read with a cursor. */
module HitReport {
  import opened Wrappers
  import opened Bytes
  import opened PacketSchema
  import opened WeaponTable
  import opened WeaponCodec

  /** `hitReportSchema`. */
  const HitReportSchema: seq<Field> := [
    Field("unknownDword1", UInt32, IntDefault(0)),
    Field("characterId", UInt64String, TextDefault("0")),
    Field("position", FloatVector3, VectorDefault([0, 0, 0])),
    Field("hitLocationLen", UInt8, IntDefault(0)),
    Field("unknownFlag1", UInt8, IntDefault(0)),
    Field("hitLocation", NullString, TextDefault(""))
  ]

  /** The fixed-width head of the schema is 26 bytes, the count the
      parser skips, and `hitLocationLen` sits 24 bytes in; the trailing
      null-terminated string has no fixed width. */
  lemma SchemaLayout()
    ensures RunWidth(HitReportSchema[..5]) == Some(26)
    ensures RunWidth(HitReportSchema[..3]) == Some(24) && HitReportSchema[3].name == "hitLocationLen"
    ensures HitReportSchema[4].kind == UInt8
    ensures RunWidth(HitReportSchema) == None
  {
    var head := HitReportSchema[..5];
    assert head[1..][1..][1..][1..][1..] == [];
    assert RunWidth(head[1..][1..][1..][1..]) == Some(1);
    assert RunWidth(head[1..][1..][1..]) == Some(2);
    assert RunWidth(head[1..][1..]) == Some(14);
    assert RunWidth(head[1..]) == Some(22);
    var front := HitReportSchema[..3];
    assert front[1..][1..][1..] == [];
    assert RunWidth(front[1..][1..]) == Some(12);
    assert RunWidth(front[1..]) == Some(20);
    var rest := HitReportSchema[1..][1..][1..][1..][1..];
    assert RunWidth(rest) == None;
    assert RunWidth(HitReportSchema[1..][1..][1..][1..]) == None;
    assert RunWidth(HitReportSchema[1..][1..][1..]) == None;
    assert RunWidth(HitReportSchema[1..][1..]) == None;
    assert RunWidth(HitReportSchema[1..]) == None;
  }

  /** The schema's fields as read: the 64-bit character id and the three
      float words of the position are kept as raw bytes. */
  datatype SchemaFields = SchemaFields(
    unknownDword1: nat,
    characterId: seq<byte>,
    position: seq<byte>,
    hitLocationLen: byte,
    unknownFlag1: byte,
    hitLocation: seq<byte>)

  /** The parsed report: the schema's fields plus the three properties the
      parser adds after them. */
  datatype HitReport = HitReport(
    fields: SchemaFields,
    unknownBytes: seq<byte>,
    totalShotCount: byte,
    unknownByte2: byte)

  /** A null-terminated string: the bytes from `off` up to the first zero
      byte, or up to the end of the buffer when there is none. */
  function ReadNullString(s: seq<byte>, off: nat): (r: seq<byte>)
    ensures off + |r| <= |s| || (off >= |s| && r == [])
    ensures forall i :: 0 <= i < |r| ==> r[i] != 0
    decreases |s| - off
  {
    if off >= |s| || s[off] == 0 then [] else [s[off]] + ReadNullString(s, off + 1)
  }

  /** A string without zero bytes followed by a terminator reads back as
      itself, whatever surrounds it. */
  lemma {:induction false} NullStringOf(s: seq<byte>, off: nat, str: seq<byte>)
    requires off + |str| < |s| && s[off..off + |str|] == str && s[off + |str|] == 0
    requires forall i :: 0 <= i < |str| ==> str[i] != 0
    ensures ReadNullString(s, off) == str
    decreases |str|
  {
    if str != [] {
      assert s[off] == str[0];
      assert s[off + 1..off + 1 + |str[1..]|] == str[1..];
      NullStringOf(s, off + 1, str[1..]);
    }
  }

  /** `DataSchema.parse(hitReportSchema, data, offset)`: the fixed-width
      fields in schema order, then the null-terminated hit location; a
      buffer too short for the fixed-width fields makes a read throw. */
  function ParseSchemaFields(data: seq<byte>, offset: nat): (r: Result<SchemaFields, CodecError>)
    ensures r.Success? <==> offset + 26 <= |data|
    ensures r.Success? ==> r.value.hitLocationLen == data[offset + 24] && |r.value.characterId| == 8 && |r.value.position| == 12
  {
    if |data| < offset + 26 then Failure(OutOfRange(offset))
    else Success(SchemaFields(
      ReadU32LE(data, offset),
      data[offset + 4..offset + 12],
      data[offset + 12..offset + 24],
      data[offset + 24],
      data[offset + 25],
      ReadNullString(data, offset + 26)))
  }

  /** The length of the unknown run: 9 bytes after a non-empty hit
      location, 8 otherwise. */
  function UnknownBytesLength(hitLocationLen: byte): (n: nat)
    ensures n == 8 || n == 9
    ensures n == 9 <==> hitLocationLen != 0
  {
    if hitLocationLen != 0 then 9 else 8
  }

  /** Where the unknown run starts: past the 26 fixed bytes and
      `hitLocationLen` bytes of hit location. */
  function UnknownBytesStart(offset: nat, f: SchemaFields): nat
  {
    offset + 26 + f.hitLocationLen as nat
  }

  /** `parseHitReportPacket(data, offset)` as written: the unknown run is
      read from the start of the buffer, not at the cursor; the shot count
      and the byte after it are read at the cursor, and the reported
      length is the buffer's length minus the cursor at that last byte. */
  function HitReportPacket(data: seq<byte>, offset: nat): Result<Parsed<HitReport>, CodecError>
  {
    match ParseSchemaFields(data, offset)
    case Failure(e) => Failure(e)
    case Success(f) =>
      var n := UnknownBytesLength(f.hitLocationLen);
      var cursor := UnknownBytesStart(offset, f) + n;
      if |data| <= cursor then Failure(OutOfRange(cursor))
      else if |data| <= cursor + 1 then Failure(OutOfRange(cursor + 1))
      else Success(Parsed(HitReport(f, data[..n], data[cursor], data[cursor + 1]), |data| - (cursor + 1)))
  }

  /** The same parse with the unknown run read at the cursor. */
  function HitReportPacketChecked(data: seq<byte>, offset: nat): Result<Parsed<HitReport>, CodecError>
  {
    match ParseSchemaFields(data, offset)
    case Failure(e) => Failure(e)
    case Success(f) =>
      var n := UnknownBytesLength(f.hitLocationLen);
      var start := UnknownBytesStart(offset, f);
      var cursor := start + n;
      if |data| <= cursor then Failure(OutOfRange(cursor))
      else if |data| <= cursor + 1 then Failure(OutOfRange(cursor + 1))
      else Success(Parsed(HitReport(f, data[start..cursor], data[cursor], data[cursor + 1]), |data| - (cursor + 1)))
  }

  /** `parseHitReportPacket(data, offset)`, stepping its cursor as the
      source does; `HitReportPacket` is the same parse as one expression,
      the form the lemmas about it are stated in. */
  method ParseHitReportPacket(data: seq<byte>, offset: nat) returns (r: Result<Parsed<HitReport>, CodecError>)
    ensures r == HitReportPacket(data, offset)
  {
    var parsed := ParseSchemaFields(data, offset);
    if parsed.Failure? {
      return Failure(parsed.error);
    }
    var f := parsed.value;
    var cursor: nat := offset;
    cursor := cursor + 26 + f.hitLocationLen as nat;
    var byteLen := 8;
    if f.hitLocationLen != 0 {
      byteLen := 9;
    }
    var unknownBytes := data[..byteLen];
    cursor := cursor + byteLen;
    if |data| <= cursor {
      return Failure(OutOfRange(cursor));
    }
    var totalShotCount := data[cursor];
    cursor := cursor + 1;
    if |data| <= cursor {
      return Failure(OutOfRange(cursor));
    }
    var unknownByte2 := data[cursor];
    return Success(Parsed(HitReport(f, unknownBytes, totalShotCount, unknownByte2), |data| - cursor));
  }

  /** The parse succeeds exactly when the buffer holds the 26 fixed bytes
      and reaches past the shot count; it then reports as length the bytes
      from the last byte read to the end of the buffer, at least one. */
  lemma HitReportPacketBounds(data: seq<byte>, offset: nat)
    ensures HitReportPacket(data, offset).Success? <==>
              offset + 26 <= |data|
              && offset + 26 + data[offset + 24] as nat + UnknownBytesLength(data[offset + 24]) + 1 < |data|
    ensures HitReportPacket(data, offset).Success? ==>
              var h := HitReportPacket(data, offset).value;
              h.length >= 1
              && h.length == |data| - (offset + 27 + h.value.fields.hitLocationLen as nat + |h.value.unknownBytes|)
              && h.value.unknownBytes == data[..UnknownBytesLength(data[offset + 24])]
  {
  }

  /** A report as the client lays it out: a 32-bit dword, eight id bytes,
      twelve position bytes, the hit location without zero bytes and of the
      declared length, and an unknown run whose first byte terminates the
      hit location. */
  predicate WellFormed(h: HitReport)
  {
    var f := h.fields;
    f.unknownDword1 < TWO_32
    && |f.characterId| == 8 && |f.position| == 12
    && |f.hitLocation| == f.hitLocationLen as nat
    && (forall i :: 0 <= i < |f.hitLocation| ==> f.hitLocation[i] != 0)
    && |h.unknownBytes| == UnknownBytesLength(f.hitLocationLen)
    && h.unknownBytes[0] == 0
  }

  /** The wire bytes of a well-formed report. */
  function PackHitReport(h: HitReport): (r: seq<byte>)
    requires WellFormed(h)
    ensures |r| == 28 + h.fields.hitLocationLen as nat + |h.unknownBytes|
  {
    var f := h.fields;
    U32LE(f.unknownDword1) + f.characterId + f.position + [f.hitLocationLen, f.unknownFlag1]
    + f.hitLocation + h.unknownBytes + [h.totalShotCount, h.unknownByte2]
  }

  /** Where each part of a packed report sits in a surrounding buffer. */
  lemma PackedLayout(prefix: seq<byte>, h: HitReport, suffix: seq<byte>)
    requires WellFormed(h)
    ensures var data := prefix + PackHitReport(h) + suffix;
            var o := |prefix|;
            var f := h.fields;
            var start := o + 26 + f.hitLocationLen as nat;
            var cursor := start + |h.unknownBytes|;
            |data| == cursor + 2 + |suffix|
            && ReadU32LE(data, o) == f.unknownDword1
            && data[o + 4..o + 12] == f.characterId
            && data[o + 12..o + 24] == f.position
            && data[o + 24] == f.hitLocationLen && data[o + 25] == f.unknownFlag1
            && data[o + 26..start] == f.hitLocation
            && data[start..cursor] == h.unknownBytes
            && data[cursor] == h.totalShotCount && data[cursor + 1] == h.unknownByte2
  {
    var f := h.fields;
    var rest := f.characterId + f.position + [f.hitLocationLen, f.unknownFlag1]
                + f.hitLocation + h.unknownBytes + [h.totalShotCount, h.unknownByte2] + suffix;
    var data := prefix + PackHitReport(h) + suffix;
    assert data == prefix + U32LE(f.unknownDword1) + rest;
    ReadU32LEOfU32LE(prefix, f.unknownDword1, rest);
  }

  /** Round trip of the corrected parser: a packed well-formed report is
      read back unchanged wherever it sits, with the trailing bytes from
      its last byte on as length. */
  lemma HitReportRoundTrip(prefix: seq<byte>, h: HitReport, suffix: seq<byte>)
    requires WellFormed(h)
    ensures HitReportPacketChecked(prefix + PackHitReport(h) + suffix, |prefix|)
              == Success(Parsed(h, |suffix| + 1))
  {
    var data := prefix + PackHitReport(h) + suffix;
    var o := |prefix|;
    var f := h.fields;
    PackedLayout(prefix, h, suffix);
    var start := o + 26 + f.hitLocationLen as nat;
    assert data[start] == h.unknownBytes[0];
    NullStringOf(data, o + 26, f.hitLocation);
    assert ParseSchemaFields(data, o) == Success(f);
  }

  /** The as-written parser reads the unknown run from the first bytes of
      the buffer: for a report at offset 0 these are the report's own
      dword and leading id bytes, so a report whose dword's low byte is not
      zero never reads back as itself (the run's first byte is the hit
      location's terminator, zero). */
  lemma HitReportUnknownBytesMisread(h: HitReport)
    requires WellFormed(h) && LowByte(h.fields.unknownDword1) != 0
    ensures HitReportPacket(PackHitReport(h), 0).Success?
    ensures HitReportPacket(PackHitReport(h), 0).value.value.unknownBytes[0] == LowByte(h.fields.unknownDword1)
    ensures HitReportPacket(PackHitReport(h), 0).value.value != h
  {
    var data := PackHitReport(h);
    assert [] + data + [] == data;
    HitReportRoundTrip([], h, []);
    assert data[0] == U32LE(h.fields.unknownDword1)[0];
  }

  /** Where the parser is actually called: inside a weapon packet the
      report follows the opcode bytes `0x83 0x06` and is parsed at offset
      2, so the unknown run always starts with the opcode's `0x83` and no
      well-formed report ever reads back as itself. */
  lemma HitReportMisreadInWeaponPacket(h: HitReport, suffix: seq<byte>)
    requires WellFormed(h)
    ensures var data := [0x83, 0x06] + PackHitReport(h) + suffix;
            HitReportPacket(data, 2).Success?
            && HitReportPacket(data, 2).value.value.unknownBytes[..2] == [0x83, 0x06]
            && HitReportPacket(data, 2).value.value != h
  {
    var data := [0x83, 0x06] + PackHitReport(h) + suffix;
    HitReportRoundTrip([0x83, 0x06], h, suffix);
    CheckedDiffersOnlyInUnknownBytes(data, 2);
  }

  /** A field decoder for `Weapon.ProjectileHitReport` refuses every
      input `HitReportPacket` refuses, as the custom parser does by
      throwing out of `DataSchema.parse`. */
  ghost predicate ParsesHitReportsAsDeclared(decodeFields: FieldDecoder)
  {
    forall data: seq<byte>, offset: nat ::
      HitReportPacket(data, offset).Failure? ==> decodeFields(Schema(ProjectileHitReport).value, data, offset).Failure?
  }

  /** A weapon packet whose opcode is the hit report but which carries
      fewer than the report's 26 fixed bytes is refused: the header is
      there, but the report parser throws on what follows it. */
  lemma TruncatedHitReportRefused(gameTime: nat, tail: seq<byte>, decodeFields: FieldDecoder)
    requires gameTime < TWO_32 && |tail| < 26
    requires ParsesHitReportsAsDeclared(decodeFields)
    ensures ParseWeaponPacket(U32LE(gameTime) + [0x06] + tail, 0, decodeFields).Failure?
  {
    var data := U32LE(gameTime) + [0x06] + tail;
    var b := OpcodeBytes(Opcode(ProjectileHitReport));
    assert b == [0x83, 0x06];
    assert [0x83] + data[4..] == b + tail;
    ShadowFreeIffNarrow(ProjectileHitReport);
    ResolveOwnOpcode(ProjectileHitReport, tail);
    assert HitReportPacket(b + tail, 2).Failure?;
  }

  /** The two parsers agree on success, on the schema fields, the two
      trailing bytes and the length; they differ only in where the unknown
      run is read from. */
  lemma CheckedDiffersOnlyInUnknownBytes(data: seq<byte>, offset: nat)
    ensures HitReportPacket(data, offset).Success? <==> HitReportPacketChecked(data, offset).Success?
    ensures HitReportPacket(data, offset).Success? ==>
              var a := HitReportPacket(data, offset).value;
              var b := HitReportPacketChecked(data, offset).value;
              a.length == b.length && a.value.(unknownBytes := b.value.unknownBytes) == b.value
  {
  }
}
