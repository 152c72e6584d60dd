/** The weapon sub-protocol's header codec (weapon.ts lines 319-372): a
    weapon packet travels as a little-endian 32-bit game time followed by
    its opcode with the leading `0x83` byte removed, then its fields. */
module WeaponCodec {
  import opened Wrappers
  import opened Bytes
  import opened PacketSchema
  import opened WeaponTable
  import opened WeaponNames

  datatype CodecError =
    | OutOfRange(offset: int)           // a Buffer read past the end (RangeError)
    | UnknownWeaponPacket(name: string) // packing a name the table does not declare
    | NotImplemented                    // the bundle packer
    | UndecodableOpcode(name: string)   // corrected packer: opcode shadowed by a shorter one

  /** What the opcode lookup reports: the value it last tried, the packet it
      found, and how many opcode bytes that packet used (0 when none). */
  datatype PacketTypeRead = PacketTypeRead(packetType: nat, packet: Option<WeaponPacket>, length: nat)

  /** Opcode lookup over the weapon table: it tries the first one, two,
      three and four bytes in turn and stops at the first value the table
      declares, so a declared opcode hides every longer opcode it prefixes. */
  function ReadPacketType(buf: seq<byte>): (r: PacketTypeRead)
    ensures r.packet.Some? ==>
              1 <= r.length <= 4 && r.length <= |buf|
              && r.packetType == PrefixValue(buf, r.length)
              && FromOpcode(r.packetType) == r.packet
    ensures r.packet.Some? ==>
              forall k :: 1 <= k < r.length ==> FromOpcode(PrefixValue(buf, k)).None?
    ensures r.packet.None? ==>
              r.length == 0
              && forall k :: 1 <= k <= 4 && k <= |buf| ==> FromOpcode(PrefixValue(buf, k)).None?
  {
    TryPrefixes(buf, 1, 0)
  }

  /** The lookup from the `k`-byte prefix on; `last` is the value tried
      before it, which is what a failed lookup reports. */
  function TryPrefixes(buf: seq<byte>, k: nat, last: nat): (r: PacketTypeRead)
    requires 1 <= k
    ensures r.packet.Some? ==>
              k <= r.length <= 4 && r.length <= |buf|
              && r.packetType == PrefixValue(buf, r.length)
              && FromOpcode(r.packetType) == r.packet
    ensures r.packet.Some? ==>
              forall j :: k <= j < r.length ==> FromOpcode(PrefixValue(buf, j)).None?
    ensures r.packet.None? ==>
              r.length == 0
              && forall j :: k <= j <= 4 && j <= |buf| ==> FromOpcode(PrefixValue(buf, j)).None?
    decreases 5 - k
  {
    if k > 4 || k > |buf| then PacketTypeRead(last, None, 0)
    else if FromOpcode(PrefixValue(buf, k)).Some? then
      PacketTypeRead(PrefixValue(buf, k), FromOpcode(PrefixValue(buf, k)), k)
    else TryPrefixes(buf, k + 1, PrefixValue(buf, k))
  }

  /** A packet is reachable by the lookup when no proper prefix of its
      opcode bytes is itself a declared opcode. */
  predicate ShadowFree(p: WeaponPacket)
  {
    var b := OpcodeBytes(Opcode(p));
    forall k :: 1 <= k < |b| ==> FromOpcode(PrefixValue(b, k)).None?
  }

  /** The lookup stops at the first prefix of the buffer that is declared:
      when the first `n` bytes form a declared opcode and no shorter prefix
      does, it resolves that opcode whatever follows. */
  lemma ReadPacketTypeOfPrefix(b: seq<byte>, rest: seq<byte>)
    requires 1 <= |b| <= 4 && FromOpcode(PrefixValue(b, |b|)).Some?
    requires forall k :: 1 <= k < |b| ==> FromOpcode(PrefixValue(b, k)).None?
    ensures ReadPacketType(b + rest) == PacketTypeRead(PrefixValue(b, |b|), FromOpcode(PrefixValue(b, |b|)), |b|)
  {
    forall k | 1 <= k <= |b|
      ensures PrefixValue(b + rest, k) == PrefixValue(b, k)
    {
      PrefixValueOfConcat(b, rest, k);
    }
  }

  /** The leading bytes of every opcode: `0x83`, then `0x15` for the three-
      and four-byte opcodes, then `0x04` for the four-byte ones. */
  lemma OpcodePrefixes(p: WeaponPacket)
    ensures var b := OpcodeBytes(Opcode(p));
            PrefixValue(b, 1) == 0x83
            && (|b| >= 3 ==> PrefixValue(b, 2) == 0x8315)
            && (|b| == 4 ==> PrefixValue(b, 3) == 0x831504)
  {
    OpcodeFamilies(p);
    var op := Opcode(p);
    if op < 0x1_0000 {
      TwoByteOpcode(op);
    } else if op < 0x100_0000 {
      ThreeByteOpcode(op);
    } else {
      FourByteOpcode(op);
    }
  }

  lemma TwoByteOpcode(op: nat)
    requires 0x8300 <= op < 0x8400
    ensures |OpcodeBytes(op)| == 2 && PrefixValue(OpcodeBytes(op), 1) == 0x83
  {
    OpcodeBytesPrefix(op);
    PrefixValueOfConcat(OpcodeBytes(op / 0x100), [op % 0x100], 1);
  }

  lemma ThreeByteOpcode(op: nat)
    requires 0x83_1500 <= op < 0x83_1600
    ensures var b := OpcodeBytes(op);
            |b| == 3 && PrefixValue(b, 1) == 0x83 && PrefixValue(b, 2) == 0x8315
  {
    OpcodeBytesPrefix(op);
    TwoByteOpcode(op / 0x100);
    PrefixValueOfConcat(OpcodeBytes(op / 0x100), [op % 0x100], 2);
    PrefixValueOfConcat(OpcodeBytes(op / 0x100), [op % 0x100], 1);
  }

  lemma FourByteOpcode(op: nat)
    requires 0x8315_0400 <= op < 0x8315_0500
    ensures var b := OpcodeBytes(op);
            |b| == 4 && PrefixValue(b, 1) == 0x83 && PrefixValue(b, 2) == 0x8315
            && PrefixValue(b, 3) == 0x83_1504
  {
    OpcodeBytesPrefix(op);
    ThreeByteOpcode(op / 0x100);
    PrefixValueOfConcat(OpcodeBytes(op / 0x100), [op % 0x100], 3);
    PrefixValueOfConcat(OpcodeBytes(op / 0x100), [op % 0x100], 2);
    PrefixValueOfConcat(OpcodeBytes(op / 0x100), [op % 0x100], 1);
  }

  /** The opcodes the leading bytes of the longer opcodes spell. */
  lemma PrefixOpcodes()
    ensures FromOpcode(0x83) == None
    ensures FromOpcode(0x8315) == None
    ensures FromOpcode(0x831504) == Some(RemoteWeaponUpdate)
  {
  }

  /** Exactly the two- and three-byte packets are reachable; each four-byte
      `0x831504xx` packet is hidden by `Weapon.RemoteWeapon.Update`. */
  lemma ShadowFreeIffNarrow(p: WeaponPacket)
    ensures ShadowFree(p) <==> |OpcodeBytes(Opcode(p))| < 4
  {
    OpcodePrefixes(p);
    PrefixOpcodes();
  }

  /** A reachable packet's opcode bytes, followed by anything, resolve to
      that packet, consuming exactly its opcode bytes. */
  lemma ResolveOwnOpcode(p: WeaponPacket, rest: seq<byte>)
    requires ShadowFree(p)
    ensures var b := OpcodeBytes(Opcode(p));
            ReadPacketType(b + rest) == PacketTypeRead(Opcode(p), Some(p), |b|)
  {
    FromOpcodeOfOpcode(p);
    ReadPacketTypeOfPrefix(OpcodeBytes(Opcode(p)), rest);
  }

  /** A hidden packet's opcode bytes resolve to `Weapon.RemoteWeapon.Update`
      after three bytes, whatever follows them. */
  lemma ResolveShadowedOpcode(p: WeaponPacket, rest: seq<byte>)
    requires !ShadowFree(p)
    ensures var b := OpcodeBytes(Opcode(p));
            ReadPacketType(b + rest) == PacketTypeRead(0x831504, Some(RemoteWeaponUpdate), 3)
  {
    var b := OpcodeBytes(Opcode(p));
    ShadowFreeIffNarrow(p);
    OpcodePrefixes(p);
    PrefixOpcodes();
    assert b == b[..3] + b[3..];
    assert PrefixValue(b[..3], 3) == 0x831504 && PrefixValue(b[..3], 2) == 0x8315 && PrefixValue(b[..3], 1) == 0x83 by {
      PrefixValueOfConcat(b[..3], b[3..], 3);
      PrefixValueOfConcat(b[..3], b[3..], 2);
      PrefixValueOfConcat(b[..3], b[3..], 1);
    }
    ReadPacketTypeOfPrefix(b[..3], b[3..] + rest);
    assert b + rest == b[..3] + (b[3..] + rest);
  }

  /** A decoded weapon packet. A resolved one names its declaration (its
      `packetName` is that declaration's name) and, when the declaration
      has fields, carries the bytes they are decoded from. */
  datatype WeaponObject =
    | Resolved(gameTime: nat, packetType: nat, packet: WeaponPacket, fields: Option<seq<byte>>)
    | Unresolved(gameTime: nat, packetType: nat, packetData: seq<byte>)

  /** A decoded value and the length the decoder reports for it. */
  datatype Parsed<T> = Parsed(value: T, length: int)

  /** The field bytes of a packet: none for a packet declared with `{}`. */
  function FieldsOf(p: WeaponPacket, bytes: seq<byte>): Option<seq<byte>>
  {
    if HasSchema(p) then Some(bytes) else None
  }

  /** The field decoder, `DataSchema.parse(fields, data, offset)`: it is
      handed a packet's declared fields, the buffer and the offset the
      fields start at, and fails where the source's decoder throws (on
      truncated fields, say). What it decodes is not part of this model:
      a resolved packet keeps its field bytes. */
  type FieldDecoder = (seq<Field>, seq<byte>, nat) -> Result<(), CodecError>

  /** `p`'s fields decode from `data` at `offset`; a packet declared `{}`
      has none to decode. */
  predicate Decodes(decodeFields: FieldDecoder, p: WeaponPacket, data: seq<byte>, offset: nat)
  {
    match Schema(p)
    case None => true
    case Some(fields) => decodeFields(fields, data, offset).Success?
  }

  /** The fields of whatever packet the lookup resolves at `offset + 4`
      decode: the packet is looked up in `[0x83]` followed by the bytes
      after the game time, and its fields start where the opcode ends. */
  predicate FieldsDecode(data: seq<byte>, offset: nat, decodeFields: FieldDecoder)
    requires offset + 4 <= |data|
  {
    var weaponPacketData := [0x83] + data[offset + 4..];
    var t := ReadPacketType(weaponPacketData);
    t.packet.None? || Decodes(decodeFields, t.packet.value, weaponPacketData, t.length)
  }

  /** `parseWeaponPacket(data, offset)`: the game time is the 32-bit word at
      `offset`; the opcode is looked up in `[0x83]` followed by the bytes
      after that word; the fields are decoded from where the opcode ends;
      the reported length is everything from `offset` on. */
  function ParseWeaponPacket(data: seq<byte>, offset: nat, decodeFields: FieldDecoder): (r: Result<Parsed<WeaponObject>, CodecError>)
    ensures r.Success? <==> offset + 4 <= |data| && FieldsDecode(data, offset, decodeFields)
    ensures |data| < offset + 4 ==> r == Failure(OutOfRange(offset))
    ensures r.Success? ==>
              r.value.length == |data| - offset
              && r.value.value.gameTime == ReadU32LE(data, offset)
    ensures r.Success? && r.value.value.Unresolved? ==>
              r.value.value.packetData == data
              && ReadPacketType([0x83] + data[offset + 4..]).packet == None
  {
    if |data| < offset + 4 then Failure(OutOfRange(offset))
    else
      var gameTime := ReadU32LE(data, offset);
      var weaponPacketData := [0x83] + data[offset + 4..];
      var t := ReadPacketType(weaponPacketData);
      match t.packet
      case Some(p) =>
        if !Decodes(decodeFields, p, weaponPacketData, t.length) then
          Failure(decodeFields(Schema(p).value, weaponPacketData, t.length).error)
        else
          Success(Parsed(Resolved(gameTime, t.packetType, p, FieldsOf(p, weaponPacketData[t.length..])),
                         |data| - offset))
      case None =>
        Success(Parsed(Unresolved(gameTime, t.packetType, data), |data| - offset))
  }

  /** A packet to send: its game time, its name and its field values. */
  datatype Outgoing<V> = Outgoing(gameTime: int, packetName: string, packet: V)

  /** The field encoder is handed the declared schema (absent for `{}`); it
      fails when the packer a field declares throws. */
  type FieldPacker<!V> = (Option<seq<Field>>, V) -> Result<seq<byte>, CodecError>

  /** `packWeaponPacket(obj)`: the game time reduced to 32 bits, then the
      opcode bytes without their leading `0x83`, then the encoded fields. An
      undeclared name throws instead of producing bytes, and so does a
      declared one whose fields cannot be encoded, with the encoder's error. */
  ghost function PackWeaponPacket<V>(obj: Outgoing<V>, packFields: FieldPacker<V>): (r: Result<seq<byte>, CodecError>)
    ensures r.Failure? <==>
              (!exists p :: Name(p) == obj.packetName)
              || exists p :: Name(p) == obj.packetName && packFields(Schema(p), obj.packet).Failure?
    ensures match LookupName(obj.packetName)
            case None => r == Failure(UnknownWeaponPacket(obj.packetName))
            case Some(p) =>
              match packFields(Schema(p), obj.packet)
              case Failure(e) => r == Failure(e)
              case Success(fields) =>
                r.Success? && |r.value| == 4 + |OpcodeBytes(Opcode(p))| - 1 + |fields|
                && ReadU32LE(r.value, 0) == obj.gameTime % TWO_32
  {
    LookupNameUnique(obj.packetName);
    match LookupName(obj.packetName)
    case None => Failure(UnknownWeaponPacket(obj.packetName))
    case Some(p) =>
      match packFields(Schema(p), obj.packet)
      case Failure(e) => Failure(e)
      case Success(fields) =>
        var subData := OpcodeBytes(Opcode(p))[1..] + fields;
        ReadU32LEOfU32LE([], obj.gameTime % TWO_32, subData);
        Success(U32LE(obj.gameTime % TWO_32) + subData)
  }

  /** The decoder reads back whatever the encoder produces for `p` and
      `v`, placed after `p`'s opcode bytes. */
  ghost predicate ReadsBackPacked<V>(packFields: FieldPacker<V>, decodeFields: FieldDecoder, p: WeaponPacket, v: V)
  {
    packFields(Schema(p), v).Success? ==>
      Decodes(decodeFields, p, OpcodeBytes(Opcode(p)) + packFields(Schema(p), v).value, |OpcodeBytes(Opcode(p))|)
  }

  /** Header round trip: parsing a packed reachable packet gives back its
      game time modulo 2^32, its full opcode, its name and exactly the field
      bytes the encoder produced, and reports the whole buffer as its length. */
  lemma PackThenParse<V>(obj: Outgoing<V>, packFields: FieldPacker<V>, decodeFields: FieldDecoder, p: WeaponPacket)
    requires Name(p) == obj.packetName && ShadowFree(p)
    requires packFields(Schema(p), obj.packet).Success?
    requires ReadsBackPacked(packFields, decodeFields, p, obj.packet)
    ensures PackWeaponPacket(obj, packFields).Success?
    ensures var wire := PackWeaponPacket(obj, packFields).value;
            ParseWeaponPacket(wire, 0, decodeFields)
              == Success(Parsed(Resolved(obj.gameTime % TWO_32, Opcode(p), p,
                                         FieldsOf(p, packFields(Schema(p), obj.packet).value)),
                                |wire|))
  {
    LookupNameOfName(p);
    ResolveOwnOpcode(p, packFields(Schema(p), obj.packet).value);
    PackThenParseResolved(obj, packFields, decodeFields, p);
  }

  /** The round trip for a packet whose opcode bytes, followed by its
      encoded fields, resolve to it. */
  lemma PackThenParseResolved<V>(obj: Outgoing<V>, packFields: FieldPacker<V>, decodeFields: FieldDecoder, p: WeaponPacket)
    requires LookupName(obj.packetName) == Some(p) && packFields(Schema(p), obj.packet).Success?
    requires ReadsBackPacked(packFields, decodeFields, p, obj.packet)
    requires ReadPacketType(OpcodeBytes(Opcode(p)) + packFields(Schema(p), obj.packet).value)
               == PacketTypeRead(Opcode(p), Some(p), |OpcodeBytes(Opcode(p))|)
    ensures PackWeaponPacket(obj, packFields).Success?
    ensures var wire := PackWeaponPacket(obj, packFields).value;
            ParseWeaponPacket(wire, 0, decodeFields)
              == Success(Parsed(Resolved(obj.gameTime % TWO_32, Opcode(p), p,
                                         FieldsOf(p, packFields(Schema(p), obj.packet).value)),
                                |wire|))
  {
    PackedBytes(obj, packFields, p);
    var b := OpcodeBytes(Opcode(p));
    var fields := packFields(Schema(p), obj.packet).value;
    LeadingByte(p);
    ParseOfHeader(obj.gameTime % TWO_32, b, fields, p, |b|, decodeFields);
    assert (b + fields)[|b|..] == fields;
  }

  /** The bytes a successful pack produces, spelled out. */
  lemma PackedBytes<V>(obj: Outgoing<V>, packFields: FieldPacker<V>, p: WeaponPacket)
    requires LookupName(obj.packetName) == Some(p) && packFields(Schema(p), obj.packet).Success?
    ensures PackWeaponPacket(obj, packFields)
              == Success(U32LE(obj.gameTime % TWO_32)
                         + (OpcodeBytes(Opcode(p))[1..] + packFields(Schema(p), obj.packet).value))
  {
  }

  /** Parsing a header built from a game time and opcode bytes starting with
      `0x83`, when the lookup resolves `p` after `n` of those bytes. */
  lemma ParseOfHeader(g: nat, b: seq<byte>, fields: seq<byte>, p: WeaponPacket, n: nat, decodeFields: FieldDecoder)
    requires g < TWO_32 && 1 <= |b| && b[0] == 0x83
    requires ReadPacketType(b + fields) == PacketTypeRead(Opcode(p), Some(p), n)
    requires Decodes(decodeFields, p, b + fields, n)
    ensures n <= |b + fields|
    ensures var wire := U32LE(g) + (b[1..] + fields);
            ParseWeaponPacket(wire, 0, decodeFields)
              == Success(Parsed(Resolved(g, Opcode(p), p, FieldsOf(p, (b + fields)[n..])),
                                |wire|))
  {
    var wire := U32LE(g) + (b[1..] + fields);
    ReadU32LEOfU32LE([], g, b[1..] + fields);
    assert [] + U32LE(g) + (b[1..] + fields) == wire;
    assert wire[4..] == b[1..] + fields;
    assert [0x83] + wire[4..] == b + fields;
    ParseResolved(wire, 0, p, n, decodeFields);
  }

  /** Parsing a buffer whose opcode lookup resolves `p` after `n` bytes
      and whose fields decode from there. */
  lemma ParseResolved(data: seq<byte>, offset: nat, p: WeaponPacket, n: nat, decodeFields: FieldDecoder)
    requires offset + 4 <= |data|
    requires ReadPacketType([0x83] + data[offset + 4..]) == PacketTypeRead(Opcode(p), Some(p), n)
    requires Decodes(decodeFields, p, [0x83] + data[offset + 4..], n)
    ensures n <= 1 + |data| - (offset + 4)
    ensures ParseWeaponPacket(data, offset, decodeFields)
              == Success(Parsed(Resolved(ReadU32LE(data, offset), Opcode(p), p,
                                         FieldsOf(p, ([0x83] + data[offset + 4..])[n..])),
                                |data| - offset))
  {
  }

  /** Packing a hidden packet and parsing the bytes back yields
      `Weapon.RemoteWeapon.Update` instead, with the hidden packet's last
      opcode byte left in front of its field bytes. */
  lemma PackThenParseShadowed<V>(obj: Outgoing<V>, packFields: FieldPacker<V>, decodeFields: FieldDecoder, p: WeaponPacket)
    requires Name(p) == obj.packetName && !ShadowFree(p)
    requires packFields(Schema(p), obj.packet).Success?
    requires Decodes(decodeFields, RemoteWeaponUpdate, OpcodeBytes(Opcode(p)) + packFields(Schema(p), obj.packet).value, 3)
    ensures PackWeaponPacket(obj, packFields).Success?
    ensures var wire := PackWeaponPacket(obj, packFields).value;
            ParseWeaponPacket(wire, 0, decodeFields)
              == Success(Parsed(Resolved(obj.gameTime % TWO_32, 0x83_1504, RemoteWeaponUpdate,
                                         FieldsOf(RemoteWeaponUpdate, [LowByte(Opcode(p))] + packFields(Schema(p), obj.packet).value)),
                                |wire|))
    ensures Name(RemoteWeaponUpdate) != obj.packetName
  {
    LookupNameOfName(p);
    var fields := packFields(Schema(p), obj.packet).value;
    ResolveShadowedOpcode(p, fields);
    ShadowFreeIffNarrow(p);
    PackThenParseHidden(obj, packFields, decodeFields, p);
    NamesDistinct(p, RemoteWeaponUpdate);
  }

  /** The shadowed round trip, from the lookup's result on the packed opcode. */
  lemma PackThenParseHidden<V>(obj: Outgoing<V>, packFields: FieldPacker<V>, decodeFields: FieldDecoder, p: WeaponPacket)
    requires LookupName(obj.packetName) == Some(p) && |OpcodeBytes(Opcode(p))| == 4
    requires packFields(Schema(p), obj.packet).Success?
    requires Decodes(decodeFields, RemoteWeaponUpdate, OpcodeBytes(Opcode(p)) + packFields(Schema(p), obj.packet).value, 3)
    requires ReadPacketType(OpcodeBytes(Opcode(p)) + packFields(Schema(p), obj.packet).value)
               == PacketTypeRead(0x83_1504, Some(RemoteWeaponUpdate), 3)
    ensures PackWeaponPacket(obj, packFields).Success?
    ensures var wire := PackWeaponPacket(obj, packFields).value;
            ParseWeaponPacket(wire, 0, decodeFields)
              == Success(Parsed(Resolved(obj.gameTime % TWO_32, 0x83_1504, RemoteWeaponUpdate,
                                         FieldsOf(RemoteWeaponUpdate, [LowByte(Opcode(p))] + packFields(Schema(p), obj.packet).value)),
                                |wire|))
    ensures p != RemoteWeaponUpdate
  {
    PackedBytes(obj, packFields, p);
    LeadingByte(p);
    ParseOfHiddenHeader(obj.gameTime % TWO_32, Opcode(p), packFields(Schema(p), obj.packet).value, decodeFields);
  }

  /** `ParseOfHeader` for a four-byte opcode of which the lookup takes
      three bytes: the fourth is left in front of the fields. */
  lemma ParseOfHiddenHeader(g: nat, op: nat, fields: seq<byte>, decodeFields: FieldDecoder)
    requires g < TWO_32 && 0x100_0000 <= op < TWO_32 && OpcodeBytes(op)[0] == 0x83
    requires ReadPacketType(OpcodeBytes(op) + fields) == PacketTypeRead(0x83_1504, Some(RemoteWeaponUpdate), 3)
    requires Decodes(decodeFields, RemoteWeaponUpdate, OpcodeBytes(op) + fields, 3)
    ensures var wire := U32LE(g) + (OpcodeBytes(op)[1..] + fields);
            ParseWeaponPacket(wire, 0, decodeFields)
              == Success(Parsed(Resolved(g, 0x83_1504, RemoteWeaponUpdate,
                                         FieldsOf(RemoteWeaponUpdate, [LowByte(op)] + fields)),
                                |wire|))
  {
    var b := OpcodeBytes(op);
    ParseOfHeader(g, b, fields, RemoteWeaponUpdate, 3, decodeFields);
    OpcodeBytesPrefix(op);
    assert (b + fields)[3..] == [LowByte(op)] + fields;
  }


  /** A concrete instance: a packed `Weapon.RemoteWeapon.Update.FireState`
      comes back as `Weapon.RemoteWeapon.Update`. */
  lemma UpdateFireStateComesBackAsUpdate<V>(gameTime: int, packet: V, packFields: FieldPacker<V>, decodeFields: FieldDecoder)
    requires packFields(Schema(RemoteWeaponUpdateFireState), packet).Success?
    requires Decodes(decodeFields, RemoteWeaponUpdate,
                     OpcodeBytes(Opcode(RemoteWeaponUpdateFireState)) + packFields(Schema(RemoteWeaponUpdateFireState), packet).value, 3)
    ensures var obj := Outgoing(gameTime, "Weapon.RemoteWeapon.Update.FireState", packet);
            PackWeaponPacket(obj, packFields).Success?
            && var r := ParseWeaponPacket(PackWeaponPacket(obj, packFields).value, 0, decodeFields);
               r.Success? && r.value.value.Resolved?
               && Name(r.value.value.packet) == "Weapon.RemoteWeapon.Update"
  {
    var p := RemoteWeaponUpdateFireState;
    assert Name(p) == "Weapon.RemoteWeapon.Update.FireState";
    assert Name(RemoteWeaponUpdate) == "Weapon.RemoteWeapon.Update";
    FourByteOpcode(Opcode(p));
    ShadowFreeIffNarrow(p);
    PackThenParseShadowed(Outgoing(gameTime, Name(p), packet), packFields, decodeFields, p);
  }

  /** The packer with the check the table needs: a name whose opcode the
      lookup cannot reach is refused instead of packed. */
  ghost function PackWeaponPacketChecked<V>(obj: Outgoing<V>, packFields: FieldPacker<V>): (r: Result<seq<byte>, CodecError>)
    ensures r.Success? ==> r == PackWeaponPacket(obj, packFields)
    ensures r.Failure? && PackWeaponPacket(obj, packFields).Success? ==>
              r.error == UndecodableOpcode(obj.packetName)
  {
    match LookupName(obj.packetName)
    case None => Failure(UnknownWeaponPacket(obj.packetName))
    case Some(p) =>
      if ShadowFree(p) then PackWeaponPacket(obj, packFields)
      else Failure(UndecodableOpcode(obj.packetName))
  }

  /** The checked packer refuses exactly the undeclared names, the names
      of four-byte opcodes and the packets whose fields cannot be encoded. */
  lemma CheckedPackRefuses<V>(obj: Outgoing<V>, packFields: FieldPacker<V>)
    ensures PackWeaponPacketChecked(obj, packFields).Failure? <==>
              forall p :: Name(p) == obj.packetName ==>
                |OpcodeBytes(Opcode(p))| == 4 || packFields(Schema(p), obj.packet).Failure?
  {
    match LookupName(obj.packetName)
    case None =>
    case Some(p) =>
      ShadowFreeIffNarrow(p);
      forall q | Name(q) == obj.packetName
        ensures q == p
      {
        NamesDistinct(p, q);
      }
  }

  /** Whatever the checked packer produces parses back to the same name,
      the game time modulo 2^32 and the encoder's field bytes. */
  lemma CheckedPackRoundTrip<V>(obj: Outgoing<V>, packFields: FieldPacker<V>, decodeFields: FieldDecoder)
    requires PackWeaponPacketChecked(obj, packFields).Success?
    requires forall p :: Name(p) == obj.packetName ==> ReadsBackPacked(packFields, decodeFields, p, obj.packet)
    ensures var wire := PackWeaponPacketChecked(obj, packFields).value;
            var r := ParseWeaponPacket(wire, 0, decodeFields);
            r.Success? && r.value.value.Resolved?
            && Name(r.value.value.packet) == obj.packetName
            && r.value.value.gameTime == obj.gameTime % TWO_32
            && r.value.length == |wire|
  {
    var p := LookupName(obj.packetName).value;
    PackThenParse(obj, packFields, decodeFields, p);
  }

  /** `packMultiWeaponPacket`: bundles cannot be packed. */
  function PackMultiWeaponPacket(): (r: Result<seq<byte>, CodecError>)
    ensures r.Failure?
  {
    Failure(NotImplemented)
  }

  /** An encoder that hands a field list holding the bundle field, with
      the value `v`, to the packer that field declares,
      `packMultiWeaponPacket`. */
  ghost predicate PacksBundlesAsDeclared<V>(packFields: FieldPacker<V>, v: V)
  {
    forall fields: seq<Field> ::
      Field("packets", Custom(MultiWeaponCodec), NoDefault) in fields ==>
        packFields(Some(fields), v) == PackMultiWeaponPacket()
  }

  /** `Weapon.MultiWeapon` is declared, yet packing it always throws: its
      one field's packer is `packMultiWeaponPacket`. */
  lemma MultiWeaponCannotBePacked<V>(obj: Outgoing<V>, packFields: FieldPacker<V>)
    requires obj.packetName == "Weapon.MultiWeapon" && PacksBundlesAsDeclared(packFields, obj.packet)
    ensures exists p :: Name(p) == obj.packetName
    ensures PackWeaponPacket(obj, packFields) == Failure(NotImplemented)
  {
    assert Name(MultiWeapon) == "Weapon.MultiWeapon";
    LookupNameOfName(MultiWeapon);
    assert Schema(MultiWeapon).value[0] in Schema(MultiWeapon).value;
  }
}
