# h1z1-server: weapon packets, inter-server sessions, groups

This project is a Dafny model of five parts of h1z1-server, an emulator of
the H1Z1 game servers. It proves properties of each part.

- **The weapon sub-protocol of client protocol 1080** (`weapon.ts`). It covers:
  - the table of weapon packets: names, opcodes, field lists;
  - the header codec: a 32-bit little-endian game time, then the opcode without its leading `0x83` byte, then the fields;
  - the multi-weapon bundle: a count, then size-prefixed frames;
  - the projectile hit report: a schema head, a run of unknown bytes, a shot count and one more byte.
- **The inter-server session layer** (`h1emuserver.ts`). It covers:
  - the table of connected clients, keyed by `address:port`;
  - the session handshake and the keepalive ping;
  - the sweep that evicts clients silent for longer than the timeout;
  - the rule that a zone server sends nothing without a session.
- **The zone server's group table** (`groupmanager.ts`). It covers:
  - group ids handed out by a counter that only grows;
  - member lists and each character's `groupId`;
  - the `/group` command.
- **The character model lookup** (`functions.ts`). It maps a head type to a model id, a head actor and a hair model.
- **The login tunnel packet table** (`loginTunnelPackets.ts`). It has two name-validation packets.

Modules, one per file:

| module | what it holds |
|---|---|
| `Wrappers` | `Option` and `Result` |
| `Bytes` | Node `Buffer` reads, writes and slices over `seq<byte>` |
| `PacketSchema` | the field descriptions packet tables are written in |
| `WeaponTable` | the weapon table |
| `WeaponNames` | proof that the weapon names are distinct |
| `WeaponCodec` | the weapon header codec |
| `WeaponBundle` | the multi-weapon bundle |
| `HitReport` | the hit report |
| `H1emuServer` | the session layer, as a class `Server` over `Client` records |
| `Groups` | the group table, as a class `GroupManager` with `Character` records |
| `CharacterModel` | the character model lookup |
| `LoginTunnelPackets` | the login tunnel table |

## Model

| member | source | states |
|---|---|---|
| Bytes.ReadU32LEOfU32LE | src/packets/ClientProtocol/ClientProtocol_1080/weapon.ts:366 | Reading a 32-bit little-endian word back from wherever it was written recovers the value. |
| Bytes.U32LEOfReadU32LE | src/packets/ClientProtocol/ClientProtocol_1080/weapon.ts:322 | Re-encoding the word read at an offset reproduces the four bytes it was read from. |
| Bytes.ReadOfLittleEndian | src/packets/ClientProtocol/ClientProtocol_1080/weapon.ts:297 | The round trip for little-endian numbers of any width below 256^n. |
| Bytes.LittleEndianOfRead | src/packets/ClientProtocol/ClientProtocol_1080/weapon.ts:301 | The converse: reading n bytes and writing the value back reproduces those bytes. |
| Bytes.ReadLittleEndian | src/packets/ClientProtocol/ClientProtocol_1080/weapon.ts:297 | A little-endian read of n bytes is below 256^n. |
| Bytes.SliceWithin | src/packets/ClientProtocol/ClientProtocol_1080/weapon.ts:304 | `Buffer.slice` within the buffer is the subsequence between its bounds. |
| Bytes.SliceClampsEnd | src/packets/ClientProtocol/ClientProtocol_1080/weapon.ts:304 | `Buffer.slice` with an end past the buffer stops at the buffer's end, without an error. |
| Bytes.OpcodeBytes | src/packets/ClientProtocol/ClientProtocol_1080/weapon.ts:362 | The opcode written by `writePacketType` is 1 to 4 bytes, most significant first, with no leading zero. Its width is fixed by the value's range, and its bytes spell the opcode back. |
| WeaponTable.Opcode | src/packets/ClientProtocol/ClientProtocol_1080/weapon.ts:24-289 | Every declared opcode fits in 32 bits. |
| WeaponTable.OpcodeFamilies | src/packets/ClientProtocol/ClientProtocol_1080/weapon.ts:24-289 | Every opcode is two-byte `0x83xx`, three-byte `0x8315xx` or four-byte `0x831504xx`. |
| WeaponTable.LeadingByte | src/packets/ClientProtocol/ClientProtocol_1080/weapon.ts:24-289 | Every opcode is written in 2 to 4 bytes, and its first byte is `0x83`. |
| WeaponTable.HasSchemaIffSchema | src/packets/ClientProtocol/ClientProtocol_1080/weapon.ts:24-289 | A packet has a field list exactly when it was not declared with `{}`. |
| WeaponTable.DescriptorOf | src/packets/ClientProtocol/ClientProtocol_1080/weapon.ts:291-292 | The recorded descriptor carries the packet's name and fields, and the opcode index finds the packet again under the descriptor's opcode. |
| WeaponTable.FromOpcodeOfOpcode | src/packets/ClientProtocol/ClientProtocol_1080/weapon.ts:291-292 | The opcode map finds every declared packet under its own opcode. |
| WeaponTable.OpcodeOfFromOpcode | src/packets/ClientProtocol/ClientProtocol_1080/weapon.ts:291-292 | Whatever the opcode map finds was declared under that opcode. |
| WeaponTable.OpcodesDistinct | src/packets/ClientProtocol/ClientProtocol_1080/weapon.ts:24-289 | No two declarations share an opcode. |
| WeaponTable.LookupName | src/packets/ClientProtocol/ClientProtocol_1080/weapon.ts:358 | The name map finds a packet exactly for the declared names, and the packet it finds has that name. |
| WeaponNames.DiscriminateName | src/packets/ClientProtocol/ClientProtocol_1080/weapon.ts:24-289 | A decision procedure over name length and characters gives back each declaration from its name. |
| WeaponNames.NamesDistinct | src/packets/ClientProtocol/ClientProtocol_1080/weapon.ts:24-289 | No two declarations share a name. |
| WeaponNames.LookupNameOfName | src/packets/ClientProtocol/ClientProtocol_1080/weapon.ts:358-361 | Looking up a declared packet's name finds that packet. |
| WeaponNames.DescriptorLookup | src/packets/ClientProtocol/ClientProtocol_1080/weapon.ts:291-292 | Both indexes built from a descriptor, by name and by opcode, lead back to the packet it describes. |
| WeaponCodec.ReadPacketType | src/packets/ClientProtocol/ClientProtocol_1080/weapon.ts:330-333 | The opcode lookup stops at the shortest prefix of 1 to 4 bytes that the table declares. It reports that value, that packet and its byte count. When nothing is declared it reports no packet. |
| WeaponCodec.ReadPacketTypeOfPrefix | src/packets/ClientProtocol/ClientProtocol_1080/weapon.ts:330-333 | Bytes whose own value is declared, with no shorter prefix declared, resolve to it whatever follows. |
| WeaponCodec.OpcodePrefixes | src/packets/ClientProtocol/ClientProtocol_1080/weapon.ts:24-289 | The leading bytes of every opcode spell `0x83`, then `0x8315`, then `0x831504`, as far as its width allows. |
| WeaponCodec.PrefixOpcodes | src/packets/ClientProtocol/ClientProtocol_1080/weapon.ts:139 | `0x83` and `0x8315` are undeclared, and `0x831504` is `Weapon.RemoteWeapon.Update`. |
| WeaponCodec.ShadowFreeIffNarrow | src/packets/ClientProtocol/ClientProtocol_1080/weapon.ts:139-174 | The lookup can reach a packet exactly when its opcode is narrower than four bytes. |
| WeaponCodec.ResolveOwnOpcode | src/packets/ClientProtocol/ClientProtocol_1080/weapon.ts:330-333 | A reachable packet's opcode bytes resolve to that packet, using exactly those bytes. |
| WeaponCodec.ResolveShadowedOpcode | src/packets/ClientProtocol/ClientProtocol_1080/weapon.ts:160-174 | A four-byte opcode resolves to `Weapon.RemoteWeapon.Update` after three bytes. |
| WeaponCodec.ParseWeaponPacket | src/packets/ClientProtocol/ClientProtocol_1080/weapon.ts:319-353 | The parse succeeds exactly when the 32-bit game time is in the buffer and, for a resolved opcode with a field list, the field decoder accepts the packet data. The game time is the word at `offset`. The length is `data.length - offset`. An unresolved opcode is no error: it carries the whole input buffer as packet data. |
| WeaponCodec.PackWeaponPacket | src/packets/ClientProtocol/ClientProtocol_1080/weapon.ts:355-372 | The packer fails exactly when the name is undeclared (`UnknownWeaponPacket`) or the field encoder fails (with the encoder's error). Otherwise its output has 4 + (opcode width − 1) + field bytes, and its first word is the game time mod 2^32. |
| WeaponCodec.PackThenParse | src/packets/ClientProtocol/ClientProtocol_1080/weapon.ts:319-372 | When the fields encode and the decoder reads back what the encoder wrote, the header round trip for a reachable packet gives back the game time mod 2^32, the full opcode, the packet, the encoder's field bytes, and the buffer length. |
| WeaponCodec.PackThenParseResolved | src/packets/ClientProtocol/ClientProtocol_1080/weapon.ts:319-372 | The same round trip, stated from the lookup's result on the packed bytes. |
| WeaponCodec.ParseOfHeader | src/packets/ClientProtocol/ClientProtocol_1080/weapon.ts:322-347 | Parsing a header built from a game time and `0x83`-led opcode bytes rebuilds the opcode buffer and resolves it, when the field decoder accepts what follows. |
| WeaponCodec.PackThenParseShadowed | src/packets/ClientProtocol/ClientProtocol_1080/weapon.ts:160-174 | Packing a four-byte packet and parsing it back gives `Weapon.RemoteWeapon.Update` under a different name. The hidden packet's last opcode byte is left in front of its fields. |
| WeaponCodec.PackThenParseHidden | src/packets/ClientProtocol/ClientProtocol_1080/weapon.ts:355-372 | The same result, stated from the lookup's result on the packed bytes. |
| WeaponCodec.ParseOfHiddenHeader | src/packets/ClientProtocol/ClientProtocol_1080/weapon.ts:322-347 | When the lookup takes three of four opcode bytes, the fourth is read as field data. |
| WeaponCodec.UpdateFireStateComesBackAsUpdate | src/packets/ClientProtocol/ClientProtocol_1080/weapon.ts:160 | A packed `Weapon.RemoteWeapon.Update.FireState` parses back as `Weapon.RemoteWeapon.Update` whenever the decoder accepts its bytes as that packet's fields. |
| WeaponCodec.PackWeaponPacketChecked | src/packets/ClientProtocol/ClientProtocol_1080/weapon.ts:355-372 | The corrected packer agrees with the packer whenever it succeeds. Where the packer would succeed but this one refuses, the error is `UndecodableOpcode`. |
| WeaponCodec.CheckedPackRefuses | src/packets/ClientProtocol/ClientProtocol_1080/weapon.ts:355-372 | The corrected packer refuses exactly the undeclared names, the four-byte opcodes and the packets whose fields do not encode. |
| WeaponCodec.CheckedPackRoundTrip | src/packets/ClientProtocol/ClientProtocol_1080/weapon.ts:319-372 | Whatever the corrected packer produces parses back, with a decoder that reads back what the encoder wrote, to the same name, the game time mod 2^32, and the whole buffer as length. |
| WeaponCodec.PackMultiWeaponPacket | src/packets/ClientProtocol/ClientProtocol_1080/weapon.ts:315-317 | Packing a bundle always fails. |
| WeaponCodec.MultiWeaponCannotBePacked | src/packets/ClientProtocol/ClientProtocol_1080/weapon.ts:217-228 | `Weapon.MultiWeapon` is declared, yet with its field handed to its declared packer, packing it always fails with `NotImplemented`. |
| WeaponBundle.ParseFramesBounds | src/packets/ClientProtocol/ClientProtocol_1080/weapon.ts:300-308 | The frame loop yields one sub-packet per frame, and its cursor moves at least 4 bytes per frame. |
| WeaponBundle.ParseBundle | src/packets/ClientProtocol/ClientProtocol_1080/weapon.ts:294-313 | A decoded bundle has as many sub-packets as its count word. Its reported length is at most −4 − 4·count. |
| WeaponBundle.ParseMultiWeaponPacket | src/packets/ClientProtocol/ClientProtocol_1080/weapon.ts:294-313 | `parseMultiWeaponPacket` decodes each frame as a weapon packet with the game time two bytes in, and equals the bundle specification. |
| WeaponBundle.DecodeBundle | src/packets/ClientProtocol/ClientProtocol_1080/weapon.ts:294-313 | The cursor loop computes the same result as the recursive bundle specification, for any frame decoder. |
| WeaponBundle.FrameBytes | src/packets/ClientProtocol/ClientProtocol_1080/weapon.ts:300-305 | Encoded frames take at least four bytes each. |
| WeaponBundle.Bundle | src/packets/ClientProtocol/ClientProtocol_1080/weapon.ts:297-298 | A bundle is a count word plus its frames. |
| WeaponBundle.DecodeSlices | src/packets/ClientProtocol/ClientProtocol_1080/weapon.ts:307 | There is one decoded sub-packet per slice. |
| WeaponBundle.FirstFrame | src/packets/ClientProtocol/ClientProtocol_1080/weapon.ts:301-305 | The first frame's size word and bytes lie where the loop reads them. |
| WeaponBundle.BundleHeader | src/packets/ClientProtocol/ClientProtocol_1080/weapon.ts:297-298 | The count word of an encoded bundle reads back as the number of frames. |
| WeaponBundle.FramesSize | src/packets/ClientProtocol/ClientProtocol_1080/weapon.ts:300-305 | A run of frames occupies at least four bytes per frame. |
| WeaponBundle.FramesAtFrameBytes | src/packets/ClientProtocol/ClientProtocol_1080/weapon.ts:300-305 | Encoded frames lie one after the other where they were written. |
| WeaponBundle.ParseFramesOfFramesAt | src/packets/ClientProtocol/ClientProtocol_1080/weapon.ts:300-308 | Laid-out frames that the decoder accepts decode to their sub-packets, in wire order, ending after the last frame. |
| WeaponBundle.BundleAtBundle | src/packets/ClientProtocol/ClientProtocol_1080/weapon.ts:294-305 | An encoded bundle lays out its count and frames where the decoder looks. |
| WeaponBundle.DecodeFrameAccepts | src/packets/ClientProtocol/ClientProtocol_1080/weapon.ts:307 | Any frame of six bytes or more whose fields the decoder accepts decodes as a weapon packet read two bytes in. |
| WeaponBundle.DecodeFrameAcceptsAll | src/packets/ClientProtocol/ClientProtocol_1080/weapon.ts:307 | The same for every frame of a list, and each frame's size fits in 32 bits. |
| WeaponBundle.ParseBundleOfBundleAt | src/packets/ClientProtocol/ClientProtocol_1080/weapon.ts:294-313 | A laid-out bundle decodes to its sub-packets in order. |
| WeaponBundle.MultiWeaponPacketOfBundle | src/packets/ClientProtocol/ClientProtocol_1080/weapon.ts:294-313 | Decoding an encoded bundle whose frames' fields decode gives its frames' sub-packets in wire order. The length is the negated size of the bundle. |
| WeaponBundle.ParseBundleOfBundle | src/packets/ClientProtocol/ClientProtocol_1080/weapon.ts:294-313 | The same, for any frame decoder that accepts every frame. |
| WeaponBundle.OverlongBundleLayout | src/packets/ClientProtocol/ClientProtocol_1080/weapon.ts:301-304 | In a 14-byte bundle whose one frame claims 100 bytes, the slice is cut to the six bytes present. |
| WeaponBundle.OneFrameBundle | src/packets/ClientProtocol/ClientProtocol_1080/weapon.ts:309-312 | A one-frame bundle at offset 0 reports length −(8 + size). |
| WeaponBundle.OverlongFrameAccepted | src/packets/ClientProtocol/ClientProtocol_1080/weapon.ts:301-305 | Whatever the field decoder, the overlong bundle decodes without error, and reports −108, more bytes than the buffer has. |
| WeaponBundle.ParseFramesCheckedBounds | src/packets/ClientProtocol/ClientProtocol_1080/weapon.ts:300-308 | Frames the corrected decoder accepts lie inside the buffer, one sub-packet per frame. |
| WeaponBundle.ParseBundleChecked | src/packets/ClientProtocol/ClientProtocol_1080/weapon.ts:294-313 | The corrected decoder returns count-many sub-packets. Its length, the bytes consumed, is between 4 + 4·count and the bytes available. |
| WeaponBundle.ParseFramesCheckedOfFramesAt | src/packets/ClientProtocol/ClientProtocol_1080/weapon.ts:300-308 | Laid-out frames decode under the corrected loop. |
| WeaponBundle.ParseBundleCheckedOfBundleAt | src/packets/ClientProtocol/ClientProtocol_1080/weapon.ts:294-313 | A laid-out bundle decodes under the corrected decoder. |
| WeaponBundle.MultiWeaponPacketCheckedOfBundle | src/packets/ClientProtocol/ClientProtocol_1080/weapon.ts:294-313 | The corrected decoder gives back an encoded bundle's sub-packets in order, when their fields decode, with the bundle's size as length. |
| WeaponBundle.ParseBundleCheckedOfBundle | src/packets/ClientProtocol/ClientProtocol_1080/weapon.ts:294-313 | The same, for any frame decoder. |
| WeaponBundle.FrameOverrunRefused | src/packets/ClientProtocol/ClientProtocol_1080/weapon.ts:301-305 | The corrected decoder refuses a first frame that runs past the buffer. |
| WeaponBundle.OverlongFrameRefused | src/packets/ClientProtocol/ClientProtocol_1080/weapon.ts:301-305 | The corrected decoder refuses the overlong bundle. |
| HitReport.SchemaLayout | src/packets/ClientProtocol/ClientProtocol_1080/weapon.ts:374-381 | The first five schema fields are 26 fixed bytes, and the length byte sits at offset 24. The last field, a null-terminated string, has no fixed width. |
| HitReport.ReadNullString | src/packets/ClientProtocol/ClientProtocol_1080/weapon.ts:380 | A null-terminated read stays inside the buffer and contains no zero byte. |
| HitReport.NullStringOf | src/packets/ClientProtocol/ClientProtocol_1080/weapon.ts:380 | A zero-free string followed by a terminator reads back as itself. |
| HitReport.ParseSchemaFields | src/packets/ClientProtocol/ClientProtocol_1080/weapon.ts:384 | Schema parsing succeeds exactly when the 26 fixed bytes are present. It gives an 8-byte id, a 12-byte position, and the length byte at offset 24. |
| HitReport.UnknownBytesLength | src/packets/ClientProtocol/ClientProtocol_1080/weapon.ts:386-389 | The unknown run is 9 bytes after a non-empty hit location, otherwise 8. |
| HitReport.ParseHitReportPacket | src/packets/ClientProtocol/ClientProtocol_1080/weapon.ts:383-403 | The cursor-stepping parser equals the as-written specification. |
| HitReport.HitReportPacketBounds | src/packets/ClientProtocol/ClientProtocol_1080/weapon.ts:383-403 | The parse succeeds exactly when the buffer reaches past the shot count. Its length is the bytes from the last byte read to the end, at least 1. The unknown run is the buffer's first bytes. |
| HitReport.PackHitReport | src/packets/ClientProtocol/ClientProtocol_1080/weapon.ts:374-403 | A well-formed report encodes to 28 + hit-location length + unknown-run bytes. |
| HitReport.PackedLayout | src/packets/ClientProtocol/ClientProtocol_1080/weapon.ts:374-403 | Every part of an encoded report sits at the offset the parser reads it from. |
| HitReport.HitReportRoundTrip | src/packets/ClientProtocol/ClientProtocol_1080/weapon.ts:383-403 | The corrected parser reads any well-formed report back unchanged, wherever it sits. |
| HitReport.HitReportUnknownBytesMisread | src/packets/ClientProtocol/ClientProtocol_1080/weapon.ts:390-393 | For a report at offset 0 whose dword has a non-zero low byte, the as-written parser takes that byte as the unknown run's first byte, so the report never reads back as itself. |
| HitReport.HitReportMisreadInWeaponPacket | src/packets/ClientProtocol/ClientProtocol_1080/weapon.ts:319-343 | Where the parser is called, at offset 2 behind the opcode bytes `0x83 0x06`, the unknown run always starts with those two bytes, so no well-formed report reads back as itself. |
| HitReport.TruncatedHitReportRefused | src/packets/ClientProtocol/ClientProtocol_1080/weapon.ts:338-342 | A `Weapon.ProjectileHitReport` packet with fewer than the report's 26 fixed bytes after its opcode is refused, whenever the field decoder refuses what the hit report parser refuses. |
| HitReport.CheckedDiffersOnlyInUnknownBytes | src/packets/ClientProtocol/ClientProtocol_1080/weapon.ts:383-403 | The two parsers agree on success, the fields, the trailing bytes and the length. They differ only in the unknown run. |
| H1emuServer.Decimal | src/servers/H1emuServer/h1emuserver.ts:48 | A port prints as at least one decimal digit, and as exactly one when it is below 10. |
| H1emuServer.DecimalInjective | src/servers/H1emuServer/h1emuserver.ts:48 | Different ports print differently. |
| H1emuServer.ColonAmongDigits | src/servers/H1emuServer/h1emuserver.ts:48 | If two keys are equal but the ports' digit runs differ in length, a `:` falls inside the longer run. |
| H1emuServer.SplitAtLastColon | src/servers/H1emuServer/h1emuserver.ts:48 | An `address:digits` key splits back into its address and digits. |
| H1emuServer.ClientKeyInjective | src/servers/H1emuServer/h1emuserver.ts:48 | The `address:port` key identifies the endpoint, so two endpoints never share a record. |
| H1emuServer.Client.constructor | src/servers/H1emuServer/h1emuserver.ts:51 | A new record takes the endpoint and starts without a session. |
| H1emuServer.RemoveKey | src/servers/H1emuServer/h1emuserver.ts:110 | Deleting a key from the insertion order removes exactly that key and keeps the order free of repeats. |
| H1emuServer.DistinctTail | src/servers/H1emuServer/h1emuserver.ts:106 | The tail of a repeat-free key order is repeat-free and lacks the head. |
| H1emuServer.StaleKeys | src/servers/H1emuServer/h1emuserver.ts:108 | A key is stale exactly when its client's `lastPing` plus 60000 ms is before now. |
| H1emuServer.StaleEventsWithout | src/servers/H1emuServer/h1emuserver.ts:106-112 | Deleting a key the sweep does not visit changes none of its `disconnect` events. |
| H1emuServer.SweepEvictsStale | src/servers/H1emuServer/h1emuserver.ts:104-116 | When every record is filed under its `clientId`, the sweep keeps exactly the clients that are not stale. It emits one `disconnect` per stale client, in insertion order. |
| H1emuServer.SweepTwiceEvictsOnce | src/servers/H1emuServer/h1emuserver.ts:104-116 | A second sweep at the same time finds nothing left to evict and emits nothing. |
| H1emuServer.NoStaleEvents | src/servers/H1emuServer/h1emuserver.ts:108-111 | A sweep over keys with no stale client emits nothing. |
| H1emuServer.SweepMissesForeignIds | src/servers/H1emuServer/h1emuserver.ts:109-110 | When no record's `clientId` is a key of the table, the sweep emits its `disconnect` events but deletes nothing. |
| H1emuServer.Server.constructor | src/servers/H1emuServer/h1emuserver.ts:33-41 | `_isLogin` holds exactly when a non-zero server port is given. The server starts empty. |
| H1emuServer.Server.Start | src/servers/H1emuServer/h1emuserver.ts:101-117 | Only the login side binds its port and arms the sweep. |
| H1emuServer.Server.SendData | src/servers/H1emuServer/h1emuserver.ts:125-140 | Nothing is sent to a null client. Nothing is sent to a client without a session, except a `SessionRequest`. Otherwise one packet goes to the client's address and port. |
| H1emuServer.Server.Connect | src/servers/H1emuServer/h1emuserver.ts:142-144 | Always sends one `SessionRequest` to the given server. |
| H1emuServer.Server.Ping | src/servers/H1emuServer/h1emuserver.ts:146-155 | Sends a `Ping` if the client has a session. The login side then stops. The zone side either evicts a stale client (one `disconnect`, record deleted) or re-arms the timer, never both. |
| H1emuServer.Server.Evict | src/servers/H1emuServer/h1emuserver.ts:110 | Deletes one key from the table and its insertion order. |
| H1emuServer.Server.PingTimerFires | src/servers/H1emuServer/h1emuserver.ts:76-79 | A timer that is not armed does nothing. An armed one pings its client: `Ping` goes out if the client has a session; on the zone side a silent client is reported and evicted, and otherwise the timer is armed again. |
| H1emuServer.SweepKeys | src/servers/H1emuServer/h1emuserver.ts:106-115 | The loop over the keys in insertion order leaves the table and events the sweep specification gives, touches no surviving record, and keeps the survivors' keys in their insertion order. |
| H1emuServer.Server.Sweep | src/servers/H1emuServer/h1emuserver.ts:104-116 | The eviction leaves the table and event log the sweep specification gives for the stale keys at `now`, and the survivors keep their insertion order for later sweeps. |
| H1emuServer.Server.Lookup | src/servers/H1emuServer/h1emuserver.ts:48-56 | The first datagram from an endpoint files a fresh record and emits `connect`. Later datagrams find the same record, and no other record is touched. |
| H1emuServer.Server.Dispatch | src/servers/H1emuServer/h1emuserver.ts:58-98 | `Ping` pings back first on the login side, then stamps `lastPing`. `SessionReply` status 0 opens the session, emits `session` and arms the keepalive timer. Any other status emits `sessionfailed`. Any other packet is emitted as `data`. |
| H1emuServer.Server.HandleMessage | src/servers/H1emuServer/h1emuserver.ts:44-100 | A record is filed for every message before its type is looked at, a new key goes to the end of the insertion order, and no other record changes. Without a parsed packet nothing more happens. `Ping` sets `lastPing` to now and leaves `session`. `SessionReply` 0 opens the session, emits `session`, arms the keepalive and leaves `lastPing`. Another status emits `sessionfailed`, and any other packet emits `data`; both leave the record and the timer as they were. |
| Groups.IndexOf | src/servers/ZoneServer2016/managers/groupmanager.ts:107 | Returns the index of the first occurrence. |
| Groups.RemoveFirstSpec | src/servers/ZoneServer2016/managers/groupmanager.ts:107-108 | The splice removes exactly one occurrence and keeps the rest in order. Putting the id back at its index restores the list. |
| Groups.AlertsForRecipients | src/servers/ZoneServer2016/managers/groupmanager.ts:38-42 | Every alert goes to some member's client with the message. Every member that resolves gets one. There are never more alerts than members. |
| Groups.Character.constructor | src/servers/ZoneServer2016/managers/groupmanager.ts:103 | A character record with its id, name and group. |
| Groups.GroupManager.constructor | src/servers/ZoneServer2016/managers/groupmanager.ts:19-20 | Ids start at 1, with no groups. |
| Groups.GroupManager.CreateGroup | src/servers/ZoneServer2016/managers/groupmanager.ts:25-33 | The new group takes the counter's id, which was free, with the leader and exactly one member. The counter goes up by one, and no other group changes. |
| Groups.GroupManager.SendAlertToGroup | src/servers/ZoneServer2016/managers/groupmanager.ts:35-43 | An unknown group gets no alerts. Otherwise each member that resolves to a client is alerted, in member order. |
| Groups.GroupManager.HandleGroupJoin | src/servers/ZoneServer2016/managers/groupmanager.ts:68-100 | A decline sends exactly two alerts, to source then target. An accept alerts the source's group, then the target. The group table is never changed. |
| Groups.GroupManager.RemoveGroupMember | src/servers/ZoneServer2016/managers/groupmanager.ts:102-113 | Nothing changes for `groupId` 0, an unknown group, or a non-member. Otherwise the first occurrence is spliced out and `groupId` is reset to 0. |
| Groups.GroupManager.HandleGroupKick | src/servers/ZoneServer2016/managers/groupmanager.ts:115-118 | Resets the target's `groupId` to 0 and sends one blank alert. The group table is not touched. |
| Groups.GroupManager.HandleGroupCommand | src/servers/ZoneServer2016/managers/groupmanager.ts:128-159 | A missing subcommand, or `kick` without a name, sends only the usage text and leaves the target alone. A `kick` with a name follows the lookup result. Any other subcommand has no effect. |
| CharacterModel.GetCharacterModelData | src/servers/shared/functions.ts:3-43 | The lookup is total. Female heads get model 9474 and all others 9240. The head actor is never empty. The hair is empty exactly for the two bald male heads. |
| CharacterModel.UnrecognisedIsMaleWhite | src/servers/shared/functions.ts:35-41 | An unrecognised head type gives exactly the male white record. |
| CharacterModel.SameLookOnlyForWhiteFemales | src/servers/shared/functions.ts:17-28 | Among the named head types, only the two white female ones share a record. |
| LoginTunnelPackets.ByOpcode | src/packets/LoginUdp/LoginUdp_9/loginTunnelPackets.ts:38 | Opcode lookup finds an entry with that opcode, and fails exactly when none has it. |
| LoginTunnelPackets.ByName | src/packets/LoginUdp/LoginUdp_9/loginTunnelPackets.ts:38 | Name lookup finds an entry with that name, and fails exactly when none has it. |
| LoginTunnelPackets.TableIsUnambiguous | src/packets/LoginUdp/LoginUdp_9/loginTunnelPackets.ts:15-36 | The table has two entries, with distinct names and distinct one-byte opcodes. Each is found by its own name and opcode, and other opcodes find nothing. |
| LoginTunnelPackets.FieldLayout | src/packets/LoginUdp/LoginUdp_9/loginTunnelPackets.ts:19-34 | The request has one string field, `characterName`. The reply has `firstName`, `lastName` (default `" "`) and a `uint32` `status`, in that order. |

## Left out

- The H1emuProtocol `parse` and `pack` are not modelled, nor is h1emuclient.ts. Messages arrive as parsed packets (or none). Sent packets carry only their name and destination.
- H1emuServer.Server.constructor: the client's `clientId` and initial `lastPing` come from h1emuclient.ts, so they are constructor parameters.
- The socket worker, `stop`, `process.exit` and debug logging are left out. Posted messages are an outbox sequence.
- Timers become an explicit `now` argument and armed flags: `Sweep(now)` and `PingTimerFires(now)`.
  - H1emuServer.Server.PingTimerFires: only the latest `_pingTimer` is kept. Earlier pending timers, which the source never cancels, are not modelled.
  - Listeners that re-enter the server while an event is emitted are not modelled.
- H1emuServer.Server.SendData: a call with no client (the default `{}`) is not modelled. `None` stands for a null client.
- `DataSchema.parse` and `pack` of weapon packet fields are not modelled. Field bytes are kept as bytes. The field encoder and the field decoder are parameters, and either may fail. What a successful decode produces is not modelled.
  - HitReport.ParseSchemaFields: a null-terminated string with no terminator is read to the end of the buffer.
  - WeaponCodec.PackWeaponPacket: whether the encoder fails is up to the encoder given. `Weapon.MultiWeapon` fails through its declared packer. The `hitReport` field of `Weapon.ProjectileHitReport` declares no packer, and what `DataSchema.pack` does with it is not modelled.
- `readPacketType` and `writePacketType` are not part of this model. The lookup is modelled as the shortest declared prefix of 1 to 4 bytes, and the writer as the minimal big-endian encoding.
- `sendGroupInvite`, `handleGroupLeave` and `handleGroupView` are left out. The first is outside the modelled core, and the other two have empty bodies. Their calls in `handleGroupCommand` are modelled as doing nothing.
- The zone server's `sendChatText`, `sendAlert`, `getClientByCharId`, `getClientByNameOrLoginSession` and `playerNotFound` are not part of this model:
  - sends are returned as notices whose text is a tag, not a message string;
  - `getClientByCharId` is a function parameter;
  - the kick lookup and the `playerNotFound` verdict arrive together as one `KickTarget` argument;
  - whatever `playerNotFound` itself sends is not modelled.
- Groups.GroupManager.RemoveGroupMember: the in-place `splice` of the group's member array is modelled as replacing that group's entry in the table. No other reference to a group object exists in the group manager.
- Groups.Character.constructor: `groupId` is an integer, so non-numeric values such as `undefined` or `NaN` are not modelled.
- CharacterModel.GetCharacterModelData: the numeric values of the `Characters` enum are not part of this model. Head types are named cases plus an `Unrecognised` case.
- The packet table builder (`PacketTableBuild`) is modelled only as lookups by opcode and by name.

## Findings

| source | as written | input that shows it | evidently intended | confidence | as-written member | corrected member |
|---|---|---|---|---|---|---|
| src/packets/ClientProtocol/ClientProtocol_1080/weapon.ts:311 | `length: startOffset - offset` | any bundle, e.g. one frame of 6 bytes at offset 0: length −14 | `offset - startOffset`, the bytes consumed | high, not executed | WeaponBundle.MultiWeaponPacketOfBundle | WeaponBundle.MultiWeaponPacketCheckedOfBundle |
| src/packets/ClientProtocol/ClientProtocol_1080/weapon.ts:301-305 | a frame size past the buffer is sliced short and decoding continues | count 1, size 100, six bytes present (14-byte buffer) | refuse a frame that does not fit | medium, not executed | WeaponBundle.OverlongFrameAccepted | WeaponBundle.OverlongFrameRefused |
| src/packets/ClientProtocol/ClientProtocol_1080/weapon.ts:390-393 | `unknownBytes` parsed at offset 0 | every report, as called at offset 2 behind `0x83 0x06`; at offset 0, any report whose dword has a non-zero low byte | parse at the cursor (`offset + 26 + hitLocationLen`) | high, not executed | HitReport.HitReportMisreadInWeaponPacket | HitReport.HitReportRoundTrip |
| src/packets/ClientProtocol/ClientProtocol_1080/weapon.ts:139-174 | `0x831504` is declared and is a prefix of the fifteen `0x831504xx` opcodes | pack `Weapon.RemoteWeapon.Update.FireState`, then parse | each four-byte packet reachable, or refused when packing | medium, not executed | WeaponCodec.UpdateFireStateComesBackAsUpdate | WeaponCodec.CheckedPackRoundTrip |
