/** The login server's tunnel packet table (loginTunnelPackets.ts): two
    name-validation packets, each a name, a one-byte opcode and a field
    list, from which the packet table is built. */
module LoginTunnelPackets {
  import opened Wrappers
  import opened PacketSchema

  const NameValidationRequest: Descriptor :=
    Descriptor("nameValidationRequest", 0x01, Some([Field("characterName", String, NoDefault)]))

  const NameValidationReply: Descriptor :=
    Descriptor("nameValidationReply", 0x02, Some([
      Field("firstName", String, NoDefault),
      Field("lastName", String, TextDefault(" ")),
      Field("status", UInt32, NoDefault)
    ]))

  /** `packets`, in declaration order. */
  const Packets: seq<Descriptor> := [NameValidationRequest, NameValidationReply]

  /** The first entry of `table` with opcode `op`. */
  function ByOpcode(table: seq<Descriptor>, op: nat): (r: Option<Descriptor>)
    ensures r.Some? ==> r.value in table && r.value.opcode == op
    ensures r.None? <==> forall d :: d in table ==> d.opcode != op
  {
    if table == [] then None
    else if table[0].opcode == op then Some(table[0])
    else ByOpcode(table[1..], op)
  }

  /** The first entry of `table` named `name`. */
  function ByName(table: seq<Descriptor>, name: string): (r: Option<Descriptor>)
    ensures r.Some? ==> r.value in table && r.value.name == name
    ensures r.None? <==> forall d :: d in table ==> d.name != name
  {
    if table == [] then None
    else if table[0].name == name then Some(table[0])
    else ByName(table[1..], name)
  }

  /** Two entries with distinct names and distinct one-byte opcodes, so
      each entry is found again by its own opcode and by its own name. */
  lemma TableIsUnambiguous()
    ensures |Packets| == 2
    ensures Packets[0].name != Packets[1].name && Packets[0].opcode != Packets[1].opcode
    ensures forall d :: d in Packets ==> d.opcode < 0x100
    ensures forall d :: d in Packets ==> ByOpcode(Packets, d.opcode) == Some(d) && ByName(Packets, d.name) == Some(d)
    ensures forall op :: op !in {0x01, 0x02} ==> ByOpcode(Packets, op) == None
  {
    assert Packets[1..][1..] == [];
  }

  /** The request carries one string field, the character name; the reply
      carries the first name, the last name (a single space by default)
      and a 32-bit status, in that order. */
  lemma FieldLayout()
    ensures var fs := ByName(Packets, "nameValidationRequest").value.schema.value;
            |fs| == 1 && fs[0].name == "characterName" && fs[0].kind == String
    ensures var fs := ByName(Packets, "nameValidationReply").value.schema.value;
            |fs| == 3 && fs[0].name == "firstName" && fs[1].name == "lastName" && fs[2].name == "status"
            && fs[1].default == TextDefault(" ") && fs[2].kind == UInt32
  {
    TableIsUnambiguous();
  }
}
