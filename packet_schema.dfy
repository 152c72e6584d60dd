/** The declarative packet descriptions the packet tables are written in:
    a field has a name, a wire kind and an optional default value, and a
    descriptor pairs a packet name with its numeric opcode and field list. */
module PacketSchema {
  import opened Wrappers

  /** The custom codecs named in the weapon table. */
  datatype CustomCodec = MultiWeaponCodec | HitReportCodec | UIntWith2BitLength

  datatype FieldKind =
    | UInt8 | UInt16 | UInt32 | Int32 | UInt64String | Boolean
    | Float | FloatVector3 | FloatVector4
    | Bytes(length: nat)
    | NullString | String
    | Custom(codec: CustomCodec)
    | ArrayOf(elementFields: seq<Field>)
    | SubSchema(fields: seq<Field>)
      /** a schema declared in a file that is not part of this model */
    | ExternalSchema(schemaName: string)

  datatype Default =
    | NoDefault
    | IntDefault(i: int)
    | TextDefault(s: string)
    | BoolDefault(b: bool)
    | VectorDefault(v: seq<int>)

  datatype Field = Field(name: string, kind: FieldKind, default: Default)

  /** A table entry; `schema` is absent for entries declared with `{}`. */
  datatype Descriptor = Descriptor(name: string, opcode: nat, schema: Option<seq<Field>>)

  /** Bytes a field of this kind always occupies, when that is fixed. */
  function FixedWidth(k: FieldKind): Option<nat>
  {
    match k
    case UInt8 => Some(1)
    case Boolean => Some(1)
    case UInt16 => Some(2)
    case UInt32 => Some(4)
    case Int32 => Some(4)
    case Float => Some(4)
    case UInt64String => Some(8)
    case FloatVector3 => Some(12)
    case FloatVector4 => Some(16)
    case Bytes(n) => Some(n)
    case _ => None
  }

  /** Total width of a run of fixed-width fields, or None if one varies. */
  function RunWidth(fields: seq<Field>): (w: Option<nat>)
    ensures fields == [] ==> w == Some(0)
  {
    if fields == [] then Some(0)
    else match (FixedWidth(fields[0].kind), RunWidth(fields[1..]))
      case (Some(a), Some(b)) => Some(a + b)
      case _ => None
  }
}
