/** The weapon sub-protocol's packet table (weapon.ts lines 24-289): every
    declared packet, its dotted name, its opcode and its field schema, and
    the two lookups built from it, opcode to packet and name to packet. */
module WeaponTable {
  import opened Wrappers
  import opened Bytes
  import opened PacketSchema

  /** One constructor per declaration, in declaration order. */
  datatype WeaponPacket =
    | FireStateUpdate
    | FireStateTargetedUpdate
    | Fire
    | FireWithDefinitionMapping
    | FireNoProjectile
    | ProjectileHitReport
    | ReloadRequest
    | Reload
    | ReloadInterrupt
    | ReloadRejected
    | SwitchFireModeRequest
    | LockOnGuidUpdate
    | LockOnLocationUpdate
    | StatUpdate
    | DebugProjectile
    | AddFireGroup
    | RemoveFireGroup
    | ReplaceFireGroup
    | GuidedUpdate
    | RemoteWeaponReset
    | RemoteWeaponAddWeapon
    | RemoteWeaponRemoveWeapon
    | RemoteWeaponUpdate
    | RemoteWeaponUpdateFireState
    | RemoteWeaponUpdateEmpty
    | RemoteWeaponUpdateReload
    | RemoteWeaponUpdateReloadLoopEnd
    | RemoteWeaponUpdateReloadInterrupt
    | RemoteWeaponUpdateSwitchFireMode
    | RemoteWeaponUpdateStatUpdate
    | RemoteWeaponUpdateAddFireGroup
    | RemoteWeaponUpdateRemoveFireGroup
    | RemoteWeaponUpdateReplaceFireGroup
    | RemoteWeaponUpdateProjectileLaunch
    | RemoteWeaponUpdateChamber
    | RemoteWeaponUpdateThrow
    | RemoteWeaponUpdateTrigger
    | RemoteWeaponUpdateChamberInterrupt
    | RemoteWeaponProjectileLaunchHint
    | RemoteWeaponProjectileDetonateHint
    | RemoteWeaponProjectileRemoteContactReport
    | ChamberRound
    | GuidedSetNonSeeking
    | ChamberInterrupt
    | GuidedExplode
    | DestroyNpcProjectile
    | WeaponToggleEffects
    | Reset
    | ProjectileSpawnNpc
    | FireRejected
    | MultiWeapon
    | WeaponFireHint
    | ProjectileContactReport
    | MeleeHitMaterial
    | ProjectileSpawnAttachedNp
    | AddDebugLogEntry
    | DebugZoneState
    | GrenadeBounceReport
    | AimBlockedNotify

  /** The packet's name as declared. */
  function Name(p: WeaponPacket): string
  {
    match p
    case FireStateUpdate => "Weapon.FireStateUpdate"
    case FireStateTargetedUpdate => "Weapon.FireStateTargetedUpdate"
    case Fire => "Weapon.Fire"
    case FireWithDefinitionMapping => "Weapon.FireWithDefinitionMapping"
    case FireNoProjectile => "Weapon.FireNoProjectile"
    case ProjectileHitReport => "Weapon.ProjectileHitReport"
    case ReloadRequest => "Weapon.ReloadRequest"
    case Reload => "Weapon.Reload"
    case ReloadInterrupt => "Weapon.ReloadInterrupt"
    case ReloadRejected => "Weapon.ReloadRejected"
    case SwitchFireModeRequest => "Weapon.SwitchFireModeRequest"
    case LockOnGuidUpdate => "Weapon.LockOnGuidUpdate"
    case LockOnLocationUpdate => "Weapon.LockOnLocationUpdate"
    case StatUpdate => "Weapon.StatUpdate"
    case DebugProjectile => "Weapon.DebugProjectile"
    case AddFireGroup => "Weapon.AddFireGroup"
    case RemoveFireGroup => "Weapon.RemoveFireGroup"
    case ReplaceFireGroup => "Weapon.ReplaceFireGroup"
    case GuidedUpdate => "Weapon.GuidedUpdate"
    case RemoteWeaponReset => "Weapon.RemoteWeapon.Reset"
    case RemoteWeaponAddWeapon => "Weapon.RemoteWeapon.AddWeapon"
    case RemoteWeaponRemoveWeapon => "Weapon.RemoteWeapon.RemoveWeapon"
    case RemoteWeaponUpdate => "Weapon.RemoteWeapon.Update"
    case RemoteWeaponUpdateFireState => "Weapon.RemoteWeapon.Update.FireState"
    case RemoteWeaponUpdateEmpty => "Weapon.RemoteWeapon.Update.Empty"
    case RemoteWeaponUpdateReload => "Weapon.RemoteWeapon.Update.Reload"
    case RemoteWeaponUpdateReloadLoopEnd => "Weapon.RemoteWeapon.Update.ReloadLoopEnd"
    case RemoteWeaponUpdateReloadInterrupt => "Weapon.RemoteWeapon.Update.ReloadInterrupt"
    case RemoteWeaponUpdateSwitchFireMode => "Weapon.RemoteWeapon.Update.SwitchFireMode"
    case RemoteWeaponUpdateStatUpdate => "Weapon.RemoteWeapon.Update.StatUpdate"
    case RemoteWeaponUpdateAddFireGroup => "Weapon.RemoteWeapon.Update.AddFireGroup"
    case RemoteWeaponUpdateRemoveFireGroup => "Weapon.RemoteWeapon.Update.RemoveFireGroup"
    case RemoteWeaponUpdateReplaceFireGroup => "Weapon.RemoteWeapon.Update.ReplaceFireGroup"
    case RemoteWeaponUpdateProjectileLaunch => "Weapon.RemoteWeapon.Update.ProjectileLaunch"
    case RemoteWeaponUpdateChamber => "Weapon.RemoteWeapon.Update.Chamber"
    case RemoteWeaponUpdateThrow => "Weapon.RemoteWeapon.Update.Throw"
    case RemoteWeaponUpdateTrigger => "Weapon.RemoteWeapon.Update.Trigger"
    case RemoteWeaponUpdateChamberInterrupt => "Weapon.RemoteWeapon.Update.ChamberInterrupt"
    case RemoteWeaponProjectileLaunchHint => "Weapon.RemoteWeapon.ProjectileLaunchHint"
    case RemoteWeaponProjectileDetonateHint => "Weapon.RemoteWeapon.ProjectileDetonateHint"
    case RemoteWeaponProjectileRemoteContactReport => "Weapon.RemoteWeapon.ProjectileRemoteContactReport"
    case ChamberRound => "Weapon.ChamberRound"
    case GuidedSetNonSeeking => "Weapon.GuidedSetNonSeeking"
    case ChamberInterrupt => "Weapon.ChamberInterrupt"
    case GuidedExplode => "Weapon.GuidedExplode"
    case DestroyNpcProjectile => "Weapon.DestroyNpcProjectile"
    case WeaponToggleEffects => "Weapon.WeaponToggleEffects"
    case Reset => "Weapon.Reset"
    case ProjectileSpawnNpc => "Weapon.ProjectileSpawnNpc"
    case FireRejected => "Weapon.FireRejected"
    case MultiWeapon => "Weapon.MultiWeapon"
    case WeaponFireHint => "Weapon.WeaponFireHint"
    case ProjectileContactReport => "Weapon.ProjectileContactReport"
    case MeleeHitMaterial => "Weapon.MeleeHitMaterial"
    case ProjectileSpawnAttachedNp => "Weapon.ProjectileSpawnAttachedNp"
    case AddDebugLogEntry => "Weapon.AddDebugLogEntry"
    case DebugZoneState => "Weapon.DebugZoneState"
    case GrenadeBounceReport => "Weapon.GrenadeBounceReport"
    case AimBlockedNotify => "Weapon.AimBlockedNotify"
  }

  /** The packet's opcode as declared; every one fits in 32 bits. */
  function Opcode(p: WeaponPacket): (op: nat)
    ensures op < TWO_32
  {
    match p
    case FireStateUpdate => 0x8301
    case FireStateTargetedUpdate => 0x8302
    case Fire => 0x8303
    case FireWithDefinitionMapping => 0x8304
    case FireNoProjectile => 0x8305
    case ProjectileHitReport => 0x8306
    case ReloadRequest => 0x8307
    case Reload => 0x8308
    case ReloadInterrupt => 0x8309
    case ReloadRejected => 0x830b
    case SwitchFireModeRequest => 0x830c
    case LockOnGuidUpdate => 0x830d
    case LockOnLocationUpdate => 0x830e
    case StatUpdate => 0x830f
    case DebugProjectile => 0x8310
    case AddFireGroup => 0x8311
    case RemoveFireGroup => 0x8312
    case ReplaceFireGroup => 0x8313
    case GuidedUpdate => 0x8314
    case RemoteWeaponReset => 0x831501
    case RemoteWeaponAddWeapon => 0x831502
    case RemoteWeaponRemoveWeapon => 0x831503
    case RemoteWeaponUpdate => 0x831504
    case RemoteWeaponUpdateFireState => 0x83150401
    case RemoteWeaponUpdateEmpty => 0x83150402
    case RemoteWeaponUpdateReload => 0x83150403
    case RemoteWeaponUpdateReloadLoopEnd => 0x83150404
    case RemoteWeaponUpdateReloadInterrupt => 0x83150405
    case RemoteWeaponUpdateSwitchFireMode => 0x83150406
    case RemoteWeaponUpdateStatUpdate => 0x83150407
    case RemoteWeaponUpdateAddFireGroup => 0x83150408
    case RemoteWeaponUpdateRemoveFireGroup => 0x83150409
    case RemoteWeaponUpdateReplaceFireGroup => 0x8315040a
    case RemoteWeaponUpdateProjectileLaunch => 0x8315040b
    case RemoteWeaponUpdateChamber => 0x8315040c
    case RemoteWeaponUpdateThrow => 0x8315040d
    case RemoteWeaponUpdateTrigger => 0x8315040e
    case RemoteWeaponUpdateChamberInterrupt => 0x8315040f
    case RemoteWeaponProjectileLaunchHint => 0x831505
    case RemoteWeaponProjectileDetonateHint => 0x831506
    case RemoteWeaponProjectileRemoteContactReport => 0x831507
    case ChamberRound => 0x8316
    case GuidedSetNonSeeking => 0x8317
    case ChamberInterrupt => 0x8318
    case GuidedExplode => 0x8319
    case DestroyNpcProjectile => 0x831a
    case WeaponToggleEffects => 0x831b
    case Reset => 0x831c
    case ProjectileSpawnNpc => 0x831d
    case FireRejected => 0x831e
    case MultiWeapon => 0x831f
    case WeaponFireHint => 0x8320
    case ProjectileContactReport => 0x8321
    case MeleeHitMaterial => 0x8322
    case ProjectileSpawnAttachedNp => 0x8323
    case AddDebugLogEntry => 0x8324
    case DebugZoneState => 0x8325
    case GrenadeBounceReport => 0x8326
    case AimBlockedNotify => 0x8327
  }

  /** The declared field list, absent for entries declared with `{}`. */
  function Schema(p: WeaponPacket): Option<seq<Field>>
  {
    match p
    case FireStateUpdate => Some([
        Field("guid", UInt64String, NoDefault),
        Field("unknownByte1", UInt8, NoDefault),
        Field("unknownByte2", UInt8, NoDefault)
      ])
    case Fire => Some([
        Field("guid", UInt64String, TextDefault("0")),
        Field("position", FloatVector3, VectorDefault([0, 0, 0])),
        Field("unknownDword1", UInt32, IntDefault(0)),
        Field("unknownDword2", UInt32, IntDefault(0)),
        Field("unknownDword3", UInt32, IntDefault(0))
      ])
    case ProjectileHitReport => Some([
        Field("hitReport", Custom(HitReportCodec), NoDefault)
      ])
    case ReloadRequest => Some([
        Field("characterId", UInt64String, TextDefault("0"))
      ])
    case Reload => Some([
        Field("guid", UInt64String, TextDefault("0")),
        Field("unknownDword1", UInt32, IntDefault(0)),
        Field("ammoCount", UInt32, IntDefault(0)),
        Field("unknownDword3", UInt32, IntDefault(0)),
        Field("characterId", UInt64String, TextDefault("0"))
      ])
    case SwitchFireModeRequest => Some([
        Field("guid", UInt64String, TextDefault("0")),
        Field("unknownByte1", UInt8, IntDefault(0)),
        Field("unknownByte2", UInt8, IntDefault(0)),
        Field("unknownByte3", UInt8, IntDefault(0))
      ])
    case StatUpdate => Some([
        Field("statData", ArrayOf([
          Field("guid", UInt64String, TextDefault("0")),
          Field("unknownBoolean1", Boolean, BoolDefault(false)),
          Field("statUpdates", ArrayOf([
            Field("statCategory", UInt8, IntDefault(0)),
            Field("statUpdateData", ExternalSchema("itemWeaponDetailSubSchema1"), NoDefault)
          ]), VectorDefault([]))
        ]), VectorDefault([]))
      ])
    case RemoteWeaponUpdate => Some([
        Field("unknownUint1", Custom(UIntWith2BitLength), NoDefault),
        Field("unknownByte1", UInt8, IntDefault(0)),
        Field("unknownQword1", UInt64String, TextDefault("0")),
        Field("unknownByte2", UInt8, IntDefault(0)),
        Field("unknownUint2", Custom(UIntWith2BitLength), NoDefault)
      ])
    case DestroyNpcProjectile => Some([
        Field("unknownDword1", UInt32, IntDefault(0)),
        Field("unknownDword2", UInt32, IntDefault(0)),
        Field("unknownDword3", UInt32, IntDefault(0)),
        Field("position", FloatVector4, VectorDefault([0, 0, 0, 0]))
      ])
    case Reset => Some([
        Field("characterId", UInt64String, TextDefault("0")),
        Field("unknownBoolean1", Boolean, BoolDefault(true)),
        Field("unknownByte1", UInt8, IntDefault(1))
      ])
    case ProjectileSpawnNpc => Some([
        Field("bytes", Bytes(5), NoDefault)
      ])
    case MultiWeapon => Some([
        Field("packets", Custom(MultiWeaponCodec), NoDefault)
      ])
    case WeaponFireHint => Some([
        Field("characterId", UInt64String, TextDefault("0")),
        Field("unknownByte1", UInt8, IntDefault(0)),
        Field("position", FloatVector3, VectorDefault([0, 0, 0])),
        Field("unknownDword1", UInt32, IntDefault(0)),
        Field("unknownDword2", UInt32, IntDefault(0)),
        Field("rotation", FloatVector3, VectorDefault([0, 0, 0])),
        Field("unknownDword3", UInt32, IntDefault(0))
      ])
    case ProjectileContactReport => Some([
        Field("unknownDword1", UInt32, IntDefault(0)),
        Field("unknownDword2", UInt32, IntDefault(0)),
        Field("unknownDword3", UInt32, IntDefault(0)),
        Field("rotation", FloatVector3, VectorDefault([0, 0, 0])),
        Field("unknownDword4", UInt32, IntDefault(0)),
        Field("position", FloatVector3, VectorDefault([0, 0, 0])),
        Field("unknownDword5", UInt32, IntDefault(0)),
        Field("unknownFloat1", Float, IntDefault(0)),
        Field("unknownDword6", UInt32, IntDefault(0)),
        Field("unknownFloatVector1", FloatVector3, VectorDefault([0, 0, 0])),
        Field("unknownDword7", Int32, IntDefault(0)),
        Field("unknownWord1", UInt16, IntDefault(0)),
        Field("unknownByte1", UInt8, IntDefault(0))
      ])
    case MeleeHitMaterial => Some([
        Field("bytes", Bytes(99), NoDefault)
      ])
    case AimBlockedNotify => Some([
        Field("guid", UInt64String, TextDefault("0")),
        Field("aimBlocked", Boolean, BoolDefault(false))
      ])
    case _ => None
  }

  /** Whether the packet was declared with fields; the ones declared with
      `{}` carry none. */
  predicate HasSchema(p: WeaponPacket)
  {
    match p
    case FireStateUpdate => true
    case Fire => true
    case ProjectileHitReport => true
    case ReloadRequest => true
    case Reload => true
    case SwitchFireModeRequest => true
    case StatUpdate => true
    case RemoteWeaponUpdate => true
    case DestroyNpcProjectile => true
    case Reset => true
    case ProjectileSpawnNpc => true
    case MultiWeapon => true
    case WeaponFireHint => true
    case ProjectileContactReport => true
    case MeleeHitMaterial => true
    case AimBlockedNotify => true
    case _ => false
  }

  lemma HasSchemaIffSchema(p: WeaponPacket)
    ensures HasSchema(p) <==> Schema(p).Some?
  {
  }

  /** The opcode-to-descriptor map the table builder derives from the
      declarations (`weaponPacketDescriptors`). */
  function FromOpcode(op: nat): Option<WeaponPacket>
  {
    match op
    case 0x8301 => Some(FireStateUpdate)
    case 0x8302 => Some(FireStateTargetedUpdate)
    case 0x8303 => Some(Fire)
    case 0x8304 => Some(FireWithDefinitionMapping)
    case 0x8305 => Some(FireNoProjectile)
    case 0x8306 => Some(ProjectileHitReport)
    case 0x8307 => Some(ReloadRequest)
    case 0x8308 => Some(Reload)
    case 0x8309 => Some(ReloadInterrupt)
    case 0x830b => Some(ReloadRejected)
    case 0x830c => Some(SwitchFireModeRequest)
    case 0x830d => Some(LockOnGuidUpdate)
    case 0x830e => Some(LockOnLocationUpdate)
    case 0x830f => Some(StatUpdate)
    case 0x8310 => Some(DebugProjectile)
    case 0x8311 => Some(AddFireGroup)
    case 0x8312 => Some(RemoveFireGroup)
    case 0x8313 => Some(ReplaceFireGroup)
    case 0x8314 => Some(GuidedUpdate)
    case 0x831501 => Some(RemoteWeaponReset)
    case 0x831502 => Some(RemoteWeaponAddWeapon)
    case 0x831503 => Some(RemoteWeaponRemoveWeapon)
    case 0x831504 => Some(RemoteWeaponUpdate)
    case 0x83150401 => Some(RemoteWeaponUpdateFireState)
    case 0x83150402 => Some(RemoteWeaponUpdateEmpty)
    case 0x83150403 => Some(RemoteWeaponUpdateReload)
    case 0x83150404 => Some(RemoteWeaponUpdateReloadLoopEnd)
    case 0x83150405 => Some(RemoteWeaponUpdateReloadInterrupt)
    case 0x83150406 => Some(RemoteWeaponUpdateSwitchFireMode)
    case 0x83150407 => Some(RemoteWeaponUpdateStatUpdate)
    case 0x83150408 => Some(RemoteWeaponUpdateAddFireGroup)
    case 0x83150409 => Some(RemoteWeaponUpdateRemoveFireGroup)
    case 0x8315040a => Some(RemoteWeaponUpdateReplaceFireGroup)
    case 0x8315040b => Some(RemoteWeaponUpdateProjectileLaunch)
    case 0x8315040c => Some(RemoteWeaponUpdateChamber)
    case 0x8315040d => Some(RemoteWeaponUpdateThrow)
    case 0x8315040e => Some(RemoteWeaponUpdateTrigger)
    case 0x8315040f => Some(RemoteWeaponUpdateChamberInterrupt)
    case 0x831505 => Some(RemoteWeaponProjectileLaunchHint)
    case 0x831506 => Some(RemoteWeaponProjectileDetonateHint)
    case 0x831507 => Some(RemoteWeaponProjectileRemoteContactReport)
    case 0x8316 => Some(ChamberRound)
    case 0x8317 => Some(GuidedSetNonSeeking)
    case 0x8318 => Some(ChamberInterrupt)
    case 0x8319 => Some(GuidedExplode)
    case 0x831a => Some(DestroyNpcProjectile)
    case 0x831b => Some(WeaponToggleEffects)
    case 0x831c => Some(Reset)
    case 0x831d => Some(ProjectileSpawnNpc)
    case 0x831e => Some(FireRejected)
    case 0x831f => Some(MultiWeapon)
    case 0x8320 => Some(WeaponFireHint)
    case 0x8321 => Some(ProjectileContactReport)
    case 0x8322 => Some(MeleeHitMaterial)
    case 0x8323 => Some(ProjectileSpawnAttachedNp)
    case 0x8324 => Some(AddDebugLogEntry)
    case 0x8325 => Some(DebugZoneState)
    case 0x8326 => Some(GrenadeBounceReport)
    case 0x8327 => Some(AimBlockedNotify)
    case _ => None
  }

  /** The descriptor the table builder records for a packet: the opcode
      index built from the table finds the packet again under its opcode,
      and the descriptor carries the packet's own name and fields. */
  function DescriptorOf(p: WeaponPacket): (d: Descriptor)
    ensures FromOpcode(d.opcode) == Some(p)
    ensures d.name == Name(p) && d.schema == Schema(p)
  {
    FromOpcodeOfOpcode(p);
    Descriptor(Name(p), Opcode(p), Schema(p))
  }

  /** Every opcode lies in one of three families under the leading byte
      `0x83`: two-byte `0x83xx`, three-byte `0x8315xx` (the remote-weapon
      packets) and four-byte `0x831504xx` (the remote-weapon updates). */
  lemma OpcodeFamilies(p: WeaponPacket)
    ensures 0x8300 <= Opcode(p) < 0x8400
         || 0x831500 <= Opcode(p) < 0x831600
         || 0x83150400 <= Opcode(p) < 0x83150500
  {
  }

  /** Every declared opcode is written with leading byte `0x83`, in two to
      four bytes. */
  lemma LeadingByte(p: WeaponPacket)
    ensures 2 <= |OpcodeBytes(Opcode(p))| && OpcodeBytes(Opcode(p))[0] == 0x83
  {
    OpcodeFamilies(p);
  }

  /** The opcode map finds every declared packet under its own opcode. */
  lemma FromOpcodeOfOpcode(p: WeaponPacket)
    ensures FromOpcode(Opcode(p)) == Some(p)
  {
    FromOpcodeOfOpcodeA(p);
    FromOpcodeOfOpcodeB(p);
    FromOpcodeOfOpcodeC(p);
    FromOpcodeOfOpcodeD(p);
    FromOpcodeOfOpcodeE(p);
    FromOpcodeOfOpcodeF(p);
  }

  // The same fact one slice of the opcode range at a time.
  lemma FromOpcodeOfOpcodeA(p: WeaponPacket)
    ensures 0 <= Opcode(p) < 0x830a ==> FromOpcode(Opcode(p)) == Some(p)
  {
  }

  lemma FromOpcodeOfOpcodeB(p: WeaponPacket)
    ensures 0x830a <= Opcode(p) < 0x8316 ==> FromOpcode(Opcode(p)) == Some(p)
  {
  }

  lemma FromOpcodeOfOpcodeC(p: WeaponPacket)
    ensures 0x8316 <= Opcode(p) < 0x831f ==> FromOpcode(Opcode(p)) == Some(p)
  {
  }

  lemma FromOpcodeOfOpcodeD(p: WeaponPacket)
    ensures 0x831f <= Opcode(p) < 0x1_0000 ==> FromOpcode(Opcode(p)) == Some(p)
  {
  }

  lemma FromOpcodeOfOpcodeE(p: WeaponPacket)
    ensures 0x1_0000 <= Opcode(p) < 0x100_0000 ==> FromOpcode(Opcode(p)) == Some(p)
  {
  }

  lemma FromOpcodeOfOpcodeF(p: WeaponPacket)
    ensures 0x100_0000 <= Opcode(p) ==> FromOpcode(Opcode(p)) == Some(p)
  {
  }

  /** Whatever the opcode map finds was declared under that opcode. */
  lemma OpcodeOfFromOpcode(op: nat)
    ensures FromOpcode(op).Some? ==> Opcode(FromOpcode(op).value) == op
  {
    if op < 0x830a { OpcodeOfFromOpcodeA(op); }
    else if op < 0x8316 { OpcodeOfFromOpcodeB(op); }
    else if op < 0x831f { OpcodeOfFromOpcodeC(op); }
    else if op < 0x8323 { OpcodeOfFromOpcodeD(op); }
    else if op < 0x1_0000 { OpcodeOfFromOpcodeG(op); }
    else if op < 0x100_0000 { OpcodeOfFromOpcodeE(op); }
    else { OpcodeOfFromOpcodeF(op); }
  }

  // The same fact one slice of the opcode range at a time, which keeps each
  // proof obligation small.
  lemma OpcodeOfFromOpcodeA(op: nat)
    requires 0 <= op < 0x830a
    ensures FromOpcode(op).Some? ==> Opcode(FromOpcode(op).value) == op
  {
  }

  lemma OpcodeOfFromOpcodeB(op: nat)
    requires 0x830a <= op < 0x8316
    ensures FromOpcode(op).Some? ==> Opcode(FromOpcode(op).value) == op
  {
  }

  lemma OpcodeOfFromOpcodeC(op: nat)
    requires 0x8316 <= op < 0x831f
    ensures FromOpcode(op).Some? ==> Opcode(FromOpcode(op).value) == op
  {
  }

  lemma OpcodeOfFromOpcodeD(op: nat)
    requires 0x831f <= op < 0x8323
    ensures FromOpcode(op).Some? ==> Opcode(FromOpcode(op).value) == op
  {
  }

  lemma OpcodeOfFromOpcodeG(op: nat)
    requires 0x8323 <= op < 0x1_0000
    ensures FromOpcode(op).Some? ==> Opcode(FromOpcode(op).value) == op
  {
  }

  lemma OpcodeOfFromOpcodeE(op: nat)
    requires 0x1_0000 <= op < 0x100_0000
    ensures FromOpcode(op).Some? ==> Opcode(FromOpcode(op).value) == op
  {
  }

  lemma OpcodeOfFromOpcodeF(op: nat)
    requires 0x100_0000 <= op
    ensures FromOpcode(op).Some? ==> Opcode(FromOpcode(op).value) == op
  {
  }

  /** No two declarations share an opcode: the opcode identifies the packet. */
  lemma OpcodesDistinct(p: WeaponPacket, q: WeaponPacket)
    ensures Opcode(p) == Opcode(q) ==> p == q
  {
    var op := Opcode(p);
    if op == Opcode(q) {
      FromOpcodeOfOpcode(p);
      FromOpcodeOfOpcode(q);
      assert Some(p) == FromOpcode(op) == Some(q);
    }
  }

  /** The name-to-packet map (`weaponPacketTypes` followed by the opcode
      map): some packet declared under `name`, if there is one. */
  ghost function LookupName(name: string): (r: Option<WeaponPacket>)
    ensures r.Some? <==> exists p :: Name(p) == name
    ensures r.Some? ==> Name(r.value) == name
  {
    if exists p :: Name(p) == name then Some(var p :| Name(p) == name; p) else None
  }
}
