/** Names in the weapon packet table: no two declarations share a name, so
    the name map built from the table (weapon.ts lines 24-289) is the
    inverse of `Name`. */
module WeaponNames {
  import opened Wrappers
  import opened WeaponTable

  /** Tells the declared names apart by their length and, among names of
      equal length, by one character; a proof device for `NamesDistinct`. */
  ghost function Discriminate(s: string): Option<WeaponPacket>
  {
    if |s| == 11 then Some(Fire)
    else if |s| == 12 then Some(Reset)
    else if |s| == 13 then Some(Reload)
    else if |s| == 17 then Some(StatUpdate)
    else if |s| == 18 then Some(MultiWeapon)
    else if |s| == 19 then
      if s[7] == 'A' then Some(AddFireGroup)
      else if s[7] == 'G' then Some(GuidedUpdate)
      else if s[7] == 'C' then Some(ChamberRound)
      else Some(FireRejected)
    else if |s| == 20 then
      if s[7] == 'R' then Some(ReloadRequest)
      else Some(GuidedExplode)
    else if |s| == 21 then
      if s[7] == 'R' then Some(ReloadRejected)
      else if s[7] == 'W' then Some(WeaponFireHint)
      else Some(DebugZoneState)
    else if |s| == 22 then
      if s[9] == 'r' then Some(FireStateUpdate)
      else if s[9] == 'l' then Some(ReloadInterrupt)
      else if s[9] == 'b' then Some(DebugProjectile)
      else Some(RemoveFireGroup)
    else if |s| == 23 then
      if s[9] == 'r' then Some(FireNoProjectile)
      else if s[9] == 'c' then Some(LockOnGuidUpdate)
      else if s[9] == 'p' then Some(ReplaceFireGroup)
      else if s[9] == 'a' then Some(ChamberInterrupt)
      else if s[9] == 'l' then Some(MeleeHitMaterial)
      else if s[9] == 'd' then Some(AddDebugLogEntry)
      else Some(AimBlockedNotify)
    else if |s| == 25 then
      if s[7] == 'R' then Some(RemoteWeaponReset)
      else Some(ProjectileSpawnNpc)
    else if |s| == 26 then
      if s[9] == 'o' then Some(ProjectileHitReport)
      else if s[9] == 'm' then Some(RemoteWeaponUpdate)
      else if s[9] == 'i' then Some(GuidedSetNonSeeking)
      else if s[9] == 'a' then Some(WeaponToggleEffects)
      else Some(GrenadeBounceReport)
    else if |s| == 27 then
      if s[7] == 'L' then Some(LockOnLocationUpdate)
      else Some(DestroyNpcProjectile)
    else if |s| == 28 then Some(SwitchFireModeRequest)
    else if |s| == 29 then Some(RemoteWeaponAddWeapon)
    else if |s| == 30 then
      if s[7] == 'F' then Some(FireStateTargetedUpdate)
      else Some(ProjectileContactReport)
    else if |s| == 32 then
      if s[27] == 'p' then Some(FireWithDefinitionMapping)
      else if s[27] == 'e' then Some(RemoteWeaponRemoveWeapon)
      else if s[27] == 'E' then Some(RemoteWeaponUpdateEmpty)
      else if s[27] == 'T' then Some(RemoteWeaponUpdateThrow)
      else Some(ProjectileSpawnAttachedNp)
    else if |s| == 33 then Some(RemoteWeaponUpdateReload)
    else if |s| == 34 then
      if s[27] == 'C' then Some(RemoteWeaponUpdateChamber)
      else Some(RemoteWeaponUpdateTrigger)
    else if |s| == 36 then Some(RemoteWeaponUpdateFireState)
    else if |s| == 37 then Some(RemoteWeaponUpdateStatUpdate)
    else if |s| == 39 then Some(RemoteWeaponUpdateAddFireGroup)
    else if |s| == 40 then
      if s[20] == 'U' then Some(RemoteWeaponUpdateReloadLoopEnd)
      else Some(RemoteWeaponProjectileLaunchHint)
    else if |s| == 41 then Some(RemoteWeaponUpdateSwitchFireMode)
    else if |s| == 42 then
      if s[29] == 'l' then Some(RemoteWeaponUpdateReloadInterrupt)
      else if s[29] == 'm' then Some(RemoteWeaponUpdateRemoveFireGroup)
      else Some(RemoteWeaponProjectileDetonateHint)
    else if |s| == 43 then
      if s[27] == 'R' then Some(RemoteWeaponUpdateReplaceFireGroup)
      else if s[27] == 'P' then Some(RemoteWeaponUpdateProjectileLaunch)
      else Some(RemoteWeaponUpdateChamberInterrupt)
    else if |s| == 49 then Some(RemoteWeaponProjectileRemoteContactReport)
    else None
  }

  /** Every declared name is told apart from the others. */
  lemma DiscriminateName(p: WeaponPacket)
    ensures Discriminate(Name(p)) == Some(p)
  {
    match p
    case FireStateUpdate | FireStateTargetedUpdate | Fire | FireWithDefinitionMapping
      | FireNoProjectile =>
      DiscriminateNameA(p);
    case ProjectileHitReport | ReloadRequest | Reload | ReloadInterrupt | ReloadRejected =>
      DiscriminateNameB(p);
    case SwitchFireModeRequest | LockOnGuidUpdate | LockOnLocationUpdate | StatUpdate
      | DebugProjectile =>
      DiscriminateNameC(p);
    case AddFireGroup | RemoveFireGroup | ReplaceFireGroup | GuidedUpdate | RemoteWeaponReset =>
      DiscriminateNameD(p);
    case RemoteWeaponAddWeapon | RemoteWeaponRemoveWeapon | RemoteWeaponUpdate
      | RemoteWeaponUpdateFireState | RemoteWeaponUpdateEmpty =>
      DiscriminateNameE(p);
    case RemoteWeaponUpdateReload | RemoteWeaponUpdateReloadLoopEnd
      | RemoteWeaponUpdateReloadInterrupt | RemoteWeaponUpdateSwitchFireMode
      | RemoteWeaponUpdateStatUpdate =>
      DiscriminateNameF(p);
    case RemoteWeaponUpdateAddFireGroup | RemoteWeaponUpdateRemoveFireGroup
      | RemoteWeaponUpdateReplaceFireGroup | RemoteWeaponUpdateProjectileLaunch
      | RemoteWeaponUpdateChamber =>
      DiscriminateNameG(p);
    case RemoteWeaponUpdateThrow | RemoteWeaponUpdateTrigger
      | RemoteWeaponUpdateChamberInterrupt | RemoteWeaponProjectileLaunchHint
      | RemoteWeaponProjectileDetonateHint =>
      DiscriminateNameH(p);
    case RemoteWeaponProjectileRemoteContactReport | ChamberRound | GuidedSetNonSeeking
      | ChamberInterrupt | GuidedExplode =>
      DiscriminateNameI(p);
    case DestroyNpcProjectile | WeaponToggleEffects | Reset | ProjectileSpawnNpc | FireRejected =>
      DiscriminateNameJ(p);
    case MultiWeapon | WeaponFireHint | ProjectileContactReport | MeleeHitMaterial
      | ProjectileSpawnAttachedNp =>
      DiscriminateNameK(p);
    case AddDebugLogEntry | DebugZoneState | GrenadeBounceReport | AimBlockedNotify =>
      DiscriminateNameL(p);
  }

  // The same fact for the table's declarations, a few at a time.
  lemma DiscriminateNameA(p: WeaponPacket)
    requires p.FireStateUpdate? || p.FireStateTargetedUpdate? || p.Fire? ||
             p.FireWithDefinitionMapping? || p.FireNoProjectile?
    ensures Discriminate(Name(p)) == Some(p)
  {
    match p
    case FireStateUpdate => {}
    case FireStateTargetedUpdate => {}
    case Fire => {}
    case FireWithDefinitionMapping => {}
    case FireNoProjectile => {}
    case _ => assert false;
  }

  lemma DiscriminateNameB(p: WeaponPacket)
    requires p.ProjectileHitReport? || p.ReloadRequest? || p.Reload? || p.ReloadInterrupt? ||
             p.ReloadRejected?
    ensures Discriminate(Name(p)) == Some(p)
  {
    match p
    case ProjectileHitReport => {}
    case ReloadRequest => {}
    case Reload => {}
    case ReloadInterrupt => {}
    case ReloadRejected => {}
    case _ => assert false;
  }

  lemma DiscriminateNameC(p: WeaponPacket)
    requires p.SwitchFireModeRequest? || p.LockOnGuidUpdate? || p.LockOnLocationUpdate? ||
             p.StatUpdate? || p.DebugProjectile?
    ensures Discriminate(Name(p)) == Some(p)
  {
    match p
    case SwitchFireModeRequest => {}
    case LockOnGuidUpdate => {}
    case LockOnLocationUpdate => {}
    case StatUpdate => {}
    case DebugProjectile => {}
    case _ => assert false;
  }

  lemma DiscriminateNameD(p: WeaponPacket)
    requires p.AddFireGroup? || p.RemoveFireGroup? || p.ReplaceFireGroup? || p.GuidedUpdate? ||
             p.RemoteWeaponReset?
    ensures Discriminate(Name(p)) == Some(p)
  {
    match p
    case AddFireGroup => {}
    case RemoveFireGroup => {}
    case ReplaceFireGroup => {}
    case GuidedUpdate => {}
    case RemoteWeaponReset => {}
    case _ => assert false;
  }

  lemma DiscriminateNameE(p: WeaponPacket)
    requires p.RemoteWeaponAddWeapon? || p.RemoteWeaponRemoveWeapon? || p.RemoteWeaponUpdate? ||
             p.RemoteWeaponUpdateFireState? || p.RemoteWeaponUpdateEmpty?
    ensures Discriminate(Name(p)) == Some(p)
  {
    match p
    case RemoteWeaponAddWeapon => {}
    case RemoteWeaponRemoveWeapon => {}
    case RemoteWeaponUpdate => {}
    case RemoteWeaponUpdateFireState => {}
    case RemoteWeaponUpdateEmpty => {}
    case _ => assert false;
  }

  lemma DiscriminateNameF(p: WeaponPacket)
    requires p.RemoteWeaponUpdateReload? || p.RemoteWeaponUpdateReloadLoopEnd? ||
             p.RemoteWeaponUpdateReloadInterrupt? || p.RemoteWeaponUpdateSwitchFireMode? ||
             p.RemoteWeaponUpdateStatUpdate?
    ensures Discriminate(Name(p)) == Some(p)
  {
    match p
    case RemoteWeaponUpdateReload => {}
    case RemoteWeaponUpdateReloadLoopEnd => {}
    case RemoteWeaponUpdateReloadInterrupt => {}
    case RemoteWeaponUpdateSwitchFireMode => {}
    case RemoteWeaponUpdateStatUpdate => {}
    case _ => assert false;
  }

  lemma DiscriminateNameG(p: WeaponPacket)
    requires p.RemoteWeaponUpdateAddFireGroup? || p.RemoteWeaponUpdateRemoveFireGroup? ||
             p.RemoteWeaponUpdateReplaceFireGroup? || p.RemoteWeaponUpdateProjectileLaunch? ||
             p.RemoteWeaponUpdateChamber?
    ensures Discriminate(Name(p)) == Some(p)
  {
    match p
    case RemoteWeaponUpdateAddFireGroup => {}
    case RemoteWeaponUpdateRemoveFireGroup => {}
    case RemoteWeaponUpdateReplaceFireGroup => {}
    case RemoteWeaponUpdateProjectileLaunch => {}
    case RemoteWeaponUpdateChamber => {}
    case _ => assert false;
  }

  lemma DiscriminateNameH(p: WeaponPacket)
    requires p.RemoteWeaponUpdateThrow? || p.RemoteWeaponUpdateTrigger? ||
             p.RemoteWeaponUpdateChamberInterrupt? || p.RemoteWeaponProjectileLaunchHint? ||
             p.RemoteWeaponProjectileDetonateHint?
    ensures Discriminate(Name(p)) == Some(p)
  {
    match p
    case RemoteWeaponUpdateThrow => {}
    case RemoteWeaponUpdateTrigger => {}
    case RemoteWeaponUpdateChamberInterrupt => {}
    case RemoteWeaponProjectileLaunchHint => {}
    case RemoteWeaponProjectileDetonateHint => {}
    case _ => assert false;
  }

  lemma DiscriminateNameI(p: WeaponPacket)
    requires p.RemoteWeaponProjectileRemoteContactReport? || p.ChamberRound? ||
             p.GuidedSetNonSeeking? || p.ChamberInterrupt? || p.GuidedExplode?
    ensures Discriminate(Name(p)) == Some(p)
  {
    match p
    case RemoteWeaponProjectileRemoteContactReport => {}
    case ChamberRound => {}
    case GuidedSetNonSeeking => {}
    case ChamberInterrupt => {}
    case GuidedExplode => {}
    case _ => assert false;
  }

  lemma DiscriminateNameJ(p: WeaponPacket)
    requires p.DestroyNpcProjectile? || p.WeaponToggleEffects? || p.Reset? ||
             p.ProjectileSpawnNpc? || p.FireRejected?
    ensures Discriminate(Name(p)) == Some(p)
  {
    match p
    case DestroyNpcProjectile => {}
    case WeaponToggleEffects => {}
    case Reset => {}
    case ProjectileSpawnNpc => {}
    case FireRejected => {}
    case _ => assert false;
  }

  lemma DiscriminateNameK(p: WeaponPacket)
    requires p.MultiWeapon? || p.WeaponFireHint? || p.ProjectileContactReport? ||
             p.MeleeHitMaterial? || p.ProjectileSpawnAttachedNp?
    ensures Discriminate(Name(p)) == Some(p)
  {
    match p
    case MultiWeapon => {}
    case WeaponFireHint => {}
    case ProjectileContactReport => {}
    case MeleeHitMaterial => {}
    case ProjectileSpawnAttachedNp => {}
    case _ => assert false;
  }

  lemma DiscriminateNameL(p: WeaponPacket)
    requires p.AddDebugLogEntry? || p.DebugZoneState? || p.GrenadeBounceReport? ||
             p.AimBlockedNotify?
    ensures Discriminate(Name(p)) == Some(p)
  {
    match p
    case AddDebugLogEntry => {}
    case DebugZoneState => {}
    case GrenadeBounceReport => {}
    case AimBlockedNotify => {}
    case _ => assert false;
  }

  /** Two declarations with the same name are the same declaration. */
  lemma NamesDistinct(p: WeaponPacket, q: WeaponPacket)
    ensures Name(p) == Name(q) ==> p == q
  {
    DiscriminateName(p);
    DiscriminateName(q);
  }

  /** Looking a declared name up finds the declaration it names. */
  lemma LookupNameOfName(p: WeaponPacket)
    ensures LookupName(Name(p)) == Some(p)
  {
    NamesDistinct(p, LookupName(Name(p)).value);
  }

  /** A declared name names one packet only, the one the lookup finds. */
  lemma LookupNameUnique(name: string)
    ensures forall p :: Name(p) == name ==> LookupName(name) == Some(p)
  {
    forall p | Name(p) == name
      ensures LookupName(name) == Some(p)
    {
      LookupNameOfName(p);
    }
  }

  /** Both indexes the table builder fills from a descriptor, by name and
      by opcode, lead back to the packet it describes. */
  lemma DescriptorLookup(p: WeaponPacket)
    ensures LookupName(DescriptorOf(p).name) == Some(p)
    ensures FromOpcode(DescriptorOf(p).opcode) == Some(p)
  {
    LookupNameOfName(p);
  }
}
