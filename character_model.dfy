/** The zone server's choice of character model from a head type
    (`getCharacterModelData` in functions.ts): a model id, a head actor
    and a hair model, with the male white look as the fallback. */
module CharacterModel {

  /** The head types the lookup names; every other value of the game's
      character enum, or a missing one, is `Unrecognised`. */
  datatype HeadType =
    | FemaleBlack
    | MaleBlack
    | FemaleWhite
    | FemaleWhiteYoung
    | MaleWhiteBald
    | MaleWhite
    | Unrecognised(value: int)

  datatype ModelData = ModelData(modelId: nat, headActor: string, hairModel: string)

  const FEMALE_MODEL_ID: nat := 9474
  const MALE_MODEL_ID: nat := 9240

  predicate IsFemale(h: HeadType)
  {
    h.FemaleBlack? || h.FemaleWhite? || h.FemaleWhiteYoung?
  }

  /** The bald looks: the two male heads drawn without a hair model. */
  predicate IsBald(h: HeadType)
  {
    h.MaleBlack? || h.MaleWhiteBald?
  }

  /** `getCharacterModelData`: defined on every head type; female heads
      take the female body and every other head, unrecognised ones
      included, the male body; the head actor is always named; exactly
      the bald looks come without hair. */
  function GetCharacterModelData(h: HeadType): (r: ModelData)
    ensures r.modelId == (if IsFemale(h) then FEMALE_MODEL_ID else MALE_MODEL_ID)
    ensures |r.headActor| > 0
    ensures r.hairModel == "" <==> IsBald(h)
  {
    match h
    case FemaleBlack =>
      ModelData(9474, "SurvivorFemale_Head_03.adr", "SurvivorFemale_Hair_ShortMessy.adr")
    case MaleBlack =>
      ModelData(9240, "SurvivorMale_Head_03.adr", "")
    case FemaleWhite =>
      ModelData(9474, "SurvivorFemale_Head_02.adr", "SurvivorFemale_Hair_ShortBun.adr")
    case FemaleWhiteYoung =>
      ModelData(9474, "SurvivorFemale_Head_02.adr", "SurvivorFemale_Hair_ShortBun.adr")
    case MaleWhiteBald =>
      ModelData(9240, "SurvivorMale_Head_02.adr", "")
    case _ =>
      ModelData(9240, "SurvivorMale_Head_01.adr", "SurvivorMale_Hair_ShortMessy.adr")
  }

  /** An unrecognised head type is drawn exactly as the male white look. */
  lemma UnrecognisedIsMaleWhite(v: int)
    ensures GetCharacterModelData(Unrecognised(v)) == GetCharacterModelData(MaleWhite)
  {
  }

  /** The two white female head types give the same record, and it is the
      only pair of named head types that does. */
  lemma SameLookOnlyForWhiteFemales(h: HeadType, k: HeadType)
    requires !h.Unrecognised? && !k.Unrecognised? && h != k
    ensures GetCharacterModelData(h) == GetCharacterModelData(k) <==>
              ({h, k} == {FemaleWhite, FemaleWhiteYoung})
  {
    if {h, k} == {FemaleWhite, FemaleWhiteYoung} {
      assert (h == FemaleWhite && k == FemaleWhiteYoung) || (h == FemaleWhiteYoung && k == FemaleWhite) by {
        assert h in {FemaleWhite, FemaleWhiteYoung} && k in {FemaleWhite, FemaleWhiteYoung};
      }
    } else {
      assert !(h in {FemaleWhite, FemaleWhiteYoung} && k in {FemaleWhite, FemaleWhiteYoung});
    }
  }
}
