/** A playable character owned by an account (src/data/character.rs), and
    the character data packet built from it (`ChrData`, src/packets/mod.rs). */
module Characters {
  import opened Wrappers
  import opened CharIds
  import opened Items
  import opened Appearances
  import opened Ranks

  /** Points in the four shot parameters. */
  datatype ParamTuple = ParamTuple(power: i16, control: i16, impact: i16, spin: i16)

  const ZeroParams := ParamTuple(0, 0, 0, 0)

  datatype Character = Character(
    classCap: Class,
    exp: ParamTuple,
    settings: seq<ParamTuple>,
    appearance: Appearance,
    club: Item,
    ball: Item,
    caddie: Item)

  /** `Character::new`: a class-G character with no experience, eight zero
      parameter settings, the starter club set (number 2) and ball (number
      1), no caddie, and the given looks. */
  function NewCharacter(appearance: Appearance): (c: Character)
    ensures c.classCap == G && c.exp == ZeroParams && c.appearance == appearance
    ensures |c.settings| == 8 && forall i :: 0 <= i < 8 ==> c.settings[i] == ZeroParams
    ensures Category(c.club) == ClubSet && Num(c.club) == 2
    ensures Category(c.ball) == Ball && Num(c.ball) == 1
    ensures c.caddie == EmptyItem && Category(c.caddie) == Invalid
  {
    CategoryOfNewItem(ClubSet, 2);
    CategoryOfNewItem(Ball, 1);
    Character(G, ZeroParams, Repeat(ZeroParams, 8), appearance, NewItem(ClubSet, 2), NewItem(Ball, 1), EmptyItem)
  }

  /** The character data packet. */
  datatype ChrData = ChrData(
    chrUid: i32,
    charType: i16,
    chrClass: Class,
    x7: i8,
    paramPower: i16,
    paramControl: i16,
    paramImpact: i16,
    paramSpin: i16,
    x10: seq<byte>,
    paramSettings: seq<ParamTuple>,
    appearance: Appearance,
    club: Item,
    ball: Item,
    caddie: Item)

  /** The wire index of a character, as the `i16` the packet carries. */
  function TypeOf(c: CharID): (t: i16)
    ensures 1 <= t <= 7
  {
    match c
    case Rusk => 1
    case Miel => 2
    case Rose => 3
    case Chocola => 4
    case Shelly => 5
    case Gouda => 6
    case Sect => 7
  }

  /** `Character::to_chr_data`: the type is the character index of the
      looks, sixteen unknown bytes are zero, everything else is copied. */
  function ToChrData(c: Character, chrUid: i32): (d: ChrData)
    ensures d.chrUid == chrUid && d.chrClass == c.classCap && d.x7 == 0
    ensures d.paramPower == c.exp.power && d.paramControl == c.exp.control
    ensures d.paramImpact == c.exp.impact && d.paramSpin == c.exp.spin
    ensures |d.x10| == 16 && forall i :: 0 <= i < 16 ==> d.x10[i] == 0
    ensures d.paramSettings == c.settings && d.appearance == c.appearance
    ensures d.club == c.club && d.ball == c.ball && d.caddie == c.caddie
  {
    ChrData(chrUid, TypeOf(c.appearance.characterId), c.classCap, 0, c.exp.power, c.exp.control, c.exp.impact,
      c.exp.spin, Repeat(0, 16), c.settings, c.appearance, c.club, c.ball, c.caddie)
  }

  /** The type field is the character's index: the same index its item codes
      and appearance words carry, so it identifies the character. */
  lemma ChrDataTypeIsIndex(c: Character, chrUid: i32)
    ensures ToChrData(c, chrUid).charType == ToIndex(c.appearance.characterId) as int
    ensures forall c': Character :: ToChrData(c', chrUid).charType == ToChrData(c, chrUid).charType
              ==> c'.appearance.characterId == c.appearance.characterId
  {
  }
}
