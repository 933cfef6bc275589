/** A character's looks, packed into nine 32-bit words
    (src/data/appearance.rs).

    Equipment slots are "optional" 10-bit fields: 0 stands for nothing and
    `v + 1` for item number `v`, so only numbers up to 0x3FE can be stored. */
module Appearances {
  import opened Wrappers
  import opened CharIds
  import opened Wire

  /** A `u16` field of the source, kept as a 32-bit word. */
  type U16 = x: bv32 | x <= 0xFFFF

  datatype Appearance = Appearance(
    characterId: CharID,
    head: Option<U16>,
    face: Option<U16>,
    glasses: Option<U16>,
    tops: Option<U16>,
    bottoms: Option<U16>,
    shoes: Option<U16>,
    gloves: Option<U16>,
    wing: Option<U16>,
    club: Option<U16>,
    skirt: Option<U16>,
    hairStyle: U16,
    hairColor: U16,
    eyeColor: U16,
    skinColor: U16,
    facePaint: U16,
    defaultTops: Option<U16>,
    defaultBottoms: Option<U16>,
    defaultShoes: Option<U16>,
    defaultHairColor: U16,
    defaultEyeColor: U16,
    defaultSkinColor: U16)

  /** `unpack_optional`: 1..=0x3FF stores `v - 1`; 0 and anything above
      0x3FF mean nothing is stored. */
  function UnpackOptional(v: bv32): (r: Option<U16>)
    ensures r.None? <==> (v == 0 || v > 0x3FF)
    ensures r.Some? ==> r.value <= 0x3FE && r.value + 1 == v
  {
    if 1 <= v <= 0x3FF then Some(v - 1) else None
  }

  /** `pack_optional`: nothing packs to 0, `n` up to 0x3FE packs to `n + 1`,
      any larger number is refused. What packs unpacks to itself. */
  function PackOptional(o: Option<U16>): (r: Result<bv32, DekuError>)
    ensures r.Ok? <==> (o.None? || o.value <= 0x3FE)
    ensures r.Err? ==> r.error == InvalidParam
    ensures r.Ok? ==> r.value <= 0x3FF && UnpackOptional(r.value) == o
    ensures o.None? ==> r == Ok(0)
  {
    match o
    case None => Ok(0)
    case Some(n) => if n <= 0x3FE then Ok(n + 1) else Err(InvalidParam)
  }

  /** Every slot value 0..=0x3FF is the packing of what it unpacks to, so the
      slot encoding is a bijection between 0..=0x3FF and the storable values. */
  lemma PackUnpackOptional(v: bv32)
    requires v <= 0x3FF
    ensures PackOptional(UnpackOptional(v)) == Ok(v)
  {
  }

  /** Number of 32-bit words in a packed appearance. */
  const WordCount: nat := 9

  /** Reading an appearance from `ws`: the character index in bits 2..7 of
      the first word must name a character, and nine words must be present;
      the word at offset 0x10 is read and skipped. */
  function ReadAppearance(ws: seq<bv32>): (r: Result<Appearance, DekuError>)
    ensures |ws| == 0 ==> r == Err(Incomplete)
    ensures |ws| > 0 && FromIndex((ws[0] >> 2) & 0x3F).None? ==> r == Err(InvalidParam)
    ensures r.Ok? ==> |ws| >= WordCount && ToIndex(r.value.characterId) == (ws[0] >> 2) & 0x3F
  {
    if |ws| == 0 then Err(Incomplete)
    else match FromIndex((ws[0] >> 2) & 0x3F)
      case None => Err(InvalidParam)
      case Some(character) =>
        if |ws| < WordCount then Err(Incomplete)
        else Ok(Decode(character, ws[0], ws[1], ws[2], ws[3], ws[5], ws[6], ws[7], ws[8]))
  }

  /** The fields of the words at offsets 0, 4, 8, 0xC, 0x14, 0x18, 0x1C and
      0x20, the character having been decoded already. */
  function Decode(character: CharID, w0: bv32, w4: bv32, w8: bv32, wC: bv32,
                  w14: bv32, w18: bv32, w1C: bv32, w20: bv32): Appearance
  {
    Appearance(
      characterId := character,
      head := UnpackOptional((w0 >> 18) & 0x3FF),
      face := UnpackOptional((wC >> 10) & 0x3FF),
      glasses := UnpackOptional(w4 & 0x3FF),
      tops := UnpackOptional((w4 >> 10) & 0x3FF),
      bottoms := UnpackOptional((w4 >> 20) & 0x3FF),
      shoes := UnpackOptional(w8 & 0x3FF),
      gloves := UnpackOptional((w8 >> 10) & 0x3FF),
      wing := UnpackOptional((w8 >> 20) & 0x3FF),
      club := UnpackOptional(wC & 0x3FF),
      skirt := UnpackOptional((wC >> 20) & 0x3FF),
      hairStyle := (w14 >> 10) & 0x3FF,
      hairColor := (w14 >> 20) & 0x3FF,
      eyeColor := w18 & 0xFF,
      skinColor := (w18 >> 8) & 0xFF,
      facePaint := (w0 >> 8) & 0x3FF,
      defaultTops := UnpackOptional((w18 >> 16) & 0x3FF),
      defaultBottoms := UnpackOptional(w1C & 0x3FF),
      defaultShoes := UnpackOptional((w1C >> 10) & 0x3FF),
      defaultHairColor := (w1C >> 20) & 0x3FF,
      defaultEyeColor := w20 & 0xFF,
      defaultSkinColor := (w20 >> 8) & 0xFF)
  }

  /** True when no equipment slot holds a number above 0x3FE. */
  predicate SlotsPackable(a: Appearance) {
    PackOptional(a.head).Ok? && PackOptional(a.face).Ok? && PackOptional(a.glasses).Ok?
    && PackOptional(a.tops).Ok? && PackOptional(a.bottoms).Ok? && PackOptional(a.shoes).Ok?
    && PackOptional(a.gloves).Ok? && PackOptional(a.wing).Ok? && PackOptional(a.club).Ok?
    && PackOptional(a.skirt).Ok? && PackOptional(a.defaultTops).Ok?
    && PackOptional(a.defaultBottoms).Ok? && PackOptional(a.defaultShoes).Ok?
  }

  /** The stored form of a packable slot. */
  function Slot(o: Option<U16>): (v: bv32)
    requires PackOptional(o).Ok?
    ensures v <= 0x3FF && UnpackOptional(v) == o
  {
    PackOptional(o).value
  }

  /** Writing an appearance: any unpackable slot makes the whole write fail
      (each `pack_optional` is followed by `?`); otherwise the nine words. */
  function WriteAppearance(a: Appearance): (r: Result<seq<bv32>, DekuError>)
    ensures r.Ok? <==> SlotsPackable(a)
    ensures r.Err? ==> r.error == InvalidParam
    ensures r.Ok? ==> |r.value| == WordCount && r.value[4] == 0
  {
    if SlotsPackable(a) then Ok(Words(a)) else Err(InvalidParam)
  }

  /** The nine words: plain `u16` fields are shifted into place without
      masking, and the word at offset 0x10 is zero. */
  function Words(a: Appearance): seq<bv32>
    requires SlotsPackable(a)
  {
    [ Word0(a),
      SlotTriple(a.glasses, a.tops, a.bottoms),
      SlotTriple(a.shoes, a.gloves, a.wing),
      SlotTriple(a.club, a.face, a.skirt),
      0,
      Word14(a),
      Word18(a),
      Word1C(a),
      Word20(a) ]
  }

  function Word0(a: Appearance): bv32
    requires SlotsPackable(a)
  {
    (ToIndex(a.characterId) << 2) | (a.facePaint << 8) | (Slot(a.head) << 18)
  }

  function Word14(a: Appearance): bv32 {
    (a.hairStyle << 10) | (a.hairColor << 20)
  }

  function Word18(a: Appearance): bv32
    requires SlotsPackable(a)
  {
    a.eyeColor | (a.skinColor << 8) | (Slot(a.defaultTops) << 16)
  }

  function Word1C(a: Appearance): bv32
    requires SlotsPackable(a)
  {
    Slot(a.defaultBottoms) | (Slot(a.defaultShoes) << 10) | (a.defaultHairColor << 20)
  }

  function Word20(a: Appearance): bv32 {
    a.defaultEyeColor | (a.defaultSkinColor << 8)
  }

  /** Three slots packed at bits 0, 10 and 20 of one word. */
  function SlotTriple(x: Option<U16>, y: Option<U16>, z: Option<U16>): bv32
    requires PackOptional(x).Ok? && PackOptional(y).Ok? && PackOptional(z).Ok?
  {
    Slot(x) | (Slot(y) << 10) | (Slot(z) << 20)
  }

  /** The plain fields fit the widths they are read back with. */
  predicate PlainFieldsFit(a: Appearance) {
    a.facePaint <= 0x3FF && a.hairStyle <= 0x3FF && a.hairColor <= 0x3FF
    && a.defaultHairColor <= 0x3FF && a.eyeColor <= 0xFF && a.skinColor <= 0xFF
    && a.defaultEyeColor <= 0xFF && a.defaultSkinColor <= 0xFF
  }

  /** Writing and reading back gives the same appearance, whenever every slot
      packs and every plain field fits its read width. */
  lemma ReadWriteAppearance(a: Appearance)
    requires SlotsPackable(a) && PlainFieldsFit(a)
    ensures ReadAppearance(WriteAppearance(a).value) == Ok(a)
  {
    var ws := Words(a);
    FirstWordRoundTrip(a);
    DecodeWords(a);
    assert ReadAppearance(ws) == Ok(Decode(a.characterId, ws[0], ws[1], ws[2], ws[3], ws[5], ws[6], ws[7], ws[8]));
  }

  lemma DecodeWords(a: Appearance)
    requires SlotsPackable(a) && PlainFieldsFit(a)
    ensures Decode(a.characterId, Word0(a), SlotTriple(a.glasses, a.tops, a.bottoms),
      SlotTriple(a.shoes, a.gloves, a.wing), SlotTriple(a.club, a.face, a.skirt),
      Word14(a), Word18(a), Word1C(a), Word20(a)) == a
  {
    var d := Decode(a.characterId, Word0(a), SlotTriple(a.glasses, a.tops, a.bottoms),
      SlotTriple(a.shoes, a.gloves, a.wing), SlotTriple(a.club, a.face, a.skirt),
      Word14(a), Word18(a), Word1C(a), Word20(a));
    assert d.head == a.head && d.facePaint == a.facePaint by {
      FirstWordRoundTrip(a);
    }
    assert d.glasses == a.glasses && d.tops == a.tops && d.bottoms == a.bottoms by {
      SlotTripleRoundTrip(a.glasses, a.tops, a.bottoms);
    }
    assert d.shoes == a.shoes && d.gloves == a.gloves && d.wing == a.wing by {
      SlotTripleRoundTrip(a.shoes, a.gloves, a.wing);
    }
    assert d.club == a.club && d.face == a.face && d.skirt == a.skirt by {
      SlotTripleRoundTrip(a.club, a.face, a.skirt);
    }
    assert d.hairStyle == a.hairStyle && d.hairColor == a.hairColor && d.eyeColor == a.eyeColor
      && d.skinColor == a.skinColor && d.defaultTops == a.defaultTops
      && d.defaultEyeColor == a.defaultEyeColor && d.defaultSkinColor == a.defaultSkinColor by {
      ColourWordsRoundTrip(a);
    }
    assert d.defaultBottoms == a.defaultBottoms && d.defaultShoes == a.defaultShoes
      && d.defaultHairColor == a.defaultHairColor by {
      DefaultsWordRoundTrip(a);
    }
    FieldwiseEqual(d, a);
  }

  lemma FirstWordRoundTrip(a: Appearance)
    requires SlotsPackable(a) && PlainFieldsFit(a)
    ensures FromIndex((Word0(a) >> 2) & 0x3F) == Some(a.characterId)
    ensures UnpackOptional((Word0(a) >> 18) & 0x3FF) == a.head
    ensures (Word0(a) >> 8) & 0x3FF == a.facePaint
  {
    FirstWord(ToIndex(a.characterId), a.facePaint, Slot(a.head));
  }

  /** Three optional slots packed at bits 0, 10 and 20 unpack to themselves. */
  lemma SlotTripleRoundTrip(x: Option<U16>, y: Option<U16>, z: Option<U16>)
    requires PackOptional(x).Ok? && PackOptional(y).Ok? && PackOptional(z).Ok?
    ensures UnpackOptional(SlotTriple(x, y, z) & 0x3FF) == x
    ensures UnpackOptional((SlotTriple(x, y, z) >> 10) & 0x3FF) == y
    ensures UnpackOptional((SlotTriple(x, y, z) >> 20) & 0x3FF) == z
  {
    TenBitSlots(Slot(x), Slot(y), Slot(z));
  }

  lemma ColourWordsRoundTrip(a: Appearance)
    requires SlotsPackable(a) && PlainFieldsFit(a)
    ensures (Word14(a) >> 10) & 0x3FF == a.hairStyle
    ensures (Word14(a) >> 20) & 0x3FF == a.hairColor
    ensures Word18(a) & 0xFF == a.eyeColor
    ensures (Word18(a) >> 8) & 0xFF == a.skinColor
    ensures UnpackOptional((Word18(a) >> 16) & 0x3FF) == a.defaultTops
    ensures Word20(a) & 0xFF == a.defaultEyeColor
    ensures (Word20(a) >> 8) & 0xFF == a.defaultSkinColor
  {
    TenBitSlots(0, a.hairStyle, a.hairColor);
    ColourWord(a.eyeColor, a.skinColor, Slot(a.defaultTops));
    ColourWord(a.defaultEyeColor, a.defaultSkinColor, 0);
  }

  lemma DefaultsWordRoundTrip(a: Appearance)
    requires SlotsPackable(a) && PlainFieldsFit(a)
    ensures UnpackOptional(Word1C(a) & 0x3FF) == a.defaultBottoms
    ensures UnpackOptional((Word1C(a) >> 10) & 0x3FF) == a.defaultShoes
    ensures (Word1C(a) >> 20) & 0x3FF == a.defaultHairColor
  {
    TenBitSlots(Slot(a.defaultBottoms), Slot(a.defaultShoes), a.defaultHairColor);
  }

  lemma FieldwiseEqual(d: Appearance, a: Appearance)
    requires d.characterId == a.characterId && d.head == a.head && d.face == a.face
    requires d.glasses == a.glasses && d.tops == a.tops && d.bottoms == a.bottoms
    requires d.shoes == a.shoes && d.gloves == a.gloves && d.wing == a.wing
    requires d.club == a.club && d.skirt == a.skirt
    requires d.hairStyle == a.hairStyle && d.hairColor == a.hairColor
    requires d.eyeColor == a.eyeColor && d.skinColor == a.skinColor && d.facePaint == a.facePaint
    requires d.defaultTops == a.defaultTops && d.defaultBottoms == a.defaultBottoms
    requires d.defaultShoes == a.defaultShoes && d.defaultHairColor == a.defaultHairColor
    requires d.defaultEyeColor == a.defaultEyeColor && d.defaultSkinColor == a.defaultSkinColor
    ensures d == a
  {
  }

  /** Whatever reads successfully is packable and within the read widths,
      so it writes and reads back to itself. */
  lemma ReadIsNormalForm(ws: seq<bv32>)
    requires ReadAppearance(ws).Ok?
    ensures SlotsPackable(ReadAppearance(ws).value) && PlainFieldsFit(ReadAppearance(ws).value)
    ensures ReadAppearance(WriteAppearance(ReadAppearance(ws).value).value) == ReadAppearance(ws)
  {
    var a := ReadAppearance(ws).value;
    assert SlotsPackable(a);
    ReadWriteAppearance(a);
  }

  /** The word at offset 0x10 plays no part in reading. */
  lemma ReadIgnoresUnusedWord(ws: seq<bv32>, x: bv32)
    requires |ws| >= WordCount
    ensures ReadAppearance(ws[4 := x]) == ReadAppearance(ws)
  {
    var ws' := ws[4 := x];
    assert ws'[0] == ws[0] && ws'[1] == ws[1] && ws'[2] == ws[2] && ws'[3] == ws[3];
    assert ws'[5] == ws[5] && ws'[6] == ws[6] && ws'[7] == ws[7] && ws'[8] == ws[8];
  }

  lemma FirstWord(k: bv32, facePaint: bv32, head: bv32)
    requires 1 <= k <= 7 && facePaint <= 0x3FF && head <= 0x3FF
    ensures ((((k << 2) | (facePaint << 8) | (head << 18)) >> 2) & 0x3F) == k
    ensures ((((k << 2) | (facePaint << 8) | (head << 18)) >> 8) & 0x3FF) == facePaint
    ensures ((((k << 2) | (facePaint << 8) | (head << 18)) >> 18) & 0x3FF) == head
  {
  }

  lemma TenBitSlots(a: bv32, b: bv32, c: bv32)
    requires a <= 0x3FF && b <= 0x3FF && c <= 0x3FF
    ensures ((a | (b << 10) | (c << 20)) & 0x3FF) == a
    ensures (((a | (b << 10) | (c << 20)) >> 10) & 0x3FF) == b
    ensures (((a | (b << 10) | (c << 20)) >> 20) & 0x3FF) == c
  {
  }

  lemma ColourWord(eye: bv32, skin: bv32, tops: bv32)
    requires eye <= 0xFF && skin <= 0xFF && tops <= 0x3FF
    ensures ((eye | (skin << 8) | (tops << 16)) & 0xFF) == eye
    ensures (((eye | (skin << 8) | (tops << 16)) >> 8) & 0xFF) == skin
    ensures (((eye | (skin << 8) | (tops << 16)) >> 16) & 0x3FF) == tops
  {
  }
}
