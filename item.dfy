/** Item codes and counted items (src/data/item.rs).

    An `Item` is a 32-bit code: the owning character's index in bits 17..21,
    a kind code in bits 12..16 and a number in bits 0..10 (bit 11 is part of
    some kind codes). A `CountedItem` packs an item into its high 22 bits and
    a count into its low 10 bits. */
module Items {
  import opened Wrappers
  import opened CharIds

  datatype ItemCategory =
    | ClubSet
    | Ball
    | CarryItemParameter
    | CarryItemEnvironment
    | CarryItemGroundRes
    | CarryItemPowerGauge
    | CarryItemCaddy
    | HoldItemPoint
    | HoldItemEvent
    | HoldItemTicket
    | HoldItemHumor
    | HoldItemSupport
    | Caddy
    | Head(c: CharID)
    | Glasses(c: CharID)
    | Tops(c: CharID)
    | Bottoms(c: CharID)
    | Shoes(c: CharID)
    | Gloves(c: CharID)
    | Wing(c: CharID)
    | HairStyle(c: CharID)
    | HairColor(c: CharID)
    | SkinColor(c: CharID)
    | FacePaint(c: CharID)
    | EyeColor(c: CharID)
    | HairStyleTicket(c: CharID)
    | HairColorTicket(c: CharID)
    | SkinColorTicket(c: CharID)
    | FacePaintTicket(c: CharID)
    | EyeColorTicket(c: CharID)
    | Chara(c: CharID)
    | Invalid
  {
    /** True for the categories that carry an owning character. */
    predicate IsCharacterScoped() {
      !(ClubSet? || Ball? || CarryItemParameter? || CarryItemEnvironment? || CarryItemGroundRes?
        || CarryItemPowerGauge? || CarryItemCaddy? || HoldItemPoint? || HoldItemEvent?
        || HoldItemTicket? || HoldItemHumor? || HoldItemSupport? || Caddy? || Invalid?)
    }
  }

  /** The owning character of a category: present exactly for the
      character-scoped categories, and then it is their argument. */
  function Character(cat: ItemCategory): (r: Option<CharID>)
    ensures r.Some? <==> cat.IsCharacterScoped()
    ensures r.Some? ==> r.value == cat.c
  {
    match cat
    case Head(c) => Some(c)
    case Glasses(c) => Some(c)
    case Tops(c) => Some(c)
    case Bottoms(c) => Some(c)
    case Shoes(c) => Some(c)
    case Gloves(c) => Some(c)
    case Wing(c) => Some(c)
    case HairStyle(c) => Some(c)
    case HairColor(c) => Some(c)
    case SkinColor(c) => Some(c)
    case FacePaint(c) => Some(c)
    case EyeColor(c) => Some(c)
    case HairStyleTicket(c) => Some(c)
    case HairColorTicket(c) => Some(c)
    case SkinColorTicket(c) => Some(c)
    case FacePaintTicket(c) => Some(c)
    case EyeColorTicket(c) => Some(c)
    case Chara(c) => Some(c)
    case _ => None
  }

  /** True for the categories whose stack limit is 50: carry and hold items,
      balls and the colour/style tickets. */
  predicate StacksToFifty(cat: ItemCategory) {
    cat.Ball? || cat.CarryItemParameter? || cat.CarryItemEnvironment? || cat.CarryItemGroundRes?
    || cat.CarryItemPowerGauge? || cat.CarryItemCaddy? || cat.HoldItemPoint? || cat.HoldItemEvent?
    || cat.HoldItemTicket? || cat.HoldItemHumor? || cat.HoldItemSupport?
    || cat.HairStyleTicket? || cat.HairColorTicket? || cat.SkinColorTicket?
    || cat.FacePaintTicket? || cat.EyeColorTicket?
  }

  /** How many of one item a user may hold (`ItemCategory::maximum`). */
  function Maximum(cat: ItemCategory): (m: bv32)
    ensures m <= 50
    ensures m == 0 <==> cat.Invalid?
    ensures m == 50 <==> StacksToFifty(cat)
  {
    if cat.Invalid? then 0 else if StacksToFifty(cat) then 50 else 5
  }

  /** An item is its 32-bit code. */
  type Item = bv32

  /** `Item::default`, the empty item. */
  const EmptyItem: Item := 0

  /** The kind code of a category, bits 11..16 of its items. `Invalid` has
      none: the source panics when asked to build one. */
  function BaseCode(cat: ItemCategory): (code: bv32)
    requires !cat.Invalid?
    ensures code & 0x7FF == 0 && code < 0x2_0000
  {
    match cat
    case ClubSet => 0x800
    case Ball => 0x3000
    case CarryItemParameter => 0x4000
    case CarryItemEnvironment => 0x5000
    case CarryItemGroundRes => 0x6000
    case CarryItemPowerGauge => 0x7000
    case CarryItemCaddy => 0x8000
    case HoldItemPoint => 0x9000
    case HoldItemEvent => 0xC000
    case HoldItemTicket => 0xD000
    case HoldItemHumor => 0xE000
    case HoldItemSupport => 0x10000
    case Caddy => 0x1F800
    case Head(_) => 0x1800
    case Glasses(_) => 0x2800
    case Tops(_) => 0x3800
    case Bottoms(_) => 0x4800
    case Shoes(_) => 0x5800
    case Gloves(_) => 0x6800
    case Wing(_) => 0x7800
    case HairStyle(_) => 0xF800
    case HairColor(_) => 0x10800
    case SkinColor(_) => 0x11800
    case FacePaint(_) => 0x12800
    case EyeColor(_) => 0x13800
    case HairStyleTicket(_) => 0x14000
    case HairColorTicket(_) => 0x15000
    case SkinColorTicket(_) => 0x16000
    case FacePaintTicket(_) => 0x17000
    case EyeColorTicket(_) => 0x18000
    case Chara(_) => 0x1F800
  }

  /** The character bits of a category's items: the owner's index for the
      character-scoped categories, zero for the others. */
  function OwnerBits(cat: ItemCategory): (k: bv32)
    ensures k <= 7
    ensures cat.IsCharacterScoped() ==> k == ToIndex(cat.c)
    ensures !cat.IsCharacterScoped() ==> k == 0
  {
    match Character(cat)
    case Some(c) => ToIndex(c)
    case None => 0
  }

  /** The code an item of `cat` starts from before its number is added. */
  function CategoryCode(cat: ItemCategory): (code: bv32)
    requires !cat.Invalid?
  {
    BaseCode(cat) | (OwnerBits(cat) << 17)
  }

  /** `Item::new`: the source asserts `num <= 0x7FF` and panics on `Invalid`. */
  function NewItem(cat: ItemCategory, num: bv32): (it: Item)
    requires !cat.Invalid? && num <= 0x7FF
    ensures it != 0
    ensures Num(it) == num
  {
    CategoryCode(cat) | num
  }

  /** The number of an item: its low 11 bits. */
  function Num(it: Item): (n: bv32)
    ensures n <= 0x7FF
  {
    it & 0x7FF
  }

  /** Kind code (bits 12..16) and character index (bits 17..21) of a code. */
  function KindBits(it: Item): bv32 { (it >> 12) & 0x1F }
  function CharBits(it: Item): bv32 { (it >> 17) & 0x1F }

  /** Kind table for codes whose character bits are not a character index. */
  function GlobalCategory(kind: bv32): ItemCategory {
    match kind
    case 0 => ClubSet
    case 3 => Ball
    case 4 => CarryItemParameter
    case 5 => CarryItemEnvironment
    case 6 => CarryItemGroundRes
    case 7 => CarryItemPowerGauge
    case 8 => CarryItemCaddy
    case 9 => HoldItemPoint
    case 0xC => HoldItemEvent
    case 0xD => HoldItemTicket
    case 0xE => HoldItemHumor
    case 0x10 => HoldItemSupport
    case 0x1F => Caddy
    case _ => Invalid
  }

  /** Kind table for codes whose character bits name character `c`. */
  function CharacterCategory(c: CharID, kind: bv32): ItemCategory {
    match kind
    case 1 => Head(c)
    case 2 => Glasses(c)
    case 3 => Tops(c)
    case 4 => Bottoms(c)
    case 5 => Shoes(c)
    case 6 => Gloves(c)
    case 7 => Wing(c)
    case 0xF => HairStyle(c)
    case 0x10 => HairColor(c)
    case 0x11 => SkinColor(c)
    case 0x12 => FacePaint(c)
    case 0x13 => EyeColor(c)
    case 0x14 => HairStyleTicket(c)
    case 0x15 => HairColorTicket(c)
    case 0x16 => SkinColorTicket(c)
    case 0x17 => FacePaintTicket(c)
    case 0x18 => EyeColorTicket(c)
    case 0x1F => Chara(c)
    case _ => Invalid
  }

  /** `Item::category`: the all-zero code is `Invalid`; otherwise the
      character bits choose the global or the character table, and the
      owning character of the result is the one those bits name. */
  function Category(it: Item): (cat: ItemCategory)
    ensures it == 0 ==> cat.Invalid?
    ensures cat.IsCharacterScoped() ==> FromIndex(CharBits(it)) == Some(cat.c)
  {
    if it == 0 then Invalid
    else match FromIndex(CharBits(it))
      case None => GlobalCategory(KindBits(it))
      case Some(c) => CharacterCategory(c, KindBits(it))
  }

  /** Kind codes that appear in neither table decode to `Invalid`. */
  lemma UnlistedKindIsInvalid(it: Item)
    requires FromIndex(CharBits(it)).None? ==> KindBits(it) !in {0, 3, 4, 5, 6, 7, 8, 9, 0xC, 0xD, 0xE, 0x10, 0x1F}
    requires FromIndex(CharBits(it)).Some? ==>
      KindBits(it) !in {1, 2, 3, 4, 5, 6, 7, 0xF, 0x10, 0x11, 0x12, 0x13, 0x14, 0x15, 0x16, 0x17, 0x18, 0x1F}
    ensures Category(it) == Invalid
  {
  }

  /** Building an item and reading its category back gives the category it
      was built from, for every category and every number. */
  lemma CategoryOfNewItem(cat: ItemCategory, num: bv32)
    requires !cat.Invalid? && num <= 0x7FF
    ensures Category(NewItem(cat, num)) == cat
  {
    var it := NewItem(cat, num);
    CodeFields(BaseCode(cat), OwnerBits(cat), num);
    if cat.IsCharacterScoped() {
      assert FromIndex(CharBits(it)) == Some(cat.c);
      CharacterTable(cat);
    } else {
      assert FromIndex(CharBits(it)) == None;
      GlobalTable(cat);
    }
  }

  /** The global kind table inverts the kind codes of the global categories. */
  lemma GlobalTable(cat: ItemCategory)
    requires !cat.Invalid? && !cat.IsCharacterScoped()
    ensures GlobalCategory(BaseCode(cat) >> 12) == cat
  {
  }

  /** The character kind table inverts the kind codes of the
      character-scoped categories. */
  lemma CharacterTable(cat: ItemCategory)
    requires cat.IsCharacterScoped()
    ensures CharacterCategory(cat.c, BaseCode(cat) >> 12) == cat
  {
  }

  /** Where the three parts of an item code end up. */
  lemma CodeFields(base: bv32, k: bv32, num: bv32)
    requires base & 0x7FF == 0 && base < 0x2_0000 && k <= 0x1F && num <= 0x7FF
    ensures (((base | (k << 17)) | num) >> 17) & 0x1F == k
    ensures (((base | (k << 17)) | num) >> 12) & 0x1F == base >> 12
    ensures ((base | (k << 17)) | num) & 0x7FF == num
  {
  }
}

/** A stack of items as held in an inventory (`CountedItem`). */
module CountedItems {
  import opened Items
  import opened Bits

  /** A counted item is its 32-bit code. */
  type CountedItem = bv32

  /** `CountedItem::new`: the source asserts `count <= 0x3FF`. An item
      code of at most 22 bits comes back out unchanged. */
  function NewCounted(item: Item, count: bv32): (ci: CountedItem)
    requires count <= 0x3FF
    ensures CountOf(ci) == count
    ensures item < 0x40_0000 ==> ItemOf(ci) == item
  {
    (item << 10) | count
  }

  /** The packed item: the high 22 bits. */
  function ItemOf(ci: CountedItem): (it: Item)
    ensures it < 0x40_0000
  {
    High(ci, 10)
  }

  /** The packed count: the low 10 bits. */
  function CountOf(ci: CountedItem): (n: bv32)
    ensures n <= 0x3FF
  {
    Mask(ci, 0x3FF)
  }

  /** `CountedItem::with_count`: the source asserts `count <= 0x3FF`; the
      item is kept and the count replaced. */
  function WithCount(ci: CountedItem, count: bv32): (r: CountedItem)
    requires count <= 0x3FF
    ensures ItemOf(r) == ItemOf(ci)
    ensures CountOf(r) == count
  {
    (ci & !0x3FF) | count
  }

  /** `Item::one`. */
  function One(item: Item): (ci: CountedItem)
    ensures CountOf(ci) == 1
    ensures item < 0x40_0000 ==> ItemOf(ci) == item
  {
    NewCounted(item, 1)
  }
}
