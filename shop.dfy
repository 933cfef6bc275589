/** Shop catalogue entries (src/data/shop.rs).

    A catalogue entry's currency and marketing label travel as flag bits:
    currency in bits 1 (`SC`) and 5 (`TicketsOnly`), marketing in bits 3
    (`New`), 4 (`Hot`) and 6 (`Sale`). Reading gives `TicketsOnly` priority
    over `SC`, and reads the `New` bit as `Hot`, so a `New` label does not
    survive a round trip. */
module Shop {
  import opened Wrappers
  import opened Wire
  import opened Bits
  import opened Items

  datatype Currency = GP | SC | TicketsOnly

  datatype Marketing = NoLabel | New | Hot | Sale

  /** The currency a catalogue entry's flags name: its own bits are set in
      the flags, and `GP` is read exactly when neither currency bit is. */
  function CurrencyFromFlags(flags: bv32): (c: Currency)
    ensures flags & CurrencyToFlags(c) == CurrencyToFlags(c)
    ensures c == GP <==> Mask(flags, 0x22) == 0
  {
    if Mask(flags, 0x20) != 0 then TicketsOnly
    else if Mask(flags, 2) != 0 then SC
    else GP
  }

  function CurrencyToFlags(c: Currency): (flags: bv32)
    ensures Mask(flags, 0x22) == flags
  {
    match c
    case GP => 0
    case SC => 2
    case TicketsOnly => 0x20
  }

  /** The label a catalogue entry's flags name: never `New`, `Sale` exactly
      when bit 6 is set, and no label exactly when no label bit is set. */
  function MarketingFromFlags(flags: bv32): (m: Marketing)
    ensures m != New
    ensures m == Sale <==> Mask(flags, 0x40) != 0
    ensures m == NoLabel <==> Mask(flags, 0x58) == 0
  {
    if Mask(flags, 0x40) != 0 then Sale
    else if Mask(flags, 0x10) != 0 then Hot
    else if Mask(flags, 8) != 0 then Hot
    else NoLabel
  }

  function MarketingToFlags(m: Marketing): (flags: bv32)
    ensures Mask(flags, 0x58) == flags
  {
    match m
    case NoLabel => 0
    case New => 8
    case Hot => 0x10
    case Sale => 0x40
  }

  /** The label a reader sees: `New` comes back as `Hot`. */
  function AsRead(m: Marketing): Marketing {
    if m == New then Hot else m
  }

  /** Both parts of an entry's flags. */
  function Flags(c: Currency, m: Marketing): bv32 {
    CurrencyToFlags(c) | MarketingToFlags(m)
  }

  lemma CurrencyRoundTrip(c: Currency)
    ensures CurrencyFromFlags(CurrencyToFlags(c)) == c
  {
  }

  /** Bit 5 decides `TicketsOnly` whatever bit 1 says. */
  lemma TicketsOnlyTakesPrecedence(flags: bv32)
    ensures CurrencyFromFlags(flags) == TicketsOnly <==> Mask(flags, 0x20) != 0
    ensures CurrencyFromFlags(flags) == SC <==> Mask(flags, 0x20) == 0 && Mask(flags, 2) != 0
  {
  }

  /** Every label but `New` survives; `New` reads back as `Hot`. */
  lemma MarketingRoundTrip(m: Marketing)
    ensures MarketingFromFlags(MarketingToFlags(m)) == AsRead(m)
    ensures MarketingFromFlags(MarketingToFlags(m)) == m <==> m != New
  {
  }

  /** The currency and marketing bits are disjoint, so the combined flags
      decode to both parts, `New` read as `Hot`. The combined flags fit the
      seven low bits. */
  lemma FlagsDecode(c: Currency, m: Marketing)
    ensures CurrencyFromFlags(Flags(c, m)) == c
    ensures MarketingFromFlags(Flags(c, m)) == AsRead(m)
    ensures Mask(Flags(c, m), 0x7F) == Flags(c, m)
  {
    match c
    case GP => {}
    case SC => {}
    case TicketsOnly => {}
  }

  /** A purchasable item. */
  datatype SellItem = SellItem(item: Item, currency: Currency, marketing: Marketing, price: bv32, spPrice: bv32)

  /** The price in bits 0 to 19, the flags from bit 20. */
  function PriceWord(price: bv32, flags: bv32): bv32 {
    (price & 0xFFFFF) | (flags << 20)
  }

  /** `SellItem::write`: the item, the price word, the special price cut to
      20 bits. */
  function WriteSellItem(s: SellItem): (fs: seq<Field>)
    ensures Kinds(fs) == [KU32, KU32, KU32]
  {
    [U32(s.item), U32(PriceWord(s.price, Flags(s.currency, s.marketing))), U32(Mask(s.spPrice, 0xFFFFF))]
  }

  /** `SellItem::read`: three words. */
  function ReadSellItem(fs: seq<Field>): (r: Result<SellItem, DekuError>)
    ensures r.Ok? <==> |fs| >= 3 && Kinds(fs[..3]) == [KU32, KU32, KU32]
    ensures r.Err? ==> r.error == Incomplete
  {
    if |fs| >= 3 && fs[0].U32? && fs[1].U32? && fs[2].U32? then
      var flags := High(fs[1].u32, 20);
      Ok(SellItem(fs[0].u32, CurrencyFromFlags(flags), MarketingFromFlags(flags), Mask(fs[1].u32, 0xFFFFF),
        Mask(fs[2].u32, 0xFFFFF)))
    else
      Err(Incomplete)
  }

  lemma PriceWordFields(price: bv32, flags: bv32)
    requires Mask(flags, 0x7F) == flags
    ensures Mask(PriceWord(price, flags), 0xFFFFF) == Mask(price, 0xFFFFF)
    ensures High(PriceWord(price, flags), 20) == flags
  {
  }

  /** Reading a written entry gives the item, the currency and both prices
      cut to 20 bits; the label reads back with `New` as `Hot`. */
  lemma ReadWriteSellItem(s: SellItem, rest: seq<Field>)
    ensures ReadSellItem(WriteSellItem(s) + rest)
         == Ok(SellItem(s.item, s.currency, AsRead(s.marketing), Mask(s.price, 0xFFFFF), Mask(s.spPrice, 0xFFFFF)))
  {
    var fs := WriteSellItem(s) + rest;
    assert fs[0] == U32(s.item) && fs[2] == U32(Mask(s.spPrice, 0xFFFFF));
    assert fs[1] == U32(PriceWord(s.price, Flags(s.currency, s.marketing)));
    FlagsDecode(s.currency, s.marketing);
    PriceWordFields(s.price, Flags(s.currency, s.marketing));
    MaskIdempotent(s.spPrice, 0xFFFFF);
  }

  lemma MaskIdempotent(x: bv32, m: bv32)
    ensures Mask(Mask(x, m), m) == Mask(x, m)
  {
  }

  /** An entry whose prices fit 20 bits and whose label is not `New`
      round-trips exactly. */
  lemma SellItemRoundTrip(s: SellItem)
    requires Mask(s.price, 0xFFFFF) == s.price && Mask(s.spPrice, 0xFFFFF) == s.spPrice && s.marketing != New
    ensures ReadSellItem(WriteSellItem(s)) == Ok(s)
  {
    ReadWriteSellItem(s, []);
    assert WriteSellItem(s) + [] == WriteSellItem(s);
  }

  /** A rentable caddie. */
  datatype SellCaddy = SellCaddy(
    item: Item,
    currency: Currency,
    marketing: Marketing,
    price3Hours: bv32,
    price3Days: bv32,
    price30Days: bv32,
    infiniteRental: i32)

  /** The item, written unmasked, and the flags from bit 22. */
  function CaddyWord(item: Item, flags: bv32): bv32 {
    item | (flags << 22)
  }

  const SellCaddyLayout: seq<Kind> := [KU32, KU32, KU32, KU32, KI32]

  /** `SellCaddy::write`: the caddie word, three prices, the rental flag. */
  function WriteSellCaddy(s: SellCaddy): (fs: seq<Field>)
    ensures Kinds(fs) == SellCaddyLayout
  {
    [U32(CaddyWord(s.item, Flags(s.currency, s.marketing))), U32(s.price3Hours), U32(s.price3Days),
     U32(s.price30Days), I32(s.infiniteRental)]
  }

  /** `SellCaddy::read`: the item is the low 22 bits, the flags the rest. */
  function ReadSellCaddy(fs: seq<Field>): (r: Result<SellCaddy, DekuError>)
    ensures r.Ok? <==> |fs| >= 5 && Kinds(fs[..5]) == SellCaddyLayout
    ensures r.Ok? ==> r.value.price3Hours == fs[1].u32 && r.value.price3Days == fs[2].u32
    ensures r.Ok? ==> r.value.price30Days == fs[3].u32 && r.value.infiniteRental == fs[4].i32
    ensures r.Err? ==> r.error == Incomplete
  {
    if |fs| >= 5 && fs[0].U32? && fs[1].U32? && fs[2].U32? && fs[3].U32? && fs[4].I32? then
      var flags := High(fs[0].u32, 22);
      Ok(SellCaddy(Mask(fs[0].u32, 0x3FFFFF), CurrencyFromFlags(flags), MarketingFromFlags(flags),
        fs[1].u32, fs[2].u32, fs[3].u32, fs[4].i32))
    else
      Err(Incomplete)
  }

  lemma CaddyWordFields(item: Item, flags: bv32)
    requires Mask(item, 0x3FFFFF) == item && Mask(flags, 0x7F) == flags
    ensures Mask(CaddyWord(item, flags), 0x3FFFFF) == item
    ensures High(CaddyWord(item, flags), 22) == flags
  {
  }

  /** A caddie whose item fits 22 bits reads back with the same item,
      currency and prices, its label with `New` as `Hot`. */
  lemma ReadWriteSellCaddy(s: SellCaddy, rest: seq<Field>)
    requires Mask(s.item, 0x3FFFFF) == s.item
    ensures ReadSellCaddy(WriteSellCaddy(s) + rest) == Ok(s.(marketing := AsRead(s.marketing)))
  {
    var fs := WriteSellCaddy(s) + rest;
    assert fs[..5] == WriteSellCaddy(s);
    FlagsDecode(s.currency, s.marketing);
    CaddyWordFields(s.item, Flags(s.currency, s.marketing));
  }

  /** An item code above 22 bits spills into the flags: item bit 27 reads
      back as the `TicketsOnly` bit and is lost from the item. */
  lemma OversizeCaddyItem()
    ensures ReadSellCaddy(WriteSellCaddy(SellCaddy(0x800_0000, GP, NoLabel, 0, 0, 0, 0))).value
         == SellCaddy(0, TicketsOnly, NoLabel, 0, 0, 0, 0)
  {
    FlagsDecode(GP, NoLabel);
    assert CaddyWord(0x800_0000, Flags(GP, NoLabel)) == 0x800_0000;
  }
}
