/** The shop handlers of src/gs2/shop_mgmt.rs: the two catalogue listings
    and buying an item.

    A purchase is specified by `Purchase`, a function of the catalogue,
    the buyer's account data and the counted item asked for, giving the
    answer and the account data afterwards; `DoBuyItem` is the source's
    step-by-step check-then-update, proved to follow it. */
module ShopMgmt {
  import opened Wrappers
  import opened Packets
  import opened Items
  import opened CountedItems
  import opened Users
  import opened GameServers
  import UserMgmt
  import Shop

  /** `handle_get_sell_items`: the shop catalogue and its length, cast to
      `i16` as the source does. */
  method HandleGetSellItems(gs: GameServer, who: nat)
    requires gs.Valid() && who < |gs.conns|
    modifies gs`conns
    ensures gs.Valid()
    ensures gs.conns == Deliver(old(gs.conns), who,
                                Queued(None, SendSellItemList(WrapI16(|gs.shopItems|), gs.shopItems)))
  {
    gs.Write(who, SendSellItemList(WrapI16(|gs.shopItems|), gs.shopItems));
  }

  /** `handle_get_salon_items`: the salon catalogue and its length. */
  method HandleGetSalonItems(gs: GameServer, who: nat)
    requires gs.Valid() && who < |gs.conns|
    modifies gs`conns
    ensures gs.Valid()
    ensures gs.conns == Deliver(old(gs.conns), who,
                                Queued(None, SendSalonItemList(WrapI16(|gs.salonItems|), gs.salonItems)))
  {
    gs.Write(who, SendSalonItemList(WrapI16(|gs.salonItems|), gs.salonItems));
  }

  /** The index of the first catalogue entry selling `item`, or -1 (the
      source's `iter().find`). */
  function SellIndex(shop: seq<Shop.SellItem>, item: Item): (k: int)
    ensures -1 <= k < |shop|
    ensures k == -1 <==> forall i :: 0 <= i < |shop| ==> shop[i].item != item
    ensures k >= 0 ==> shop[k].item == item && forall i :: 0 <= i < k ==> shop[i].item != item
  {
    if shop == [] then -1
    else
      var n := |shop| - 1;
      var k := SellIndex(shop[..n], item);
      if k >= 0 then k else if shop[n].item == item then n else -1
  }

  /** How many of `item` one account may hold: its category's maximum. */
  function Limit(item: Item): (m: bv32)
    ensures m <= 50
  {
    Maximum(Category(item))
  }

  /** The two count checks of `do_buy_item`: the count asked for is not 0
      and not past the maximum, and neither is the amount held afterwards. */
  predicate CountAccepted(held: bv32, count: bv32, max: bv32) {
    !(count == 0 || count > max) && !(held + count == 0 || held + count > max)
  }

  /** With counts of at most 0x3FF, as a count field holds, the checks
      accept exactly the counts from 1 whose sum with what is held stays
      within the maximum; that sum then fits the count field. */
  lemma CountAcceptedMeans(held: bv32, count: bv32, max: bv32)
    requires held <= 0x3FF && count <= 0x3FF && max <= 50
    ensures CountAccepted(held, count, max) <==> count != 0 && held + count <= max
    ensures CountAccepted(held, count, max) ==> CountsFit(held, count)
  {
  }

  /** `count * price`: the source multiplies two `u32`s, which wraps
      modulo 2^32. */
  function Cost(count: bv32, price: bv32): u32 {
    (count * price) as int
  }

  /** The paying half of `do_buy_item`, once the counts are accepted, for
      the cost `cost`: a cost past `i32` is `BuyErr` (the error the
      source's `try_into` raises), a balance that does not cover it is
      `Balance`; otherwise the cost is paid and the item added. */
  function Checkout(s: Shop.SellItem, u: User, ci: CountedItem, cost: u32): (BuyItemResult, User)
    requires CountsFit(ItemAmount(u.inventory, ItemOf(ci)), CountOf(ci))
  {
    if cost >= 0x8000_0000 then (BuyErr, u)
    else if !CheckBalance(u, s.currency, cost) then (BuyBalance, u)
    else (BuyOk, AdjustBalance(u, s.currency, -(cost as int)).(inventory := AddedTo(u.inventory, ci)))
  }

  /** `do_buy_item`, as a function of the catalogue, the buyer's account
      data and the counted item asked for: the answer and the account data
      afterwards. The checks run in the source's order: the item must be
      in the catalogue, then `Listed` for its catalogue entry. */
  function Purchase(shop: seq<Shop.SellItem>, u: User, ci: CountedItem): (BuyItemResult, User) {
    var k := SellIndex(shop, ItemOf(ci));
    if k < 0 then (BuyInvalidItemType, u) else Listed(shop[k], u, ci)
  }

  /** A purchase of an item found in the catalogue as `s`: the counts must
      be accepted, then `Checkout` of the count times the price. */
  function Listed(s: Shop.SellItem, u: User, ci: CountedItem): (BuyItemResult, User) {
    var item := ItemOf(ci);
    if !CountAccepted(ItemAmount(u.inventory, item), CountOf(ci), Limit(item)) then (BuyInvalidCount, u)
    else
      CountAcceptedMeans(ItemAmount(u.inventory, item), CountOf(ci), Limit(item));
      Checkout(s, u, ci, Cost(CountOf(ci), s.price))
  }

  /** A purchase is refused with `InvalidItemType` exactly when no
      catalogue entry sells the item. */
  lemma PurchaseUnlisted(shop: seq<Shop.SellItem>, u: User, ci: CountedItem)
    ensures Purchase(shop, u, ci).0 == BuyInvalidItemType
            <==> forall i :: 0 <= i < |shop| ==> shop[i].item != ItemOf(ci)
  {
    var k := SellIndex(shop, ItemOf(ci));
    if k >= 0 {
      ListedCount(shop[k], u, ci);
    }
  }

  /** A purchase of an item in the catalogue is refused with
      `InvalidCount` exactly when the count is 0 or takes the amount held
      past the category maximum. */
  lemma PurchaseCountRefused(shop: seq<Shop.SellItem>, u: User, ci: CountedItem)
    ensures var item, count := ItemOf(ci), CountOf(ci);
      Purchase(shop, u, ci).0 == BuyInvalidCount
      <==> SellIndex(shop, item) >= 0 && (count == 0 || ItemAmount(u.inventory, item) + count > Limit(item))
  {
    var item := ItemOf(ci);
    var k := SellIndex(shop, item);
    CountAcceptedMeans(ItemAmount(u.inventory, item), CountOf(ci), Limit(item));
    if k >= 0 {
      ListedCount(shop[k], u, ci);
    }
  }

  /** A refused purchase changes nothing, and an item sold for tickets
      only never goes through. */
  lemma PurchaseRefusedUnchanged(shop: seq<Shop.SellItem>, u: User, ci: CountedItem)
    ensures var (r, u') := Purchase(shop, u, ci);
      var k := SellIndex(shop, ItemOf(ci));
      (k >= 0 && shop[k].currency == Shop.TicketsOnly ==> r != BuyOk)
      && (r != BuyOk ==> u' == u)
  {
    var k := SellIndex(shop, ItemOf(ci));
    if k >= 0 {
      ListedUnchanged(shop[k], u, ci);
    }
  }

  /** For the catalogue entry `s`: `InvalidCount` exactly when the count
      checks fail, and never `InvalidItemType`. */
  lemma ListedCount(s: Shop.SellItem, u: User, ci: CountedItem)
    ensures var r, item := Listed(s, u, ci).0, ItemOf(ci);
      (r == BuyInvalidCount <==> !CountAccepted(ItemAmount(u.inventory, item), CountOf(ci), Limit(item)))
      && r != BuyInvalidItemType
  {
    var item := ItemOf(ci);
    var held, count, max := ItemAmount(u.inventory, item), CountOf(ci), Limit(item);
    if CountAccepted(held, count, max) {
      ListedAccepted(s, u, ci);
      CheckoutResults(s, u, ci, Cost(count, s.price));
    }
  }

  /** For the catalogue entry `s`: never `OK` for an item sold for
      tickets only, and only `OK` changes the account data. */
  lemma ListedUnchanged(s: Shop.SellItem, u: User, ci: CountedItem)
    ensures var (r, u') := Listed(s, u, ci);
      (s.currency == Shop.TicketsOnly ==> r != BuyOk) && (r != BuyOk ==> u' == u)
  {
    var item := ItemOf(ci);
    if CountAccepted(ItemAmount(u.inventory, item), CountOf(ci), Limit(item)) {
      ListedAccepted(s, u, ci);
      CheckoutResults(s, u, ci, Cost(CountOf(ci), s.price));
    }
  }

  /** The paying half: `BuyErr` exactly when the cost is past `i32`,
      `Balance` exactly when it fits but the balance does not cover it
      (always, for an item sold for tickets only), `OK` otherwise; only
      `OK` changes the account data. */
  lemma CheckoutResults(s: Shop.SellItem, u: User, ci: CountedItem, cost: u32)
    requires CountsFit(ItemAmount(u.inventory, ItemOf(ci)), CountOf(ci))
    ensures var (r, u') := Checkout(s, u, ci, cost);
      (r == BuyErr <==> cost >= 0x8000_0000)
      && (r == BuyBalance <==> cost < 0x8000_0000 && !CheckBalance(u, s.currency, cost))
      && (s.currency == Shop.TicketsOnly ==> r != BuyOk)
      && (r == BuyOk || r == BuyErr || r == BuyBalance)
      && (r != BuyOk ==> u' == u)
  {
  }

  /** A payment that goes through takes exactly the cost from the currency
      the item is sold for, leaves the other balance alone and changes
      nothing else of the account data but the inventory. */
  lemma CheckoutPays(s: Shop.SellItem, u: User, ci: CountedItem, cost: u32)
    requires CountsFit(ItemAmount(u.inventory, ItemOf(ci)), CountOf(ci))
    requires Checkout(s, u, ci, cost).0 == BuyOk
    ensures var u' := Checkout(s, u, ci, cost).1;
      s.currency != Shop.TicketsOnly && cost <= Balance(u, s.currency)
      && Balance(u', s.currency) == Balance(u, s.currency) - cost
      && (s.currency == Shop.GP ==> u'.sc == u.sc)
      && (s.currency == Shop.SC ==> u'.gp == u.gp)
      && u'.(gp := u.gp, sc := u.sc, inventory := u.inventory) == u
  {
    CheckoutResults(s, u, ci, cost);
  }

  /** A payment that goes through raises the amount held of the item by
      the count and of no other item, and keeps an inventory free of
      duplicate items. */
  lemma CheckoutAdds(s: Shop.SellItem, u: User, ci: CountedItem, cost: u32, other: Item)
    requires CountsFit(ItemAmount(u.inventory, ItemOf(ci)), CountOf(ci))
    requires Checkout(s, u, ci, cost).0 == BuyOk
    ensures var inv', item := Checkout(s, u, ci, cost).1.inventory, ItemOf(ci);
      ItemAmount(inv', item) == ItemAmount(u.inventory, item) + CountOf(ci)
      && (other != item ==> ItemAmount(inv', other) == ItemAmount(u.inventory, other))
      && (NoDuplicates(u.inventory) ==> NoDuplicates(inv'))
  {
    CheckoutInventory(s, u, ci, cost);
    AddedAmounts(u.inventory, ci, other);
    if NoDuplicates(u.inventory) {
      AddedNoDuplicates(u.inventory, ci);
    }
  }

  /** A payment that goes through adds the counted item to the inventory. */
  lemma CheckoutInventory(s: Shop.SellItem, u: User, ci: CountedItem, cost: u32)
    requires CountsFit(ItemAmount(u.inventory, ItemOf(ci)), CountOf(ci))
    requires Checkout(s, u, ci, cost).0 == BuyOk
    ensures Checkout(s, u, ci, cost).1.inventory == AddedTo(u.inventory, ci)
  {
  }

  /** A purchase that goes through is a payment of the item's cost that
      goes through, and the amount held afterwards is within the category
      maximum. */
  lemma PurchaseOk(shop: seq<Shop.SellItem>, u: User, ci: CountedItem)
    requires Purchase(shop, u, ci).0 == BuyOk
    ensures var item := ItemOf(ci);
      var k, held := SellIndex(shop, item), ItemAmount(u.inventory, item);
      k >= 0 && CountOf(ci) != 0 && held + CountOf(ci) <= Limit(item)
      && CountsFit(held, CountOf(ci))
      && Purchase(shop, u, ci) == Checkout(shop[k], u, ci, Cost(CountOf(ci), shop[k].price))
  {
    var item := ItemOf(ci);
    CountAcceptedMeans(ItemAmount(u.inventory, item), CountOf(ci), Limit(item));
  }

  /** Once the item is found and the counts accepted, a purchase is the
      payment of the item's cost. */
  lemma PurchaseAccepted(shop: seq<Shop.SellItem>, u: User, ci: CountedItem)
    requires SellIndex(shop, ItemOf(ci)) >= 0
    requires CountAccepted(ItemAmount(u.inventory, ItemOf(ci)), CountOf(ci), Limit(ItemOf(ci)))
    ensures CountsFit(ItemAmount(u.inventory, ItemOf(ci)), CountOf(ci))
    ensures var s := shop[SellIndex(shop, ItemOf(ci))];
      Purchase(shop, u, ci) == Checkout(s, u, ci, Cost(CountOf(ci), s.price))
  {
    CountAcceptedMeans(ItemAmount(u.inventory, ItemOf(ci)), CountOf(ci), Limit(ItemOf(ci)));
  }

  /** Once the counts are accepted, a purchase of the catalogue entry `s`
      is the payment of the count times the price. */
  lemma ListedAccepted(s: Shop.SellItem, u: User, ci: CountedItem)
    requires CountAccepted(ItemAmount(u.inventory, ItemOf(ci)), CountOf(ci), Limit(ItemOf(ci)))
    ensures CountsFit(ItemAmount(u.inventory, ItemOf(ci)), CountOf(ci))
    ensures Listed(s, u, ci) == Checkout(s, u, ci, Cost(CountOf(ci), s.price))
  {
    CountAcceptedMeans(ItemAmount(u.inventory, ItemOf(ci)), CountOf(ci), Limit(ItemOf(ci)));
  }

  /** The catalogue lookup of `do_buy_item` (`iter().find`). */
  method FindSellIndex(shop: seq<Shop.SellItem>, item: Item) returns (k: int)
    ensures k == SellIndex(shop, item)
  {
    k := 0;
    while k < |shop| && shop[k].item != item
      invariant 0 <= k <= |shop|
      invariant forall i :: 0 <= i < k ==> shop[i].item != item
    {
      k := k + 1;
    }
    if k == |shop| {
      k := -1;
    }
  }

  /** `do_buy_item` on the buyer's account data `u`: looks up the item in
      the catalogue, runs the checks, then pays and adds the item, giving
      the account data afterwards. `Err` is the error the source returns
      when the cost does not fit an `i32`. */
  method DoBuyItem(shop: seq<Shop.SellItem>, u: User, ci: CountedItem) returns (res: Result<BuyItemResult, ()>, u': User)
    ensures var (r, v) := Purchase(shop, u, ci);
      (if r == BuyErr then res == Err(()) else res == Ok(r)) && u' == v
  {
    var k := FindSellIndex(shop, ItemOf(ci));
    if k < 0 {
      return Ok(BuyInvalidItemType), u;
    }
    res, u' := BuyListed(shop[k], u, ci);
  }

  /** The count checks of `do_buy_item` for the catalogue entry `s`, then
      the payment. */
  method BuyListed(s: Shop.SellItem, u: User, ci: CountedItem) returns (res: Result<BuyItemResult, ()>, u': User)
    ensures var (r, v) := Listed(s, u, ci);
      (if r == BuyErr then res == Err(()) else res == Ok(r)) && u' == v
  {
    var item := ItemOf(ci);
    var held := ItemAmount(u.inventory, item);
    var max := Limit(item);
    var count := CountOf(ci);
    if !CountAccepted(held, count, max) {
      return Ok(BuyInvalidCount), u;
    }
    ListedAccepted(s, u, ci);
    res, u' := Pay(s, u, ci, Cost(count, s.price));
  }

  /** The paying half of `do_buy_item`: the cost must fit an `i32` and
      the balance must cover it; then the balance goes down by the cost and
      the item is added to the inventory. */
  method Pay(s: Shop.SellItem, u: User, ci: CountedItem, cost: u32) returns (res: Result<BuyItemResult, ()>, u': User)
    requires CountsFit(ItemAmount(u.inventory, ItemOf(ci)), CountOf(ci))
    ensures var (r, v) := Checkout(s, u, ci, cost);
      (if r == BuyErr then res == Err(()) else res == Ok(r)) && u' == v
  {
    if cost >= 0x8000_0000 {
      return Err(()), u;
    }
    if !CheckBalance(u, s.currency, cost) {
      return Ok(BuyBalance), u;
    }
    u' := AdjustBalance(u, s.currency, -(cost as int));
    var inv := AddItem(u'.inventory, ci);
    u' := u'.(inventory := inv);
    res := Ok(BuyOk);
  }

  /** `handle_buy_item`: the purchase on the buyer's account data, its
      answer (`BuyErr` for an internal error), then the balances afterwards
      with pid -1. Saving the account data is a storage write whose result
      the source ignores. */
  method HandleBuyItem(gs: GameServer, who: nat, ci: CountedItem)
    requires gs.Valid() && who < |gs.conns|
    modifies gs`conns
    ensures gs.Valid()
    ensures var (r, u) := Purchase(gs.shopItems, old(gs.conns[who]).user, ci);
      gs.conns == DeliverAll(old(gs.conns)[who := old(gs.conns[who]).(user := u)], who,
                             [Queued(None, AckBuyItem(r)), Queued(Some(-1), RepMoney(u.gp, u.sc))])
  {
    var p := gs.conns[who];
    var result, u := Buy(gs.shopItems, p.user, ci);
    gs.SetPlayer(who, p.(user := u));
    ReplyBuy(gs, who, result);
  }

  /** The answer `handle_buy_item` takes from `do_buy_item`: its error
      becomes `BuyErr`. Answer and account data are those of `Purchase`. */
  method Buy(shop: seq<Shop.SellItem>, u: User, ci: CountedItem) returns (result: BuyItemResult, u': User)
    ensures (result, u') == Purchase(shop, u, ci)
  {
    var res;
    res, u' := DoBuyItem(shop, u, ci);
    result := match res
      case Ok(r) => r
      case Err(_) => BuyErr;
  }

  /** The two replies of `handle_buy_item`: the answer, then the balances
      held now with pid -1. */
  method ReplyBuy(gs: GameServer, who: nat, result: BuyItemResult)
    requires gs.Valid() && who < |gs.conns|
    modifies gs`conns
    ensures gs.Valid()
    ensures var u := old(gs.conns[who]).user;
      gs.conns == DeliverAll(old(gs.conns), who, [Queued(None, AckBuyItem(result)), Queued(Some(-1), RepMoney(u.gp, u.sc))])
  {
    ghost var conns0 := gs.conns;
    ghost var u := conns0[who].user;
    var q1 := Queued(None, AckBuyItem(result));
    gs.Write(who, AckBuyItem(result));
    assert gs.conns == DeliverAll(conns0, who, [q1]);
    UserMgmt.HandleGetMoney(gs, -1, who);
    ghost var q2 := Queued(Some(-1), RepMoney(u.gp, u.sc));
    DeliverAfterAll(conns0, who, [q1], q2);
    assert [q1] + [q2] == [q1, q2];
  }
}
