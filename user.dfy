/** A player's account data (src/data/mod.rs): balances, bag slots and the
    inventory of counted items.

    The source mutates a `User` in place inside the server's player table;
    here a `User` is a value and `AddItem`/`AdjustBalance` give the updated
    one. */
module Users {
  import opened Wrappers
  import opened Items
  import opened CountedItems
  import opened Ranks
  import opened Characters
  import Shop

  /** The element a player picked; `NoElement` until they pick one. */
  datatype Element = NoElement | Blue | Red | Green | Yellow | Pink

  datatype User = User(
    defaultChrUid: i32,
    element: Element,
    rank: Rank,
    gp: i32,
    sc: i32,
    golfbag: seq<Item>,
    holdbox: seq<Item>,
    inventory: seq<CountedItem>)

  /** An account and the characters it owns, each under its id. */
  datatype Account = Account(uid: i32, name: Option<string>, user: User, characters: seq<(i32, Character)>)

  /** `User::default`: no default character (-1), no element, rank G4, 5000
      GP, 100 SC, empty bag slots and an empty inventory. */
  function DefaultUser(): (u: User)
    ensures u.defaultChrUid == -1 && u.element == NoElement && RankClass(u.rank) == G && u.rank == 0
    ensures u.gp == 5000 && u.sc == 100 && u.inventory == []
    ensures |u.golfbag| == 8 && |u.holdbox| == 8
    ensures forall i :: 0 <= i < 8 ==> u.golfbag[i] == EmptyItem && u.holdbox[i] == EmptyItem
  {
    User(-1, NoElement, 0, 5000, 100, Repeat(EmptyItem, 8), Repeat(EmptyItem, 8), [])
  }

  /** The index of the first entry holding `item`, or -1. */
  function FirstIndex(inv: seq<CountedItem>, item: Item): (k: int)
    ensures -1 <= k < |inv|
    ensures k == -1 <==> forall i :: 0 <= i < |inv| ==> ItemOf(inv[i]) != item
    ensures k >= 0 ==> ItemOf(inv[k]) == item && forall i :: 0 <= i < k ==> ItemOf(inv[i]) != item
  {
    if inv == [] then -1
    else if ItemOf(inv[0]) == item then 0
    else
      var k := FirstIndex(inv[1..], item);
      if k < 0 then -1 else k + 1
  }

  /** `User::item_amount`: the count of the first entry holding `item`, 0 if
      there is none. */
  function ItemAmount(inv: seq<CountedItem>, item: Item): (n: bv32)
    ensures n <= 0x3FF
  {
    var k := FirstIndex(inv, item);
    if k < 0 then 0 else CountOf(inv[k])
  }

  /** No item is held by two entries. */
  predicate NoDuplicates(inv: seq<CountedItem>) {
    forall i, j :: 0 <= i < j < |inv| ==> ItemOf(inv[i]) != ItemOf(inv[j])
  }

  /** In a duplicate-free inventory, the entry holding an item is unique, so
      its count is the item's amount. */
  lemma AmountOfEntry(inv: seq<CountedItem>, i: int)
    requires NoDuplicates(inv) && 0 <= i < |inv|
    ensures ItemAmount(inv, ItemOf(inv[i])) == CountOf(inv[i])
  {
    var k := FirstIndex(inv, ItemOf(inv[i]));
    assert k == i;
  }

  /** Two counts whose sum fits the 10-bit count field. */
  predicate CountsFit(a: bv32, b: bv32) {
    a <= 0x3FF && b <= 0x3FF && a + b <= 0x3FF
  }

  /** The sum of two counts that fit. */
  function Sum(a: bv32, b: bv32): (n: bv32)
    requires CountsFit(a, b)
    ensures n <= 0x3FF
  {
    a + b
  }

  /** The inventory after `add_item(ci)`: the first entry holding the item
      gets the sum of the counts, or `ci` is appended when no entry does. */
  function AddedTo(inv: seq<CountedItem>, ci: CountedItem): seq<CountedItem>
    requires CountsFit(ItemAmount(inv, ItemOf(ci)), CountOf(ci))
  {
    var k := FirstIndex(inv, ItemOf(ci));
    if k < 0 then inv + [ci]
    else inv[k := WithCount(inv[k], Sum(CountOf(inv[k]), CountOf(ci)))]
  }

  /** `User::add_item`: finds the first entry holding the item and raises
      its count, or appends the counted item. The source asserts that the
      new count fits the 10-bit field. */
  method AddItem(inv: seq<CountedItem>, ci: CountedItem) returns (r: seq<CountedItem>)
    requires CountsFit(ItemAmount(inv, ItemOf(ci)), CountOf(ci))
    ensures r == AddedTo(inv, ci)
  {
    var item := ItemOf(ci);
    var i := 0;
    while i < |inv| && ItemOf(inv[i]) != item
      invariant 0 <= i <= |inv|
      invariant forall j :: 0 <= j < i ==> ItemOf(inv[j]) != item
    {
      i := i + 1;
    }
    if i < |inv| {
      FirstIndexIs(inv, item, i);
      UpdateWhenPresent(inv, ci, i);
      r := inv[i := WithCount(inv[i], Sum(CountOf(inv[i]), CountOf(ci)))];
    } else {
      FirstIndexIs(inv, item, -1);
      r := inv + [ci];
      AppendWhenAbsent(inv, ci);
    }
  }

  lemma UpdateWhenPresent(inv: seq<CountedItem>, ci: CountedItem, i: int)
    requires CountsFit(ItemAmount(inv, ItemOf(ci)), CountOf(ci))
    requires 0 <= i < |inv| && FirstIndex(inv, ItemOf(ci)) == i
    ensures CountsFit(CountOf(inv[i]), CountOf(ci))
    ensures AddedTo(inv, ci) == inv[i := WithCount(inv[i], Sum(CountOf(inv[i]), CountOf(ci)))]
  {
  }

  lemma AppendWhenAbsent(inv: seq<CountedItem>, ci: CountedItem)
    requires CountsFit(ItemAmount(inv, ItemOf(ci)), CountOf(ci))
    requires FirstIndex(inv, ItemOf(ci)) == -1
    ensures AddedTo(inv, ci) == inv + [ci]
  {
  }

  /** Adding raises the item's amount by the count and leaves every other
      item's amount alone. */
  lemma AddedAmounts(inv: seq<CountedItem>, ci: CountedItem, other: Item)
    requires CountsFit(ItemAmount(inv, ItemOf(ci)), CountOf(ci))
    ensures ItemAmount(AddedTo(inv, ci), ItemOf(ci)) == Sum(ItemAmount(inv, ItemOf(ci)), CountOf(ci))
    ensures other != ItemOf(ci) ==> ItemAmount(AddedTo(inv, ci), other) == ItemAmount(inv, other)
  {
    var item := ItemOf(ci);
    var r := AddedTo(inv, ci);
    var k := FirstIndex(inv, item);
    if k < 0 {
      FirstIndexAppend(inv, ci, item);
      FirstIndexAppend(inv, ci, other);
    } else {
      var x := WithCount(inv[k], Sum(CountOf(inv[k]), CountOf(ci)));
      assert r == inv[k := x];
      FirstIndexUpdate(inv, k, x, item);
      FirstIndexUpdate(inv, k, x, other);
      assert ItemAmount(r, item) == CountOf(x);
    }
  }

  /** Adding touches only the first entry holding the item, or appends. */
  lemma AddedEntries(inv: seq<CountedItem>, ci: CountedItem)
    requires CountsFit(ItemAmount(inv, ItemOf(ci)), CountOf(ci))
    ensures FirstIndex(inv, ItemOf(ci)) < 0 ==> AddedTo(inv, ci) == inv + [ci]
    ensures FirstIndex(inv, ItemOf(ci)) >= 0 ==>
      |AddedTo(inv, ci)| == |inv|
      && forall i :: 0 <= i < |inv| && i != FirstIndex(inv, ItemOf(ci)) ==> AddedTo(inv, ci)[i] == inv[i]
  {
  }

  /** An inventory without duplicate items stays without them. */
  lemma AddedNoDuplicates(inv: seq<CountedItem>, ci: CountedItem)
    requires CountsFit(ItemAmount(inv, ItemOf(ci)), CountOf(ci))
    requires NoDuplicates(inv)
    ensures NoDuplicates(AddedTo(inv, ci))
  {
    var k := FirstIndex(inv, ItemOf(ci));
    if k >= 0 {
      UpdateWhenPresent(inv, ci, k);
      var r := inv[k := WithCount(inv[k], Sum(CountOf(inv[k]), CountOf(ci)))];
      forall i, j | 0 <= i < j < |r| ensures ItemOf(r[i]) != ItemOf(r[j]) {
        assert ItemOf(r[i]) == ItemOf(inv[i]) && ItemOf(r[j]) == ItemOf(inv[j]);
      }
    } else {
      AppendWhenAbsent(inv, ci);
      var r := inv + [ci];
      forall i, j | 0 <= i < j < |r| ensures ItemOf(r[i]) != ItemOf(r[j]) {
        assert r[i] == inv[i];
        if j < |inv| {
          assert r[j] == inv[j];
        }
      }
    }
  }

  lemma FirstIndexAppend(inv: seq<CountedItem>, ci: CountedItem, item: Item)
    requires FirstIndex(inv, ItemOf(ci)) < 0
    ensures FirstIndex(inv + [ci], item) == (if item == ItemOf(ci) then |inv| else FirstIndex(inv, item))
  {
    var r := inv + [ci];
    assert forall i :: 0 <= i < |inv| ==> r[i] == inv[i];
    FirstIndexIs(r, item, if item == ItemOf(ci) then |inv| else FirstIndex(inv, item));
  }

  lemma FirstIndexUpdate(inv: seq<CountedItem>, k: int, x: CountedItem, item: Item)
    requires 0 <= k < |inv| && ItemOf(x) == ItemOf(inv[k])
    ensures FirstIndex(inv[k := x], item) == FirstIndex(inv, item)
  {
    var r := inv[k := x];
    assert forall i :: 0 <= i < |inv| ==> ItemOf(r[i]) == ItemOf(inv[i]);
    FirstIndexIs(r, item, FirstIndex(inv, item));
  }

  /** `FirstIndex` is the only index its contract allows. */
  lemma {:induction false} FirstIndexIs(inv: seq<CountedItem>, item: Item, k: int)
    requires -1 <= k < |inv|
    requires k == -1 ==> forall i :: 0 <= i < |inv| ==> ItemOf(inv[i]) != item
    requires k >= 0 ==> ItemOf(inv[k]) == item && forall i :: 0 <= i < k ==> ItemOf(inv[i]) != item
    ensures FirstIndex(inv, item) == k
  {
  }

  /** The balance a currency draws on; tickets have none. */
  function Balance(u: User, c: Shop.Currency): i32
    requires c != Shop.TicketsOnly
  {
    if c == Shop.GP then u.gp else u.sc
  }

  /** `User::check_balance`: the balance covers the cost; never for an item
      sold for tickets only. */
  function CheckBalance(u: User, c: Shop.Currency, cost: i32): (ok: bool)
    ensures ok <==> c != Shop.TicketsOnly && cost <= Balance(u, c)
  {
    match c
    case GP => cost <= u.gp
    case SC => cost <= u.sc
    case TicketsOnly => false
  }

  /** `User::adjust_balance`: the source panics for tickets, and the sum
      must fit an `i32`. */
  function AdjustBalance(u: User, c: Shop.Currency, delta: int): (r: User)
    requires c != Shop.TicketsOnly && -0x8000_0000 <= Balance(u, c) + delta < 0x8000_0000
    ensures Balance(r, c) == Balance(u, c) + delta
    ensures c == Shop.GP ==> r.sc == u.sc
    ensures c == Shop.SC ==> r.gp == u.gp
    ensures r.(gp := u.gp, sc := u.sc) == u
  {
    if c == Shop.GP then u.(gp := u.gp + delta) else u.(sc := u.sc + delta)
  }

  /** Paying a cost the balance covers leaves a balance that is not
      negative when the cost was not. */
  lemma PayCovered(u: User, c: Shop.Currency, cost: i32)
    requires CheckBalance(u, c, cost) && 0 <= cost
    ensures 0 <= Balance(AdjustBalance(u, c, -cost), c)
  {
  }
}
