/** The Royal Shop: a purchase is refused when the balance is short or
    when a non-boost item is already owned; otherwise the price is debited,
    the item is added to the inventory (or its quantity bumped) and one
    SHOP_PURCHASE entry is logged. */
module Shop {
  import opened Types
  import opened Store

  /** Position of the first inventory entry for `itemId`, or -1. */
  function ItemIndex(inventory: seq<InventoryItem>, itemId: string): (k: int)
    ensures -1 <= k < |inventory|
    ensures k == -1 <==> forall j :: 0 <= j < |inventory| ==> inventory[j].itemId != itemId
    ensures k >= 0 ==> inventory[k].itemId == itemId && forall j :: 0 <= j < k ==> inventory[j].itemId != itemId
  {
    if |inventory| == 0 then -1
    else if inventory[0].itemId == itemId then 0
    else
      var k := ItemIndex(inventory[1..], itemId);
      if k == -1 then -1 else k + 1
  }

  predicate Owns(inventory: seq<InventoryItem>, itemId: string)
  {
    ItemIndex(inventory, itemId) >= 0
  }

  /** No two inventory entries share an item id. */
  predicate UniqueItems(inventory: seq<InventoryItem>)
  {
    forall i, j :: 0 <= i < j < |inventory| ==> inventory[i].itemId != inventory[j].itemId
  }

  /** Expiry of a newly bought item: `now` plus its duration in hours when
      it has a non-zero duration, otherwise none. */
  function ActiveUntil(item: ShopItem, now: int): (r: Option<int>)
    ensures r.Some? <==> item.duration.Some? && item.duration.value != 0
    ensures r.Some? ==> r.value == now + item.duration.value * HOUR_MS
  {
    if item.duration.Some? && item.duration.value != 0 then Some(now + item.duration.value * HOUR_MS) else None
  }

  /** The inventory after a purchase: an owned item's quantity grows by one
      with its expiry untouched, a new item is appended with quantity 1. */
  function AddToInventory(inventory: seq<InventoryItem>, item: ShopItem, now: int): (r: seq<InventoryItem>)
    ensures Owns(r, item.id)
    ensures var k := ItemIndex(inventory, item.id);
      k >= 0 ==> |r| == |inventory| && r[k].quantity == inventory[k].quantity + 1 &&
                 r[k].activeUntil == inventory[k].activeUntil && r[k].itemId == item.id &&
                 forall j :: 0 <= j < |r| && j != k ==> r[j] == inventory[j]
    ensures ItemIndex(inventory, item.id) == -1 ==>
              r == inventory + [InventoryItem(item.id, 1, ActiveUntil(item, now))]
  {
    var k := ItemIndex(inventory, item.id);
    if k >= 0 then
      var r := inventory[k := inventory[k].(quantity := inventory[k].quantity + 1)];
      assert r[k].itemId == item.id;
      r
    else
      var r := inventory + [InventoryItem(item.id, 1, ActiveUntil(item, now))];
      assert r[|inventory|].itemId == item.id;
      r
  }

  /** A purchase never creates a second entry for the same item. */
  lemma AddKeepsItemsUnique(inventory: seq<InventoryItem>, item: ShopItem, now: int)
    requires UniqueItems(inventory)
    ensures UniqueItems(AddToInventory(inventory, item, now))
  {
    var r := AddToInventory(inventory, item, now);
    var k := ItemIndex(inventory, item.id);
    if k >= 0 {
      forall i, j | 0 <= i < j < |r| ensures r[i].itemId != r[j].itemId {
        assert r[i].itemId == inventory[i].itemId && r[j].itemId == inventory[j].itemId;
      }
    } else {
      forall i, j | 0 <= i < j < |r| ensures r[i].itemId != r[j].itemId {
        if j == |inventory| {
          assert r[i] == inventory[i];
        } else {
          assert r[i] == inventory[i] && r[j] == inventory[j];
        }
      }
    }
  }

  /** A purchase adds ownership of the bought item and of nothing else, and
      keeps every item already owned. */
  lemma AddKeepsOwnership(inventory: seq<InventoryItem>, item: ShopItem, now: int, id: string)
    ensures Owns(AddToInventory(inventory, item, now), id) <==> Owns(inventory, id) || id == item.id
  {
    var r := AddToInventory(inventory, item, now);
    var k := ItemIndex(inventory, item.id);
    if Owns(inventory, id) {
      var j := ItemIndex(inventory, id);
      assert r[j].itemId == id;
    }
    if Owns(r, id) && id != item.id {
      var j := ItemIndex(r, id);
      if k >= 0 {
        assert j != k;
      } else {
        assert j < |inventory|;
      }
      assert inventory[j].itemId == id;
    }
  }

  /** The guards checked against the signed-in snapshot: enough points,
      and the item is a boost or not yet owned. */
  predicate PurchaseAllowed(u: User, item: ShopItem)
    ensures PurchaseAllowed(u, item) ==> u.points - item.price >= 0
    ensures item.kind == Boost ==> (PurchaseAllowed(u, item) <==> u.points >= item.price)
    ensures item.kind != Boost && Owns(u.inventory, item.id) ==> !PurchaseAllowed(u, item)
  {
    u.points >= item.price && !(Owns(u.inventory, item.id) && item.kind != Boost)
  }

  /** Whether a purchase goes through: someone is signed in, the guards
      pass, the buyer confirms and the account is in the list. */
  predicate Purchases(users: seq<User>, user: Option<User>, item: ShopItem, confirmed: bool)
  {
    user.Some? && PurchaseAllowed(user.value, item) && confirmed && IndexOf(users, user.value.id) >= 0
  }

  /** The buyer's record after a purchase: the price debited and the item
      added to the inventory; nothing else changes. */
  function Bought(u: User, item: ShopItem, now: int): (r: User)
    ensures r.points == u.points - item.price
    ensures r.inventory == AddToInventory(u.inventory, item, now)
    ensures Owns(r.inventory, item.id)
    ensures UniqueItems(u.inventory) ==> UniqueItems(r.inventory)
    ensures r == u.(points := r.points, inventory := r.inventory)
  {
    AddKeepsOwnership(u.inventory, item, now, item.id);
    if UniqueItems(u.inventory) then
      AddKeepsItemsUnique(u.inventory, item, now);
      u.(points := u.points - item.price, inventory := AddToInventory(u.inventory, item, now))
    else
      u.(points := u.points - item.price, inventory := AddToInventory(u.inventory, item, now))
  }

  method HandlePurchase(ledger: Ledger, user: Option<User>, item: ShopItem, confirmed: bool, now: int)
    requires Current(ledger.users, user)
    modifies ledger`users, ledger`transactions
    ensures !Purchases(old(ledger.users), user, item, confirmed) ==>
              ledger.users == old(ledger.users) && ledger.transactions == old(ledger.transactions)
    ensures Purchases(old(ledger.users), user, item, confirmed) ==>
              var i := IndexOf(old(ledger.users), user.value.id);
              var before := old(ledger.users)[i];
              ledger.users == old(ledger.users)[i := Bought(before, item, now)] &&
              ledger.users[i].points >= 0 &&
              ledger.transactions == [Tx(before.id, before.username, SHOP_PURCHASE, -item.price, now)] + old(ledger.transactions)
    ensures PointsNonNegative(old(ledger.users)) ==> PointsNonNegative(ledger.users)
    ensures forall i :: 0 <= i < |old(ledger.users)| && UniqueItems(old(ledger.users)[i].inventory) ==>
              UniqueItems(ledger.users[i].inventory)
  {
    if user.None? {
      return;
    }
    var u := user.value;
    if u.points < item.price {
      return;
    }
    var existingItem := ItemIndex(u.inventory, item.id);
    if existingItem != -1 && item.kind != Boost {
      return;
    }
    if !confirmed {
      return;
    }
    var userIndex := IndexOf(ledger.users, u.id);
    if userIndex == -1 {
      return;
    }
    assert Purchases(ledger.users, user, item, confirmed);
    var users := ledger.users;
    var rec := users[userIndex];
    rec := rec.(points := rec.points - item.price, inventory := AddToInventory(rec.inventory, item, now));
    assert rec == Bought(users[userIndex], item, now);
    ledger.users := users[userIndex := rec];
    forall i | 0 <= i < |users| && UniqueItems(users[i].inventory)
      ensures UniqueItems(ledger.users[i].inventory)
    {
    }
    ledger.AddTransaction(u.id, u.username, SHOP_PURCHASE, -item.price, now);
  }
}
