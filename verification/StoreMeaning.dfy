/** When a purchase is made, why it is refused, and what it does, in terms of the tables alone. */
module StoreMeaning {
  import opened Options
  import opened Ledger
  import opened LedgerMeaning
  import opened DerivedKeys
  import opened Store
  import StoreConservation

  /** The item is there and for sale. */
  predicate Offered(shop: Shop, order: Order) {
    ItemKey(order.creator, order.name) in shop.items && shop.items[ItemKey(order.creator, order.name)].enabled
  }

  function ItemOf(shop: Shop, order: Order): Item
    requires Offered(shop, order)
  {
    shop.items[ItemKey(order.creator, order.name)]
  }

  /** Units of the item the viewer holds. */
  function UnitsHeld(shop: Shop, order: Order): int
    requires Offered(shop, order)
  {
    var h := Holding(order.creator, order.viewer, ItemOf(shop, order).id);
    if h in shop.inventory then shop.inventory[h] else 0
  }

  predicate BelowCap(shop: Shop, order: Order)
    requires Offered(shop, order)
  {
    ItemOf(shop, order).maxPerUser > 0 ==> UnitsHeld(shop, order) < ItemOf(shop, order).maxPerUser
  }

  /** The key of the payment: the order's own, or one made of viewer, item and price. */
  function KeyOf(shop: Shop, order: Order): string
    requires Offered(shop, order)
  {
    var item := ItemOf(shop, order);
    if Keyless(order.key) then
      "buy:" + order.creator + ":" + order.viewer + ":" + item.id + ":" + Decimal(item.price)
    else order.key.value
  }

  predicate Paid(shop: Shop, order: Order)
    requires Offered(shop, order)
  {
    Has(shop.book, order.creator, KeyOf(shop, order))
  }

  function Purse(shop: Shop, order: Order): int { Coins(shop.book, Account(order.creator, order.viewer, Viewer)) }

  lemma PaymentIsSpend(shop: Shop, order: Order)
    requires Offered(shop, order)
    ensures KeyOf(shop, order) != ""
    ensures Payment(order, ItemOf(shop, order))
            == Spend(order.creator, order.viewer, ItemOf(shop, order).price, "Purchased " + order.name,
                     Some(KeyOf(shop, order)))
  {
  }

  /** Main result: a purchase is made if and only if the item is offered, not sold out, below the viewer's cap, has a
      positive price, and the payment key is on record or the viewer's coins cover the price. */
  lemma BoughtIff(shop: Shop, order: Order)
    ensures OutcomeOf(shop, order).Bought? <==>
            && Offered(shop, order)
            && ItemOf(shop, order).stock != 0
            && BelowCap(shop, order)
            && ItemOf(shop, order).price >= 1
            && (Paid(shop, order) || Purse(shop, order) >= ItemOf(shop, order).price)
  {
    if Offered(shop, order) {
      PaymentIsSpend(shop, order);
      SpendByKey(shop.book, order.creator, order.viewer, ItemOf(shop, order).price, "Purchased " + order.name,
                 KeyOf(shop, order));
    }
  }

  /** Main result: which refusal is given, in the order in which the conditions are looked at. A refused order
      changes nothing. */
  lemma RefusedBecause(shop: Shop, order: Order)
    ensures var outcome := OutcomeOf(shop, order);
            if !Offered(shop, order) then outcome == Unavailable else
            var item := ItemOf(shop, order);
            if item.stock == 0 then outcome == OutOfStock
            else if !BelowCap(shop, order) then outcome == LimitReached
            else if item.price <= 0 then outcome == PaymentFailed(InvalidAmount)
            else if !Paid(shop, order) && Purse(shop, order) < item.price
            then outcome == PaymentFailed(InsufficientFunds(item.price, Purse(shop, order)))
            else outcome.Bought?
    ensures !OutcomeOf(shop, order).Bought? ==> Purchase(shop, order) == shop
  {
    if Offered(shop, order) {
      PaymentIsSpend(shop, order);
      SpendByKey(shop.book, order.creator, order.viewer, ItemOf(shop, order).price, "Purchased " + order.name,
                 KeyOf(shop, order));
    }
  }

  /** What a purchase does to item and inventory: one unit leaves a finite stock, the buyer holds one more, and no
      other item or holding changes. */
  lemma PurchaseGrants(shop: Shop, order: Order)
    requires OutcomeOf(shop, order).Bought?
    ensures Offered(shop, order)
    ensures var k, item := ItemKey(order.creator, order.name), ItemOf(shop, order);
            var h := Holding(order.creator, order.viewer, item.id);
            var after := Purchase(shop, order);
            && after.items == shop.items[k := item.(stock := if item.stock > 0 then item.stock - 1 else item.stock)]
            && after.inventory == shop.inventory[h := UnitsHeld(shop, order) + 1]
            && OutcomeOf(shop, order) == Bought(UnitsHeld(shop, order) + 1)
  {
  }

  /** And to the ledger: the buyer pays the price to the sink, unless the key is on record, when no coin moves. */
  lemma PurchasePays(shop: Shop, order: Order)
    requires OutcomeOf(shop, order).Bought? && Offered(shop, order)
    ensures Paid(shop, order) ==> Purchase(shop, order).book == shop.book
    ensures !Paid(shop, order) ==>
              Moved(shop.book, Purchase(shop, order).book, Account(order.creator, order.viewer, Viewer),
                    Account(order.creator, "__system_sink__", SystemSink), ItemOf(shop, order).price,
                    Transaction(TxId(order.creator, KeyOf(shop, order)), PurchaseTx, "Purchased " + order.name))
  {
    PaymentIsSpend(shop, order);
    SpendByKey(shop.book, order.creator, order.viewer, ItemOf(shop, order).price, "Purchased " + order.name,
               KeyOf(shop, order));
  }

  /** Without a key of their own, two orders of one viewer share a payment exactly when item and price agree. */
  lemma DefaultKeysAgree(shop: Shop, first: Order, later: Shop, second: Order)
    requires Offered(shop, first) && Offered(later, second) && Keyless(first.key) && Keyless(second.key)
    requires first.creator == second.creator && first.viewer == second.viewer
    requires ItemOf(shop, first).price >= 0 && ItemOf(later, second).price >= 0
    ensures KeyOf(shop, first) == KeyOf(later, second)
            <==> ItemOf(shop, first).id == ItemOf(later, second).id
                 && ItemOf(shop, first).price == ItemOf(later, second).price
  {
    var a, b := ItemOf(shop, first), ItemOf(later, second);
    DefaultKeyIs(shop, first);
    DefaultKeyIs(later, second);
    SamePrefix("buy:" + first.creator + ":" + first.viewer + ":",
               a.id + ":" + Decimal(a.price), b.id + ":" + Decimal(b.price));
    LastNumber(a.id, b.id, a.price, b.price);
  }

  lemma DefaultKeyIs(shop: Shop, order: Order)
    requires Offered(shop, order) && Keyless(order.key)
    ensures var item := ItemOf(shop, order);
            KeyOf(shop, order)
            == ("buy:" + order.creator + ":" + order.viewer + ":") + (item.id + ":" + Decimal(item.price))
  {
  }

  lemma ActLeavesDisabled(shop: Shop, op: StoreConservation.Op, k: ItemKey)
    requires k in shop.items && !shop.items[k].enabled
    ensures var after := StoreConservation.Act(shop, op);
            && k in after.items && after.items[k] == shop.items[k]
            && StoreConservation.UnitsOf(k)(shop, op) == 0
  {
    if op.Buy? && op.order.Key() == k {
      BoughtIff(shop, op.order);
    }
  }

  /** Over any run a disabled item keeps its stock, and no unit of it is granted. */
  lemma {:induction false} DisabledItemsStay(shop: Shop, ops: seq<StoreConservation.Op>, k: ItemKey)
    requires k in shop.items && !shop.items[k].enabled
    ensures var end := StoreConservation.RunShop(shop, ops);
            && k in end.items && end.items[k] == shop.items[k]
            && StoreConservation.Sum(shop, ops, StoreConservation.UnitsOf(k)) == 0
    decreases |ops|
  {
    if ops != [] {
      DisabledItemsStay(shop, ops[..|ops| - 1], k);
      ActLeavesDisabled(StoreConservation.RunShop(shop, ops[..|ops| - 1]), ops[|ops| - 1], k);
    }
  }
}
