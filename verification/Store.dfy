/** The coin store: a purchase checks stock and cap, pays through the ledger, then takes one unit of
    stock and grants it. */
module Store {
  import opened Options
  import opened Ledger

  datatype ItemKey = ItemKey(creator: string, name: string)

  /** A stock of zero is sold out, a negative one unlimited; only a positive cap limits a viewer. */
  datatype Item = Item(id: string, price: int, stock: int, maxPerUser: int, enabled: bool)

  datatype Holding = Holding(creator: string, viewer: string, item: string)

  datatype Shop = Shop(items: map<ItemKey, Item>, inventory: map<Holding, int>, book: Book)

  datatype Order = Order(creator: string, viewer: string, name: string, key: Option<string>)
  {
    function Key(): ItemKey { ItemKey(creator, name) }
  }

  datatype Outcome =
    | Bought(quantity: int)
    | Unavailable
    | OutOfStock
    | LimitReached
    | PaymentFailed(reason: Answer)

  function Held(inventory: map<Holding, int>, h: Holding): int {
    if h in inventory then inventory[h] else 0
  }

  function HoldingOf(order: Order, item: Item): Holding { Holding(order.creator, order.viewer, item.id) }

  /** Without an explicit key, viewer, item and price alone identify the payment. */
  function PaymentKey(order: Order, item: Item): string {
    KeyOr(order.key, "buy:" + order.creator + ":" + order.viewer + ":" + item.id + ":" + Decimal(item.price))
  }

  function Payment(order: Order, item: Item): Call {
    Spend(order.creator, order.viewer, item.price, "Purchased " + order.name, Some(PaymentKey(order, item)))
  }

  function OutcomeOf(shop: Shop, order: Order): Outcome {
    if order.Key() !in shop.items || !shop.items[order.Key()].enabled then Unavailable else
      var item := shop.items[order.Key()];
      var held := Held(shop.inventory, HoldingOf(order, item));
      if item.stock == 0 then OutOfStock
      else if item.maxPerUser > 0 && HoldingOf(order, item) in shop.inventory && held >= item.maxPerUser
      then LimitReached
      else if !AnswerTo(shop.book, Payment(order, item)).Ok() then
        PaymentFailed(AnswerTo(shop.book, Payment(order, item)))
      else Bought(held + 1)
  }

  function Purchase(shop: Shop, order: Order): Shop {
    if !OutcomeOf(shop, order).Bought? then shop else
      var item := shop.items[order.Key()];
      var h := HoldingOf(order, item);
      Shop(shop.items[order.Key() := item.(stock := if item.stock > 0 then item.stock - 1 else item.stock)],
           shop.inventory[h := Held(shop.inventory, h) + 1],
           Step(shop.book, Payment(order, item)))
  }

  class StoreService {
    const economy: EconomyService
    var items: map<ItemKey, Item>
    var inventory: map<Holding, int>

    function Rows(): Shop
      reads this, economy
    {
      Shop(items, inventory, economy.Rows())
    }

    constructor (economy: EconomyService, items: map<ItemKey, Item>)
      ensures this.economy == economy
      ensures Rows() == Shop(items, map[], economy.Rows())
    {
      this.economy := economy;
      this.items := items;
      this.inventory := map[];
    }

    method GrantInventory(h: Holding, quantity: int) returns (total: int)
      modifies this`inventory
      ensures total == Held(old(inventory), h) + quantity
      ensures inventory == old(inventory)[h := total]
    {
      if h !in inventory {
        inventory := inventory[h := quantity];
      } else {
        inventory := inventory[h := inventory[h] + quantity];
      }
      total := inventory[h];
    }

    method PurchaseItem(order: Order) returns (outcome: Outcome)
      modifies this, economy
      ensures outcome == OutcomeOf(old(Rows()), order)
      ensures Rows() == Purchase(old(Rows()), order)
    {
      if order.Key() !in items || !items[order.Key()].enabled {
        return Unavailable;
      }
      var item := items[order.Key()];
      if item.stock == 0 {
        return OutOfStock;
      }
      var h := HoldingOf(order, item);
      if item.maxPerUser > 0 {
        if h in inventory && inventory[h] >= item.maxPerUser {
          return LimitReached;
        }
      }
      var answer := economy.Spend(order.creator, order.viewer, item.price, "Purchased " + order.name,
                                  Some(PaymentKey(order, item)));
      if !answer.Ok() {
        return PaymentFailed(answer);
      }
      if item.stock > 0 {
        items := items[order.Key() := item.(stock := item.stock - 1)];
      }
      var quantity := GrantInventory(h, 1);
      return Bought(quantity);
    }
  }
}
