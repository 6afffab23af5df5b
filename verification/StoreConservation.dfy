/** Stock, ownership and payment over whole runs of purchases mixed with ledger calls. */
module StoreConservation {
  import opened Options
  import opened Sums
  import opened Ledger
  import opened Store
  import LedgerReplay

  datatype Op = Buy(order: Order) | Coins(call: Call)

  function Act(shop: Shop, op: Op): Shop {
    match op
    case Buy(order) => Purchase(shop, order)
    case Coins(call) => shop.(book := Step(shop.book, call))
  }

  function RunShop(shop: Shop, ops: seq<Op>): Shop
    decreases |ops|
  {
    if ops == [] then shop else Act(RunShop(shop, ops[..|ops| - 1]), ops[|ops| - 1])
  }

  predicate Granted(shop: Shop, op: Op) { op.Buy? && OutcomeOf(shop, op.order).Bought? }

  /** The payment key of a granted purchase had not been used before. */
  predicate Fresh(shop: Shop, op: Op)
    requires Granted(shop, op)
  {
    !Recorded(shop.book, LedgerReplay.IdOf(Payment(op.order, shop.items[op.order.Key()])))
  }

  /** Sums `weight` over the steps of a run, each taken in the state it ran in. */
  function Sum(shop: Shop, ops: seq<Op>, weight: (Shop, Op) -> int): int
    decreases |ops|
  {
    if ops == [] then 0 else
      var before, last := ops[..|ops| - 1], ops[|ops| - 1];
      Sum(shop, before, weight) + weight(RunShop(shop, before), last)
  }

  function UnitsOf(k: ItemKey): (Shop, Op) -> int {
    (s: Shop, op: Op) => if Granted(s, op) && op.order.Key() == k then 1 else 0
  }

  function PriceOf(c: string): (Shop, Op) -> int {
    (s: Shop, op: Op) => if Granted(s, op) && op.order.creator == c then s.items[op.order.Key()].price else 0
  }

  function UnpaidOf(c: string): (Shop, Op) -> int {
    (s: Shop, op: Op) =>
      if Granted(s, op) && op.order.creator == c && !Fresh(s, op) then s.items[op.order.Key()].price else 0
  }

  function SpentDirectlyOf(c: string): (Shop, Op) -> int {
    (s: Shop, op: Op) =>
      if op.Coins? && op.call.Spend? && op.call.creator == c && AnswerTo(s.book, op.call).Success?
      then op.call.amount else 0
  }

  // ----- stock and ownership -----

  ghost predicate ItemIdsUnique(shop: Shop) {
    forall k, j :: k in shop.items && j in shop.items && k != j ==> shop.items[k].id != shop.items[j].id
  }

  /** Units of one item held by all viewers together. */
  ghost function Owned(shop: Shop, id: string): int {
    Total(HoldersOf(shop.inventory, id))
  }

  /** Nobody holds more than a positive cap allows. */
  ghost predicate CapsRespected(shop: Shop) {
    forall k, h :: k in shop.items && h in shop.inventory && h.item == shop.items[k].id && h.creator == k.creator
                   && shop.items[k].maxPerUser > 0
                   ==> shop.inventory[h] <= shop.items[k].maxPerUser
  }

  /** Only the stock of an item ever changes. */
  ghost predicate SameCatalogue(before: Shop, after: Shop) {
    && before.items.Keys == after.items.Keys
    && forall k :: k in before.items ==> after.items[k] == before.items[k].(stock := after.items[k].stock)
  }

  lemma ActKeepsStock(shop: Shop, op: Op, k: ItemKey)
    requires k in shop.items
    ensures SameCatalogue(shop, Act(shop, op))
    ensures Act(shop, op).items[k].stock
            == shop.items[k].stock - (if shop.items[k].stock > 0 then UnitsOf(k)(shop, op) else 0)
    ensures shop.items[k].stock == 0 ==> UnitsOf(k)(shop, op) == 0
  {
  }

  ghost function HoldersOf(inventory: map<Holding, int>, id: string): map<Holding, int> {
    map h | h in inventory && h.item == id :: inventory[h]
  }

  lemma GrantAddsOne(inventory: map<Holding, int>, h: Holding, id: string)
    ensures Total(HoldersOf(inventory[h := Held(inventory, h) + 1], id))
            == Total(HoldersOf(inventory, id)) + (if h.item == id then 1 else 0)
  {
    var before, n := HoldersOf(inventory, id), Held(inventory, h) + 1;
    TotalUpdate(before, h, n);
    assert HoldersOf(inventory[h := n], id) == if h.item == id then before[h := n] else before;
  }

  lemma ActKeepsOwned(shop: Shop, op: Op, k: ItemKey)
    requires ItemIdsUnique(shop) && k in shop.items
    ensures Owned(Act(shop, op), shop.items[k].id) == Owned(shop, shop.items[k].id) + UnitsOf(k)(shop, op)
  {
    if Granted(shop, op) {
      GrantAddsOne(shop.inventory, HoldingOf(op.order, shop.items[op.order.Key()]), shop.items[k].id);
    }
  }

  lemma ActKeepsCaps(shop: Shop, op: Op)
    requires ItemIdsUnique(shop) && CapsRespected(shop)
    ensures CapsRespected(Act(shop, op)) && ItemIdsUnique(Act(shop, op))
  {
  }

  /** Main result: over any run, a finite stock never goes negative and falls by exactly the units
      granted, an unlimited one never changes, viewers own exactly what was granted, and no viewer
      exceeds a positive cap. */
  lemma {:induction false} StockIsConserved(shop: Shop, ops: seq<Op>, k: ItemKey)
    requires ItemIdsUnique(shop) && CapsRespected(shop) && k in shop.items
    ensures var end := RunShop(shop, ops);
            && SameCatalogue(shop, end) && ItemIdsUnique(end) && CapsRespected(end)
            && (shop.items[k].stock >= 0 ==>
                  0 <= end.items[k].stock == shop.items[k].stock - Sum(shop, ops, UnitsOf(k)))
            && (shop.items[k].stock < 0 ==> end.items[k].stock == shop.items[k].stock)
            && Owned(end, shop.items[k].id) == Owned(shop, shop.items[k].id) + Sum(shop, ops, UnitsOf(k))
    decreases |ops|
  {
    if ops != [] {
      var before := ops[..|ops| - 1];
      StockIsConserved(shop, before, k);
      ActKeepsStock(RunShop(shop, before), ops[|ops| - 1], k);
      ActKeepsOwned(RunShop(shop, before), ops[|ops| - 1], k);
      ActKeepsCaps(RunShop(shop, before), ops[|ops| - 1]);
    }
  }

  // ----- payment -----

  ghost function SinkBalance(shop: Shop, c: string): int { BalanceOf(shop.book.balances, SinkOf(c)) }

  lemma SinkAfterAct(shop: Shop, op: Op, c: string)
    ensures SinkBalance(Act(shop, op), c) == SinkBalance(shop, c)
            + PriceOf(c)(shop, op) - UnpaidOf(c)(shop, op) + SpentDirectlyOf(c)(shop, op)
    ensures UnpaidOf(c)(shop, op) >= 0
    ensures Granted(shop, op) && op.order.creator == c ==> (UnpaidOf(c)(shop, op) == 0 <==> Fresh(shop, op))
  {
  }

  /** Main result: the sink gains the price of every granted unit plus the direct spends, less the
      purchases that reused a payment key. */
  lemma {:induction false} SinkIsConserved(shop: Shop, ops: seq<Op>, c: string)
    ensures SinkBalance(RunShop(shop, ops), c) == SinkBalance(shop, c) + Sum(shop, ops, PriceOf(c))
            - Sum(shop, ops, UnpaidOf(c)) + Sum(shop, ops, SpentDirectlyOf(c))
    ensures Sum(shop, ops, UnpaidOf(c)) >= 0
    decreases |ops|
  {
    if ops != [] {
      SinkIsConserved(shop, ops[..|ops| - 1], c);
      SinkAfterAct(RunShop(shop, ops[..|ops| - 1]), ops[|ops| - 1], c);
    }
  }

  ghost predicate AllFresh(shop: Shop, ops: seq<Op>, c: string) {
    forall i {:trigger ops[i]} ::
      0 <= i < |ops| && Granted(RunShop(shop, ops[..i]), ops[i]) && ops[i].order.creator == c
      ==> Fresh(RunShop(shop, ops[..i]), ops[i])
  }

  /** Main result: a creator is paid in full for what was granted if and only if every granted
      purchase used a fresh payment key. */
  lemma {:induction false} PaidInFullIffFresh(shop: Shop, ops: seq<Op>, c: string)
    ensures SinkBalance(RunShop(shop, ops), c)
              == SinkBalance(shop, c) + Sum(shop, ops, PriceOf(c)) + Sum(shop, ops, SpentDirectlyOf(c))
            <==> AllFresh(shop, ops, c)
    decreases |ops|
  {
    SinkIsConserved(shop, ops, c);
    if ops != [] {
      var n := |ops| - 1;
      var before := ops[..n];
      SinkIsConserved(shop, before, c);
      PaidInFullIffFresh(shop, before, c);
      SinkAfterAct(RunShop(shop, before), ops[n], c);
      FreshSplit(shop, ops, c);
    }
  }

  lemma FreshSplit(shop: Shop, ops: seq<Op>, c: string)
    requires ops != []
    ensures var n := |ops| - 1;
            AllFresh(shop, ops, c) <==>
            AllFresh(shop, ops[..n], c)
            && (Granted(RunShop(shop, ops[..n]), ops[n]) && ops[n].order.creator == c ==>
                  Fresh(RunShop(shop, ops[..n]), ops[n]))
  {
    var n := |ops| - 1;
    assert forall i :: 0 <= i < n ==> ops[..n][..i] == ops[..i] && ops[..n][i] == ops[i];
  }

  // ----- two consequences of the way keys and prices are checked -----

  lemma {:induction false} BookGrows(shop: Shop, ops: seq<Op>, id: TxId)
    requires Recorded(shop.book, id)
    ensures Recorded(RunShop(shop, ops).book, id)
    decreases |ops|
  {
    if ops != [] {
      var before := RunShop(shop, ops[..|ops| - 1]);
      BookGrows(shop, ops[..|ops| - 1], id);
      match ops[|ops| - 1] {
        case Buy(order) =>
          if Granted(before, ops[|ops| - 1]) {
            LedgerReplay.RecordedStays(before.book, [Payment(order, before.items[order.Key()])], id);
          }
        case Coins(call) => LedgerReplay.RecordedStays(before.book, [call], id);
      }
    }
  }

  /** Once a viewer bought an item, buying it again under the same key is free: whatever happened in
      between, a second order that passes the stock and cap checks is granted and no coin moves.
      Orders without an explicit key always share one as long as the price is the same. */
  lemma RepeatPurchaseIsFree(shop: Shop, ops: seq<Op>, first: Order, second: Order)
    requires OutcomeOf(shop, first).Bought?
    requires first.creator == second.creator
    requires var later := RunShop(Purchase(shop, first), ops);
             && (OutcomeOf(later, second).Bought? || OutcomeOf(later, second).PaymentFailed?)
             && later.items[second.Key()].price > 0
             && PaymentKey(second, later.items[second.Key()]) == PaymentKey(first, shop.items[first.Key()])
    ensures var later := RunShop(Purchase(shop, first), ops);
            OutcomeOf(later, second).Bought? && Purchase(later, second).book == later.book
  {
    var call := Payment(first, shop.items[first.Key()]);
    var after := Purchase(shop, first);
    LedgerReplay.OkMeansRecorded(shop.book, call);
    BookGrows(after, ops, LedgerReplay.IdOf(call));
  }

  /** An item priced at zero can never be bought: the ledger refuses the payment. */
  lemma FreeItemsNeverSell(shop: Shop, order: Order)
    requires order.Key() in shop.items && shop.items[order.Key()].price <= 0
    ensures !OutcomeOf(shop, order).Bought? && Purchase(shop, order) == shop
  {
  }

  lemma ActLeavesUnpriced(shop: Shop, op: Op, k: ItemKey)
    requires k in shop.items && shop.items[k].price <= 0
    ensures k in Act(shop, op).items && Act(shop, op).items[k] == shop.items[k] && UnitsOf(k)(shop, op) == 0
  {
    if op.Buy? && op.order.Key() == k {
      FreeItemsNeverSell(shop, op.order);
    }
  }

  /** So over any run an item without a positive price keeps its stock, and no unit of it is granted. */
  lemma {:induction false} UnpricedItemsStay(shop: Shop, ops: seq<Op>, k: ItemKey)
    requires k in shop.items && shop.items[k].price <= 0
    ensures k in RunShop(shop, ops).items && RunShop(shop, ops).items[k] == shop.items[k]
    ensures Sum(shop, ops, UnitsOf(k)) == 0
    decreases |ops|
  {
    if ops != [] {
      UnpricedItemsStay(shop, ops[..|ops| - 1], k);
      ActLeavesUnpriced(RunShop(shop, ops[..|ops| - 1]), ops[|ops| - 1], k);
    }
  }
}
