/**
 * The shop purchase (src/commands/buy.ts): a quantity check, the shop lookup, the
 * confirm/cancel prompt, and one transaction that pays every price of the shop item in turn
 * and then credits the bought item.
 */
module Buy {
  import opened Types
  import opened Entities
  import opened State
  import opened ItemService
  import opened Numeric

  const AtLeastOne: string := "You must buy at least 1 item"
  const ItemNotFound: string := "Item not found"
  const Cancelled: string := "Purchase Cancelled"

  function NotEnough(shopId: string): string
  {
    "You do not have enough `" + shopId + "`"
  }

  /** The two buttons of the confirmation prompt. */
  datatype Press = Cancel | Confirm

  /**
   * The ledger after paying every price in turn, each `amount × quantity` of its item, or None
   * as soon as one balance falls short of its price.
   */
  function Pay(l: Ledger, user: UserId, prices: seq<ShopPrice>, quantity: int): (r: Option<Ledger>)
    ensures LedgerValid(l) && r.Some? ==> LedgerValid(r.value)
    decreases |prices|
  {
    if prices == [] then Some(l)
    else
      var cost := prices[0].amount * quantity;
      if GetItemCount(l, user, prices[0].item) < cost then None
      else
        var c := ChangedLedger(l, user, prices[0].item, -cost);
        ChangeEffect(l, user, prices[0].item, -cost);
        Pay(c.value, user, prices[1..], quantity)
  }

  /** What the prices of a list charge for one item: the sum of `amount × quantity` over the prices naming it. */
  function Cost(prices: seq<ShopPrice>, item: ItemId, quantity: int): int
    decreases |prices|
  {
    if prices == [] then 0
    else (if prices[0].item == item then prices[0].amount * quantity else 0) + Cost(prices[1..], item, quantity)
  }

  /** A price list that does not name an item charges nothing for it. */
  lemma {:induction false} CostUnnamed(prices: seq<ShopPrice>, item: ItemId, quantity: int)
    requires forall k :: 0 <= k < |prices| ==> prices[k].item != item
    ensures Cost(prices, item, quantity) == 0
    decreases |prices|
  {
    if prices != [] {
      CostUnnamed(prices[1..], item, quantity);
    }
  }

  /**
   * With distinct price items, paying succeeds exactly when every balance covers its own
   * price: no earlier debit can make a later price unaffordable.
   */
  lemma {:induction false} PaySucceeds(l: Ledger, user: UserId, prices: seq<ShopPrice>, quantity: int)
    requires PricesDistinct(prices)
    ensures Pay(l, user, prices, quantity).Some? <==>
      forall k :: 0 <= k < |prices| ==> GetItemCount(l, user, prices[k].item) >= prices[k].amount * quantity
    decreases |prices|
  {
    if prices != [] {
      var p := prices[0];
      var cost := p.amount * quantity;
      if GetItemCount(l, user, p.item) >= cost {
        var l1 := ChangedLedger(l, user, p.item, -cost).value;
        ChangeEffect(l, user, p.item, -cost);
        var rest := prices[1..];
        assert PricesDistinct(rest) by {
          forall i, j | 0 <= i < j < |rest| ensures rest[i].item != rest[j].item {
            assert rest[i] == prices[i + 1] && rest[j] == prices[j + 1];
          }
        }
        PaySucceeds(l1, user, rest, quantity);
        forall k | 0 <= k < |rest|
          ensures GetItemCount(l1, user, rest[k].item) == GetItemCount(l, user, rest[k].item)
        {
          assert rest[k] == prices[k + 1];
        }
        if forall k :: 0 <= k < |prices| ==> GetItemCount(l, user, prices[k].item) >= prices[k].amount * quantity {
          forall k | 0 <= k < |rest| ensures GetItemCount(l1, user, rest[k].item) >= rest[k].amount * quantity {
            assert rest[k] == prices[k + 1];
          }
        }
        if Pay(l, user, prices, quantity).Some? {
          forall k | 0 <= k < |prices| ensures GetItemCount(l, user, prices[k].item) >= prices[k].amount * quantity {
            if k > 0 {
              assert prices[k] == rest[k - 1];
            }
          }
        }
      }
    }
  }

  /**
   * A successful payment debits every item of the user by what the list charges for it and
   * leaves every other user's balances alone.
   */
  lemma {:induction false} PayEffect(l: Ledger, user: UserId, prices: seq<ShopPrice>, quantity: int)
    requires Pay(l, user, prices, quantity).Some?
    ensures var l' := Pay(l, user, prices, quantity).value;
      forall u, i :: GetItemCount(l', u, i) == GetItemCount(l, u, i) - (if u == user then Cost(prices, i, quantity) else 0)
    decreases |prices|
  {
    if prices != [] {
      var p := prices[0];
      var cost := p.amount * quantity;
      var l1 := ChangedLedger(l, user, p.item, -cost).value;
      ChangeEffect(l, user, p.item, -cost);
      PayEffect(l1, user, prices[1..], quantity);
      forall u, i ensures GetItemCount(l1, u, i) == GetItemCount(l, u, i) - (if u == user && i == p.item then cost else 0) {
        if (u, i) != (user, p.item) {
          assert ((u, i) in l1) == ((u, i) in l);
        }
      }
    }
  }

  /**
   * The purchase as the command decides it: the quantity check, the shop lookup, the prompt,
   * then the payment and the credit of `quantity` bought items.
   */
  function Purchase(shop: map<string, ShopItem>, l: Ledger, user: UserId, shopId: string, quantity: int, press: Press): (r: Result<Ledger>)
    ensures quantity <= 0 ==> r == Err(AtLeastOne)
    ensures quantity > 0 && shopId !in shop ==> r == Err(ItemNotFound)
    ensures quantity > 0 && shopId in shop && press.Cancel? ==> r == Err(Cancelled)
    ensures r.Ok? ==> quantity > 0 && shopId in shop && press.Confirm?
    ensures quantity > 0 && shopId in shop && press.Confirm? ==>
      (Pay(l, user, shop[shopId].prices, quantity).None? ==> r == Err(NotEnough(shopId))) &&
      (LedgerValid(l) ==> (r.Ok? <==> Pay(l, user, shop[shopId].prices, quantity).Some?))
    ensures LedgerValid(l) && r.Ok? ==> LedgerValid(r.value)
  {
    if quantity <= 0 then Err(AtLeastOne)
    else if shopId !in shop then Err(ItemNotFound)
    else if press.Cancel? then Err(Cancelled)
    else
      var paid := Pay(l, user, shop[shopId].prices, quantity);
      if paid.None? then Err(NotEnough(shopId))
      else
        var credited := ChangedLedger(paid.value, user, shop[shopId].item, quantity);
        if credited.Err? then Err(credited.message)
        else
          ChangeEffect(paid.value, user, shop[shopId].item, quantity);
          Ok(credited.value)
  }

  /**
   * A purchase goes through exactly when every price is covered; it then takes
   * `amount × quantity` of each price item and gives `quantity` of the bought item, and no
   * other balance moves.
   */
  lemma {:induction false} PurchaseEffect(shop: map<string, ShopItem>, l: Ledger, user: UserId, shopId: string, quantity: int)
    requires quantity > 0 && shopId in shop && PricesDistinct(shop[shopId].prices) && LedgerValid(l)
    ensures var r := Purchase(shop, l, user, shopId, quantity, Confirm);
      var s := shop[shopId];
      (r.Ok? <==> forall k :: 0 <= k < |s.prices| ==> GetItemCount(l, user, s.prices[k].item) >= s.prices[k].amount * quantity) &&
      (r.Ok? ==>
         forall u, i :: GetItemCount(r.value, u, i) ==
                          GetItemCount(l, u, i) - (if u == user then Cost(s.prices, i, quantity) else 0) +
                          (if u == user && i == s.item then quantity else 0))
  {
    var s := shop[shopId];
    PaySucceeds(l, user, s.prices, quantity);
    var paid := Pay(l, user, s.prices, quantity);
    if paid.Some? {
      PayEffect(l, user, s.prices, quantity);
      ChangeEffect(paid.value, user, s.item, quantity);
      var l' := Purchase(shop, l, user, shopId, quantity, Confirm).value;
      forall u, i ensures GetItemCount(l', u, i) == GetItemCount(paid.value, u, i) + (if u == user && i == s.item then quantity else 0) {
        if (u, i) != (user, s.item) {
          assert ((u, i) in l') == ((u, i) in paid.value);
        }
      }
    }
  }

  /** With distinct price items, each price item loses exactly its own `amount × quantity`. */
  lemma {:induction false} CostOfNamed(prices: seq<ShopPrice>, k: int, quantity: int)
    requires PricesDistinct(prices) && 0 <= k < |prices|
    ensures Cost(prices, prices[k].item, quantity) == prices[k].amount * quantity
    decreases |prices|
  {
    var rest := prices[1..];
    if k == 0 {
      CostUnnamed(rest, prices[0].item, quantity);
    } else {
      assert PricesDistinct(rest) by {
        forall i, j | 0 <= i < j < |rest| ensures rest[i].item != rest[j].item {
          assert rest[i] == prices[i + 1] && rest[j] == prices[j + 1];
        }
      }
      assert rest[k - 1] == prices[k];
      CostOfNamed(rest, k - 1, quantity);
    }
  }

  /**
   * chatInputRun: reject a non-positive quantity and an unknown shop item, wait for the
   * prompt, then in one transaction check and debit each price in turn; a price the user
   * cannot cover aborts the transaction, which undoes the debits already made.
   */
  method BuyItem(w: World, user: UserId, shopId: string, quantity: int, press: Press) returns (r: Result<()>)
    requires w.Valid()
    modifies w`ledger
    ensures w.Valid()
    ensures var p := Purchase(w.shop, old(w.ledger), user, shopId, quantity, press);
      if p.Ok? then r == Ok(()) && w.ledger == p.value
      else r == Err(p.message) && w.ledger == old(w.ledger)
  {
    if quantity <= 0 {
      return Err(AtLeastOne);
    }
    if shopId !in w.shop {
      return Err(ItemNotFound);
    }
    if press.Cancel? {
      return Err(Cancelled);
    }
    var item := w.shop[shopId];
    var paid := PayPrices(w, user, item.prices, quantity);
    if !paid {
      return Err(NotEnough(shopId));
    }
    assert Floor(quantity as real) == quantity;
    var _ := ChangeItemCount(w, user, item.item, quantity as real);
    r := Ok(());
  }

  /**
   * The debit loop of the purchase: take `amount × quantity` of each price item in turn; a
   * balance that falls short aborts and the transaction undoes the debits already made.
   */
  method PayPrices(w: World, user: UserId, prices: seq<ShopPrice>, quantity: int) returns (paid: bool)
    requires w.Valid()
    modifies w`ledger
    ensures w.Valid()
    ensures var p := Pay(old(w.ledger), user, prices, quantity);
      if p.Some? then paid && w.ledger == p.value else !paid && w.ledger == old(w.ledger)
  {
    var ledger0 := w.ledger;
    var k := 0;
    while k < |prices|
      invariant 0 <= k <= |prices|
      invariant w.Valid()
      invariant Pay(ledger0, user, prices, quantity) == Pay(w.ledger, user, prices[k..], quantity)
    {
      PayStep(w.ledger, user, prices[k..], quantity);
      assert prices[k..][1..] == prices[k + 1..];
      var debited := DebitPrice(w, user, prices[k], quantity);
      if !debited {
        // The thrown error rolls the transaction back.
        w.ledger := ledger0;
        return false;
      }
      k := k + 1;
    }
    return true;
  }

  /** One price of the loop: debit `amount × quantity` of its item, or refuse when the balance is short. */
  method DebitPrice(w: World, user: UserId, price: ShopPrice, quantity: int) returns (debited: bool)
    requires w.Valid()
    modifies w`ledger
    ensures w.Valid()
    ensures var cost := price.amount * quantity;
      debited == (GetItemCount(old(w.ledger), user, price.item) >= cost) &&
      (debited ==> w.ledger == ChangedLedger(old(w.ledger), user, price.item, -cost).value) &&
      (!debited ==> w.ledger == old(w.ledger))
  {
    var cost := price.amount * quantity;
    if GetItemCount(w.ledger, user, price.item) < cost {
      return false;
    }
    assert Floor((-cost) as real) == -cost;
    var _ := ChangeItemCount(w, user, price.item, (-cost) as real);
    return true;
  }

  /** One step of Pay: a short balance stops it, a covered one debits and pays the rest. */
  lemma {:induction false} PayStep(l: Ledger, user: UserId, prices: seq<ShopPrice>, quantity: int)
    requires prices != []
    ensures var cost := prices[0].amount * quantity;
      if GetItemCount(l, user, prices[0].item) < cost then Pay(l, user, prices, quantity).None?
      else Pay(l, user, prices, quantity) == Pay(ChangedLedger(l, user, prices[0].item, -cost).value, user, prices[1..], quantity)
  {
  }
}
