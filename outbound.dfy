/**
 * `pages/Outbound.tsx`: the dispatch screen. A barcode scan takes a snapshot of the
 * matching product; shipping checks the requested amount against that snapshot and
 * then asks the store for an outbound movement, which checks the stock once more
 * against the live record.
 */
module Outbound {
  import opened Wrappers
  import opened Lists
  import opened Types
  import opened Strings
  import opened Storage

  /** The banner under the scanner. */
  datatype Notice =
    | ProductNotFound                                    // 'Mahsulot topilmadi!'
    | InvalidAmount                                      // "Miqdor noto'g'ri!"
    | NotEnoughStock(available: int, unit: UnitType)     // 'Omborda yetarli emas! Mavjud: …'
    | Shipped(name: string, amount: int, unit: UnitType) // '… chiqim qilindi.'
    | Failed                                             // 'Xatolik yuz berdi.'

  /**
   * The page's own checks on the snapshot, in order: a non-positive amount, then an
   * amount above the snapshot's stock. `None` lets the request through to the store.
   */
  function Precheck(p: Product, amount: int): (r: Option<Notice>)
    ensures r.None? <==> 0 < amount <= p.quantity
    ensures r.Some? ==> r.value == if amount <= 0 then InvalidAmount else NotEnoughStock(p.quantity, p.unit)
  {
    if amount <= 0 then Some(InvalidAmount)
    else if amount > p.quantity then Some(NotEnoughStock(p.quantity, p.unit))
    else None
  }

  /**
   * A snapshot that is still the live record, with an amount the page lets through,
   * always ships: the store's own check passes, the stock drops by exactly the amount
   * and stays non-negative, and one outbound transaction by 'System' is logged.
   */
  lemma FreshSnapshotShips(ps: seq<Product>, ts: seq<Transaction>, p: Product, amount: int,
                           txId: string, now: string)
    requires UniqueKeys(ps, ProductId) && p in ps
    requires Precheck(p, amount).None?
    ensures var r := StockUpdate(ps, ts, p.id, amount, TxType.Chiqim, SystemUser, txId, now);
      && r.ok
      && (exists k :: 0 <= k < |ps| && ps[k] == p && r.products[k].quantity == p.quantity - amount >= 0)
      && r.transactions[0] == Transaction(txId, p.id, p.name, TxType.Chiqim, amount, now, SystemUser)
  {
    var k := LocateProduct(ps, p);
    var r := StockUpdate(ps, ts, p.id, amount, TxType.Chiqim, SystemUser, txId, now);
    assert ps[k] == p && r.products[k].quantity == p.quantity - amount >= 0;
  }

  /**
   * The snapshot can be stale: it showed 5 in stock, someone shipped 3 meanwhile, and
   * a request for 4 passes the page's check but the store refuses it.
   */
  lemma StaleSnapshotIsRefused()
    ensures var seen := Product("p1", "Un", "Oziq", "111", 5, Kg, "t0");
      var live := seen.(quantity := 2, lastUpdated := "t1");
      && Precheck(seen, 4).None?
      && !StockUpdate([live], [], "p1", 4, TxType.Chiqim, SystemUser, "tx", "t2").ok
  {
    var seen := Product("p1", "Un", "Oziq", "111", 5, Kg, "t0");
    var live := seen.(quantity := 2, lastUpdated := "t1");
    IndexOfKeyIs([live], ProductId, "p1", 0);
  }

  /** The page's state: the scanner text, the snapshot, the amount field and the banner. */
  class OutboundPage {
    var barcode: string
    var product: Option<Product>
    var amount: int
    var notice: Option<Notice>

    constructor ()
      ensures barcode == "" && product == None && amount == 1 && notice == None
    {
      barcode, product, amount, notice := "", None, 1, None;
    }

    /** Typing in the scanner field. */
    method SetBarcode(text: string)
      modifies this
      ensures barcode == text
      ensures product == old(product) && amount == old(amount) && notice == old(notice)
    {
      barcode := text;
    }

    /** Typing in the amount field. */
    method SetAmount(value: int)
      modifies this
      ensures amount == value
      ensures barcode == old(barcode) && product == old(product) && notice == old(notice)
    {
      amount := value;
    }

    /** The '-' button: `Math.max(1, amount - 1)`, so the button never takes the amount below 1. */
    method Decrement()
      modifies this
      ensures amount >= 1
      ensures amount == if old(amount) - 1 > 1 then old(amount) - 1 else 1
      ensures barcode == old(barcode) && product == old(product) && notice == old(notice)
    {
      if amount - 1 > 1 {
        amount := amount - 1;
      } else {
        amount := 1;
      }
    }

    /** The '+' button. */
    method Increment()
      modifies this
      ensures amount == old(amount) + 1
      ensures barcode == old(barcode) && product == old(product) && notice == old(notice)
    {
      amount := amount + 1;
    }

    /**
     * `handleScan` on Enter: a blank code does nothing; otherwise the first product with
     * that barcode becomes the snapshot and the amount resets to 1, or the snapshot is
     * cleared and 'not found' is shown.
     */
    method HandleScan(store: Store)
      modifies this
      ensures barcode == old(barcode)
      ensures Trim(old(barcode)) == [] ==>
        product == old(product) && amount == old(amount) && notice == old(notice)
      ensures Trim(old(barcode)) != [] ==>
        && product == ProductByBarcode(old(store.products), Trim(old(barcode)))
        && (product.Some? ==> amount == 1 && notice == None)
        && (product.None? ==> amount == old(amount) && notice == Some(ProductNotFound))
    {
      var code := Trim(barcode);
      if code == [] {
        return;
      }
      var found := ProductByBarcode(store.products, code);
      if found.Some? {
        product := found;
        amount := 1;
        notice := None;
      } else {
        product := None;
        notice := Some(ProductNotFound);
      }
    }

    /**
     * `handleOutbound`: without a snapshot nothing happens; a refused precheck shows its
     * banner; otherwise the store performs the outbound movement as 'System' and the page
     * either resets with a success banner or keeps its state and shows the failure.
     */
    method HandleOutbound(store: Store, txId: string, now: string)
      modifies this, store
      ensures old(product).None? ==>
        && barcode == old(barcode) && product == old(product) && amount == old(amount) && notice == old(notice)
        && store.products == old(store.products) && store.transactions == old(store.transactions)
      ensures old(product).Some? && Precheck(old(product).value, old(amount)).Some? ==>
        && notice == Precheck(old(product).value, old(amount))
        && barcode == old(barcode) && product == old(product) && amount == old(amount)
        && store.products == old(store.products) && store.transactions == old(store.transactions)
      ensures old(product).Some? && Precheck(old(product).value, old(amount)).None? ==>
        var p := old(product).value;
        var r := StockUpdate(old(store.products), old(store.transactions), p.id, old(amount),
                             TxType.Chiqim, SystemUser, txId, now);
        && store.products == r.products && store.transactions == r.transactions
        && (r.ok ==> notice == Some(Shipped(p.name, old(amount), p.unit))
                     && product == None && barcode == "" && amount == 1)
        && (!r.ok ==> notice == Some(Failed)
                      && product == old(product) && barcode == old(barcode) && amount == old(amount))
      ensures store.users == old(store.users) && store.usersInitialised == old(store.usersInitialised)
      ensures old(store.Valid()) ==> store.Valid()
    {
      if product.None? {
        return;
      }
      var p := product.value;
      if amount <= 0 {
        notice := Some(InvalidAmount);
        return;
      }
      if amount > p.quantity {
        notice := Some(NotEnoughStock(p.quantity, p.unit));
        return;
      }
      var ok := store.UpdateStock(p.id, amount, TxType.Chiqim, SystemUser, txId, now);
      if ok {
        notice := Some(Shipped(p.name, amount, p.unit));
        product := None;
        barcode := "";
        amount := 1;
      } else {
        notice := Some(Failed);
      }
    }
  }
}
