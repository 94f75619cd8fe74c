/**
 * `pages/Inbound.tsx`: the receiving screen. A scan either loads an existing product
 * into the form (which then locks its descriptive fields) or prepares a new product
 * with the scanned code; submitting either registers the new product or adds the
 * entered quantity to the existing one, and then resets the form.
 */
module Inbound {
  import opened Wrappers
  import opened Lists
  import opened Types
  import opened Strings
  import opened Storage

  /** The banner above the form. */
  datatype Notice =
    | ProductFound       // 'Mahsulot topildi! Miqdorni kiriting.'
    | NewProduct         // "Yangi mahsulot! Ma'lumotlarni to'ldiring."
    | BarcodeGenerated   // 'Yangi shtrix-kod yaratildi.'
    | MissingFields      // "Barcha maydonlarni to'ldiring!"
    | ProductAdded       // "Yangi mahsulot bazaga qo'shildi!"
    | StockUpdated       // 'Mahsulot miqdori yangilandi!'

  /** The select option that reveals the new-category field. */
  const NewCategoryOption := "new"

  /**
   * `newCategory.trim() || category`: the typed category, trimmed, when it has any
   * non-blank character, else the selected one. It is empty exactly when both are
   * blank in that sense.
   */
  function FinalCategory(category: string, newCategory: string): (r: string)
    ensures !IsBlank(newCategory) ==> r == Trim(newCategory) && r != []
    ensures IsBlank(newCategory) ==> r == category
    ensures r == [] <==> category == [] && IsBlank(newCategory)
  {
    TrimEmptyIffBlank(newCategory);
    var typed := Trim(newCategory);
    if typed != [] then typed else category
  }

  /**
   * The selected option 'new' with nothing typed in the new-category field is taken as
   * the category itself: the product is stored in a category named 'new'.
   */
  lemma BlankNewCategoryKeepsSentinel(newCategory: string)
    requires IsBlank(newCategory)
    ensures FinalCategory(NewCategoryOption, newCategory) == NewCategoryOption
  {
    TrimEmptyIffBlank(newCategory);
  }

  /**
   * The submit guard: name, final category, a quantity that is not 0 and a barcode.
   * Only 0 is refused, so a negative quantity passes.
   */
  predicate FormComplete(name: string, finalCategory: string, quantity: int, barcode: string) {
    name != [] && finalCategory != [] && quantity != 0 && barcode != []
  }

  /** `isFormLocked`: the descriptive fields are read-only once an existing product is loaded. */
  predicate FormLocked(isNewProduct: bool, name: string) {
    !isNewProduct && name != []
  }

  /**
   * The new-product path stores the product with the entered quantity and then calls the
   * stock update with a change of 0: the product is found, its stock stays the entered
   * quantity, and the only transaction logged for it records quantity 0.
   */
  lemma NewProductLogsZeroQuantity(ps: seq<Product>, ts: seq<Transaction>, p: Product, txId: string, now: string)
    ensures var saved := Upsert(ps, p, ProductId);
      var r := StockUpdate(saved, ts, p.id, 0, TxType.Kirim, SystemUser, txId, now);
      && r.ok
      && FindByKey(r.products, ProductId, p.id) == Some(p.(lastUpdated := now))
      && r.transactions == [Transaction(txId, p.id, p.name, TxType.Kirim, 0, now, SystemUser)] + ts
  {
    var saved := Upsert(ps, p, ProductId);
    var k := IndexOfKey(saved, ProductId, p.id);
    assert saved[k] == p;
    var r := StockUpdate(saved, ts, p.id, 0, TxType.Kirim, SystemUser, txId, now);
    IndexOfKeyIs(r.products, ProductId, p.id, k);
    assert r.transactions == [r.transactions[0]] + r.transactions[1..];
  }

  /**
   * The existing-product path, with unique ids: the product found by the barcode gets
   * exactly the entered quantity added, and one inbound transaction records it.
   */
  lemma RestockAddsQuantity(ps: seq<Product>, ts: seq<Transaction>, code: string, quantity: int,
                            txId: string, now: string)
    requires UniqueKeys(ps, ProductId) && ProductByBarcode(ps, code).Some?
    ensures var p := ProductByBarcode(ps, code).value;
      var r := StockUpdate(ps, ts, p.id, quantity, TxType.Kirim, SystemUser, txId, now);
      && r.ok
      && (exists k :: 0 <= k < |ps| && ps[k] == p && r.products[k].quantity == p.quantity + quantity)
      && r.transactions[0] == Transaction(txId, p.id, p.name, TxType.Kirim, quantity, now, SystemUser)
  {
    var p := ProductByBarcode(ps, code).value;
    var k := LocateProduct(ps, p);
    var r := StockUpdate(ps, ts, p.id, quantity, TxType.Kirim, SystemUser, txId, now);
    assert ps[k] == p && r.products[k].quantity == p.quantity + quantity;
  }

  /**
   * The store side of the new-product path: save the product, then a stock update of 0
   * under its id.
   */
  method RegisterNewProduct(store: Store, p: Product, txId: string, now: string)
    modifies store
    ensures var r := StockUpdate(Upsert(old(store.products), p, ProductId), old(store.transactions),
                                 p.id, 0, TxType.Kirim, SystemUser, txId, now);
      store.products == r.products && store.transactions == r.transactions
    ensures store.users == old(store.users) && store.usersInitialised == old(store.usersInitialised)
    ensures old(store.Valid()) ==> store.Valid()
  {
    store.SaveProduct(p);
    var _ := store.UpdateStock(p.id, 0, TxType.Kirim, SystemUser, txId, now);
  }

  /**
   * The store side of the existing-product path: look the barcode up again and, if a
   * product still has it, add `quantity` to that product's stock.
   */
  method RestockByBarcode(store: Store, code: string, quantity: int, txId: string, now: string)
    returns (found: bool)
    modifies store
    ensures found == ProductByBarcode(old(store.products), code).Some?
    ensures found ==>
      var r := StockUpdate(old(store.products), old(store.transactions),
                           ProductByBarcode(old(store.products), code).value.id, quantity,
                           TxType.Kirim, SystemUser, txId, now);
      store.products == r.products && store.transactions == r.transactions
    ensures !found ==> store.products == old(store.products) && store.transactions == old(store.transactions)
    ensures store.users == old(store.users) && store.usersInitialised == old(store.usersInitialised)
    ensures old(store.Valid()) ==> store.Valid()
  {
    var existing := ProductByBarcode(store.products, code);
    found := existing.Some?;
    if found {
      var _ := store.UpdateStock(existing.value.id, quantity, TxType.Kirim, SystemUser, txId, now);
    }
  }

  /** The page's state: the category list, the scanner text, the form and the banner. */
  class InboundPage {
    var categories: seq<string>
    var scannedBarcode: string
    var name: string
    var category: string
    var newCategory: string
    var unit: UnitType
    var quantity: int
    var generatedBarcode: string
    var isNewProduct: bool
    var notice: Option<Notice>

    constructor ()
      ensures categories == [] && scannedBarcode == "" && name == "" && category == "" && newCategory == ""
      ensures unit == Dona && quantity == 0 && generatedBarcode == "" && !isNewProduct && notice == None
    {
      categories, scannedBarcode, name, category, newCategory := [], "", "", "", "";
      unit, quantity, generatedBarcode, isNewProduct, notice := Dona, 0, "", false, None;
    }

    /** The mount effect: the category list is read from the store. */
    method Mount(store: Store)
      modifies this
      ensures categories == Categories(store.products)
      ensures scannedBarcode == old(scannedBarcode) && name == old(name) && category == old(category)
      ensures newCategory == old(newCategory) && unit == old(unit) && quantity == old(quantity)
      ensures generatedBarcode == old(generatedBarcode) && isNewProduct == old(isNewProduct) && notice == old(notice)
    {
      categories := Categories(store.products);
    }

    /** Typing in the scanner field. */
    method SetScannedBarcode(text: string)
      modifies this
      ensures scannedBarcode == text
      ensures categories == old(categories) && name == old(name) && category == old(category)
      ensures newCategory == old(newCategory) && unit == old(unit) && quantity == old(quantity)
      ensures generatedBarcode == old(generatedBarcode) && isNewProduct == old(isNewProduct) && notice == old(notice)
    {
      scannedBarcode := text;
    }

    /** Typing in the name field, which the lock disables. */
    method SetName(text: string)
      requires !FormLocked(isNewProduct, name)
      modifies this
      ensures name == text
      ensures categories == old(categories) && scannedBarcode == old(scannedBarcode) && category == old(category)
      ensures newCategory == old(newCategory) && unit == old(unit) && quantity == old(quantity)
      ensures generatedBarcode == old(generatedBarcode) && isNewProduct == old(isNewProduct) && notice == old(notice)
    {
      name := text;
    }

    /** Choosing a category option (disabled by the lock): any option but 'new' clears the typed category. */
    method SelectCategory(value: string)
      requires !FormLocked(isNewProduct, name)
      modifies this
      ensures category == value
      ensures newCategory == if value != NewCategoryOption then "" else old(newCategory)
      ensures categories == old(categories) && scannedBarcode == old(scannedBarcode) && name == old(name)
      ensures unit == old(unit) && quantity == old(quantity)
      ensures generatedBarcode == old(generatedBarcode) && isNewProduct == old(isNewProduct) && notice == old(notice)
    {
      category := value;
      if value != NewCategoryOption {
        newCategory := "";
      }
    }

    /** Typing in the new-category field, shown while 'new' is selected. */
    method SetNewCategory(text: string)
      requires category == NewCategoryOption
      modifies this
      ensures newCategory == text
      ensures categories == old(categories) && scannedBarcode == old(scannedBarcode) && name == old(name)
      ensures category == old(category) && unit == old(unit) && quantity == old(quantity)
      ensures generatedBarcode == old(generatedBarcode) && isNewProduct == old(isNewProduct) && notice == old(notice)
    {
      newCategory := text;
    }

    /** Choosing a unit, which the lock disables. */
    method SetUnit(u: UnitType)
      requires !FormLocked(isNewProduct, name)
      modifies this
      ensures unit == u
      ensures categories == old(categories) && scannedBarcode == old(scannedBarcode) && name == old(name)
      ensures category == old(category) && newCategory == old(newCategory) && quantity == old(quantity)
      ensures generatedBarcode == old(generatedBarcode) && isNewProduct == old(isNewProduct) && notice == old(notice)
    {
      unit := u;
    }

    /** Typing in the quantity field. */
    method SetQuantity(q: int)
      modifies this
      ensures quantity == q
      ensures categories == old(categories) && scannedBarcode == old(scannedBarcode) && name == old(name)
      ensures category == old(category) && newCategory == old(newCategory) && unit == old(unit)
      ensures generatedBarcode == old(generatedBarcode) && isNewProduct == old(isNewProduct) && notice == old(notice)
    {
      quantity := q;
    }

    /**
     * `handleScan` on Enter: a blank code does nothing. A known barcode loads that
     * product's name, category, unit and barcode and locks the form when the name is not
     * empty; an unknown one clears the form for a new product with the scanned code,
     * which leaves it unlocked.
     */
    method HandleScan(store: Store)
      modifies this
      ensures Trim(old(scannedBarcode)) == [] ==>
        && name == old(name) && category == old(category) && unit == old(unit)
        && generatedBarcode == old(generatedBarcode) && isNewProduct == old(isNewProduct) && notice == old(notice)
      ensures Trim(old(scannedBarcode)) != [] ==>
        var code := Trim(old(scannedBarcode));
        var found := ProductByBarcode(old(store.products), code);
        && (found.Some? ==>
          && name == found.value.name && category == found.value.category && unit == found.value.unit
          && generatedBarcode == found.value.barcode == code
          && !isNewProduct && notice == Some(ProductFound)
          && (FormLocked(isNewProduct, name) <==> found.value.name != []))
        && (found.None? ==>
          && name == "" && category == "" && unit == Dona && generatedBarcode == code
          && isNewProduct && notice == Some(NewProduct)
          && !FormLocked(isNewProduct, name))
      ensures categories == old(categories) && scannedBarcode == old(scannedBarcode)
      ensures newCategory == old(newCategory) && quantity == old(quantity)
    {
      var code := Trim(scannedBarcode);
      if code != [] {
        var existing := ProductByBarcode(store.products, code);
        if existing.Some? {
          LoadProduct(existing.value);
        } else {
          PrepareNewProduct(code);
        }
      }
    }

    /** The known-barcode branch of `handleScan`: the form takes the product's fields. */
    method LoadProduct(p: Product)
      modifies this
      ensures name == p.name && category == p.category && unit == p.unit && generatedBarcode == p.barcode
      ensures !isNewProduct && notice == Some(ProductFound)
      ensures categories == old(categories) && scannedBarcode == old(scannedBarcode)
      ensures newCategory == old(newCategory) && quantity == old(quantity)
    {
      name, category, unit, generatedBarcode := p.name, p.category, p.unit, p.barcode;
      isNewProduct := false;
      notice := Some(ProductFound);
    }

    /** The unknown-barcode branch of `handleScan`: an empty form for a new product under `code`. */
    method PrepareNewProduct(code: string)
      modifies this
      ensures name == "" && category == "" && unit == Dona && generatedBarcode == code
      ensures isNewProduct && notice == Some(NewProduct)
      ensures categories == old(categories) && scannedBarcode == old(scannedBarcode)
      ensures newCategory == old(newCategory) && quantity == old(quantity)
    {
      name, category, unit, generatedBarcode := "", "", Dona, code;
      isNewProduct := true;
      notice := Some(NewProduct);
    }

    /**
     * `generateRandomBarcode` with the drawn digits as a parameter: the form is prepared
     * for a new product under that code.
     */
    method GenerateBarcode(digits: string)
      modifies this
      ensures generatedBarcode == digits && scannedBarcode == digits && isNewProduct && name == ""
      ensures notice == Some(BarcodeGenerated) && !FormLocked(isNewProduct, name)
      ensures categories == old(categories) && category == old(category) && newCategory == old(newCategory)
      ensures unit == old(unit) && quantity == old(quantity)
    {
      generatedBarcode, scannedBarcode := digits, digits;
      isNewProduct := true;
      name := "";
      notice := Some(BarcodeGenerated);
    }

    /**
     * `handleSubmit`. An incomplete form only shows the error. A new product is stored
     * with the entered quantity under `newId` and a stock update of 0 follows; a typed
     * category, untrimmed, is appended to the list. An existing product is looked up
     * again by barcode and, if still there, receives the entered quantity. Either way
     * the form is then reset.
     */
    method HandleSubmit(store: Store, newId: string, txId: string, now: string)
      modifies this, store
      ensures var fc := FinalCategory(old(category), old(newCategory));
        !FormComplete(old(name), fc, old(quantity), old(generatedBarcode)) ==>
          && notice == Some(MissingFields)
          && name == old(name) && quantity == old(quantity) && scannedBarcode == old(scannedBarcode)
          && generatedBarcode == old(generatedBarcode) && isNewProduct == old(isNewProduct)
          && categories == old(categories)
          && store.products == old(store.products) && store.transactions == old(store.transactions)
      ensures var fc := FinalCategory(old(category), old(newCategory));
        FormComplete(old(name), fc, old(quantity), old(generatedBarcode)) && old(isNewProduct) ==>
          var p := Product(newId, old(name), fc, old(generatedBarcode), old(quantity), old(unit), now);
          var r := StockUpdate(Upsert(old(store.products), p, ProductId), old(store.transactions),
                               newId, 0, TxType.Kirim, SystemUser, txId, now);
          && store.products == r.products && store.transactions == r.transactions
          && notice == Some(ProductAdded)
          && categories == old(categories) + (if old(newCategory) != [] then [old(newCategory)] else [])
      ensures var fc := FinalCategory(old(category), old(newCategory));
        FormComplete(old(name), fc, old(quantity), old(generatedBarcode)) && !old(isNewProduct) ==>
          && categories == old(categories)
          && match ProductByBarcode(old(store.products), old(generatedBarcode))
             case Some(p) =>
               var r := StockUpdate(old(store.products), old(store.transactions),
                                    p.id, old(quantity), TxType.Kirim, SystemUser, txId, now);
               store.products == r.products && store.transactions == r.transactions
               && notice == Some(StockUpdated)
             case None =>
               store.products == old(store.products) && store.transactions == old(store.transactions)
               && notice == old(notice)
      ensures FormComplete(old(name), FinalCategory(old(category), old(newCategory)), old(quantity), old(generatedBarcode)) ==>
        && quantity == 0 && name == "" && scannedBarcode == "" && generatedBarcode == "" && !isNewProduct
      ensures category == old(category) && newCategory == old(newCategory) && unit == old(unit)
      ensures store.users == old(store.users) && store.usersInitialised == old(store.usersInitialised)
      ensures old(store.Valid()) ==> store.Valid()
    {
      var finalCategory := FinalCategory(category, newCategory);
      if !FormComplete(name, finalCategory, quantity, generatedBarcode) {
        notice := Some(MissingFields);
      } else {
        if isNewProduct {
          RegisterNewProduct(store, Product(newId, name, finalCategory, generatedBarcode, quantity, unit, now), txId, now);
          notice := Some(ProductAdded);
          if newCategory != [] {
            categories := categories + [newCategory];
          }
        } else {
          var found := RestockByBarcode(store, generatedBarcode, quantity, txId, now);
          if found {
            notice := Some(StockUpdated);
          }
        }
        ClearAfterSubmit();
      }
    }

    /** The reset at the end of a submit; the category, the typed category and the unit are kept. */
    method ClearAfterSubmit()
      modifies this
      ensures quantity == 0 && name == "" && scannedBarcode == "" && generatedBarcode == "" && !isNewProduct
      ensures !FormLocked(isNewProduct, name)
      ensures categories == old(categories) && category == old(category) && newCategory == old(newCategory)
      ensures unit == old(unit) && notice == old(notice)
    {
      quantity, name, scannedBarcode, generatedBarcode := 0, "", "", "";
      isNewProduct := false;
    }
  }
}
