/**
 * `pages/Inventory.tsx`: the product table with its search box and category filter,
 * and the edit dialog, which works on a copy of one product and writes it back with
 * `updateProductDetails`.
 */
module Inventory {
  import opened Wrappers
  import opened Lists
  import opened Types
  import opened Strings
  import opened Storage

  /** The category filter's "every category" value. */
  const AllCategories := "all"

  /**
   * The row test of `filtered`: the name contains the search text ignoring case, or the
   * barcode contains it as typed; and the filter is 'all' or the product's category.
   */
  predicate Matches(p: Product, search: string, filterCat: string) {
    && (Contains(Lower(p.name), Lower(search)) || Contains(p.barcode, search))
    && (filterCat == AllCategories || p.category == filterCat)
  }

  /** `filtered`: the matching products, in table order. */
  function Filtered(ps: seq<Product>, search: string, filterCat: string): (r: seq<Product>)
    ensures forall p :: p in r <==> p in ps && Matches(p, search, filterCat)
    ensures forall p :: multiset(r)[p] == if Matches(p, search, filterCat) then multiset(ps)[p] else 0
    ensures IsSubsequence(r, ps)
  {
    Filter(ps, p => Matches(p, search, filterCat))
  }

  /** With an empty search and the 'all' filter the table shows every product. */
  lemma EmptySearchShowsAll(ps: seq<Product>)
    ensures Filtered(ps, "", AllCategories) == ps
  {
    assert Lower("") == "";
    forall p | p in ps
      ensures Matches(p, "", AllCategories)
    {
      ContainsEmpty(Lower(p.name));
    }
    FilterKeepsAll(ps, p => Matches(p, "", AllCategories));
  }

  /** A product is found by its exact barcode, whatever its name and under the 'all' filter. */
  lemma BarcodeFindsProduct(ps: seq<Product>, p: Product)
    requires p in ps
    ensures p in Filtered(ps, p.barcode, AllCategories)
  {
    assert OccursAt(p.barcode, p.barcode, 0);
  }

  // ---------------------------------------------------------------------------
  // The edit dialog
  // ---------------------------------------------------------------------------

  /** The four inputs of the edit dialog; each spreads the copy with one new field. */
  datatype Edit =
    | Rename(name: string)
    | Recategorise(category: string)
    | ChangeUnit(unit: UnitType)
    | Rebarcode(barcode: string)

  /** One `setEditingProduct({...editingProduct, field: value})`. */
  function ApplyEdit(p: Product, e: Edit): (r: Product)
    ensures r.id == p.id && r.quantity == p.quantity && r.lastUpdated == p.lastUpdated
    ensures r.(name := p.name, category := p.category, unit := p.unit, barcode := p.barcode) == p
    ensures e.Rename? ==> r.name == e.name
    ensures e.Recategorise? ==> r.category == e.category
    ensures e.ChangeUnit? ==> r.unit == e.unit
    ensures e.Rebarcode? ==> r.barcode == e.barcode
  {
    match e
    case Rename(v) => p.(name := v)
    case Recategorise(v) => p.(category := v)
    case ChangeUnit(v) => p.(unit := v)
    case Rebarcode(v) => p.(barcode := v)
  }

  /** The copy after a sequence of edits, applied in order. */
  function ApplyEdits(p: Product, edits: seq<Edit>): (r: Product)
    ensures r.id == p.id && r.quantity == p.quantity && r.lastUpdated == p.lastUpdated
    decreases |edits|
  {
    if edits == [] then p else ApplyEdits(ApplyEdit(p, edits[0]), edits[1..])
  }

  /** The edits are applied in the order typed: the last one is applied last. */
  lemma {:induction false} ApplyEditsAppend(p: Product, edits: seq<Edit>, e: Edit)
    ensures ApplyEdits(p, edits + [e]) == ApplyEdit(ApplyEdits(p, edits), e)
    decreases |edits|
  {
    if edits == [] {
      assert [e][1..] == [];
    } else {
      assert (edits + [e])[1..] == edits[1..] + [e];
      ApplyEditsAppend(ApplyEdit(p, edits[0]), edits[1..], e);
    }
  }

  /** Whatever was typed before, the dialog shows the name typed last. */
  lemma LastRenameWins(p: Product, edits: seq<Edit>, name: string)
    ensures ApplyEdits(p, edits + [Rename(name)]).name == name
  {
    ApplyEditsAppend(p, edits, Rename(name));
  }

  /**
   * Saving a copy edited from a stored product, however edited, rewrites only that
   * product's slot and changes no stock quantity and no id.
   */
  lemma SavedEditKeepsStock(ps: seq<Product>, p: Product, edits: seq<Edit>)
    requires UniqueKeys(ps, ProductId) && p in ps
    ensures var e := ApplyEdits(p, edits);
      var r := Replace(ps, e, ProductId);
      && |r| == |ps|
      && (forall i :: 0 <= i < |ps| ==> r[i].id == ps[i].id && r[i].quantity == ps[i].quantity)
      && (forall i :: 0 <= i < |ps| && ps[i] != p ==> r[i] == ps[i])
      && e in r
  {
    var k := LocateProduct(ps, p);
    var e := ApplyEdits(p, edits);
    assert Replace(ps, e, ProductId) == ps[k := e];
    forall i | 0 <= i < |ps| && ps[i] != p
      ensures i != k
    {
    }
  }

  /** The page's state. */
  class InventoryPage {
    var products: seq<Product>
    var search: string
    var filterCat: string
    var editing: Option<Product>
    var categories: seq<string>

    /** The initial state: nothing loaded yet, an empty search, the 'all' filter, no dialog. */
    constructor ()
      ensures products == [] && categories == []
      ensures search == "" && filterCat == AllCategories && editing == None
    {
      products, categories := [], [];
      search, filterCat, editing := "", AllCategories, None;
    }

    /** The effect on mount: `loadData`. */
    method Mount(store: Store)
      modifies this
      ensures products == store.products && categories == Categories(store.products)
      ensures search == old(search) && filterCat == old(filterCat) && editing == old(editing)
    {
      LoadData(store);
    }

    /** The rows the table shows. */
    function Rows(): seq<Product>
      reads this
    {
      Filtered(products, search, filterCat)
    }

    /** `loadData`: re-read the products and the category list. */
    method LoadData(store: Store)
      modifies this
      ensures products == store.products && categories == Categories(store.products)
      ensures search == old(search) && filterCat == old(filterCat) && editing == old(editing)
    {
      products := store.products;
      categories := Categories(store.products);
    }

    method SetSearch(text: string)
      modifies this
      ensures search == text
      ensures products == old(products) && filterCat == old(filterCat) && editing == old(editing)
      ensures categories == old(categories)
    {
      search := text;
    }

    method SetFilterCat(value: string)
      modifies this
      ensures filterCat == value
      ensures products == old(products) && search == old(search) && editing == old(editing)
      ensures categories == old(categories)
    {
      filterCat := value;
    }

    /** `handleEditClick`: open the dialog on a copy of the row. */
    method EditClick(p: Product)
      modifies this
      ensures editing == Some(p)
      ensures products == old(products) && search == old(search) && filterCat == old(filterCat)
      ensures categories == old(categories)
    {
      editing := Some(p);
    }

    /** One input of the open dialog. */
    method EditField(e: Edit)
      requires editing.Some?
      modifies this
      ensures editing == Some(ApplyEdit(old(editing).value, e))
      ensures products == old(products) && search == old(search) && filterCat == old(filterCat)
      ensures categories == old(categories)
    {
      editing := Some(ApplyEdit(editing.value, e));
    }

    /** The close and cancel buttons: the dialog closes and the store is not touched. */
    method CancelEdit()
      modifies this
      ensures editing == None
      ensures products == old(products) && search == old(search) && filterCat == old(filterCat)
      ensures categories == old(categories)
    {
      editing := None;
    }

    /**
     * `handleSaveEdit`: with the dialog open, write the copy back over the product with its
     * id, close the dialog and reload; with it closed, nothing happens.
     */
    method SaveEdit(store: Store)
      modifies this, store
      ensures old(editing).None? ==>
        && store.products == old(store.products)
        && products == old(products) && categories == old(categories) && editing == None
      ensures old(editing).Some? ==>
        && store.products == Replace(old(store.products), old(editing).value, ProductId)
        && products == store.products && categories == Categories(store.products)
        && editing == None
      ensures search == old(search) && filterCat == old(filterCat)
      ensures store.transactions == old(store.transactions) && store.users == old(store.users)
      ensures store.usersInitialised == old(store.usersInitialised)
      ensures old(store.Valid()) ==> store.Valid()
    {
      if editing.Some? {
        store.UpdateProductDetails(editing.value);
        editing := None;
        LoadData(store);
      }
    }
  }
}
