/**
 * `services/storage.ts`: the browser-local record store. The three collections
 * are fields of `Store`; reading a collection is a field read and writing it back
 * is a field assignment (the JSON round trip through localStorage is not modelled).
 * The users collection has an "absent" state, `!usersInitialised`, in which every
 * reader sees the seeded administrator and writes the seed through first.
 */
module Storage {
  import opened Wrappers
  import opened Lists
  import opened Types

  /** The administrator `getUsers` writes on first access. */
  function InitialAdmin(): User {
    User("admin_1", "admin", "123", "Bosh Administrator",
         [Permission.Dashboard, Permission.Kirim, Permission.Chiqim, Permission.Inventory, Permission.Admin])
  }

  /** The fallback username `updateStock` records when its caller names nobody. */
  const SystemUser := "System"

  // ---------------------------------------------------------------------------
  // Read-only searches
  // ---------------------------------------------------------------------------

  /** `getProductByBarcode`: the first product carrying the barcode; barcodes are not unique. */
  function ProductByBarcode(ps: seq<Product>, code: string): (r: Option<Product>)
    ensures r.None? <==> forall p :: p in ps ==> p.barcode != code
    ensures r.Some? ==> r.value.barcode == code && exists k :: 0 <= k < |ps| && ps[k] == r.value &&
                                                    forall j :: 0 <= j < k ==> ps[j].barcode != code
  {
    FindByKey(ps, ProductBarcode, code)
  }

  /** The category of each product, in product order (`products.map(p => p.category)`). */
  function CategoryColumn(ps: seq<Product>): (r: seq<string>)
    ensures |r| == |ps| && forall i :: 0 <= i < |ps| ==> r[i] == ps[i].category
  {
    seq(|ps|, i requires 0 <= i < |ps| => ps[i].category)
  }

  /** `getAllCategories`: every category present among the products, each once. */
  function Categories(ps: seq<Product>): (r: seq<string>)
    ensures NoDuplicates(r)
    ensures forall c :: c in r <==> exists i :: 0 <= i < |ps| && ps[i].category == c
  {
    var col := CategoryColumn(ps);
    assert forall c :: c in col <==> exists i :: 0 <= i < |ps| && ps[i].category == c by {
      forall c | c in col ensures exists i :: 0 <= i < |ps| && ps[i].category == c {
        var i :| 0 <= i < |col| && col[i] == c;
      }
    }
    Distinct(col)
  }

  /** Categories are listed in the order in which their first product occurs. */
  lemma CategoriesInFirstAppearanceOrder(ps: seq<Product>)
    ensures var col, r := CategoryColumn(ps), Categories(ps);
      forall i, j :: 0 <= i < j < |r| ==> IndexOf(col, r[i]) < IndexOf(col, r[j])
  {
    DistinctFirstAppearance(CategoryColumn(ps));
  }

  /** Both the username and the password match exactly. */
  predicate HasCredentials(u: User, username: string, password: string) {
    u.username == username && u.password == password
  }

  /** The index of the first user with these credentials, or -1. */
  function CredentialsIndex(us: seq<User>, username: string, password: string): (k: int)
    ensures -1 <= k < |us|
    ensures 0 <= k ==> HasCredentials(us[k], username, password) &&
                       forall j :: 0 <= j < k ==> !HasCredentials(us[j], username, password)
    ensures k < 0 ==> forall j :: 0 <= j < |us| ==> !HasCredentials(us[j], username, password)
  {
    if us == [] then -1
    else if HasCredentials(us[0], username, password) then 0
    else
      var k := CredentialsIndex(us[1..], username, password);
      if k < 0 then -1 else k + 1
  }

  /** `loginUser`: the first user whose username and password both match exactly, if any. */
  function FindCredentials(us: seq<User>, username: string, password: string): (r: Option<User>)
    ensures r.None? <==> forall j :: 0 <= j < |us| ==> !HasCredentials(us[j], username, password)
    ensures r.Some? ==> r.value.username == username && r.value.password == password
    ensures r.Some? ==> exists k :: 0 <= k < |us| && us[k] == r.value &&
                          forall j :: 0 <= j < k ==> !HasCredentials(us[j], username, password)
  {
    var k := CredentialsIndex(us, username, password);
    if k >= 0 then Some(us[k]) else None
  }

  /** The seeded administrator can log in with the initial password. */
  lemma SeedAdminLogsIn()
    ensures FindCredentials([InitialAdmin()], "admin", "123") == Some(InitialAdmin())
  {
  }

  // ---------------------------------------------------------------------------
  // The stock-mutation rule
  // ---------------------------------------------------------------------------

  /** The insufficient-stock check: only an outbound movement larger than the stock fails. */
  predicate HasStockFor(p: Product, kind: TxType, change: int) {
    !(kind == TxType.Chiqim && p.quantity < change)
  }

  /** The signed delta: inbound adds, outbound subtracts; the sign of `change` is never checked. */
  function Moved(p: Product, kind: TxType, change: int, now: string): (r: Product)
    ensures kind == TxType.Kirim ==> r.quantity == p.quantity + change
    ensures kind == TxType.Chiqim ==> r.quantity == p.quantity - change
    ensures r.lastUpdated == now
    ensures r.(quantity := p.quantity, lastUpdated := p.lastUpdated) == p
  {
    var q := if kind == TxType.Kirim then p.quantity + change else p.quantity - change;
    p.(quantity := q, lastUpdated := now)
  }

  datatype StockResult = StockResult(ok: bool, products: seq<Product>, transactions: seq<Transaction>)

  /**
   * `updateStock` on the collections `ps` and `ts`: find the product by id, refuse an
   * outbound movement larger than its stock, apply the delta and prepend one transaction
   * that records the product's current name.
   */
  function StockUpdate(ps: seq<Product>, ts: seq<Transaction>, productId: string, change: int,
                       kind: TxType, username: string, txId: string, now: string): (r: StockResult)
    ensures var k := IndexOfKey(ps, ProductId, productId);
      r.ok <==> k >= 0 && HasStockFor(ps[k], kind, change)
    ensures !r.ok ==> r.products == ps && r.transactions == ts
    ensures r.ok ==> var k := IndexOfKey(ps, ProductId, productId);
      && |r.products| == |ps|
      && (forall j :: 0 <= j < |ps| && j != k ==> r.products[j] == ps[j])
      && r.products[k] == Moved(ps[k], kind, change, now)
      && |r.transactions| == |ts| + 1
      && r.transactions[0] == Transaction(txId, productId, ps[k].name, kind, change, now, username)
      && r.transactions[1..] == ts
  {
    var k := IndexOfKey(ps, ProductId, productId);
    if k < 0 || !HasStockFor(ps[k], kind, change) then StockResult(false, ps, ts)
    else
      var p := Moved(ps[k], kind, change, now);
      StockResult(true, ps[k := p], [Transaction(txId, p.id, p.name, kind, change, now, username)] + ts)
  }

  /** Every movement logs exactly one transaction when it succeeds and none when it fails. */
  lemma StockUpdateLogsOnce(ps: seq<Product>, ts: seq<Transaction>, productId: string, change: int,
                            kind: TxType, username: string, txId: string, now: string)
    ensures var r := StockUpdate(ps, ts, productId, change, kind, username, txId, now);
      |r.transactions| == |ts| + (if r.ok then 1 else 0)
  {
  }

  /** An outbound movement of exactly the stock succeeds and leaves nothing. */
  lemma ShipWholeStock(ps: seq<Product>, ts: seq<Transaction>, k: nat, username: string, txId: string, now: string)
    requires k < |ps| && IndexOfKey(ps, ProductId, ps[k].id) == k
    ensures var r := StockUpdate(ps, ts, ps[k].id, ps[k].quantity, TxType.Chiqim, username, txId, now);
      r.ok && r.products[k].quantity == 0
  {
  }

  /**
   * Nothing rejects a negative change: an inbound movement of a negative amount
   * passes the check and lowers the stock.
   */
  lemma NegativeInboundLowersStock(ps: seq<Product>, ts: seq<Transaction>, k: nat, change: int,
                                   username: string, txId: string, now: string)
    requires k < |ps| && IndexOfKey(ps, ProductId, ps[k].id) == k && change < 0
    ensures var r := StockUpdate(ps, ts, ps[k].id, change, TxType.Kirim, username, txId, now);
      r.ok && r.products[k].quantity < ps[k].quantity
  {
  }

  /** With unique ids, the id lookup of a stored product finds that very product. */
  lemma LocateProduct(ps: seq<Product>, p: Product) returns (k: nat)
    requires UniqueKeys(ps, ProductId) && p in ps
    ensures k < |ps| && ps[k] == p && IndexOfKey(ps, ProductId, p.id) == k
  {
    k := IndexOf(ps, p);
    IndexOfKeyIs(ps, ProductId, p.id, k);
  }

  /**
   * An outbound movement never overdraws: if no stock was negative before, none is after,
   * whatever the amount requested.
   */
  lemma OutboundNeverOverdraws(ps: seq<Product>, ts: seq<Transaction>, productId: string, change: int,
                               username: string, txId: string, now: string)
    requires forall j :: 0 <= j < |ps| ==> ps[j].quantity >= 0
    ensures var r := StockUpdate(ps, ts, productId, change, TxType.Chiqim, username, txId, now);
      forall j :: 0 <= j < |r.products| ==> r.products[j].quantity >= 0
  {
  }

  /** A stock movement keeps product ids unique: it changes no id. */
  lemma StockUpdateKeepsIdsUnique(ps: seq<Product>, ts: seq<Transaction>, productId: string, change: int,
                                  kind: TxType, username: string, txId: string, now: string)
    requires UniqueKeys(ps, ProductId)
    ensures UniqueKeys(StockUpdate(ps, ts, productId, change, kind, username, txId, now).products, ProductId)
  {
  }

  // ---------------------------------------------------------------------------
  // User deletion
  // ---------------------------------------------------------------------------

  /**
   * `deleteUser` on the list `us`: a no-op when the first user with that id is named
   * 'admin'; otherwise every user with that id is removed.
   */
  function UsersAfterDelete(us: seq<User>, userId: string): (r: seq<User>)
    ensures forall u :: u in r ==> u in us
    ensures IsSubsequence(r, us)
    ensures FindByKey(us, UserId, userId).Some? && FindByKey(us, UserId, userId).value.username == "admin" ==>
      r == us
    ensures FindByKey(us, UserId, userId).None? || FindByKey(us, UserId, userId).value.username != "admin" ==>
      && (forall u :: u in r <==> u in us && u.id != userId)
      && (forall u: User :: u.id != userId ==> multiset(r)[u] == multiset(us)[u])
  {
    var target := FindByKey(us, UserId, userId);
    if target.Some? && target.value.username == "admin" then
      SubsequenceOfItself(us);
      us
    else RemoveKey(us, UserId, userId)
  }

  /** Deleting an id that no user has changes nothing. */
  lemma DeleteUnknownUserIsNoop(us: seq<User>, userId: string)
    requires forall u :: u in us ==> u.id != userId
    ensures UsersAfterDelete(us, userId) == us
  {
    RemoveAbsentKey(us, UserId, userId);
  }

  /**
   * With unique user ids (which every store operation keeps), no user named 'admin'
   * is ever removed, whatever id is passed.
   */
  lemma DeleteUserKeepsAdmins(us: seq<User>, userId: string)
    requires UniqueKeys(us, UserId)
    ensures forall u :: u in us && u.username == "admin" ==> u in UsersAfterDelete(us, userId)
  {
    var target := FindByKey(us, UserId, userId);
    forall u | u in us && u.username == "admin"
      ensures u in UsersAfterDelete(us, userId)
    {
      if target.Some? && target.value.username != "admin" {
        var i :| 0 <= i < |us| && us[i] == u;
        var k :| 0 <= k < |us| && us[k] == target.value;
        assert i != k;
        assert u.id != userId;
      }
    }
  }

  /** Without unique ids the guard looks only at the first match: a later 'admin' with that id is removed. */
  lemma DuplicateIdDeletesAdmin()
    ensures var bob := User("7", "bob", "x", "Bob", []);
            var admin := User("7", "admin", "123", "Admin", []);
            UsersAfterDelete([bob, admin], "7") == []
  {
    var bob := User("7", "bob", "x", "Bob", []);
    var admin := User("7", "admin", "123", "Admin", []);
    var r := UsersAfterDelete([bob, admin], "7");
    assert bob !in r && admin !in r;
  }

  // ---------------------------------------------------------------------------
  // The store
  // ---------------------------------------------------------------------------

  class Store {
    var products: seq<Product>
    var transactions: seq<Transaction>
    var users: seq<User>
    /** Whether the users key exists; until then readers see (and write through) the seed. */
    var usersInitialised: bool

    /** An empty browser store: no products, no transactions, no users key. */
    constructor ()
      ensures products == [] && transactions == [] && users == [] && !usersInitialised
      ensures Valid()
    {
      products, transactions, users, usersInitialised := [], [], [], false;
    }

    /** Product ids and user ids are unique: every operation of the store keeps this. */
    ghost predicate Valid()
      reads this
    {
      UniqueKeys(products, ProductId) && UniqueKeys(users, UserId)
    }

    /** The users list `getUsers` returns, without its seeding side effect. */
    function UserList(): seq<User>
      reads this
    {
      if usersInitialised then users else [InitialAdmin()]
    }

    /** `saveProduct`: overwrite the slot of the product with the same id, or push. */
    method SaveProduct(product: Product)
      modifies this
      ensures products == Upsert(old(products), product, ProductId)
      ensures transactions == old(transactions) && users == old(users) && usersInitialised == old(usersInitialised)
      ensures old(Valid()) ==> Valid()
    {
      if Valid() {
        UpsertKeepsKeysUnique(products, product, ProductId);
      }
      var ps := products;
      var i := IndexOfKey(ps, ProductId, product.id);
      if i >= 0 {
        ps := ps[i := product];
      } else {
        ps := ps + [product];
      }
      products := ps;
    }

    /** `updateProductDetails`: overwrite the slot of the product with the same id; no-op if absent. */
    method UpdateProductDetails(product: Product)
      modifies this
      ensures products == Replace(old(products), product, ProductId)
      ensures transactions == old(transactions) && users == old(users) && usersInitialised == old(usersInitialised)
      ensures old(Valid()) ==> Valid()
    {
      if Valid() {
        UpsertKeepsKeysUnique(products, product, ProductId);
      }
      var i := IndexOfKey(products, ProductId, product.id);
      if i != -1 {
        products := products[i := product];
      }
    }

    /** `deleteProduct`: drop every product with the id. */
    method DeleteProduct(productId: string)
      modifies this
      ensures products == RemoveKey(old(products), ProductId, productId)
      ensures transactions == old(transactions) && users == old(users) && usersInitialised == old(usersInitialised)
      ensures old(Valid()) ==> Valid()
    {
      if Valid() {
        SubsequenceKeepsUniqueKeys(RemoveKey(products, ProductId, productId), products, ProductId);
      }
      products := RemoveKey(products, ProductId, productId);
    }

    /** `updateStock`; `username` is 'System' at every call site. */
    method UpdateStock(productId: string, quantityChange: int, kind: TxType, username: string,
                       txId: string, now: string) returns (ok: bool)
      modifies this
      ensures var r := StockUpdate(old(products), old(transactions), productId, quantityChange, kind, username, txId, now);
        ok == r.ok && products == r.products && transactions == r.transactions
      ensures users == old(users) && usersInitialised == old(usersInitialised)
      ensures old(Valid()) ==> Valid()
    {
      if Valid() {
        StockUpdateKeepsIdsUnique(products, transactions, productId, quantityChange, kind, username, txId, now);
      }
      ghost var r := StockUpdate(products, transactions, productId, quantityChange, kind, username, txId, now);
      var i := IndexOfKey(products, ProductId, productId);
      if i < 0 || (kind == TxType.Chiqim && products[i].quantity < quantityChange) {
        ok := false;
      } else {
        var product := products[i];
        if kind == TxType.Kirim {
          product := product.(quantity := product.quantity + quantityChange);
        } else {
          product := product.(quantity := product.quantity - quantityChange);
        }
        product := product.(lastUpdated := now);
        products := products[i := product];
        var transaction := Transaction(txId, product.id, product.name, kind, quantityChange, now, username);
        transactions := [transaction] + transactions;
        ok := true;
        assert products == r.products;
      }
    }

    /** `getUsers`: the stored users, writing the seeded administrator first if the key is absent. */
    method GetUsers() returns (us: seq<User>)
      modifies this
      ensures us == old(UserList()) && users == us && usersInitialised
      ensures !old(usersInitialised) ==> us == [InitialAdmin()]
      ensures products == old(products) && transactions == old(transactions)
      ensures old(Valid()) ==> Valid()
    {
      if !usersInitialised {
        users := [InitialAdmin()];
        usersInitialised := true;
      }
      us := users;
    }

    /** `saveUser`: overwrite the slot of the user with the same id, or push. */
    method SaveUser(user: User)
      modifies this
      ensures users == Upsert(old(UserList()), user, UserId) && usersInitialised
      ensures products == old(products) && transactions == old(transactions)
      ensures old(Valid()) ==> Valid()
    {
      var us := GetUsers();
      if Valid() {
        UpsertKeepsKeysUnique(us, user, UserId);
      }
      var i := IndexOfKey(us, UserId, user.id);
      if i >= 0 {
        us := us[i := user];
      } else {
        us := us + [user];
      }
      users := us;
    }

    /** `deleteUser`, guarded by the username of the first user with the id. */
    method DeleteUser(userId: string)
      modifies this
      ensures users == UsersAfterDelete(old(UserList()), userId) && usersInitialised
      ensures products == old(products) && transactions == old(transactions)
      ensures old(Valid()) ==> Valid()
    {
      var us := GetUsers();
      var userToDelete := FindByKey(us, UserId, userId);
      if !(userToDelete.Some? && userToDelete.value.username == "admin") {
        if Valid() {
          SubsequenceKeepsUniqueKeys(RemoveKey(us, UserId, userId), us, UserId);
        }
        users := RemoveKey(us, UserId, userId);
      }
    }

    /** `loginUser`: exact username and password match over the (possibly just seeded) users. */
    method LoginUser(username: string, password: string) returns (user: Option<User>)
      modifies this
      ensures user == FindCredentials(old(UserList()), username, password)
      ensures users == old(UserList()) && usersInitialised
      ensures products == old(products) && transactions == old(transactions)
      ensures old(Valid()) ==> Valid()
    {
      var us := GetUsers();
      user := FindCredentials(us, username, password);
    }
  }
}
