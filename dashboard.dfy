/**
 * `pages/Dashboard.tsx`: the figures derived from the products and transactions the
 * page reads once when it mounts (passed in here as `ps` and `ts`): the four counters,
 * the per-category grouping behind the pie chart and the list of recent movements.
 */
module Dashboard {
  import opened Lists
  import opened Types
  import opened Storage

  /** A product the dashboard counts as running low. */
  predicate IsLowStock(p: Product) {
    p.quantity < 10
  }

  predicate IsInbound(t: Transaction) {
    t.kind == TxType.Kirim
  }

  predicate IsOutbound(t: Transaction) {
    t.kind == TxType.Chiqim
  }

  /** The four counters at the top of the page. */
  datatype Counters = Counters(totalItems: nat, lowStock: nat, totalIn: nat, totalOut: nat)

  /**
   * `totalItems`, `lowStock`, `totalIn` and `totalOut`: every movement is either inbound
   * or outbound, so the last two always add up to the number of transactions.
   */
  function Count(ps: seq<Product>, ts: seq<Transaction>): (c: Counters)
    ensures c.totalItems == |ps|
    ensures c.lowStock == CountPassing(ps, IsLowStock)
    ensures c.totalIn == CountPassing(ts, IsInbound)
    ensures c.totalOut == CountPassing(ts, IsOutbound)
    ensures c.lowStock <= c.totalItems
    ensures c.lowStock == 0 <==> forall p :: p in ps ==> p.quantity >= 10
    ensures c.lowStock == c.totalItems <==> forall p :: p in ps ==> p.quantity < 10
    ensures c.totalIn + c.totalOut == |ts|
  {
    var low := Filter(ps, IsLowStock);
    FilterPartition(ts, IsInbound, IsOutbound);
    FilterFullLength(ps, IsLowStock);
    FilterLengthCountsIndices(ps, IsLowStock);
    FilterLengthCountsIndices(ts, IsInbound);
    FilterLengthCountsIndices(ts, IsOutbound);
    Counters(|ps|, |low|, |Filter(ts, IsInbound)|, |Filter(ts, IsOutbound)|)
  }

  // ---------------------------------------------------------------------------
  // The per-category grouping
  // ---------------------------------------------------------------------------

  /** One slice of the pie: a category and the number of products in it. */
  datatype Slice = Slice(name: string, value: int)

  function SliceName(s: Slice): string {
    s.name
  }

  /**
   * One step of the `reduce`: add one to the slice named `c`, or push a new slice
   * for `c` with value 1.
   */
  function Bump(acc: seq<Slice>, c: string): seq<Slice> {
    var k := IndexOfKey(acc, SliceName, c);
    if k >= 0 then acc[k := Slice(c, acc[k].value + 1)] else acc + [Slice(c, 1)]
  }

  /** The accumulator after folding `Bump` over the categories of `ps`, left to right. */
  function Tally(ps: seq<Product>): seq<Slice>
    decreases |ps|
  {
    if ps == [] then [] else Bump(Tally(ps[..|ps| - 1]), ps[|ps| - 1].category)
  }

  /** `categoryData`: the `reduce` over the products, updating the accumulator in place. */
  method CategoryData(products: seq<Product>) returns (acc: seq<Slice>)
    ensures acc == Tally(products)
  {
    acc := [];
    for i := 0 to |products|
      invariant acc == Tally(products[..i])
    {
      var category := products[i].category;
      var existing := IndexOfKey(acc, SliceName, category);
      if existing >= 0 {
        acc := acc[existing := acc[existing].(value := acc[existing].value + 1)];
      } else {
        acc := acc + [Slice(category, 1)];
      }
      assert products[..i + 1][..i] == products[..i];
    }
    assert products[..|products|] == products;
  }

  /** The names of the slices, in order. */
  function Names(acc: seq<Slice>): (r: seq<string>)
    ensures |r| == |acc| && forall i :: 0 <= i < |acc| ==> r[i] == acc[i].name
  {
    seq(|acc|, i requires 0 <= i < |acc| => acc[i].name)
  }

  /** The sum of the slice values. */
  function Sum(acc: seq<Slice>): int
    decreases |acc|
  {
    if acc == [] then 0 else Sum(acc[..|acc| - 1]) + acc[|acc| - 1].value
  }

  /** Overwriting one slice changes the sum by the difference of the two values. */
  lemma {:induction false} SumUpdate(acc: seq<Slice>, k: nat, x: Slice)
    requires k < |acc|
    ensures Sum(acc[k := x]) == Sum(acc) - acc[k].value + x.value
    decreases |acc|
  {
    var n := |acc| - 1;
    if k < n {
      assert acc[k := x][..n] == acc[..n][k := x];
      SumUpdate(acc[..n], k, x);
    } else {
      assert acc[k := x][..n] == acc[..n];
    }
  }

  /** The chart lists each category of the products exactly once, in order of first appearance. */
  lemma {:induction false} TallyNamesAreCategories(ps: seq<Product>)
    ensures Names(Tally(ps)) == Categories(ps)
    decreases |ps|
  {
    if ps != [] {
      var n := |ps| - 1;
      var c := ps[n].category;
      var acc := Tally(ps[..n]);
      TallyNamesAreCategories(ps[..n]);
      var col := CategoryColumn(ps);
      assert col[..n] == CategoryColumn(ps[..n]);
      assert col[n] == c;
      var k := IndexOfKey(acc, SliceName, c);
      if k >= 0 {
        assert Names(acc)[k] == c;
        assert Names(Bump(acc, c)) == Names(acc);
      } else {
        assert c !in Names(acc);
        assert Names(Bump(acc, c)) == Names(acc) + [c];
      }
    }
  }

  /** Every slice's value is the multiplicity of its name in `m`, and `m` holds no other name. */
  ghost predicate CountsOf(acc: seq<Slice>, m: multiset<string>) {
    && (forall i :: 0 <= i < |acc| ==> acc[i].value == m[acc[i].name])
    && (forall d :: d !in Names(acc) ==> m[d] == 0)
  }

  /** One step of the `reduce` keeps the slices counting the categories seen so far. */
  lemma BumpCounts(acc: seq<Slice>, m: multiset<string>, c: string)
    requires NoDuplicates(Names(acc)) && CountsOf(acc, m)
    ensures CountsOf(Bump(acc, c), m + multiset{c})
  {
    var r, mc := Bump(acc, c), m + multiset{c};
    var k := IndexOfKey(acc, SliceName, c);
    forall i | 0 <= i < |r|
      ensures r[i].value == mc[r[i].name]
    {
      if i < |acc| && i != k {
        assert r[i] == acc[i];
        assert Names(acc)[i] != c by {
          if k >= 0 {
            assert Names(acc)[k] == c;
          }
        }
      }
    }
    forall d | d !in Names(r)
      ensures mc[d] == 0
    {
      if k >= 0 {
        assert Names(r)[k] == c;
      } else {
        assert Names(r)[|acc|] == c;
      }
      forall i | 0 <= i < |acc|
        ensures Names(acc)[i] != d
      {
        assert Names(r)[i] == Names(acc)[i];
      }
    }
  }

  /** Each slice's value is the number of products in its category, and no category is missing. */
  lemma {:induction false} TallyCountsCategories(ps: seq<Product>)
    ensures var acc := Tally(ps);
      forall i :: 0 <= i < |acc| ==> acc[i].value == multiset(CategoryColumn(ps))[acc[i].name]
    ensures forall c :: c !in Names(Tally(ps)) ==> multiset(CategoryColumn(ps))[c] == 0
    decreases |ps|
  {
    if ps != [] {
      var n := |ps| - 1;
      TallyCountsCategories(ps[..n]);
      TallyNamesAreCategories(ps[..n]);
      assert CategoryColumn(ps) == CategoryColumn(ps[..n]) + [ps[n].category];
      BumpCounts(Tally(ps[..n]), multiset(CategoryColumn(ps[..n])), ps[n].category);
    }
  }

  /** The slice values add up to the number of products: every product is in exactly one slice. */
  lemma {:induction false} TallySumsToProductCount(ps: seq<Product>)
    ensures Sum(Tally(ps)) == |ps|
    decreases |ps|
  {
    if ps != [] {
      var n := |ps| - 1;
      var c := ps[n].category;
      var acc := Tally(ps[..n]);
      TallySumsToProductCount(ps[..n]);
      assert Tally(ps) == Bump(acc, c);
      var k := IndexOfKey(acc, SliceName, c);
      if k >= 0 {
        assert Bump(acc, c) == acc[k := Slice(c, acc[k].value + 1)];
        SumUpdate(acc, k, Slice(c, acc[k].value + 1));
      } else {
        var r := acc + [Slice(c, 1)];
        assert Bump(acc, c) == r;
        assert r[..|acc|] == acc;
        assert Sum(r) == Sum(acc) + 1;
      }
    }
  }

  // ---------------------------------------------------------------------------
  // Recent movements
  // ---------------------------------------------------------------------------

  /** `transactions.slice(0, 10)`. */
  function Recent(ts: seq<Transaction>): (r: seq<Transaction>)
    ensures |r| == if |ts| < 10 then |ts| else 10
    ensures forall i :: 0 <= i < |r| ==> r[i] == ts[i]
  {
    if |ts| < 10 then ts else ts[..10]
  }

  /**
   * Because the store prepends, the movement just recorded heads the recent list and
   * the older ones follow, the oldest of the previous ten dropping off.
   */
  lemma NewestFirst(ps: seq<Product>, ts: seq<Transaction>, productId: string, change: int,
                    kind: TxType, username: string, txId: string, now: string)
    requires StockUpdate(ps, ts, productId, change, kind, username, txId, now).ok
    ensures var r := StockUpdate(ps, ts, productId, change, kind, username, txId, now);
      var recent := Recent(r.transactions);
      && recent[0] == r.transactions[0]
      && recent[0].productId == productId && recent[0].kind == kind && recent[0].quantity == change
      && recent[1..] == Recent(ts)[..|recent| - 1]
  {
    var r := StockUpdate(ps, ts, productId, change, kind, username, txId, now);
    var recent := Recent(r.transactions);
    assert recent[1..] == Recent(ts)[..|recent| - 1] by {
      forall i | 0 <= i < |recent| - 1
        ensures recent[1..][i] == Recent(ts)[i]
      {
        assert r.transactions[1..][i] == ts[i];
      }
    }
  }
}
