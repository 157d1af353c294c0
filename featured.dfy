/** The featured sections of routers/featured/featured.py: best-selling,
    on-sale, trending and new-arrivals (four tables of the same shape, one
    `FeaturedSection` each) and shop-by-need. None of these models is declared
    in any model file of the repository; the rows hold the columns the routes
    use, and each table is taken to be unique on its key: the product id, or
    the (product id, need) pair for shop-by-need, as the routes' comments on
    the refused inserts say. */
module Featured {
  import opened Common
  import opened Schema
  import opened Sorting
  import Products
  import Categories

  datatype FeaturedError =
    | MissingProducts(ids: set<string>)
    | NotInSection
  {
    function Status(): int {
      match this
      case MissingProducts(_) => 400
      case NotInSection => 404
    }
  }

  // ---------------------------------------------------------------------
  // verify_products_exist

  function CatalogIds(catalog: seq<Product>): set<string> {
    set p | p in catalog :: p.productId
  }

  /** `verify_products_exist`: the requested ids absent from the catalog,
      duplicates collapsed (the result is a set). */
  function MissingIds(ids: seq<string>, catalog: seq<Product>): (missing: set<string>)
    ensures forall id :: id in missing <==> id in ids && Products.ProductIndex(catalog, id).None?
    ensures ids == [] ==> missing == {}
  {
    var missing := (set id | id in ids) - CatalogIds(catalog);
    assert forall id :: id in CatalogIds(catalog) <==> Products.ProductIndex(catalog, id).Some? by {
      forall id
        ensures id in CatalogIds(catalog) <==> Products.ProductIndex(catalog, id).Some?
      {
        if id in CatalogIds(catalog) {
          var p :| p in catalog && p.productId == id;
          var k :| 0 <= k < |catalog| && catalog[k] == p;
        }
      }
    }
    missing
  }

  // ---------------------------------------------------------------------
  // The add loop

  ghost predicate Distinct<K>(s: seq<K>) {
    forall i, j :: 0 <= i < j < |s| ==> s[i] != s[j]
  }

  /** The keys of a committed table, as a set. */
  function KeySet<K>(s: seq<K>): set<K> {
    set k | k in s
  }

  /** The open transaction of one add request: the keys flushed and not
      rolled back, and `added_count`. */
  datatype AddState<K> = AddState(pending: seq<K>, count: nat)

  /** One iteration of an add loop. A key already committed, or already
      flushed in this transaction, makes the flush fail; the rollback then
      discards every row flushed so far and the count is left as it is.
      Otherwise the row is flushed and counted. */
  function AddStep<K(==)>(committed: set<K>, st: AddState<K>, key: K): AddState<K> {
    if key in committed || key in st.pending then AddState([], st.count)
    else AddState(st.pending + [key], st.count + 1)
  }

  function RunFrom<K(==)>(committed: set<K>, st: AddState<K>, keys: seq<K>): AddState<K>
    decreases |keys|
  {
    if keys == [] then st else RunFrom(committed, AddStep(committed, st, keys[0]), keys[1..])
  }

  /** The outcome of a whole add request: the rows the final commit stores
      and the count reported. */
  function RunAdds<K(==)>(committed: set<K>, keys: seq<K>): AddState<K> {
    RunFrom(committed, AddState([], 0), keys)
  }

  /** One more key of a request taken from the front. */
  lemma RunFromStep<K>(committed: set<K>, st: AddState<K>, keys: seq<K>, i: nat)
    requires i < |keys|
    ensures RunFrom(committed, st, keys[i..]) == RunFrom(committed, AddStep(committed, st, keys[i]), keys[i + 1..])
  {
    assert keys[i..][0] == keys[i];
    assert keys[i..][1..] == keys[i + 1..];
  }

  /** Without collisions every key is stored and counted once. */
  lemma {:induction false} RunFromNoCollision<K>(committed: set<K>, st: AddState<K>, keys: seq<K>)
    requires Distinct(st.pending + keys)
    requires forall k :: k in st.pending + keys ==> k !in committed
    ensures RunFrom(committed, st, keys) == AddState(st.pending + keys, st.count + |keys|)
    decreases |keys|
  {
    if keys != [] {
      var k := keys[0];
      assert (st.pending + keys)[|st.pending|] == k;
      assert forall j :: 0 <= j < |st.pending| ==> (st.pending + keys)[j] == st.pending[j];
      var next := AddStep(committed, st, k);
      assert next.pending + keys[1..] == st.pending + keys;
      RunFromNoCollision(committed, next, keys[1..]);
    }
  }

  lemma RunAddsNoCollision<K>(committed: set<K>, keys: seq<K>)
    requires Distinct(keys) && forall k :: k in keys ==> k !in committed
    ensures RunAdds(committed, keys) == AddState(keys, |keys|)
  {
    assert [] + keys == keys;
    RunFromNoCollision(committed, AddState([], 0), keys);
  }

  /** The stored rows are duplicate-free and new, and `added_count` never
      reports fewer rows than are stored (it may report more). */
  lemma {:induction false} RunFromKeepsKeysFresh<K>(committed: set<K>, st: AddState<K>, keys: seq<K>)
    requires Distinct(st.pending) && forall k :: k in st.pending ==> k !in committed
    requires |st.pending| <= st.count
    ensures var out := RunFrom(committed, st, keys);
      && Distinct(out.pending)
      && (forall k :: k in out.pending ==> k !in committed && k in st.pending + keys)
      && |out.pending| <= out.count <= st.count + |keys|
    decreases |keys|
  {
    if keys != [] {
      var next := AddStep(committed, st, keys[0]);
      RunFromKeepsKeysFresh(committed, next, keys[1..]);
      assert st.pending + keys == st.pending + [keys[0]] + keys[1..];
    }
  }

  /** A collision with a committed key late in the request also discards
      the rows flushed before it: here "a" is counted but never stored. */
  lemma RollbackDiscardsEarlierRows()
    ensures RunAdds({"b"}, ["a", "b"]) == AddState([], 1)
  {
    assert ["a", "b"][1..] == ["b"];
    assert ["a", "b"][1..][1..] == [];
  }

  /** A key repeated within one request: counted once, stored never. */
  lemma RepeatedKeyStoresNothing(k: string)
    ensures RunAdds({}, [k, k]) == AddState([], 1)
  {
    assert [k, k][1..] == [k];
    assert [k, k][1..][1..] == [];
    assert AddStep({}, AddState([], 0), k) == AddState([k], 1);
    assert AddStep({}, AddState([k], 1), k) == AddState([], 1);
    assert RunFrom({}, AddState([], 1), [k][1..]) == AddState([], 1);
    assert RunFrom({}, AddState([k], 1), [k]) == AddState([], 1);
  }

  // ---------------------------------------------------------------------
  // Keys and ids of a featured table

  /** A table seen as its key column and its id column: keys unique (the
      assumed unique constraint), ids unique and below the identity
      sequence's next value. */
  ghost predicate TableOk<K>(keys: seq<K>, ids: seq<int>, nextId: int) {
    && |keys| == |ids|
    && Distinct(keys)
    && (forall i :: 0 <= i < |ids| ==> ids[i] < nextId)
    && (forall i, j :: 0 <= i < j < |ids| ==> ids[i] != ids[j])
  }

  /** Rows flushed in one transaction: new keys, increasing ids drawn from
      [lo, hi). */
  ghost predicate FreshBatch<K>(keys: seq<K>, ids: seq<int>, committed: set<K>, lo: int, hi: int) {
    && |keys| == |ids|
    && Distinct(keys)
    && (forall j :: 0 <= j < |keys| ==> keys[j] !in committed)
    && (forall j :: 0 <= j < |ids| ==> lo <= ids[j] < hi)
    && (forall j, k :: 0 <= j < k < |ids| ==> ids[j] < ids[k])
  }

  lemma FreshBatchExtend<K>(keys: seq<K>, ids: seq<int>, committed: set<K>, lo: int, hi: int, key: K)
    requires FreshBatch(keys, ids, committed, lo, hi) && lo <= hi
    requires key !in committed && key !in keys
    ensures FreshBatch(keys + [key], ids + [hi], committed, lo, hi + 1)
  {
  }

  lemma TableAppend<K>(keys: seq<K>, ids: seq<int>, nextId: int, committed: set<K>,
                       newKeys: seq<K>, newIds: seq<int>, hi: int)
    requires TableOk(keys, ids, nextId)
    requires forall j :: 0 <= j < |keys| ==> keys[j] in committed
    requires FreshBatch(newKeys, newIds, committed, nextId, hi)
    requires nextId <= hi
    ensures TableOk(keys + newKeys, ids + newIds, hi)
  {
    var ks, ns := keys + newKeys, ids + newIds;
    forall i, j | 0 <= i < j < |ks|
      ensures ks[i] != ks[j]
    {
      if i < |keys| && j >= |keys| {
        assert ks[i] in committed;
        assert ks[j] == newKeys[j - |keys|];
      }
    }
    forall i, j | 0 <= i < j < |ns|
      ensures ns[i] != ns[j]
    {
      if i < |ids| && j >= |ids| {
        assert ns[i] < nextId <= ns[j];
      }
    }
  }

  lemma TableRemove<K>(keys: seq<K>, ids: seq<int>, nextId: int, i: nat)
    requires TableOk(keys, ids, nextId) && i < |keys|
    ensures TableOk(keys[..i] + keys[i + 1..], ids[..i] + ids[i + 1..], nextId)
  {
    var ks, ns := keys[..i] + keys[i + 1..], ids[..i] + ids[i + 1..];
    assert forall j :: 0 <= j < |ks| ==> ks[j] == if j < i then keys[j] else keys[j + 1];
    assert forall j :: 0 <= j < |ns| ==> ns[j] == if j < i then ids[j] else ids[j + 1];
  }

  // ---------------------------------------------------------------------
  // build_product_responses

  datatype FeaturedProduct = FeaturedProduct(
    id: int,
    productId: string,
    createdAt: int,
    name: string,
    price: int,
    description: Option<string>,
    mainImageUrl: string,
    averageRating: real,
    categoryName: Option<string>)

  /** The response for one featured row whose product exists; the category
      name only when asked for and the product's category row exists. */
  function ResponseFor(e: FeaturedEntry, p: Product, categories: seq<Category>, includeCategory: bool): (r: FeaturedProduct)
    ensures r.id == e.id && r.productId == e.productId && r.createdAt == e.createdAt
    ensures r.name == p.name && r.price == p.price && r.description == p.description
    ensures r.mainImageUrl == p.mainImageUrl && r.averageRating == p.averageRating
    ensures r.categoryName.Some? <==> includeCategory && Categories.CategoryIndex(categories, p.categoryId).Some?
    ensures r.categoryName.Some? ==>
      r.categoryName.value == categories[Categories.CategoryIndex(categories, p.categoryId).value].name
  {
    var category := Categories.CategoryIndex(categories, p.categoryId);
    FeaturedProduct(
      e.id, e.productId, e.createdAt, p.name, p.price, p.description, p.mainImageUrl, p.averageRating,
      if includeCategory && category.Some? then Some(categories[category.value].name) else None)
  }

  /** The responses for `entries`, in their order, skipping rows whose
      product no longer exists. */
  function Responses(entries: seq<FeaturedEntry>, catalog: seq<Product>, categories: seq<Category>,
                     includeCategory: bool): (r: seq<FeaturedProduct>)
    ensures |r| <= |entries|
    ensures forall i :: 0 <= i < |r| ==> Products.ProductIndex(catalog, r[i].productId).Some?
  {
    if entries == [] then []
    else
      var e := entries[|entries| - 1];
      var front := Responses(entries[..|entries| - 1], catalog, categories, includeCategory);
      match Products.ProductIndex(catalog, e.productId)
      case None => front
      case Some(k) => front + [ResponseFor(e, catalog[k], categories, includeCategory)]
  }

  /** Some response in `r` shows the featured row `e`. */
  ghost predicate Listed(r: seq<FeaturedProduct>, e: FeaturedEntry) {
    exists x :: x in r && x.id == e.id && x.productId == e.productId
  }

  /** The response `x` shows one of the featured rows `entries`. */
  ghost predicate FromRow(entries: seq<FeaturedEntry>, x: FeaturedProduct) {
    exists e :: e in entries && x.id == e.id && x.productId == e.productId
  }

  /** The responses show exactly the rows whose product exists: each
      response comes from a row, and each such row has a response. */
  lemma {:induction false} ResponsesRows(entries: seq<FeaturedEntry>, catalog: seq<Product>,
                                         categories: seq<Category>, includeCategory: bool)
    ensures var r := Responses(entries, catalog, categories, includeCategory);
      && (forall x :: x in r ==> FromRow(entries, x))
      && (forall e :: e in entries && Products.ProductIndex(catalog, e.productId).Some? ==> Listed(r, e))
  {
    if entries != [] {
      var front := entries[..|entries| - 1];
      var last := entries[|entries| - 1];
      assert entries == front + [last];
      ResponsesRows(front, catalog, categories, includeCategory);
      var fr := Responses(front, catalog, categories, includeCategory);
      var r := Responses(entries, catalog, categories, includeCategory);
      match Products.ProductIndex(catalog, last.productId)
      case None =>
        assert r == fr;
        RowsGrow(front, entries, fr, fr);
      case Some(k) =>
        var y := ResponseFor(last, catalog[k], categories, includeCategory);
        assert r == fr + [y];
        RowsGrow(front, entries, fr, r);
        assert FromRow(entries, y) by {
          assert last in entries;
        }
        assert Listed(r, last) by {
          assert y in r;
        }
    }
  }

  /** Lengthening the rows and the responses keeps what was shown. */
  lemma RowsGrow(front: seq<FeaturedEntry>, entries: seq<FeaturedEntry>, fr: seq<FeaturedProduct>, r: seq<FeaturedProduct>)
    requires forall e :: e in front ==> e in entries
    requires forall x :: x in fr ==> x in r
    ensures forall x :: FromRow(front, x) ==> FromRow(entries, x)
    ensures forall e :: Listed(fr, e) ==> Listed(r, e)
  {
    forall x | FromRow(front, x)
      ensures FromRow(entries, x)
    {
      var e :| e in front && x.id == e.id && x.productId == e.productId;
      assert e in entries;
    }
    forall e | Listed(fr, e)
      ensures Listed(r, e)
    {
      var x :| x in fr && x.id == e.id && x.productId == e.productId;
      assert x in r;
    }
  }

  /** Responses of a concatenation are the concatenated responses: the
      output keeps the order of the featured rows. */
  lemma {:induction false} ResponsesAppend(a: seq<FeaturedEntry>, b: seq<FeaturedEntry>, catalog: seq<Product>,
                                           categories: seq<Category>, includeCategory: bool)
    ensures Responses(a + b, catalog, categories, includeCategory) ==
      Responses(a, catalog, categories, includeCategory) + Responses(b, catalog, categories, includeCategory)
  {
    if b == [] {
      assert a + b == a;
    } else {
      var b' := b[..|b| - 1];
      assert (a + b)[..|a + b| - 1] == a + b';
      assert (a + b)[|a + b| - 1] == b[|b| - 1];
      ResponsesAppend(a, b', catalog, categories, includeCategory);
    }
  }

  /** When every product exists, each row gives exactly one response, at
      the same position. */
  lemma {:induction false} ResponsesAllPresent(entries: seq<FeaturedEntry>, catalog: seq<Product>,
                                               categories: seq<Category>, includeCategory: bool)
    requires forall i :: 0 <= i < |entries| ==> Products.ProductIndex(catalog, entries[i].productId).Some?
    ensures var r := Responses(entries, catalog, categories, includeCategory);
      && |r| == |entries|
      && forall i :: 0 <= i < |r| ==> r[i].id == entries[i].id && r[i].productId == entries[i].productId
  {
    if entries != [] {
      var front := entries[..|entries| - 1];
      var e := entries[|entries| - 1];
      assert forall i :: 0 <= i < |front| ==> front[i] == entries[i];
      ResponsesAllPresent(front, catalog, categories, includeCategory);
      var k := Products.ProductIndex(catalog, e.productId).value;
      var r := Responses(entries, catalog, categories, includeCategory);
      var fr := Responses(front, catalog, categories, includeCategory);
      var x := ResponseFor(e, catalog[k], categories, includeCategory);
      assert r == fr + [x];
      forall i | 0 <= i < |r|
        ensures r[i].id == entries[i].id && r[i].productId == entries[i].productId
      {
        if i < |fr| {
          assert r[i] == fr[i];
        } else {
          assert r[i] == x;
        }
      }
    }
  }

  /** `build_product_responses`: the loop that appends one response per
      featured row whose product is found. */
  method BuildProductResponses(entries: seq<FeaturedEntry>, catalog: seq<Product>, categories: seq<Category>,
                               includeCategory: bool) returns (responses: seq<FeaturedProduct>)
    ensures responses == Responses(entries, catalog, categories, includeCategory)
  {
    responses := [];
    for i := 0 to |entries|
      invariant responses == Responses(entries[..i], catalog, categories, includeCategory)
    {
      assert entries[..i + 1][..i] == entries[..i];
      var found := Products.ProductIndex(catalog, entries[i].productId);
      if found.Some? {
        responses := responses + [ResponseFor(entries[i], catalog[found.value], categories, includeCategory)];
      }
    }
    assert entries[..|entries|] == entries;
  }

  function CreatedAt(e: FeaturedEntry): int {
    e.createdAt
  }

  /** `get_bestselling` and its three siblings: the number of rows, and the
      responses for the rows newest first, with category names. */
  function SectionListing(entries: seq<FeaturedEntry>, catalog: seq<Product>, categories: seq<Category>)
    : (r: (nat, seq<FeaturedProduct>))
    ensures r.0 == |entries| && |r.1| <= r.0
    ensures Sorted(r.1, ResponseTime, false)
    ensures forall x :: x in r.1 ==> FromRow(entries, x)
    ensures forall e :: e in entries && Products.ProductIndex(catalog, e.productId).Some? ==> Listed(r.1, e)
  {
    var sorted := SortBy(entries, CreatedAt, false);
    ResponsesKeepOrder(sorted, catalog, categories, true);
    ResponsesRows(sorted, catalog, categories, true);
    SameRows(entries, sorted, Responses(sorted, catalog, categories, true));
    (|entries|, Responses(sorted, catalog, categories, true))
  }

  /** Rows are the same rows in any rearrangement. */
  lemma SameRows(entries: seq<FeaturedEntry>, sorted: seq<FeaturedEntry>, r: seq<FeaturedProduct>)
    requires multiset(sorted) == multiset(entries)
    ensures forall x :: FromRow(sorted, x) ==> FromRow(entries, x)
    ensures forall e :: e in entries ==> e in sorted
  {
    forall x | FromRow(sorted, x)
      ensures FromRow(entries, x)
    {
      var e :| e in sorted && x.id == e.id && x.productId == e.productId;
      assert e in multiset(entries);
    }
    forall e | e in entries
      ensures e in sorted
    {
      assert e in multiset(sorted);
    }
  }

  /** When every listed product exists, the listing shows every row, once
      each. */
  lemma SectionListingComplete(entries: seq<FeaturedEntry>, catalog: seq<Product>, categories: seq<Category>)
    requires forall i :: 0 <= i < |entries| ==> Products.ProductIndex(catalog, entries[i].productId).Some?
    ensures |SectionListing(entries, catalog, categories).1| == |entries|
    ensures forall e :: e in entries ==> Listed(SectionListing(entries, catalog, categories).1, e)
  {
    var sorted := SortBy(entries, CreatedAt, false);
    forall i | 0 <= i < |sorted|
      ensures Products.ProductIndex(catalog, sorted[i].productId).Some?
    {
      assert sorted[i] in multiset(entries);
      var j :| 0 <= j < |entries| && entries[j] == sorted[i];
    }
    ResponsesAllPresent(sorted, catalog, categories, true);
  }

  function ResponseTime(p: FeaturedProduct): int {
    p.createdAt
  }

  /** Rows created no earlier than `bound` give responses created no
      earlier than `bound`. */
  lemma {:induction false} ResponsesNotOlder(entries: seq<FeaturedEntry>, catalog: seq<Product>,
                                             categories: seq<Category>, includeCategory: bool, bound: int)
    requires forall i :: 0 <= i < |entries| ==> entries[i].createdAt >= bound
    ensures forall i :: 0 <= i < |Responses(entries, catalog, categories, includeCategory)| ==>
      Responses(entries, catalog, categories, includeCategory)[i].createdAt >= bound
  {
    if entries != [] {
      var front := entries[..|entries| - 1];
      var e := entries[|entries| - 1];
      assert forall i :: 0 <= i < |front| ==> front[i] == entries[i];
      ResponsesNotOlder(front, catalog, categories, includeCategory, bound);
      var fr := Responses(front, catalog, categories, includeCategory);
      var found := Products.ProductIndex(catalog, e.productId);
      if found.Some? {
        var x := ResponseFor(e, catalog[found.value], categories, includeCategory);
        assert Responses(entries, catalog, categories, includeCategory) == fr + [x];
        assert x.createdAt == e.createdAt >= bound;
      } else {
        assert Responses(entries, catalog, categories, includeCategory) == fr;
      }
    }
  }

  /** Dropping the rows of vanished products keeps the order: newest-first
      rows give newest-first responses. */
  lemma {:induction false} ResponsesKeepOrder(entries: seq<FeaturedEntry>, catalog: seq<Product>,
                                              categories: seq<Category>, includeCategory: bool)
    requires Sorted(entries, CreatedAt, false)
    ensures Sorted(Responses(entries, catalog, categories, includeCategory), ResponseTime, false)
  {
    if entries != [] {
      var front := entries[..|entries| - 1];
      var e := entries[|entries| - 1];
      forall i, j | 0 <= i < j < |front|
        ensures InOrder(CreatedAt(front[i]), CreatedAt(front[j]), false)
      {
        assert front[i] == entries[i] && front[j] == entries[j];
      }
      ResponsesKeepOrder(front, catalog, categories, includeCategory);
      forall i | 0 <= i < |front|
        ensures front[i].createdAt >= e.createdAt
      {
        assert front[i] == entries[i];
        assert InOrder(CreatedAt(entries[i]), CreatedAt(entries[|entries| - 1]), false);
      }
      ResponsesNotOlder(front, catalog, categories, includeCategory, e.createdAt);
      var fr := Responses(front, catalog, categories, includeCategory);
      assert forall i :: 0 <= i < |fr| ==> fr[i].createdAt >= e.createdAt;
      var found := Products.ProductIndex(catalog, e.productId);
      if found.Some? {
        var x := ResponseFor(e, catalog[found.value], categories, includeCategory);
        var r := fr + [x];
        assert Responses(entries, catalog, categories, includeCategory) == r;
        forall i, j | 0 <= i < j < |r|
          ensures InOrder(ResponseTime(r[i]), ResponseTime(r[j]), false)
        {
          assert r[i] == fr[i];
          if j < |fr| {
            assert r[j] == fr[j];
          } else {
            assert r[j] == x && x.createdAt == e.createdAt;
            assert fr[i].createdAt >= e.createdAt;
          }
        }
      }
    }
  }

  // ---------------------------------------------------------------------
  // The four plain sections

  function ProductIdsOf(entries: seq<FeaturedEntry>): (ids: seq<string>)
    ensures |ids| == |entries|
    ensures forall i :: 0 <= i < |ids| ==> ids[i] == entries[i].productId
  {
    seq(|entries|, i requires 0 <= i < |entries| => entries[i].productId)
  }

  function SectionIndex(entries: seq<FeaturedEntry>, productId: string): (r: Option<nat>)
    ensures r.Some? ==> r.value < |entries| && entries[r.value].productId == productId
    ensures r.None? ==> forall j :: 0 <= j < |entries| ==> entries[j].productId != productId
  {
    FindIndex(entries, (e: FeaturedEntry) => e.productId == productId)
  }

  function RowIdsOf(entries: seq<FeaturedEntry>): (ids: seq<int>)
    ensures |ids| == |entries|
    ensures forall i :: 0 <= i < |ids| ==> ids[i] == entries[i].id
  {
    seq(|entries|, i requires 0 <= i < |entries| => entries[i].id)
  }

  lemma ViewsConcat(a: seq<FeaturedEntry>, b: seq<FeaturedEntry>)
    ensures ProductIdsOf(a + b) == ProductIdsOf(a) + ProductIdsOf(b)
    ensures RowIdsOf(a + b) == RowIdsOf(a) + RowIdsOf(b)
  {
  }

  lemma ViewsRemove(a: seq<FeaturedEntry>, i: nat)
    requires i < |a|
    ensures ProductIdsOf(a[..i] + a[i + 1..]) == ProductIdsOf(a)[..i] + ProductIdsOf(a)[i + 1..]
    ensures RowIdsOf(a[..i] + a[i + 1..]) == RowIdsOf(a)[..i] + RowIdsOf(a)[i + 1..]
  {
  }

  /** The add loop of a plain section: one flush per requested id, each
      drawing the next identity value from `firstId` on, and a rollback on
      every refused flush. */
  method FlushEntries(committed: set<string>, productIds: seq<string>, firstId: int, now: int)
    returns (pendingRows: seq<FeaturedEntry>, addedCount: nat)
    ensures AddState(ProductIdsOf(pendingRows), addedCount) == RunAdds(committed, productIds)
    ensures FreshBatch(ProductIdsOf(pendingRows), RowIdsOf(pendingRows), committed, firstId, firstId + |productIds|)
    ensures forall e :: e in pendingRows ==> e.createdAt == now
  {
    pendingRows := [];
    addedCount := 0;
    var nextId := firstId;
    for i := 0 to |productIds|
      invariant RunFrom(committed, AddState(ProductIdsOf(pendingRows), addedCount), productIds[i..])
        == RunAdds(committed, productIds)
      invariant FreshBatch(ProductIdsOf(pendingRows), RowIdsOf(pendingRows), committed, firstId, nextId)
      invariant forall e :: e in pendingRows ==> e.createdAt == now
      invariant nextId == firstId + i
    {
      var productId := productIds[i];
      var pendingIds := ProductIdsOf(pendingRows);
      RunFromStep(committed, AddState(pendingIds, addedCount), productIds, i);
      if productId in committed || productId in pendingIds {
        pendingRows := [];
      } else {
        FreshBatchExtend(pendingIds, RowIdsOf(pendingRows), committed, firstId, nextId, productId);
        var row := FeaturedEntry(nextId, productId, now);
        ViewsConcat(pendingRows, [row]);
        assert ProductIdsOf([row]) == [productId];
        pendingRows := pendingRows + [row];
        addedCount := addedCount + 1;
      }
      nextId := nextId + 1;
    }
    assert productIds[|productIds|..] == [];
  }

  class FeaturedSection {
    var entries: seq<FeaturedEntry>
    /** The next value of the identity sequence behind the table's `id`. */
    var nextId: int

    ghost predicate Valid()
      reads this
    {
      TableOk(ProductIdsOf(entries), RowIdsOf(entries), nextId)
    }

    constructor ()
      ensures Valid() && entries == [] && nextId == 1
    {
      entries := [];
      nextId := 1;
    }

    /** `add_bestselling` (and its three siblings): 400 naming the missing
        ids and adding nothing; otherwise the add loop, whose outcome is
        `RunAdds` over the committed product ids. `now` is the transaction
        time the new rows receive. */
    method AddProducts(productIds: seq<string>, catalog: seq<Product>, now: int) returns (r: Result<nat, FeaturedError>)
      requires Valid()
      modifies this
      ensures Valid()
      ensures MissingIds(productIds, catalog) != {} ==>
        r == Err(MissingProducts(MissingIds(productIds, catalog))) && entries == old(entries)
      ensures MissingIds(productIds, catalog) == {} ==>
        var outcome := RunAdds(KeySet(ProductIdsOf(old(entries))), productIds);
        && r == Ok(outcome.count)
        && |old(entries)| <= |entries|
        && entries[..|old(entries)|] == old(entries)
        && ProductIdsOf(entries[|old(entries)|..]) == outcome.pending
        && forall e :: e in entries[|old(entries)|..] ==> e.createdAt == now
    {
      var missing := MissingIds(productIds, catalog);
      if missing != {} {
        return Err(MissingProducts(missing));
      }
      var committed := KeySet(ProductIdsOf(entries));
      var pendingRows, addedCount := FlushEntries(committed, productIds, nextId, now);
      TableAppend(ProductIdsOf(entries), RowIdsOf(entries), nextId, committed,
                  ProductIdsOf(pendingRows), RowIdsOf(pendingRows), nextId + |productIds|);
      ViewsConcat(entries, pendingRows);
      entries := entries + pendingRows;
      nextId := nextId + |productIds|;
      assert entries[|old(entries)|..] == pendingRows;
      r := Ok(addedCount);
    }

    /** `remove_bestselling` (and siblings): 404 when no row holds the
        product; otherwise the first such row goes and the others stay. */
    method RemoveProduct(productId: string) returns (r: Result<(), FeaturedError>)
      requires Valid()
      modifies this
      ensures Valid() && nextId == old(nextId)
      ensures SectionIndex(old(entries), productId).None? ==> r == Err(NotInSection) && entries == old(entries)
      ensures SectionIndex(old(entries), productId).Some? ==>
        var i := SectionIndex(old(entries), productId).value;
        r == Ok(()) && entries == old(entries)[..i] + old(entries)[i + 1..]
    {
      var found := SectionIndex(entries, productId);
      if found.None? {
        return Err(NotInSection);
      }
      var i := found.value;
      TableRemove(ProductIdsOf(entries), RowIdsOf(entries), nextId, i);
      ViewsRemove(entries, i);
      entries := entries[..i] + entries[i + 1..];
      r := Ok(());
    }
  }

  // ---------------------------------------------------------------------
  // Shop by need

  function NeedKeysOf(entries: seq<NeedEntry>): (keys: seq<(string, string)>)
    ensures |keys| == |entries|
    ensures forall i :: 0 <= i < |keys| ==> keys[i] == (entries[i].entry.productId, entries[i].need)
  {
    seq(|entries|, i requires 0 <= i < |entries| => (entries[i].entry.productId, entries[i].need))
  }

  /** The keys one `add_shopbyneed` request tries, in order. */
  function RequestKeys(productIds: seq<string>, need: string): (keys: seq<(string, string)>)
    ensures |keys| == |productIds|
    ensures forall i :: 0 <= i < |keys| ==> keys[i] == (productIds[i], need)
  {
    seq(|productIds|, i requires 0 <= i < |productIds| => (productIds[i], need))
  }

  function NeedIndex(entries: seq<NeedEntry>, productId: string, need: string): (r: Option<nat>)
    ensures r.Some? ==> r.value < |entries| && entries[r.value].entry.productId == productId && entries[r.value].need == need
    ensures r.None? ==> forall j :: 0 <= j < |entries| ==> entries[j].entry.productId != productId || entries[j].need != need
  {
    FindIndex(entries, (e: NeedEntry) => e.entry.productId == productId && e.need == need)
  }

  function NeedOf(e: NeedEntry): string {
    e.need
  }

  function NeedSet(entries: seq<NeedEntry>): set<string> {
    set e | e in entries :: e.need
  }

  function CountNeed(entries: seq<NeedEntry>, need: string): (n: nat)
    ensures n <= |entries|
  {
    if entries == [] then 0
    else CountNeed(entries[..|entries| - 1], need) + (if entries[|entries| - 1].need == need then 1 else 0)
  }

  /** The distinct needs, in order of first appearance. */
  function DistinctNeeds(entries: seq<NeedEntry>): (d: seq<string>)
    ensures Distinct(d)
    ensures forall n :: n in d <==> n in NeedSet(entries)
  {
    if entries == [] then []
    else
      var front := entries[..|entries| - 1];
      var last := entries[|entries| - 1];
      assert entries == front + [last];
      var d := DistinctNeeds(front);
      if last.need in d then d else d + [last.need]
  }

  lemma {:induction false} CountNeedPositive(entries: seq<NeedEntry>, need: string)
    requires need in NeedSet(entries)
    ensures CountNeed(entries, need) >= 1
  {
    var front := entries[..|entries| - 1];
    if entries[|entries| - 1].need != need {
      assert entries == front + [entries[|entries| - 1]];
      assert need in NeedSet(front);
      CountNeedPositive(front, need);
    }
  }

  lemma {:induction false} DistinctCard<T>(s: seq<T>)
    requires Distinct(s)
    ensures |set x | x in s| == |s|
  {
    if s != [] {
      var front := s[..|s| - 1];
      var last := s[|s| - 1];
      assert s == front + [last];
      assert Distinct(front);
      DistinctCard(front);
      assert last !in front;
      assert (set x | x in s) == (set x | x in front) + {last};
    }
  }

  datatype NeedCount = NeedCount(need: string, count: nat)

  function CountOf(r: NeedCount): int {
    r.count
  }

  /** One row per distinct need with its number of entries (`GROUP BY need`). */
  function NeedRows(entries: seq<NeedEntry>): (rows: seq<NeedCount>)
    ensures |rows| == |DistinctNeeds(entries)|
    ensures forall i :: 0 <= i < |rows| ==> rows[i] == NeedCount(DistinctNeeds(entries)[i], CountNeed(entries, DistinctNeeds(entries)[i]))
  {
    var d := DistinctNeeds(entries);
    seq(|d|, i requires 0 <= i < |d| => NeedCount(d[i], CountNeed(entries, d[i])))
  }

  /** `get_needs`: the grouped rows ordered by count, largest first, and
      their number. */
  function GetNeeds(entries: seq<NeedEntry>): (r: (nat, seq<NeedCount>))
    ensures r.0 == |r.1|
    ensures Sorted(r.1, CountOf, false)
    ensures multiset(r.1) == multiset(NeedRows(entries))
  {
    var rows := SortBy(NeedRows(entries), CountOf, false);
    (|rows|, rows)
  }

  /** The grouped rows name every need exactly once, each with its positive
      count, so `total` is the number of distinct needs. */
  lemma NeedRowsSummary(entries: seq<NeedEntry>)
    ensures var rows := NeedRows(entries);
      && GetNeeds(entries).0 == |NeedSet(entries)|
      && (forall i, j :: 0 <= i < j < |rows| ==> rows[i].need != rows[j].need)
      && (forall n :: n in NeedSet(entries) <==> exists i :: 0 <= i < |rows| && rows[i].need == n)
      && (forall i :: 0 <= i < |rows| ==> rows[i].count == CountNeed(entries, rows[i].need) >= 1)
  {
    var d := DistinctNeeds(entries);
    var rows := NeedRows(entries);
    DistinctCard(d);
    assert (set x | x in d) == NeedSet(entries);
    assert |multiset(GetNeeds(entries).1)| == |multiset(rows)|;
    forall n | n in NeedSet(entries)
      ensures exists i :: 0 <= i < |rows| && rows[i].need == n
    {
      var i :| 0 <= i < |d| && d[i] == n;
      assert rows[i].need == n;
    }
    forall i | 0 <= i < |rows|
      ensures rows[i].count == CountNeed(entries, rows[i].need) >= 1
    {
      assert d[i] in NeedSet(entries);
      CountNeedPositive(entries, d[i]);
    }
  }

  /** `get_shopbyneed_by_need`: the rows of one need and their number. */
  function NeedListing(entries: seq<NeedEntry>, need: string, catalog: seq<Product>, categories: seq<Category>)
    : (r: (nat, seq<FeaturedProduct>))
    ensures r.0 == CountNeed(entries, need) && |r.1| <= r.0
    ensures Sorted(r.1, ResponseTime, false)
    ensures forall x :: x in r.1 ==> FromNeedRow(entries, need, x)
    ensures forall ne :: ne in entries && ne.need == need && Products.ProductIndex(catalog, ne.entry.productId).Some? ==>
      Listed(r.1, ne.entry)
  {
    var mine := Filter(entries, (e: NeedEntry) => e.need == need);
    CountNeedFilter(entries, need);
    var rows := seq(|mine|, i requires 0 <= i < |mine| => mine[i].entry);
    var sorted := SortBy(rows, CreatedAt, false);
    var listed := Responses(sorted, catalog, categories, true);
    NeedListingRows(entries, need, catalog, categories, mine, rows, sorted, listed);
    (|mine|, listed)
  }

  /** The listing of a need shows its rows, newest first, and only them. */
  lemma NeedListingRows(entries: seq<NeedEntry>, need: string, catalog: seq<Product>, categories: seq<Category>,
                        mine: seq<NeedEntry>, rows: seq<FeaturedEntry>, sorted: seq<FeaturedEntry>,
                        listed: seq<FeaturedProduct>)
    requires mine == Filter(entries, (e: NeedEntry) => e.need == need)
    requires |rows| == |mine| && forall i :: 0 <= i < |rows| ==> rows[i] == mine[i].entry
    requires sorted == SortBy(rows, CreatedAt, false)
    requires listed == Responses(sorted, catalog, categories, true)
    ensures Sorted(listed, ResponseTime, false)
    ensures forall x :: x in listed ==> FromNeedRow(entries, need, x)
    ensures forall ne :: ne in entries && ne.need == need && Products.ProductIndex(catalog, ne.entry.productId).Some? ==>
      Listed(listed, ne.entry)
  {
    ResponsesKeepOrder(sorted, catalog, categories, true);
    ResponsesRows(sorted, catalog, categories, true);
    SameRows(rows, sorted, listed);
    assert forall ne :: ne in entries && ne.need == need ==> ne in mine by {
      forall ne | ne in entries && ne.need == need
        ensures ne in mine
      {
        var j :| 0 <= j < |entries| && entries[j] == ne;
      }
    }
    NeedRowsShown(entries, need, mine, rows);
  }

  /** The featured rows of the need's entries are exactly the entries of
      that need. */
  lemma NeedRowsShown(entries: seq<NeedEntry>, need: string, mine: seq<NeedEntry>, rows: seq<FeaturedEntry>)
    requires forall i :: 0 <= i < |mine| ==> mine[i] in entries && mine[i].need == need
    requires forall ne :: ne in entries && ne.need == need ==> ne in mine
    requires |rows| == |mine| && forall i :: 0 <= i < |rows| ==> rows[i] == mine[i].entry
    ensures forall x :: FromRow(rows, x) ==> FromNeedRow(entries, need, x)
    ensures forall ne :: ne in entries && ne.need == need ==> ne.entry in rows
  {
    forall x | FromRow(rows, x)
      ensures FromNeedRow(entries, need, x)
    {
      var e :| e in rows && x.id == e.id && x.productId == e.productId;
      var i :| 0 <= i < |rows| && rows[i] == e;
      assert mine[i] in entries && mine[i].need == need && mine[i].entry == e;
    }
    forall ne | ne in entries && ne.need == need
      ensures ne.entry in rows
    {
      var i :| 0 <= i < |mine| && mine[i] == ne;
      assert rows[i] == ne.entry;
    }
  }

  /** The response `x` shows one of the rows of `need`. */
  ghost predicate FromNeedRow(entries: seq<NeedEntry>, need: string, x: FeaturedProduct) {
    exists ne :: ne in entries && ne.need == need && x.id == ne.entry.id && x.productId == ne.entry.productId
  }

  lemma {:induction false} CountNeedFilter(entries: seq<NeedEntry>, need: string)
    ensures |Filter(entries, (e: NeedEntry) => e.need == need)| == CountNeed(entries, need)
  {
    if entries != [] {
      var front := entries[..|entries| - 1];
      var last := entries[|entries| - 1];
      assert entries == front + [last];
      FilterAppend(front, [last], (e: NeedEntry) => e.need == need);
      CountNeedFilter(front, need);
    }
  }

  function NeedRowIdsOf(entries: seq<NeedEntry>): (ids: seq<int>)
    ensures |ids| == |entries|
    ensures forall i :: 0 <= i < |ids| ==> ids[i] == entries[i].entry.id
  {
    seq(|entries|, i requires 0 <= i < |entries| => entries[i].entry.id)
  }

  lemma NeedViewsConcat(a: seq<NeedEntry>, b: seq<NeedEntry>)
    ensures NeedKeysOf(a + b) == NeedKeysOf(a) + NeedKeysOf(b)
    ensures NeedRowIdsOf(a + b) == NeedRowIdsOf(a) + NeedRowIdsOf(b)
  {
  }

  lemma NeedViewsRemove(a: seq<NeedEntry>, i: nat)
    requires i < |a|
    ensures NeedKeysOf(a[..i] + a[i + 1..]) == NeedKeysOf(a)[..i] + NeedKeysOf(a)[i + 1..]
    ensures NeedRowIdsOf(a[..i] + a[i + 1..]) == NeedRowIdsOf(a)[..i] + NeedRowIdsOf(a)[i + 1..]
  {
  }

  /** The add loop of `add_shopbyneed`, over (product id, need) keys. */
  method FlushNeedEntries(committed: set<(string, string)>, need: string, productIds: seq<string>,
                          firstId: int, now: int)
    returns (pendingRows: seq<NeedEntry>, addedCount: nat)
    ensures AddState(NeedKeysOf(pendingRows), addedCount) == RunAdds(committed, RequestKeys(productIds, need))
    ensures FreshBatch(NeedKeysOf(pendingRows), NeedRowIdsOf(pendingRows), committed, firstId, firstId + |productIds|)
    ensures forall e :: e in pendingRows ==> e.entry.createdAt == now
  {
    var keys := RequestKeys(productIds, need);
    pendingRows := [];
    addedCount := 0;
    var nextId := firstId;
    for i := 0 to |productIds|
      invariant RunFrom(committed, AddState(NeedKeysOf(pendingRows), addedCount), keys[i..])
        == RunAdds(committed, keys)
      invariant FreshBatch(NeedKeysOf(pendingRows), NeedRowIdsOf(pendingRows), committed, firstId, nextId)
      invariant forall e :: e in pendingRows ==> e.entry.createdAt == now
      invariant nextId == firstId + i
    {
      var key := keys[i];
      var pendingKeys := NeedKeysOf(pendingRows);
      RunFromStep(committed, AddState(pendingKeys, addedCount), keys, i);
      if key in committed || key in pendingKeys {
        pendingRows := [];
      } else {
        FreshBatchExtend(pendingKeys, NeedRowIdsOf(pendingRows), committed, firstId, nextId, key);
        var row := NeedEntry(FeaturedEntry(nextId, productIds[i], now), need);
        NeedViewsConcat(pendingRows, [row]);
        assert key == (productIds[i], need);
        assert NeedKeysOf([row]) == [key] && NeedRowIdsOf([row]) == [nextId];
        pendingRows := pendingRows + [row];
        addedCount := addedCount + 1;
      }
      nextId := nextId + 1;
    }
    assert keys[|productIds|..] == [];
  }

  class NeedSection {
    var entries: seq<NeedEntry>
    var nextId: int

    ghost predicate Valid()
      reads this
    {
      TableOk(NeedKeysOf(entries), NeedRowIdsOf(entries), nextId)
    }

    constructor ()
      ensures Valid() && entries == [] && nextId == 1
    {
      entries := [];
      nextId := 1;
    }

    /** `add_shopbyneed`: the add loop of the plain sections, over
        (product id, need) keys. */
    method AddProducts(need: string, productIds: seq<string>, catalog: seq<Product>, now: int)
      returns (r: Result<nat, FeaturedError>)
      requires Valid()
      modifies this
      ensures Valid()
      ensures MissingIds(productIds, catalog) != {} ==>
        r == Err(MissingProducts(MissingIds(productIds, catalog))) && entries == old(entries)
      ensures MissingIds(productIds, catalog) == {} ==>
        var outcome := RunAdds(KeySet(NeedKeysOf(old(entries))), RequestKeys(productIds, need));
        && r == Ok(outcome.count)
        && |old(entries)| <= |entries|
        && entries[..|old(entries)|] == old(entries)
        && NeedKeysOf(entries[|old(entries)|..]) == outcome.pending
        && forall e :: e in entries[|old(entries)|..] ==> e.entry.createdAt == now
    {
      var missing := MissingIds(productIds, catalog);
      if missing != {} {
        return Err(MissingProducts(missing));
      }
      var committed := KeySet(NeedKeysOf(entries));
      var pendingRows, addedCount := FlushNeedEntries(committed, need, productIds, nextId, now);
      TableAppend(NeedKeysOf(entries), NeedRowIdsOf(entries), nextId, committed,
                  NeedKeysOf(pendingRows), NeedRowIdsOf(pendingRows), nextId + |productIds|);
      NeedViewsConcat(entries, pendingRows);
      entries := entries + pendingRows;
      nextId := nextId + |productIds|;
      assert entries[|old(entries)|..] == pendingRows;
      r := Ok(addedCount);
    }

    /** `remove_shopbyneed`: the row must match both the product and the need. */
    method RemoveProduct(productId: string, need: string) returns (r: Result<(), FeaturedError>)
      requires Valid()
      modifies this
      ensures Valid() && nextId == old(nextId)
      ensures NeedIndex(old(entries), productId, need).None? ==> r == Err(NotInSection) && entries == old(entries)
      ensures NeedIndex(old(entries), productId, need).Some? ==>
        var i := NeedIndex(old(entries), productId, need).value;
        r == Ok(()) && entries == old(entries)[..i] + old(entries)[i + 1..]
    {
      var found := NeedIndex(entries, productId, need);
      if found.None? {
        return Err(NotInSection);
      }
      var i := found.value;
      TableRemove(NeedKeysOf(entries), NeedRowIdsOf(entries), nextId, i);
      NeedViewsRemove(entries, i);
      entries := entries[..i] + entries[i + 1..];
      r := Ok(());
    }
  }
}
