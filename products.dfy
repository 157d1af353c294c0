/** The products table (models.py:43-59) and the catalog routes of
    routers/products/products.py: customization validation and id minting on
    create, partial update, delete, and the filtered listing. */
module Products {
  import opened Common
  import opened Decimal
  import opened Schema
  import opened Sorting
  import Categories

  datatype CatalogError =
    | CategoryNotFound
    | CustomizationsNotAllowed(categoryName: string)
    | InvalidKeys(keys: set<string>)
    | InvalidValues(key: string, values: set<string>)
      /** A commit refused by the unique `product_id` index (models.py:46). */
    | DuplicateProductId(productId: string)
    | ProductNotFound
  {
    function Status(): int {
      match this
      case CategoryNotFound => 404
      case ProductNotFound => 404
      case DuplicateProductId(_) => 500
      case _ => 400
    }
  }

  datatype ProductRequest = ProductRequest(
    name: string,
    price: int,
    categoryId: int,
    description: Option<string>,
    customizationOptions: Option<Customizations>,
    status: ProductStatus)

  /** A partial update; `None` marks a field the request left unset. */
  datatype ProductPatch = ProductPatch(
    name: Option<string>,
    price: Option<int>,
    categoryId: Option<int>,
    description: Option<Option<string>>,
    customizationOptions: Option<Option<Customizations>>,
    status: Option<ProductStatus>)

  // ---------------------------------------------------------------------
  // Customization validation

  /** Python truthiness of an optional mapping: `None` and `{}` are false. */
  predicate Truthy(c: Option<Customizations>) {
    c.Some? && c.value != map[]
  }

  /** `set(c.get(key, []))`. */
  function ValuesOf(c: Customizations, key: string): set<string> {
    if key in c then set v | v in c[key] else {}
  }

  /** The provided values for `key` that the category does not allow. */
  function BadValues(allowed: Customizations, provided: Customizations, key: string): set<string> {
    ValuesOf(provided, key) - ValuesOf(allowed, key)
  }

  /** The customization options a category accepts: none at all, or keys
      and, per key, values that the category lists. */
  ghost predicate Accepted(cat: Category, opts: Option<Customizations>) {
    || !Truthy(opts)
    || (&& Truthy(cat.allowedCustomizations)
        && opts.value.Keys <= cat.allowedCustomizations.value.Keys
        && forall k :: k in opts.value ==> BadValues(cat.allowedCustomizations.value, opts.value, k) == {})
  }

  /** The 400 that refuses options `opts` the category does not accept: the
      category allows no customizations at all, else the keys it does not
      list, else one key together with its values the category does not
      list. */
  ghost predicate CustomizationRefusal(cat: Category, opts: Option<Customizations>, e: CatalogError) {
    && Truthy(opts)
    && !Accepted(cat, opts)
    && (!Truthy(cat.allowedCustomizations) ==> e == CustomizationsNotAllowed(cat.name))
    && (Truthy(cat.allowedCustomizations) && !(opts.value.Keys <= cat.allowedCustomizations.value.Keys) ==>
          e == InvalidKeys(opts.value.Keys - cat.allowedCustomizations.value.Keys))
    && (Truthy(cat.allowedCustomizations) && opts.value.Keys <= cat.allowedCustomizations.value.Keys ==>
          && e.InvalidValues?
          && e.key in opts.value
          && e.values == BadValues(cat.allowedCustomizations.value, opts.value, e.key)
          && e.values != {})
  }

  /** A customization refusal is always a 400. */
  lemma RefusalIsBadRequest(cat: Category, opts: Option<Customizations>, e: CatalogError)
    requires CustomizationRefusal(cat, opts, e)
    ensures e.Status() == 400
  {
  }

  /** The checks of `create_product_json` on `customization_options`. The
      per-key loop walks a Python set, whose order is not fixed: when several
      keys carry bad values, the one reported is any of them. */
  method CheckCustomizations(cat: Category, opts: Option<Customizations>) returns (r: Result<(), CatalogError>)
    ensures r.Ok? <==> Accepted(cat, opts)
    ensures r.Err? ==> CustomizationRefusal(cat, opts, r.error)
  {
    if !Truthy(opts) {
      return Ok(());
    }
    if !Truthy(cat.allowedCustomizations) {
      return Err(CustomizationsNotAllowed(cat.name));
    }
    var allowed, provided := cat.allowedCustomizations.value, opts.value;
    if !(provided.Keys <= allowed.Keys) {
      return Err(InvalidKeys(provided.Keys - allowed.Keys));
    }
    var pending := provided.Keys;
    while pending != {}
      invariant pending <= provided.Keys
      invariant forall k :: k in provided && k !in pending ==> BadValues(allowed, provided, k) == {}
      decreases |pending|
    {
      var key :| key in pending;
      var bad := BadValues(allowed, provided, key);
      if bad != {} {
        return Err(InvalidValues(key, bad));
      }
      pending := pending - {key};
    }
    r := Ok(());
  }

  // ---------------------------------------------------------------------
  // Product ids

  const IdPrefix: string := "PRNTDT"

  /** `category.name.upper()[:3]`. */
  function Abbreviation(name: string): (a: string)
    ensures |a| == if |name| < 3 then |name| else 3
    ensures forall i :: 0 <= i < |a| ==> a[i] == AsciiUpper(name)[i]
  {
    var up := AsciiUpper(name);
    if |up| < 3 then up else up[..3]
  }

  /** `f"PRNTDT{abbreviation}{count + 1:03d}"`. */
  function MintProductId(categoryName: string, count: nat): (id: string)
    ensures |id| >= 6 + |Abbreviation(categoryName)| + 3
    ensures id[..6] == IdPrefix
    ensures id[6..6 + |Abbreviation(categoryName)|] == Abbreviation(categoryName)
  {
    IdPrefix + Abbreviation(categoryName) + ZFill(Str(count + 1), 3)
  }

  /** The digits after the abbreviation read back as `count + 1`, and are
      exactly three of them while `count + 1 < 1000`. */
  lemma MintedSuffix(categoryName: string, count: nat)
    ensures var id := MintProductId(categoryName, count);
      var n := 6 + |Abbreviation(categoryName)|;
      && id[n..] == ZFill(Str(count + 1), 3)
      && AllDigits(id[n..])
      && Value(id[n..]) == count + 1
      && (count + 1 < 1000 ==> |id| == n + 3)
  {
    var id := MintProductId(categoryName, count);
    var n := 6 + |Abbreviation(categoryName)|;
    assert id[n..] == ZFill(Str(count + 1), 3);
    ZFillValue(count + 1, 3);
    if count + 1 < 1000 {
      assert Pow10(3) == 1000;
      ZFillLength(count + 1, 3);
    }
  }

  /** Within one category, different counts mint different ids. */
  lemma MintInjective(categoryName: string, c1: nat, c2: nat)
    requires c1 != c2
    ensures MintProductId(categoryName, c1) != MintProductId(categoryName, c2)
  {
    MintedSuffix(categoryName, c1);
    MintedSuffix(categoryName, c2);
  }

  /** The `WHERE category_id = ...` test of the count query. */
  function InCategory(categoryId: int): Product -> bool {
    (p: Product) => p.categoryId == categoryId
  }

  /** The number of products in a category. */
  function CountInCategory(rows: seq<Product>, categoryId: int): (n: nat)
    ensures n <= |rows|
    ensures n == |Filter(rows, InCategory(categoryId))|
  {
    if rows == [] then 0
    else (if rows[0].categoryId == categoryId then 1 else 0) + CountInCategory(rows[1..], categoryId)
  }

  /** The id `create_product_json` mints for the next product of `cat`. */
  function NextProductId(rows: seq<Product>, cat: Category): string {
    MintProductId(cat.name, CountInCategory(rows, cat.id))
  }

  /** Ids are count-based: when the first of two products of a category has
      been deleted, the one left holds the id the next create mints. */
  lemma {:induction false} MintAfterDeleteCollides(cat: Category, survivor: Product)
    requires survivor.categoryId == cat.id
    requires survivor.productId == MintProductId(cat.name, 1)
    ensures NextProductId([survivor], cat) == survivor.productId
  {
    assert CountInCategory([survivor][1..], cat.id) == 0;
  }

  /** Categories whose names agree on their first three upper-cased letters
      mint the same id for the same count. */
  lemma SharedAbbreviationCollides(n1: string, n2: string, count: nat)
    requires |n1| >= 3 && |n2| >= 3
    requires forall i :: 0 <= i < 3 ==> AsciiUpper(n1)[i] == AsciiUpper(n2)[i]
    ensures MintProductId(n1, count) == MintProductId(n2, count)
  {
    assert Abbreviation(n1) == Abbreviation(n2);
  }

  /** The row `create_product_json` inserts: no images yet, rating 0. */
  function NewProduct(req: ProductRequest, productId: string): (p: Product)
    ensures p.productId == productId && p.mainImageUrl == "" && p.sideImagesUrl == Some([])
    ensures p.status == req.status && p.averageRating == 0.0
    ensures p.name == req.name && p.price == req.price && p.categoryId == req.categoryId
    ensures p.description == req.description && p.customizationOptions == req.customizationOptions
  {
    Product(productId, "", Some([]), req.name, req.price, req.categoryId,
            req.description, req.customizationOptions, req.status, 0.0)
  }

  /** The `setattr` loop of `update_product`: the product id, the images and
      the rating are not part of the request. */
  function PatchProduct(p: Product, u: ProductPatch): (r: Product)
    ensures r.productId == p.productId && r.mainImageUrl == p.mainImageUrl
    ensures r.sideImagesUrl == p.sideImagesUrl && r.averageRating == p.averageRating
  {
    p.(name := if u.name.Some? then u.name.value else p.name,
       price := if u.price.Some? then u.price.value else p.price,
       categoryId := if u.categoryId.Some? then u.categoryId.value else p.categoryId,
       description := if u.description.Some? then u.description.value else p.description,
       customizationOptions := if u.customizationOptions.Some? then u.customizationOptions.value else p.customizationOptions,
       status := if u.status.Some? then u.status.value else p.status)
  }

  lemma PatchProductIdempotent(p: Product, u: ProductPatch)
    ensures PatchProduct(PatchProduct(p, u), u) == PatchProduct(p, u)
    ensures u == ProductPatch(None, None, None, None, None, None) ==> PatchProduct(p, u) == p
  {
  }

  /** The position of the product with this `product_id`, if any. */
  function ProductIndex(rows: seq<Product>, productId: string): (r: Option<nat>)
    ensures r.Some? ==> r.value < |rows| && rows[r.value].productId == productId
    ensures r.None? ==> forall j :: 0 <= j < |rows| ==> rows[j].productId != productId
  {
    FindIndex(rows, (p: Product) => p.productId == productId)
  }

  ghost predicate UniqueProductIds(rows: seq<Product>) {
    forall i, j :: 0 <= i < j < |rows| ==> rows[i].productId != rows[j].productId
  }

  class ProductTable {
    var rows: seq<Product>

    ghost predicate Valid()
      reads this
    {
      UniqueProductIds(rows)
    }

    constructor ()
      ensures Valid() && rows == []
    {
      rows := [];
    }

    /** `create_product_json`: 404 for an unknown category, then the
        customization checks, then the minted id; a minted id already in use
        is refused by the unique index. */
    method CreateProduct(categories: Categories.CategoryTable, req: ProductRequest) returns (r: Result<Product, CatalogError>)
      requires Valid()
      modifies this
      ensures Valid()
      ensures r.Err? ==> rows == old(rows)
      ensures Categories.CategoryIndex(categories.rows, req.categoryId).None? ==> r == Err(CategoryNotFound)
      ensures Categories.CategoryIndex(categories.rows, req.categoryId).Some? ==>
        var cat := categories.rows[Categories.CategoryIndex(categories.rows, req.categoryId).value];
        var id := NextProductId(old(rows), cat);
        && (!Accepted(cat, req.customizationOptions) ==>
              && r.Err? && CustomizationRefusal(cat, req.customizationOptions, r.error)
              && r.error.Status() == 400)
        && (Accepted(cat, req.customizationOptions) && ProductIndex(old(rows), id).Some? ==>
              r == Err(DuplicateProductId(id)))
        && (Accepted(cat, req.customizationOptions) && ProductIndex(old(rows), id).None? ==>
              r == Ok(NewProduct(req, id)) && rows == old(rows) + [r.value])
    {
      var found := Categories.CategoryIndex(categories.rows, req.categoryId);
      if found.None? {
        return Err(CategoryNotFound);
      }
      var cat := categories.rows[found.value];
      var check := CheckCustomizations(cat, req.customizationOptions);
      if check.Err? {
        RefusalIsBadRequest(cat, req.customizationOptions, check.error);
        return Err(check.error);
      }
      var id := NextProductId(rows, cat);
      if ProductIndex(rows, id).Some? {
        return Err(DuplicateProductId(id));
      }
      var p := NewProduct(req, id);
      rows := rows + [p];
      r := Ok(p);
    }

    /** `update_product`: 404 for an unknown id; otherwise only the fields
        present in the request change, and no other product changes. */
    method UpdateProduct(productId: string, u: ProductPatch) returns (r: Result<Product, CatalogError>)
      requires Valid()
      modifies this
      ensures Valid()
      ensures ProductIndex(old(rows), productId).None? ==> r == Err(ProductNotFound) && rows == old(rows)
      ensures ProductIndex(old(rows), productId).Some? ==>
        var i := ProductIndex(old(rows), productId).value;
        r == Ok(PatchProduct(old(rows)[i], u)) && rows == old(rows)[i := r.value]
    {
      var found := ProductIndex(rows, productId);
      if found.None? {
        return Err(ProductNotFound);
      }
      var p := PatchProduct(rows[found.value], u);
      rows := rows[found.value := p];
      r := Ok(p);
    }

    /** The rating write at the end of `create_review`: the product, when
        its row exists, takes the new average, and no other row changes. */
    method SetAverageRating(productId: string, average: real)
      requires Valid()
      modifies this
      ensures Valid()
      ensures ProductIndex(old(rows), productId).None? ==> rows == old(rows)
      ensures ProductIndex(old(rows), productId).Some? ==>
        var i := ProductIndex(old(rows), productId).value;
        rows == old(rows)[i := old(rows)[i].(averageRating := average)]
    {
      var found := ProductIndex(rows, productId);
      if found.Some? {
        var i := found.value;
        rows := rows[i := rows[i].(averageRating := average)];
      }
    }

    /** `delete_product`: 404 for an unknown id; otherwise that product goes
        and the others keep their order. */
    method DeleteProduct(productId: string) returns (r: Result<(), CatalogError>)
      requires Valid()
      modifies this
      ensures Valid()
      ensures ProductIndex(old(rows), productId).None? ==> r == Err(ProductNotFound) && rows == old(rows)
      ensures ProductIndex(old(rows), productId).Some? ==>
        var i := ProductIndex(old(rows), productId).value;
        r == Ok(()) && rows == old(rows)[..i] + old(rows)[i + 1..]
      ensures ProductIndex(rows, productId).None?
    {
      var found := ProductIndex(rows, productId);
      if found.None? {
        return Err(ProductNotFound);
      }
      var i := found.value;
      rows := rows[..i] + rows[i + 1..];
      r := Ok(());
      assert forall j :: 0 <= j < |rows| ==> rows[j] == if j < i then old(rows)[j] else old(rows)[j + 1];
    }
  }

  // ---------------------------------------------------------------------
  // Filtered listing

  datatype PriceOrder = Unsorted | PriceAscending | PriceDescending

  function PriceOf(p: Product): int {
    p.price
  }

  /** The `WHERE` part of `filter_products`: category equality and
      inclusive price bounds, each only when given. */
  predicate Matches(p: Product, categoryId: Option<int>, minPrice: Option<int>, maxPrice: Option<int>) {
    && (categoryId.Some? ==> p.categoryId == categoryId.value)
    && (minPrice.Some? ==> p.price >= minPrice.value)
    && (maxPrice.Some? ==> p.price <= maxPrice.value)
  }

  /** The rows the `WHERE` part keeps, in stored order. */
  function Matching(rows: seq<Product>, categoryId: Option<int>, minPrice: Option<int>, maxPrice: Option<int>)
    : seq<Product>
  {
    Filter(rows, (p: Product) => Matches(p, categoryId, minPrice, maxPrice))
  }

  function Ordered(s: seq<Product>, order: PriceOrder): (r: seq<Product>)
    ensures multiset(r) == multiset(s)
    ensures order == PriceAscending ==> Sorted(r, PriceOf, true)
    ensures order == PriceDescending ==> Sorted(r, PriceOf, false)
    ensures order == Unsorted ==> r == s
  {
    match order
    case Unsorted => s
    case PriceAscending => SortBy(s, PriceOf, true)
    case PriceDescending => SortBy(s, PriceOf, false)
  }

  /** `filter_products`: filter, then sort, then `OFFSET skip LIMIT limit`. */
  function FilterProducts(rows: seq<Product>, categoryId: Option<int>, minPrice: Option<int>,
                          maxPrice: Option<int>, order: PriceOrder, skip: nat, limit: nat): (r: seq<Product>)
    ensures |r| <= limit
    ensures forall i :: 0 <= i < |r| ==> r[i] in rows && Matches(r[i], categoryId, minPrice, maxPrice)
    ensures var n := |Matching(rows, categoryId, minPrice, maxPrice)|;
      |r| == if skip >= n then 0 else if n - skip < limit then n - skip else limit
    ensures forall i :: 0 <= i < |r| ==> r[i] == Ordered(Matching(rows, categoryId, minPrice, maxPrice), order)[skip + i]
    ensures order == PriceAscending ==> Sorted(r, PriceOf, true)
    ensures order == PriceDescending ==> Sorted(r, PriceOf, false)
  {
    var selected := Matching(rows, categoryId, minPrice, maxPrice);
    var ordered := Ordered(selected, order);
    var r := Page(ordered, skip, limit);
    assert forall i :: 0 <= i < |r| ==> r[i] in multiset(ordered);
    r
  }

  /** Without paging, every matching product is listed. */
  lemma FilterProductsComplete(rows: seq<Product>, categoryId: Option<int>, minPrice: Option<int>,
                               maxPrice: Option<int>, order: PriceOrder, limit: nat, p: Product)
    requires limit >= |rows|
    requires p in rows && Matches(p, categoryId, minPrice, maxPrice)
    ensures p in FilterProducts(rows, categoryId, minPrice, maxPrice, order, 0, limit)
  {
    var selected := Matching(rows, categoryId, minPrice, maxPrice);
    var ordered := Ordered(selected, order);
    var k :| 0 <= k < |rows| && rows[k] == p;
    assert p in selected;
    assert p in multiset(ordered);
    assert Page(ordered, 0, limit) == ordered;
  }
}
