/** routers/orders/orders.py: the order listings, the order detail view, the
    selection and lookup keys behind the PDF reports, and the checkout
    (commented out in the repository) that draws order codes from the
    order counter. Stored orders are a sequence in insertion order; users,
    user details and products are maps keyed by their unique keys. */
module Orders {
  import opened Common
  import opened Schema
  import opened Sorting
  import OrderCode
  import Report

  function CreatedAt(o: Order): int {
    o.createdAt
  }

  // ---------------------------------------------------------------------
  // Listings

  /** The orders of one user, ordered by creation time. */
  function UserOrders(orders: seq<Order>, clerkId: string, ascending: bool): (r: seq<Order>)
    ensures Sorted(r, CreatedAt, ascending)
    ensures multiset(r) == multiset(Filter(orders, (o: Order) => o.clerkId == clerkId))
    ensures forall o :: o in r <==> o in orders && o.clerkId == clerkId
  {
    var mine := Filter(orders, (o: Order) => o.clerkId == clerkId);
    var sorted := SortBy(mine, CreatedAt, ascending);
    assert forall o :: o in sorted <==> o in multiset(mine);
    sorted
  }

  /** A window of a sorted sequence is sorted. */
  lemma PageSorted<T>(s: seq<T>, offset: nat, limit: nat, key: T -> int, ascending: bool)
    requires Sorted(s, key, ascending)
    ensures Sorted(Page(s, offset, limit), key, ascending)
  {
    var r := Page(s, offset, limit);
    forall i, j | 0 <= i < j < |r|
      ensures InOrder(key(r[i]), key(r[j]), ascending)
    {
      assert r[i] == s[offset + i] && r[j] == s[offset + j];
    }
  }

  /** `get_orders_by_user`: `limit` and `offset` are the validated query
      parameters (`limit` in 1..100); `ascending` is the `sort` parameter. The
      result holds only the user's orders, at most `limit` of them, in
      creation order, and is the window starting at `offset` of all the
      user's orders. */
  function OrdersByUser(orders: seq<Order>, clerkId: string, limit: nat, offset: nat, ascending: bool): (r: seq<Order>)
    requires 1 <= limit <= 100
    ensures |r| <= limit
    ensures forall i :: 0 <= i < |r| ==> r[i] in orders && r[i].clerkId == clerkId
    ensures Sorted(r, CreatedAt, ascending)
    ensures forall i :: 0 <= i < |r| ==>
      offset + i < |UserOrders(orders, clerkId, ascending)| && r[i] == UserOrders(orders, clerkId, ascending)[offset + i]
    ensures var n := |UserOrders(orders, clerkId, ascending)|;
      |r| == if offset >= n then 0 else if n - offset < limit then n - offset else limit
  {
    var all := UserOrders(orders, clerkId, ascending);
    PageSorted(all, offset, limit, CreatedAt, ascending);
    Page(all, offset, limit)
  }

  datatype OrderListing = OrderListing(total: nat, orders: seq<Order>)

  /** `get_all_orders`: `total` counts every stored order whatever the window;
      the page is the window of all orders in creation order. */
  function AllOrders(orders: seq<Order>, limit: nat, offset: nat, ascending: bool): (r: OrderListing)
    requires 1 <= limit <= 100
    ensures r.total == |orders|
    ensures |r.orders| <= limit
    ensures Sorted(r.orders, CreatedAt, ascending)
    ensures forall i :: 0 <= i < |r.orders| ==> r.orders[i] in orders
    ensures |r.orders| == if offset >= |orders| then 0 else if |orders| - offset < limit then |orders| - offset else limit
    ensures forall i :: 0 <= i < |r.orders| ==> r.orders[i] == SortBy(orders, CreatedAt, ascending)[offset + i]
  {
    var sorted := SortBy(orders, CreatedAt, ascending);
    assert forall o :: o in sorted ==> o in multiset(orders);
    PageSorted(sorted, offset, limit, CreatedAt, ascending);
    var page := Page(sorted, offset, limit);
    assert forall i :: 0 <= i < |page| ==> page[i] == sorted[offset + i] && sorted[offset + i] in sorted;
    OrderListing(|orders|, page)
  }

  // ---------------------------------------------------------------------
  // Order details

  datatype OrderError = OrderNotFound | UserNotFound
  {
    function Status(): int {
      404
    }
  }

  /** `OrderDetailsResponse`. */
  datatype OrderDetails = OrderDetails(
    orderId: string,
    clerkId: string,
    totalPrice: int,
    status: string,
    createdAt: int,
    receiptId: Option<int>,
    items: seq<OrderItem>,
    userName: string,
    email: string,
    phoneNumber: string,
    address: Option<string>,
    city: Option<string>,
    state: Option<string>,
    country: Option<string>,
    pinCode: Option<string>)

  function OrderIndex(orders: seq<Order>, orderId: string): (r: Option<nat>)
    ensures r.Some? ==> r.value < |orders| && orders[r.value].orderId == orderId
    ensures r.None? ==> forall i :: 0 <= i < |orders| ==> orders[i].orderId != orderId
  {
    FindIndex(orders, (o: Order) => o.orderId == orderId)
  }

  /** `get_order_by_id`: an unknown order is a 404 before any user lookup;
      an order whose user is gone is a 404 too. The response copies the
      order and its items as stored, names the user as first and last name
      joined by a space, and leaves every address field empty when the user
      has no details record. */
  function GetOrderById(orders: seq<Order>, users: map<string, User>, userDetails: map<string, UserDetails>,
                        orderId: string): (r: Result<OrderDetails, OrderError>)
    ensures OrderIndex(orders, orderId).None? <==> r == Err(OrderNotFound)
    ensures r == Err(UserNotFound) <==>
      OrderIndex(orders, orderId).Some? && orders[OrderIndex(orders, orderId).value].clerkId !in users
    ensures r.Ok? ==>
      var o := orders[OrderIndex(orders, orderId).value];
      var u := users[o.clerkId];
      && r.value.orderId == orderId
      && r.value.clerkId == o.clerkId
      && r.value.totalPrice == o.totalPrice && r.value.status == o.status
      && r.value.createdAt == o.createdAt && r.value.receiptId == o.receiptId
      && r.value.items == o.items
      && r.value.userName == u.firstName + " " + u.lastName
      && r.value.email == u.email && r.value.phoneNumber == u.phoneNumber
      && (o.clerkId !in userDetails ==>
            r.value.address.None? && r.value.city.None? && r.value.state.None?
            && r.value.country.None? && r.value.pinCode.None?)
      && (o.clerkId in userDetails ==>
            var d := userDetails[o.clerkId];
            r.value.address == d.address && r.value.city == d.city && r.value.state == d.state
            && r.value.country == d.country && r.value.pinCode == d.pinCode)
  {
    match OrderIndex(orders, orderId)
    case None => Err(OrderNotFound)
    case Some(i) =>
      var o := orders[i];
      if o.clerkId !in users then Err(UserNotFound)
      else
        var u := users[o.clerkId];
        var d := if o.clerkId in userDetails then Some(userDetails[o.clerkId]) else None;
        Ok(OrderDetails(
          o.orderId, o.clerkId, o.totalPrice, o.status, o.createdAt, o.receiptId, o.items,
          u.firstName + " " + u.lastName, u.email, u.phoneNumber,
          if d.Some? then d.value.address else None,
          if d.Some? then d.value.city else None,
          if d.Some? then d.value.state else None,
          if d.Some? then d.value.country else None,
          if d.Some? then d.value.pinCode else None))
  }

  // ---------------------------------------------------------------------
  // Report selection and lookup keys

  datatype ReportError = NoOrdersFound | ReportOrderNotFound
  {
    function Status(): int {
      404
    }
  }

  predicate Selected(o: Order, fromDate: Option<int>) {
    fromDate.None? || o.createdAt >= fromDate.value
  }

  /** The orders of `generate_orders_pdf`: those created at or after
      `fromDate` (every order without one), newest first. */
  function SelectOrders(orders: seq<Order>, fromDate: Option<int>): (r: seq<Order>)
    ensures Sorted(r, CreatedAt, false)
    ensures |r| <= |orders|
    ensures multiset(r) == multiset(Filter(orders, (o: Order) => Selected(o, fromDate)))
    ensures forall o :: o in r <==> o in orders && Selected(o, fromDate)
  {
    var kept := Filter(orders, (o: Order) => Selected(o, fromDate));
    var sorted := SortBy(kept, CreatedAt, false);
    assert forall o :: o in sorted <==> o in multiset(kept);
    sorted
  }

  function ClerkIdsOf(orders: seq<Order>): set<string> {
    set o | o in orders :: o.clerkId
  }

  function ItemProductIds(items: seq<OrderItem>): set<string> {
    set it | it in items :: it.productId
  }

  /** The product ids of the orders' items, gathered order by order. */
  function ProductIdsIn(orders: seq<Order>): set<string> {
    if orders == [] then {}
    else ProductIdsIn(orders[..|orders| - 1]) + ItemProductIds(orders[|orders| - 1].items)
  }

  /** A product id is collected exactly when some item of some order names
      it. */
  lemma {:induction false} ProductIdsInIff(orders: seq<Order>, p: string)
    ensures p in ProductIdsIn(orders) <==>
      exists i, j :: 0 <= i < |orders| && 0 <= j < |orders[i].items| && orders[i].items[j].productId == p
  {
    if orders != [] {
      var init := orders[..|orders| - 1];
      var last := orders[|orders| - 1];
      ProductIdsInIff(init, p);
      if p in ProductIdsIn(orders) {
        if p in ProductIdsIn(init) {
          var i, j :| 0 <= i < |init| && 0 <= j < |init[i].items| && init[i].items[j].productId == p;
          assert orders[i] == init[i];
        } else {
          var it :| it in last.items && it.productId == p;
          var j :| 0 <= j < |last.items| && last.items[j] == it;
          assert orders[|orders| - 1].items[j].productId == p;
        }
      } else {
        forall i, j | 0 <= i < |orders| && 0 <= j < |orders[i].items|
          ensures orders[i].items[j].productId != p
        {
          if i < |init| {
            assert orders[i] == init[i];
          } else {
            assert orders[i].items[j] in last.items;
          }
        }
      }
    }
  }

  /** The nested loop of `generate_orders_pdf` that adds every item's
      product id to a set. */
  method CollectProductIds(orders: seq<Order>) returns (ids: set<string>)
    ensures ids == ProductIdsIn(orders)
  {
    ids := {};
    for i := 0 to |orders|
      invariant ids == ProductIdsIn(orders[..i])
    {
      var items := orders[i].items;
      for j := 0 to |items|
        invariant ids == ProductIdsIn(orders[..i]) + ItemProductIds(items[..j])
      {
        assert items[..j + 1] == items[..j] + [items[j]];
        ids := ids + {items[j].productId};
      }
      assert items[..|items|] == items;
      assert orders[..i + 1][..i] == orders[..i];
    }
    assert orders[..|orders|] == orders;
  }

  /** Looking users, details and products up by a set of keys that holds
      the order's clerkId and its items' product ids changes nothing in the
      order's section. */
  lemma NarrowedSection(o: Order, users: map<string, User>, userDetails: map<string, UserDetails>,
                        products: map<string, Product>, clerkIds: set<string>, productIds: set<string>)
    requires o.clerkId in clerkIds
    requires forall j :: 0 <= j < |o.items| ==> o.items[j].productId in productIds
    ensures Report.SectionOf(Report.CustomersOf(Restrict(users, clerkIds), Restrict(userDetails, clerkIds)),
                             Report.InfosOf(Restrict(products, productIds)), o)
         == Report.SectionOf(Report.CustomersOf(users, userDetails), Report.InfosOf(products), o)
  {
    var narrowUsers, narrowDetails := Restrict(users, clerkIds), Restrict(userDetails, clerkIds);
    assert Report.DetailsFor(narrowDetails, o.clerkId) == Report.DetailsFor(userDetails, o.clerkId);
    Report.SectionOfLocal(Report.CustomersOf(narrowUsers, narrowDetails), Report.CustomersOf(users, userDetails),
                          Report.InfosOf(Restrict(products, productIds)), Report.InfosOf(products), o);
  }

  /** The lookups of `generate_orders_pdf`, narrowed to the selected orders'
      clerkIds and item product ids, build the same sections as the whole
      tables. */
  lemma NarrowedSections(selected: seq<Order>, users: map<string, User>, userDetails: map<string, UserDetails>,
                         products: map<string, Product>)
    ensures forall i :: 0 <= i < |selected| ==>
      Report.SectionOf(Report.CustomersOf(Restrict(users, ClerkIdsOf(selected)), Restrict(userDetails, ClerkIdsOf(selected))),
                       Report.InfosOf(Restrict(products, ProductIdsIn(selected))), selected[i])
      == Report.SectionOf(Report.CustomersOf(users, userDetails), Report.InfosOf(products), selected[i])
  {
    var clerkIds, productIds := ClerkIdsOf(selected), ProductIdsIn(selected);
    forall i | 0 <= i < |selected|
      ensures Report.SectionOf(Report.CustomersOf(Restrict(users, clerkIds), Restrict(userDetails, clerkIds)),
                               Report.InfosOf(Restrict(products, productIds)), selected[i])
           == Report.SectionOf(Report.CustomersOf(users, userDetails), Report.InfosOf(products), selected[i])
    {
      assert selected[i].clerkId in clerkIds;
      forall j | 0 <= j < |selected[i].items|
        ensures selected[i].items[j].productId in productIds
      {
        ProductIdsInIff(selected, selected[i].items[j].productId);
      }
      NarrowedSection(selected[i], users, userDetails, products, clerkIds, productIds);
    }
  }

  /** `generate_orders_pdf`: a 404 when no order qualifies; otherwise one
      section per selected order, newest first, built from the users, user
      details and products looked up by exactly the selected orders'
      clerkIds and item product ids. Narrowing the lookups loses no
      customer: a section has the customer's rows exactly when the user
      exists. */
  method GenerateOrdersReport(orders: seq<Order>, users: map<string, User>, userDetails: map<string, UserDetails>,
                              products: map<string, Product>, fromDate: Option<int>)
    returns (r: Result<seq<Report.Section>, ReportError>)
    ensures r.Err? <==> forall o :: o in orders ==> !Selected(o, fromDate)
    ensures r.Err? ==> r.error == NoOrdersFound
    ensures r.Ok? ==>
      var selected := SelectOrders(orders, fromDate);
      && |r.value| == |selected|
      && (forall i :: 0 <= i < |selected| ==>
            && r.value[i].orderId == selected[i].orderId
            && (selected[i].clerkId in users <==> |r.value[i].customerRows| >= 3))
      && (forall i, j :: 0 <= i < j < |r.value| ==> r.value[i].createdAt >= r.value[j].createdAt)
      && (forall i :: 0 <= i < |selected| ==>
            r.value[i] == Report.SectionOf(Report.CustomersOf(users, userDetails), Report.InfosOf(products), selected[i]))
  {
    var selected := SelectOrders(orders, fromDate);
    if selected == [] {
      forall o | o in orders
        ensures !Selected(o, fromDate)
      {
        assert o !in selected;
      }
      return Err(NoOrdersFound);
    }
    assert selected[0] in orders;
    var sections := SelectedSections(selected, users, userDetails, products);
    forall i | 0 <= i < |selected|
      ensures sections[i].orderId == selected[i].orderId && sections[i].createdAt == selected[i].createdAt
      ensures selected[i].clerkId in users <==> |sections[i].customerRows| >= 3
    {
      SectionHeader(users, userDetails, products, selected[i]);
    }
    forall i, j | 0 <= i < j < |sections|
      ensures sections[i].createdAt >= sections[j].createdAt
    {
      assert InOrder(CreatedAt(selected[i]), CreatedAt(selected[j]), false);
    }
    r := Ok(sections);
  }

  /** A section built from the whole tables carries the order's code and
      time, and the customer's rows exactly when the user exists. */
  lemma SectionHeader(users: map<string, User>, userDetails: map<string, UserDetails>,
                      products: map<string, Product>, o: Order)
    ensures var section := Report.SectionOf(Report.CustomersOf(users, userDetails), Report.InfosOf(products), o);
      && section.orderId == o.orderId && section.createdAt == o.createdAt
      && (o.clerkId in users <==> |section.customerRows| >= 3)
  {
  }

  /** The lookups of `generate_orders_pdf` by the selected orders' clerkIds
      and item product ids, then the report built from them: the sections
      are those of the whole tables. */
  method SelectedSections(selected: seq<Order>, users: map<string, User>, userDetails: map<string, UserDetails>,
                          products: map<string, Product>)
    returns (sections: seq<Report.Section>)
    ensures |sections| == |selected|
    ensures forall i :: 0 <= i < |selected| ==>
      sections[i] == Report.SectionOf(Report.CustomersOf(users, userDetails), Report.InfosOf(products), selected[i])
  {
    var clerkIds := ClerkIdsOf(selected);
    var productIds := CollectProductIds(selected);
    var lookupUsers := Restrict(users, clerkIds);
    var lookupDetails := Restrict(userDetails, clerkIds);
    var lookupProducts := Restrict(products, productIds);
    sections := Report.CreateReportFromRecords(selected, lookupUsers, lookupDetails, lookupProducts);
    NarrowedSections(selected, users, userDetails, products);
  }

  /** `generate_single_order_pdf`: a 404 for an unknown order; a missing
      user is no error, the report is built with no users at all and the
      section falls back to the bare customer id. */
  method GenerateSingleOrderReport(orders: seq<Order>, users: map<string, User>, userDetails: map<string, UserDetails>,
                                   products: map<string, Product>, orderId: string)
    returns (r: Result<seq<Report.Section>, ReportError>)
    ensures OrderIndex(orders, orderId).None? <==> r == Err(ReportOrderNotFound)
    ensures r.Ok? ==>
      var o := orders[OrderIndex(orders, orderId).value];
      && |r.value| == 1
      && r.value[0].orderId == orderId
      && (o.clerkId in users <==> |r.value[0].customerRows| >= 3)
      && (o.clerkId !in users ==> r.value[0].customerRows == [["Customer ID", o.clerkId]])
      && r.value == [Report.SectionOf(Report.CustomersOf(users, userDetails), Report.InfosOf(products), o)]
  {
    var found := OrderIndex(orders, orderId);
    if found.None? {
      return Err(ReportOrderNotFound);
    }
    var o := orders[found.value];
    var lookupUsers: map<string, User> := if o.clerkId in users then map[o.clerkId := users[o.clerkId]] else map[];
    var lookupDetails := Restrict(userDetails, {o.clerkId});
    var lookupProducts := Restrict(products, ItemProductIds(o.items));
    var sections := Report.CreateReportFromRecords([o], lookupUsers, lookupDetails, lookupProducts);
    assert lookupUsers == Restrict(users, {o.clerkId});
    forall j | 0 <= j < |o.items|
      ensures o.items[j].productId in ItemProductIds(o.items)
    {
      assert o.items[j] in o.items;
    }
    NarrowedSection(o, users, userDetails, products, {o.clerkId}, ItemProductIds(o.items));
    SectionHeader(users, userDetails, products, o);
    r := Ok(sections);
  }

  // ---------------------------------------------------------------------
  // Checkout

  /** `OrderItemWithBase64`: for an image or logo the value is the base64
      payload, for text the text itself. */
  datatype ItemRequest = ItemRequest(
    productId: string,
    quantity: int,
    selectedCustomizations: Option<seq<(string, string)>>,
    kind: UserCustomizationKind,
    value: Option<string>,
    imageExtension: string,
    individualPrice: int)

  datatype CheckoutRequest = CheckoutRequest(clerkId: string, products: seq<ItemRequest>, totalPrice: int)

  datatype CheckoutError =
    | ProductsMissing(ids: set<string>)
    | DuplicateOrderCode
    | MissingImageData
  {
    function Status(): int {
      match this
      case ProductsMissing(_) => 400
      case DuplicateOrderCode => 500
      case MissingImageData => 400
    }
  }

  /** An image upload: the payload and the extension to the stored URL. */
  type Upload = (string, string) -> string

  function RequestedIds(items: seq<ItemRequest>): set<string> {
    set it | it in items :: it.productId
  }

  /** The counter value a checkout draws: the stored one, or 1 when the
      counter row does not exist yet. */
  function Drawn(counter: Option<int>): int {
    if counter.Some? then counter.value else 1
  }

  /** The stored line for one requested item: an image or logo needs a
      non-empty payload, which is replaced by its upload URL; text is kept
      as sent. */
  function ItemRowOf(item: ItemRequest, upload: Upload): (r: Result<OrderItem, CheckoutError>)
    ensures r.Err? <==> item.kind != Text && !NonEmptyValue(item.value)
    ensures r.Err? ==> r.error == MissingImageData
    ensures r.Ok? ==>
      && r.value.productId == item.productId && r.value.quantity == item.quantity
      && r.value.individualPrice == item.individualPrice
      && r.value.selectedCustomizations == item.selectedCustomizations
      && r.value.customizationType == Some(KindName(item.kind))
    ensures r.Ok? ==>
      r.value.customizationValue ==
        if item.kind == Text then item.value else Some(upload(item.value.value, item.imageExtension))
  {
    var value :=
      if item.kind == Text then Ok(item.value)
      else if NonEmptyValue(item.value) then Ok(Some(upload(item.value.value, item.imageExtension)))
      else Err(MissingImageData);
    match value
    case Err(e) => Err(e)
    case Ok(v) =>
      Ok(OrderItem(item.productId, item.quantity, item.selectedCustomizations, Some(KindName(item.kind)),
                   v, item.individualPrice))
  }

  predicate NonEmptyValue(v: Option<string>) {
    v.Some? && v.value != ""
  }

  /** The lines of a whole order, or the error of the first item that has
      none. */
  function ItemRows(items: seq<ItemRequest>, upload: Upload): (r: Result<seq<OrderItem>, CheckoutError>)
    ensures r.Ok? <==> forall i :: 0 <= i < |items| ==> ItemRowOf(items[i], upload).Ok?
    ensures r.Err? ==> r.error == MissingImageData
    ensures r.Ok? ==> |r.value| == |items|
    ensures r.Ok? ==> forall i :: 0 <= i < |items| ==> r.value[i] == ItemRowOf(items[i], upload).value
  {
    if items == [] then Ok([])
    else
      var init := items[..|items| - 1];
      match ItemRows(init, upload)
      case Err(e) => Err(e)
      case Ok(rows) =>
        match ItemRowOf(items[|items| - 1], upload)
        case Err(e) => Err(e)
        case Ok(row) => Ok(rows + [row])
  }

  /** The item loop of the checkout. */
  method BuildItems(items: seq<ItemRequest>, upload: Upload) returns (r: Result<seq<OrderItem>, CheckoutError>)
    ensures r == ItemRows(items, upload)
  {
    var rows: seq<OrderItem> := [];
    for i := 0 to |items|
      invariant ItemRows(items[..i], upload) == Ok(rows)
    {
      var item := items[i];
      var value: Option<string>;
      if item.kind == Image || item.kind == Logo {
        if item.value.Some? && item.value.value != "" {
          value := Some(upload(item.value.value, item.imageExtension));
        } else {
          assert items[..i + 1][..i] == items[..i];
          return Err(MissingImageData);
        }
      } else {
        value := item.value;
      }
      assert items[..i + 1][..i] == items[..i];
      rows := rows + [OrderItem(item.productId, item.quantity, item.selectedCustomizations,
                                Some(KindName(item.kind)), value, item.individualPrice)];
    }
    assert items[..|items|] == items;
    r := Ok(rows);
  }

  /** What a checkout leaves behind: the counter value after it, the code it
      drew, and the order or the error. */
  datatype CheckoutOutcome = CheckoutOutcome(counter: int, code: string, result: Result<Order, CheckoutError>)

  predicate CodeTaken(orders: seq<Order>, code: string) {
    exists i :: 0 <= i < |orders| && orders[i].orderId == code
  }

  /** The commented-out `place_order_json`. The code is drawn and the counter
      advanced and committed first; then unknown products are refused, all
      of them named; then the order row meets the unique order-code column;
      then every item is stored, or the first image or logo without data
      rolls the order back. */
  function Checkout(counter: Option<int>, orders: seq<Order>, catalog: set<string>, req: CheckoutRequest,
                    upload: Upload, now: int): (out: CheckoutOutcome)
  {
    var drawn := Drawn(counter);
    var code := OrderCode.OrderCode(drawn);
    CheckoutOutcome(drawn + 1, code, CheckoutResult(code, orders, catalog, req, upload, now))
  }

  /** The checks of a checkout once its code is drawn. A placed order
      carries that code, the request's customer and total, status
      `placed`, the time of the transaction and one line per requested
      item. */
  function CheckoutResult(code: string, orders: seq<Order>, catalog: set<string>, req: CheckoutRequest,
                          upload: Upload, now: int): (r: Result<Order, CheckoutError>)
    ensures r.Ok? ==>
      && r.value.orderId == code && r.value.clerkId == req.clerkId && r.value.totalPrice == req.totalPrice
      && r.value.status == "placed" && r.value.createdAt == now && r.value.receiptId.None?
      && |r.value.items| == |req.products|
    ensures r.Ok? ==> !CodeTaken(orders, code)
    ensures r.Ok? <==>
      RequestedIds(req.products) <= catalog && !CodeTaken(orders, code) && ItemRows(req.products, upload).Ok?
    ensures r.Ok? ==> r.value.items == ItemRows(req.products, upload).value
  {
    var missing := RequestedIds(req.products) - catalog;
    if missing != {} then Err(ProductsMissing(missing))
    else
      assert forall id :: id in RequestedIds(req.products) ==> id !in missing;
      if CodeTaken(orders, code) then Err(DuplicateOrderCode)
      else match ItemRows(req.products, upload)
        case Err(e) => Err(e)
        case Ok(rows) => Ok(Order(code, req.clerkId, req.totalPrice, "placed", now, None, rows))
  }

  /** The very first checkout creates the counter at 1, advances it before
      drawing is done, and so issues `PRNTDT-AAA00002`, never
      `PRNTDT-AAA00001`. */
  lemma FirstCheckoutCode(orders: seq<Order>, catalog: set<string>, req: CheckoutRequest, upload: Upload, now: int)
    ensures Checkout(None, orders, catalog, req, upload, now).code == "PRNTDT-AAA00002"
    ensures Checkout(None, orders, catalog, req, upload, now).counter == 2
    ensures Checkout(None, orders, catalog, req, upload, now).result.Ok? ==>
      Checkout(None, orders, catalog, req, upload, now).result.value.orderId == "PRNTDT-AAA00002"
  {
    OrderCode.SecondCode();
  }

  /** Every checkout consumes a number, the failing ones included, so the
      next checkout draws the following one. */
  lemma FailedCheckoutBurnsNumber(counter: Option<int>, orders: seq<Order>, catalog: set<string>,
                                  req: CheckoutRequest, upload: Upload, now: int)
    ensures Checkout(counter, orders, catalog, req, upload, now).counter == Drawn(counter) + 1
    ensures Checkout(counter, orders, catalog, req, upload, now).result.Err? ==>
      Drawn(Some(Checkout(counter, orders, catalog, req, upload, now).counter)) == Drawn(counter) + 1
  {
  }

  /** Requested products missing from the catalog are refused before anything
      else is checked, and the error names exactly those. */
  lemma MissingProductsNamedInFull(counter: Option<int>, orders: seq<Order>, catalog: set<string>,
                                   req: CheckoutRequest, upload: Upload, now: int)
    ensures var r := Checkout(counter, orders, catalog, req, upload, now).result;
      (r.Err? && r.error.ProductsMissing?) <==>
        exists i :: 0 <= i < |req.products| && req.products[i].productId !in catalog
    ensures var r := Checkout(counter, orders, catalog, req, upload, now).result;
      r.Err? && r.error.ProductsMissing? ==>
        forall p :: p in r.error.ids <==>
          p !in catalog && exists i :: 0 <= i < |req.products| && req.products[i].productId == p
  {
    var out := Checkout(counter, orders, catalog, req, upload, now);
    MissingProductsRefused(out.code, orders, catalog, req, upload, now);
  }

  /** `MissingProductsNamedInFull` for the checks after the draw, whatever
      the code drawn. */
  lemma MissingProductsRefused(code: string, orders: seq<Order>, catalog: set<string>,
                               req: CheckoutRequest, upload: Upload, now: int)
    ensures var r := CheckoutResult(code, orders, catalog, req, upload, now);
      (r.Err? && r.error.ProductsMissing?) <==>
        exists i :: 0 <= i < |req.products| && req.products[i].productId !in catalog
    ensures var r := CheckoutResult(code, orders, catalog, req, upload, now);
      r.Err? && r.error.ProductsMissing? ==>
        forall p :: p in r.error.ids <==>
          p !in catalog && exists i :: 0 <= i < |req.products| && req.products[i].productId == p
  {
    var missing := RequestedIds(req.products) - catalog;
    if exists i :: 0 <= i < |req.products| && req.products[i].productId !in catalog {
      var i :| 0 <= i < |req.products| && req.products[i].productId !in catalog;
      assert req.products[i].productId in missing;
    }
    forall p | p in missing
      ensures exists i :: 0 <= i < |req.products| && req.products[i].productId == p
    {
      var it :| it in req.products && it.productId == p;
      var i :| 0 <= i < |req.products| && req.products[i] == it;
    }
  }

  /** Every stored order carries a code drawn below `next`. */
  ghost predicate IssuedBelow(orders: seq<Order>, next: int) {
    forall i :: 0 <= i < |orders| ==> IssuedCode(orders[i].orderId, next)
  }

  /** `code` is the code of some counter value below `next`. */
  ghost predicate IssuedCode(code: string, next: int) {
    exists k :: 0 <= k < next && code == OrderCode.OrderCode(k)
  }

  /** While the counter stays inside the code space, a drawn code is never
      held by a stored order, so a checkout never meets the unique
      constraint. */
  lemma NoDuplicateBelowWrap(counter: Option<int>, orders: seq<Order>, catalog: set<string>,
                             req: CheckoutRequest, upload: Upload, now: int)
    requires 0 <= Drawn(counter) < OrderCode.CodeSpace
    requires IssuedBelow(orders, Drawn(counter))
    ensures Checkout(counter, orders, catalog, req, upload, now).result != Err(DuplicateOrderCode)
  {
    var c := Drawn(counter);
    if CodeTaken(orders, OrderCode.OrderCode(c)) {
      var i :| 0 <= i < |orders| && orders[i].orderId == OrderCode.OrderCode(c);
      assert IssuedCode(orders[i].orderId, c);
      var k :| 0 <= k < c && orders[i].orderId == OrderCode.OrderCode(k);
      OrderCode.OrderCodeInjective(k, c);
    }
  }

  /** Consecutive checkouts draw different codes below the wrap-around,
      whether the first one succeeded or not. */
  lemma ConsecutiveCodesDiffer(counter: Option<int>, orders: seq<Order>, orders2: seq<Order>, catalog: set<string>,
                               req: CheckoutRequest, req2: CheckoutRequest, upload: Upload, now: int, now2: int)
    requires 0 <= Drawn(counter) && Drawn(counter) + 1 < OrderCode.CodeSpace
    ensures var first := Checkout(counter, orders, catalog, req, upload, now);
      Checkout(Some(first.counter), orders2, catalog, req2, upload, now2).code != first.code
  {
    var c := Drawn(counter);
    var first := Checkout(counter, orders, catalog, req, upload, now);
    assert first.counter == c + 1 && first.code == OrderCode.OrderCode(c);
    assert Checkout(Some(c + 1), orders2, catalog, req2, upload, now2).code == OrderCode.OrderCode(c + 1);
    OrderCode.OrderCodeInjective(c, c + 1);
  }

  /** Storing the order that carries the drawn code keeps every stored code
      below the advanced counter. */
  lemma {:induction false} IssuedBelowAdvance(orders: seq<Order>, c: int, placed: Option<Order>)
    requires 0 <= c && IssuedBelow(orders, c)
    requires placed.Some? ==> placed.value.orderId == OrderCode.OrderCode(c)
    ensures IssuedBelow(if placed.Some? then orders + [placed.value] else orders, c + 1)
  {
    var after := if placed.Some? then orders + [placed.value] else orders;
    forall i | 0 <= i < |after|
      ensures IssuedCode(after[i].orderId, c + 1)
    {
      if i < |orders| {
        assert after[i] == orders[i] && IssuedCode(orders[i].orderId, c);
        var k :| 0 <= k < c && orders[i].orderId == OrderCode.OrderCode(k);
        assert 0 <= k < c + 1 && after[i].orderId == OrderCode.OrderCode(k);
      } else {
        assert 0 <= c < c + 1 && after[i].orderId == OrderCode.OrderCode(c);
      }
    }
  }

  /** The checks of the checkout, once the code is drawn and committed. */
  method Attempt(code: string, orders: seq<Order>, catalog: set<string>, req: CheckoutRequest, upload: Upload, now: int)
    returns (r: Result<Order, CheckoutError>)
    ensures r == CheckoutResult(code, orders, catalog, req, upload, now)
  {
    var missing := RequestedIds(req.products) - catalog;
    if missing != {} {
      return Err(ProductsMissing(missing));
    }
    if CodeTaken(orders, code) {
      return Err(DuplicateOrderCode);
    }
    var rows := BuildItems(req.products, upload);
    if rows.Err? {
      return Err(rows.error);
    }
    r := Ok(Order(code, req.clerkId, req.totalPrice, "placed", now, None, rows.value));
  }

  /** The order counter and the orders table, as the checkout sees them. */
  class OrderStore {
    var counter: Option<int>
    var orders: seq<Order>

    ghost predicate Valid()
      reads this
    {
      && (counter.None? ==> orders == [])
      && (counter.Some? ==> 1 <= counter.value && IssuedBelow(orders, counter.value))
    }

    constructor ()
      ensures Valid() && counter.None? && orders == []
    {
      counter := None;
      orders := [];
    }

    /** `place_order_json` (commented out in the repository), without its
        e-mails. */
    method PlaceOrder(req: CheckoutRequest, catalog: set<string>, upload: Upload, now: int)
      returns (r: Result<Order, CheckoutError>)
      requires Valid()
      modifies this
      ensures Valid()
      ensures var out := Checkout(old(counter), old(orders), catalog, req, upload, now);
        && counter == Some(out.counter)
        && r == out.result
        && orders == (if r.Ok? then old(orders) + [r.value] else old(orders))
    {
      // A missing counter row is created at 1.
      var current := Drawn(counter);
      var code := OrderCode.GenerateOrderId(current);
      counter := Some(current + 1);
      r := Attempt(code, orders, catalog, req, upload, now);
      IssuedBelowAdvance(orders, current, if r.Ok? then Some(r.value) else None);
      if r.Ok? {
        orders := orders + [r.value];
      }
    }
  }
}
