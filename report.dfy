/** The table contents of the orders report (utils/pdf_generator.py): the
    money formatter, the customer and item tables of each order section, and
    the merge of user, user-details and product records into the lookup
    maps the report reads. Rendering is not modelled: a section is the
    sequence of table rows the renderer would be given. */
module Report {
  import opened Common
  import opened Decimal
  import opened Schema

  const Rupee: char := '\U{20B9}'

  // ---------------------------------------------------------------------
  // format_money

  /** The two-digit fractional part of an amount in paise. */
  function Cents(c: nat): (s: string)
    requires c < 100
    ensures |s| == 2 && AllDigits(s) && Value(s) == c
  {
    var s := [DigitChar(c / 10), DigitChar(c % 10)];
    assert s[..1] == [s[0]] && s[..1][..0] == [];
    assert Value(s[..1]) == c / 10;
    s
  }

  /** `format_money`: no amount prints as zero rupees; an amount of 100 or
      more is divided by 100 and printed with two decimals; a smaller amount
      is printed as the bare integer. */
  function FormatMoney(amount: Option<int>): (s: string)
    ensures |s| >= 2 && s[0] == Rupee
  {
    match amount
    case None => [Rupee, '0']
    case Some(a) =>
      if a >= 100 then [Rupee] + Str(a / 100) + "." + Cents(a % 100)
      else [Rupee] + IntStr(a)
  }

  /** The two sides of the 100 threshold, and the missing amount. */
  lemma FormatMoneyThreshold()
    ensures FormatMoney(None) == [Rupee, '0']
    ensures FormatMoney(Some(99)) == [Rupee, '9', '9']
    ensures FormatMoney(Some(100)) == [Rupee, '1', '.', '0', '0']
  {
    assert Str(99) == Str(9) + [DigitChar(9)];
    assert Str(1) == [DigitChar(1)];
    assert Cents(0) == ['0', '0'];
  }

  /** From 100 up the amount reads back from the printed digits: the whole
      rupees before the point, the paise after it. */
  lemma {:induction false} FormatMoneyReadsBack(a: int)
    requires a >= 100
    ensures var s := FormatMoney(Some(a));
      && |s| >= 5 && s[|s| - 3] == '.'
      && AllDigits(s[1..|s| - 3]) && AllDigits(s[|s| - 2..])
      && Value(s[1..|s| - 3]) * 100 + Value(s[|s| - 2..]) == a
  {
    var s := FormatMoney(Some(a));
    var w, f := Str(a / 100), Cents(a % 100);
    assert s == [Rupee] + w + "." + f;
    assert s[1..|s| - 3] == w;
    assert s[|s| - 2..] == f;
    StrValue(a / 100);
  }

  /** Below 100 there is no decimal point and the digits are the amount
      itself, so 99 paise and 99 rupees print alike. */
  lemma FormatMoneySmall(a: int)
    requires 0 <= a < 100
    ensures var s := FormatMoney(Some(a));
      && s == [Rupee] + Str(a)
      && '.' !in s
      && Value(s[1..]) == a
  {
    var s := FormatMoney(Some(a));
    assert s[1..] == Str(a);
    StrValue(a);
    assert forall i :: 1 <= i < |s| ==> s[i] == Str(a)[i - 1];
  }

  // ---------------------------------------------------------------------
  // create_order_pdf_from_db_data

  datatype AddressInfo = AddressInfo(
    address: Option<string>,
    city: Option<string>,
    state: Option<string>,
    country: Option<string>,
    pinCode: Option<string>)

  /** One entry of `customer_details`; `details` is the nested address
      dictionary, present only for users with a details record. */
  datatype Customer = Customer(
    firstName: string,
    lastName: string,
    email: string,
    phoneNumber: string,
    details: Option<AddressInfo>)

  /** One entry of `product_details`. */
  datatype ProductInfo = ProductInfo(
    name: string,
    description: Option<string>,
    price: int,
    mainImageUrl: string)

  function AddressOf(d: UserDetails): (a: AddressInfo)
    ensures a.address == d.address && a.city == d.city && a.state == d.state
    ensures a.country == d.country && a.pinCode == d.pinCode
  {
    AddressInfo(d.address, d.city, d.state, d.country, d.pinCode)
  }

  /** The entry the merge builds for one user. */
  function CustomerOf(u: User, d: Option<UserDetails>): (c: Customer)
    ensures c.firstName == u.firstName && c.lastName == u.lastName
    ensures c.email == u.email && c.phoneNumber == u.phoneNumber
    ensures c.details.Some? <==> d.Some?
    ensures d.Some? ==> c.details.value == AddressOf(d.value)
  {
    Customer(u.firstName, u.lastName, u.email, u.phoneNumber,
      if d.Some? then Some(AddressOf(d.value)) else None)
  }

  function DetailsFor(userDetails: map<string, UserDetails>, k: string): (d: Option<UserDetails>)
    ensures d.Some? <==> k in userDetails
    ensures d.Some? ==> d.value == userDetails[k]
  {
    if k in userDetails then Some(userDetails[k]) else None
  }

  /** The customer dictionary of the report: one entry per user. */
  function CustomersOf(users: map<string, User>, userDetails: map<string, UserDetails>): map<string, Customer> {
    map k | k in users :: CustomerOf(users[k], DetailsFor(userDetails, k))
  }

  /** The first loop of `create_order_pdf_from_db_data`: one entry per user,
      with the address dictionary exactly when the user has details. */
  method MergeCustomers(users: map<string, User>, userDetails: map<string, UserDetails>)
    returns (customers: map<string, Customer>)
    ensures customers == CustomersOf(users, userDetails)
    ensures customers.Keys == users.Keys
    ensures forall k :: k in customers ==> customers[k] == CustomerOf(users[k], DetailsFor(userDetails, k))
    ensures forall k :: k in customers ==> (customers[k].details.Some? <==> k in userDetails)
  {
    customers := map[];
    var remaining := users.Keys;
    while remaining != {}
      invariant remaining <= users.Keys
      invariant customers.Keys == users.Keys - remaining
      invariant forall k :: k in customers ==> customers[k] == CustomerOf(users[k], DetailsFor(userDetails, k))
      decreases |remaining|
    {
      var clerkId :| clerkId in remaining;
      var entry := CustomerEntry(users[clerkId], userDetails, clerkId);
      customers := customers[clerkId := entry];
      remaining := remaining - {clerkId};
    }
    CustomersOfEntries(customers, users, userDetails);
  }

  /** A dictionary with the users' keys and their merged entries is the
      customer dictionary. */
  lemma CustomersOfEntries(customers: map<string, Customer>, users: map<string, User>, userDetails: map<string, UserDetails>)
    requires customers.Keys == users.Keys
    requires forall k :: k in customers ==> customers[k] == CustomerOf(users[k], DetailsFor(userDetails, k))
    ensures customers == CustomersOf(users, userDetails)
  {
    var m := CustomersOf(users, userDetails);
    assert customers.Keys == m.Keys;
    forall k | k in m
      ensures customers[k] == m[k]
    {
    }
  }

  /** One pass of that loop: the user's fields, and the address dictionary
      added when the user has a details row. */
  method CustomerEntry(user: User, userDetails: map<string, UserDetails>, clerkId: string) returns (entry: Customer)
    ensures entry == CustomerOf(user, DetailsFor(userDetails, clerkId))
  {
    entry := Customer(user.firstName, user.lastName, user.email, user.phoneNumber, None);
    if clerkId in userDetails {
      entry := entry.(details := Some(AddressOf(userDetails[clerkId])));
    }
  }

  function ProductInfoOf(p: Product): (info: ProductInfo)
    ensures info.name == p.name && info.description == p.description
    ensures info.price == p.price && info.mainImageUrl == p.mainImageUrl
  {
    ProductInfo(p.name, p.description, p.price, p.mainImageUrl)
  }

  /** The product dictionary of the report: one entry per product. */
  function InfosOf(products: map<string, Product>): map<string, ProductInfo> {
    map k | k in products :: ProductInfoOf(products[k])
  }

  /** The second loop: one entry per product, under the same key. */
  method MergeProducts(products: map<string, Product>) returns (infos: map<string, ProductInfo>)
    ensures infos == InfosOf(products)
    ensures infos.Keys == products.Keys
    ensures forall k :: k in infos ==> infos[k] == ProductInfoOf(products[k])
  {
    infos := map[];
    var remaining := products.Keys;
    while remaining != {}
      invariant remaining <= products.Keys
      invariant infos.Keys == products.Keys - remaining
      invariant forall k :: k in infos ==> infos[k] == ProductInfoOf(products[k])
      decreases |remaining|
    {
      var productId :| productId in remaining;
      infos := infos[productId := ProductInfoOf(products[productId])];
      remaining := remaining - {productId};
    }
  }

  // ---------------------------------------------------------------------
  // The customer table

  /** The truthy values among `fields`, in order. */
  function PresentValues(fields: seq<Option<string>>): (parts: seq<string>)
    ensures forall i :: 0 <= i < |parts| ==> parts[i] != ""
    ensures parts == [] <==> forall i :: 0 <= i < |fields| ==> !Present(fields[i])
  {
    if fields == [] then []
    else
      var rest := PresentValues(fields[1..]);
      assert forall i :: 1 <= i < |fields| ==> fields[i] == fields[1..][i - 1];
      if Present(fields[0]) then [fields[0].value] + rest else rest
  }

  /** The non-empty address fields, in the order address, city, state,
      country, pin code. */
  function AddressParts(a: AddressInfo): (parts: seq<string>) {
    PresentValues([a.address, a.city, a.state, a.country, a.pinCode])
  }

  /** An address row is shown exactly when one of the five fields is
      non-empty, and never shows an empty part. */
  lemma AddressPartsEmptyIff(a: AddressInfo)
    ensures forall i :: 0 <= i < |AddressParts(a)| ==> AddressParts(a)[i] != ""
    ensures AddressParts(a) == [] <==>
      !Present(a.address) && !Present(a.city) && !Present(a.state) && !Present(a.country) && !Present(a.pinCode)
  {
    var fields := [a.address, a.city, a.state, a.country, a.pinCode];
    assert fields[0] == a.address && fields[1] == a.city && fields[2] == a.state;
    assert fields[3] == a.country && fields[4] == a.pinCode;
  }

  /** The rows of the customer table of one order section. */
  function CustomerRows(customers: map<string, Customer>, clerkId: string): (rows: seq<seq<string>>)
    ensures clerkId !in customers ==> rows == [["Customer ID", clerkId]]
    ensures clerkId in customers ==>
      var c := customers[clerkId];
      && 3 <= |rows| <= 4
      && rows[0] == ["Name", c.firstName + " " + c.lastName]
      && rows[1] == ["Email", c.email]
      && rows[2] == ["Phone", c.phoneNumber]
      && (|rows| == 4 <==> c.details.Some? && AddressParts(c.details.value) != [])
      && (|rows| == 4 ==> rows[3] == ["Address", Join(AddressParts(c.details.value), ", ")])
  {
    if clerkId !in customers then [["Customer ID", clerkId]]
    else
      var c := customers[clerkId];
      var rows := [["Name", c.firstName + " " + c.lastName], ["Email", c.email], ["Phone", c.phoneNumber]];
      if c.details.Some? && AddressParts(c.details.value) != [] then
        rows + [["Address", Join(AddressParts(c.details.value), ", ")]]
      else rows
  }

  /** The address row, when there is one, never shows an empty address. */
  lemma AddressRowNotEmpty(customers: map<string, Customer>, clerkId: string)
    requires clerkId in customers && |CustomerRows(customers, clerkId)| == 4
    ensures CustomerRows(customers, clerkId)[3][1] != ""
  {
    var parts := AddressParts(customers[clerkId].details.value);
    AddressPartsEmptyIff(customers[clerkId].details.value);
    JoinEmptyIff(parts, ", ");
  }

  // ---------------------------------------------------------------------
  // The item table

  const ItemHeader: seq<string> := ["Item", "Details", "Qty", "Price", "Subtotal"]

  /** The product's name, or the item's product id when the product is not
      in the map. */
  function ItemName(products: map<string, ProductInfo>, item: OrderItem): (name: string)
    ensures item.productId in products ==> name == products[item.productId].name
    ensures item.productId !in products ==> name == item.productId
  {
    if item.productId in products then products[item.productId].name else item.productId
  }

  function CustomizationLines(pairs: seq<(string, string)>): (lines: seq<string>)
    ensures |lines| == |pairs|
    ensures forall i :: 0 <= i < |pairs| ==> lines[i] == pairs[i].0 + ": " + pairs[i].1
  {
    seq(|pairs|, i requires 0 <= i < |pairs| => pairs[i].0 + ": " + pairs[i].1)
  }

  /** One `"k: v"` line per selected customization, then `"Custom t"` when
      a buyer customization type is set. */
  function DetailLines(item: OrderItem): (lines: seq<string>)
    ensures forall i :: 0 <= i < |lines| ==> lines[i] != ""
  {
    var selected := if item.selectedCustomizations.Some? then CustomizationLines(item.selectedCustomizations.value) else [];
    var custom := if Present(item.customizationType) then ["Custom " + item.customizationType.value] else [];
    assert forall i :: 0 <= i < |selected| ==> |selected[i]| >= 2;
    selected + custom
  }

  function DetailsText(item: OrderItem): string {
    Join(DetailLines(item), "\n")
  }

  /** The details cell is empty exactly when the item has no selected
      customizations and no buyer customization type. */
  lemma DetailsTextEmptyIff(item: OrderItem)
    ensures DetailsText(item) == "" <==>
      (item.selectedCustomizations.None? || item.selectedCustomizations.value == [])
      && !Present(item.customizationType)
  {
    JoinEmptyIff(DetailLines(item), "\n");
  }

  function Subtotal(item: OrderItem): int {
    item.individualPrice * item.quantity
  }

  /** The sum of the subtotals of `items`. */
  function OrderTotal(items: seq<OrderItem>): int {
    if items == [] then 0 else OrderTotal(items[..|items| - 1]) + Subtotal(items[|items| - 1])
  }

  lemma {:induction false} OrderTotalAppend(a: seq<OrderItem>, b: seq<OrderItem>)
    ensures OrderTotal(a + b) == OrderTotal(a) + OrderTotal(b)
    decreases |b|
  {
    if b == [] {
      assert a + b == a;
    } else {
      var b' := b[..|b| - 1];
      assert (a + b)[..|a + b| - 1] == a + b';
      assert (a + b)[|a + b| - 1] == b[|b| - 1];
      OrderTotalAppend(a, b');
    }
  }

  /** Items with non-negative prices and quantities never total below zero. */
  lemma {:induction false} OrderTotalNonNegative(items: seq<OrderItem>)
    requires forall i :: 0 <= i < |items| ==> items[i].individualPrice >= 0 && items[i].quantity >= 0
    ensures OrderTotal(items) >= 0
    decreases |items|
  {
    if items != [] {
      OrderTotalNonNegative(items[..|items| - 1]);
    }
  }

  function ItemRow(products: map<string, ProductInfo>, item: OrderItem): (row: seq<string>)
    ensures |row| == 5
  {
    [ItemName(products, item), DetailsText(item), IntStr(item.quantity),
     FormatMoney(Some(item.individualPrice)), FormatMoney(Some(Subtotal(item)))]
  }

  function TotalRow(total: int): (row: seq<string>) {
    ["", "", "", "Total:", FormatMoney(Some(total))]
  }

  /** One row per item, in order. */
  function ItemRows(products: map<string, ProductInfo>, items: seq<OrderItem>): (rows: seq<seq<string>>) {
    seq(|items|, i requires 0 <= i < |items| => ItemRow(products, items[i]))
  }

  lemma ItemRowsSnoc(products: map<string, ProductInfo>, items: seq<OrderItem>, i: nat)
    requires i < |items|
    ensures ItemRows(products, items[..i + 1]) == ItemRows(products, items[..i]) + [ItemRow(products, items[i])]
  {
    var longer, shorter := ItemRows(products, items[..i + 1]), ItemRows(products, items[..i]);
    var last := ItemRow(products, items[i]);
    forall k | 0 <= k < i + 1
      ensures longer[k] == (shorter + [last])[k]
    {
      if k < i {
        assert items[..i + 1][k] == items[..i][k];
      } else {
        assert items[..i + 1][k] == items[i];
      }
    }
    assert |longer| == |shorter + [last]|;
  }

  /** The item table of one section: none for an order without items;
      otherwise the header, one row per item in order, and the total row
      showing the sum of the subtotals. */
  function ItemTable(products: map<string, ProductInfo>, items: seq<OrderItem>): (t: Option<seq<seq<string>>>)
    ensures t.Some? <==> items != []
    ensures t.Some? ==>
      && |t.value| == |items| + 2
      && t.value[0] == ItemHeader
      && (forall i :: 0 <= i < |items| ==> t.value[i + 1] == ItemRow(products, items[i]))
      && t.value[|items| + 1] == TotalRow(OrderTotal(items))
  {
    if items == [] then None
    else
      var body, total := ItemRows(products, items), TotalRow(OrderTotal(items));
      var rows := [ItemHeader] + body + [total];
      assert forall i :: 0 <= i < |items| ==> rows[i + 1] == body[i];
      Some(rows)
  }

  /** The item-table part of the loop in `create_orders_pdf`, with its
      running total. */
  method BuildItemTable(products: map<string, ProductInfo>, items: seq<OrderItem>)
    returns (t: Option<seq<seq<string>>>)
    ensures t == ItemTable(products, items)
  {
    if items == [] {
      return None;
    }
    var rows := [ItemHeader];
    var total := 0;
    for i := 0 to |items|
      invariant rows == [ItemHeader] + ItemRows(products, items[..i])
      invariant total == OrderTotal(items[..i])
    {
      var item := items[i];
      var subtotal := item.individualPrice * item.quantity;
      assert items[..i + 1][..i] == items[..i];
      ItemRowsSnoc(products, items, i);
      total := total + subtotal;
      var row := [ItemName(products, item), DetailsText(item), IntStr(item.quantity),
                  FormatMoney(Some(item.individualPrice)), FormatMoney(Some(subtotal))];
      assert subtotal == Subtotal(item);
      assert row == ItemRow(products, item);
      assert items[..i + 1][i] == item;
      rows := rows + [row];
    }
    assert items[..|items|] == items;
    rows := rows + [TotalRow(total)];
    t := Some(rows);
  }

  // ---------------------------------------------------------------------
  // create_orders_pdf

  /** The tables of one order's section: its header fields, the customer
      rows and the item table (`None` where the report says the order has
      no items). */
  datatype Section = Section(
    orderId: string,
    createdAt: int,
    status: string,
    customerRows: seq<seq<string>>,
    itemTable: Option<seq<seq<string>>>)

  /** The section `create_orders_pdf` writes for one order. */
  function SectionOf(customers: map<string, Customer>, products: map<string, ProductInfo>, o: Order): Section {
    Section(o.orderId, o.createdAt, o.status, CustomerRows(customers, o.clerkId), ItemTable(products, o.items))
  }

  /** A section reads the customer dictionary only at the order's clerkId
      and the product dictionary only at its items' product ids: two
      dictionaries that agree there give the same section. */
  lemma SectionOfLocal(c1: map<string, Customer>, c2: map<string, Customer>,
                       p1: map<string, ProductInfo>, p2: map<string, ProductInfo>, o: Order)
    requires o.clerkId in c1 <==> o.clerkId in c2
    requires o.clerkId in c1 ==> c1[o.clerkId] == c2[o.clerkId]
    requires forall j :: 0 <= j < |o.items| ==>
      && (o.items[j].productId in p1 <==> o.items[j].productId in p2)
      && (o.items[j].productId in p1 ==> p1[o.items[j].productId] == p2[o.items[j].productId])
    ensures SectionOf(c1, p1, o) == SectionOf(c2, p2, o)
  {
    forall j | 0 <= j < |o.items|
      ensures ItemRows(p1, o.items)[j] == ItemRows(p2, o.items)[j]
    {
      assert ItemName(p1, o.items[j]) == ItemName(p2, o.items[j]);
    }
    assert ItemRows(p1, o.items) == ItemRows(p2, o.items);
  }

  /** One pass of the loop of `create_orders_pdf`. */
  method BuildSection(customers: map<string, Customer>, products: map<string, ProductInfo>, o: Order)
    returns (section: Section)
    ensures section == SectionOf(customers, products, o)
  {
    var customerRows := CustomerRows(customers, o.clerkId);
    var itemTable := BuildItemTable(products, o.items);
    section := Section(o.orderId, o.createdAt, o.status, customerRows, itemTable);
  }

  /** `create_orders_pdf`: one section per order, in the given order. */
  method CreateOrdersReport(orders: seq<Order>, customers: map<string, Customer>, products: map<string, ProductInfo>)
    returns (sections: seq<Section>)
    ensures |sections| == |orders|
    ensures forall i :: 0 <= i < |orders| ==> sections[i] == SectionOf(customers, products, orders[i])
  {
    sections := [];
    for i := 0 to |orders|
      invariant |sections| == i
      invariant forall j :: 0 <= j < i ==> sections[j] == SectionOf(customers, products, orders[j])
    {
      var section := BuildSection(customers, products, orders[i]);
      sections := sections + [section];
    }
  }

  /** `create_order_pdf_from_db_data`: merge the records, then build the
      sections. */
  method CreateReportFromRecords(orders: seq<Order>, users: map<string, User>,
                                 userDetails: map<string, UserDetails>, products: map<string, Product>)
    returns (sections: seq<Section>)
    ensures |sections| == |orders|
    ensures forall i :: 0 <= i < |orders| ==>
      && sections[i].orderId == orders[i].orderId
      && sections[i].createdAt == orders[i].createdAt
      && (orders[i].clerkId in users <==> |sections[i].customerRows| >= 3)
      && (orders[i].clerkId !in users ==> sections[i].customerRows == [["Customer ID", orders[i].clerkId]])
      && (sections[i].itemTable.Some? <==> orders[i].items != [])
    ensures forall i :: 0 <= i < |orders| ==>
      sections[i] == SectionOf(CustomersOf(users, userDetails), InfosOf(products), orders[i])
  {
    var customers := MergeCustomers(users, userDetails);
    var infos := MergeProducts(products);
    sections := CreateOrdersReport(orders, customers, infos);
  }
}
