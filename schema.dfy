/** Record shapes of the stored tables (models.py, the schemas of the routers).
    Timestamps are integers (seconds); money is an integer in the smallest
    currency unit. `Coupon`, `Banner` and the featured-section rows are not
    declared in any model file of the repository; the shapes below hold only
    the columns the routes read or write. */
module Schema {
  import opened Common

  datatype ProductStatus = InStock | OutOfStock | Discontinued

  datatype UserRole = RoleUser | RoleAdmin

  /** Buyer-supplied content attached to an order line. */
  datatype UserCustomizationKind = Text | Image | Logo

  function KindName(k: UserCustomizationKind): string {
    match k
    case Text => "text"
    case Image => "image"
    case Logo => "logo"
  }

  /** A customization schema: option key (`size`, `color`, ...) to its values. */
  type Customizations = map<string, seq<string>>

  datatype Category = Category(
    id: int,
    name: string,
    allowedCustomizations: Option<Customizations>,
    userCustomizationOptions: Option<seq<UserCustomizationKind>>)

  /** `average_rating` is the exact mean of the product's ratings. */
  datatype Product = Product(
    productId: string,
    mainImageUrl: string,
    sideImagesUrl: Option<seq<string>>,
    name: string,
    price: int,
    categoryId: int,
    description: Option<string>,
    customizationOptions: Option<Customizations>,
    status: ProductStatus,
    averageRating: real)

  datatype User = User(
    clerkId: string,
    firstName: string,
    lastName: string,
    email: string,
    phoneNumber: string,
    role: UserRole)

  datatype UserDetails = UserDetails(
    clerkId: string,
    address: Option<string>,
    city: Option<string>,
    state: Option<string>,
    country: Option<string>,
    pinCode: Option<string>)

  /** One order line. `selectedCustomizations` lists (key, rendered value)
      pairs in the stored mapping's order; `individualPrice` is the unit price
      captured at checkout. */
  datatype OrderItem = OrderItem(
    productId: string,
    quantity: int,
    selectedCustomizations: Option<seq<(string, string)>>,
    customizationType: Option<string>,
    customizationValue: Option<string>,
    individualPrice: int)

  datatype Order = Order(
    orderId: string,
    clerkId: string,
    totalPrice: int,
    status: string,
    createdAt: int,
    receiptId: Option<int>,
    items: seq<OrderItem>)

  datatype Review = Review(
    id: int,
    clerkId: string,
    userName: string,
    productId: string,
    rating: int,
    reviewText: Option<string>,
    createdAt: int)

  datatype Coupon = Coupon(
    id: int,
    code: string,
    discountPercentage: int,
    applicableCategories: Option<seq<int>>,
    applicableProducts: Option<seq<string>>,
    expiresAt: Option<int>,
    active: int)

  datatype Banner = Banner(
    id: int,
    imageUrl: string,
    displayOrder: int,
    active: int,
    createdAt: int)

  /** A row of the best-selling, on-sale, trending or new-arrivals table. */
  datatype FeaturedEntry = FeaturedEntry(id: int, productId: string, createdAt: int)

  /** A row of the shop-by-need table. */
  datatype NeedEntry = NeedEntry(entry: FeaturedEntry, need: string)
}
