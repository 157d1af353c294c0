/** Discount coupons (routers/products/coupons.py): creation and update
    guarded by code uniqueness, deletion, and the public verification rule.
    The `Coupon` model is not declared in any model file of the repository;
    `Schema.Coupon` holds the columns these routes use, and `active` is
    assumed to default to 1, the value verification looks for. */
module Coupons {
  import opened Common
  import opened Schema

  /** The assumed column default of `coupons.active`. */
  const DefaultActive: int := 1

  datatype CouponError = CodeExists(code: string) | CouponNotFound
  {
    function Status(): int {
      match this
      case CodeExists(_) => 400
      case CouponNotFound => 404
    }
  }

  datatype CouponRequest = CouponRequest(
    code: string,
    discountPercentage: int,
    applicableCategories: Option<seq<int>>,
    applicableProducts: Option<seq<string>>,
    expiresAt: Option<int>)

  /** A partial update; `None` marks a field the request left unset. */
  datatype CouponPatch = CouponPatch(
    code: Option<string>,
    discountPercentage: Option<int>,
    applicableCategories: Option<Option<seq<int>>>,
    applicableProducts: Option<Option<seq<string>>>,
    expiresAt: Option<Option<int>>,
    active: Option<int>)

  /** The request of `verify_coupon`; `now` is the clock reading, passed in. */
  datatype VerifyRequest = VerifyRequest(code: string, categoryId: Option<int>, productId: Option<string>)

  datatype Verdict = Verdict(valid: bool, discountPercentage: Option<int>, message: string)

  const InvalidMessage: string := "Invalid or inactive coupon code"
  const ExpiredMessage: string := "Coupon has expired"
  const CategoryOrProductMessage: string := "Coupon not applicable to this category or product"
  const ProductMessage: string := "Coupon not applicable to this product"
  const ValidMessage: string := "Valid coupon"

  predicate CodeUsed(rows: seq<Coupon>, code: string) {
    exists i :: 0 <= i < |rows| && rows[i].code == code
  }

  ghost predicate UniqueCodes(rows: seq<Coupon>) {
    forall i, j :: 0 <= i < j < |rows| ==> rows[i].code != rows[j].code
  }

  function CouponIndex(rows: seq<Coupon>, id: int): (r: Option<nat>)
    ensures r.Some? ==> r.value < |rows| && rows[r.value].id == id
    ensures r.None? ==> forall j :: 0 <= j < |rows| ==> rows[j].id != id
  {
    FindIndex(rows, (c: Coupon) => c.id == id)
  }

  /** `WHERE code = :code AND active = 1`, first match. */
  function ActiveIndex(rows: seq<Coupon>, code: string): (r: Option<nat>)
    ensures r.Some? ==> r.value < |rows| && rows[r.value].code == code && rows[r.value].active == 1
    ensures r.None? ==> forall j :: 0 <= j < |rows| ==> rows[j].code != code || rows[j].active != 1
  {
    FindIndex(rows, (c: Coupon) => c.code == code && c.active == 1)
  }

  /** The `setattr` loop of `update_coupon`. */
  function PatchCoupon(c: Coupon, p: CouponPatch): (r: Coupon)
    ensures r.id == c.id
    ensures p.code.None? ==> r.code == c.code
  {
    Coupon(
      c.id,
      if p.code.Some? then p.code.value else c.code,
      if p.discountPercentage.Some? then p.discountPercentage.value else c.discountPercentage,
      if p.applicableCategories.Some? then p.applicableCategories.value else c.applicableCategories,
      if p.applicableProducts.Some? then p.applicableProducts.value else c.applicableProducts,
      if p.expiresAt.Some? then p.expiresAt.value else c.expiresAt,
      if p.active.Some? then p.active.value else c.active)
  }

  lemma PatchCouponIdempotent(c: Coupon, p: CouponPatch)
    ensures PatchCoupon(PatchCoupon(c, p), p) == PatchCoupon(c, p)
    ensures p == CouponPatch(None, None, None, None, None, None) ==> PatchCoupon(c, p) == c
  {
  }

  /** The guard of `update_coupon`: a truthy new code that differs from the
      current one must not be in use. */
  predicate CodeChangeRefused(rows: seq<Coupon>, current: Coupon, p: CouponPatch) {
    Present(p.code) && p.code.value != current.code && CodeUsed(rows, p.code.value)
  }

  // ---------------------------------------------------------------------
  // Verification

  /** Python truthiness of the list columns and of the request fields. */
  predicate NonEmpty<T>(s: Option<seq<T>>) {
    s.Some? && s.value != []
  }

  predicate NonZero(i: Option<int>) {
    i.Some? && i.value != 0
  }

  /** `verify_coupon`. The category test and the product test form an
      `if`/`elif` pair: once the request's category and the coupon's category
      list are both non-empty, the product test alone is never reached. */
  function VerifyCoupon(rows: seq<Coupon>, req: VerifyRequest, now: int): (v: Verdict)
    ensures v.valid <==> v.message == ValidMessage
    ensures v.valid ==>
      && ActiveIndex(rows, req.code).Some?
      && v.discountPercentage == Some(rows[ActiveIndex(rows, req.code).value].discountPercentage)
    ensures !v.valid ==> v.discountPercentage.None?
  {
    match ActiveIndex(rows, req.code)
    case None => Verdict(false, None, InvalidMessage)
    case Some(i) =>
      var c := rows[i];
      if c.expiresAt.Some? && c.expiresAt.value < now then
        Verdict(false, None, ExpiredMessage)
      else if NonZero(req.categoryId) && NonEmpty(c.applicableCategories) then
        if req.categoryId.value !in c.applicableCategories.value
           && (!Present(req.productId) || !NonEmpty(c.applicableProducts)
               || req.productId.value !in c.applicableProducts.value)
        then Verdict(false, None, CategoryOrProductMessage)
        else Verdict(true, Some(c.discountPercentage), ValidMessage)
      else if Present(req.productId) && NonEmpty(c.applicableProducts) then
        if req.productId.value !in c.applicableProducts.value
        then Verdict(false, None, ProductMessage)
        else Verdict(true, Some(c.discountPercentage), ValidMessage)
      else Verdict(true, Some(c.discountPercentage), ValidMessage)
  }

  /** An unknown code, or a code whose coupons are all inactive, is refused
      first, whatever else the request says. */
  lemma UnknownOrInactiveRefused(rows: seq<Coupon>, req: VerifyRequest, now: int)
    requires forall j :: 0 <= j < |rows| ==> rows[j].code != req.code || rows[j].active != 1
    ensures VerifyCoupon(rows, req, now) == Verdict(false, None, InvalidMessage)
  {
    assert ActiveIndex(rows, req.code).None?;
  }

  /** Expiry is strict: a coupon expires only once `expires_at < now`; a
      coupon without expiry, or expiring exactly now, is not expired. */
  lemma ExpiryIsStrict(rows: seq<Coupon>, req: VerifyRequest, now: int)
    requires ActiveIndex(rows, req.code).Some?
    ensures var c := rows[ActiveIndex(rows, req.code).value];
      VerifyCoupon(rows, req, now).message == ExpiredMessage <==> c.expiresAt.Some? && c.expiresAt.value < now
  {
  }

  /** The coupon found, when it is active and not expired. */
  ghost predicate Usable(rows: seq<Coupon>, req: VerifyRequest, now: int) {
    && ActiveIndex(rows, req.code).Some?
    && var c := rows[ActiveIndex(rows, req.code).value];
       !(c.expiresAt.Some? && c.expiresAt.value < now)
  }

  /** A category mismatch is forgiven only by a listed product. */
  lemma CategoryMismatch(rows: seq<Coupon>, req: VerifyRequest, now: int)
    requires Usable(rows, req, now)
    requires var c := rows[ActiveIndex(rows, req.code).value];
      NonZero(req.categoryId) && NonEmpty(c.applicableCategories) && req.categoryId.value !in c.applicableCategories.value
    ensures var c := rows[ActiveIndex(rows, req.code).value];
      VerifyCoupon(rows, req, now).valid <==>
        Present(req.productId) && NonEmpty(c.applicableProducts) && req.productId.value in c.applicableProducts.value
  {
  }

  /** A matching category makes the coupon valid without any look at the
      product list, even for a product the coupon does not list. */
  lemma CategoryMatchSkipsProducts(rows: seq<Coupon>, req: VerifyRequest, now: int)
    requires Usable(rows, req, now)
    requires var c := rows[ActiveIndex(rows, req.code).value];
      NonZero(req.categoryId) && NonEmpty(c.applicableCategories) && req.categoryId.value in c.applicableCategories.value
    ensures VerifyCoupon(rows, req, now).valid
  {
  }

  /** Without a (truthy) category test, the product list decides. */
  lemma ProductListDecides(rows: seq<Coupon>, req: VerifyRequest, now: int)
    requires Usable(rows, req, now)
    requires var c := rows[ActiveIndex(rows, req.code).value];
      !(NonZero(req.categoryId) && NonEmpty(c.applicableCategories))
      && Present(req.productId) && NonEmpty(c.applicableProducts)
    ensures var c := rows[ActiveIndex(rows, req.code).value];
      VerifyCoupon(rows, req, now).valid <==> req.productId.value in c.applicableProducts.value
  {
  }

  /** An active, unexpired coupon with no category or product list is valid
      for every request, with its discount. */
  lemma UnrestrictedAlwaysValid(rows: seq<Coupon>, req: VerifyRequest, now: int)
    requires Usable(rows, req, now)
    requires var c := rows[ActiveIndex(rows, req.code).value];
      !NonEmpty(c.applicableCategories) && !NonEmpty(c.applicableProducts)
    ensures var c := rows[ActiveIndex(rows, req.code).value];
      VerifyCoupon(rows, req, now) == Verdict(true, Some(c.discountPercentage), ValidMessage)
  {
  }

  /** A category id of 0 is falsy: the category list is then ignored. */
  lemma ZeroCategoryIgnored(rows: seq<Coupon>, req: VerifyRequest, now: int)
    requires req.categoryId == Some(0)
    ensures VerifyCoupon(rows, req, now) == VerifyCoupon(rows, req.(categoryId := None), now)
  {
  }

  // ---------------------------------------------------------------------
  // The coupons table

  class CouponTable {
    var rows: seq<Coupon>
    /** The next value of the identity sequence behind `coupons.id`. */
    var nextId: int

    ghost predicate Valid()
      reads this
    {
      && (forall i :: 0 <= i < |rows| ==> rows[i].id < nextId)
      && (forall i, j :: 0 <= i < j < |rows| ==> rows[i].id != rows[j].id)
    }

    constructor ()
      ensures Valid() && rows == [] && nextId == 1
    {
      rows := [];
      nextId := 1;
    }

    /** `create_coupon`: 400 for a code in use, otherwise the given fields
        stored under a fresh id. */
    method CreateCoupon(req: CouponRequest) returns (r: Result<Coupon, CouponError>)
      requires Valid()
      modifies this
      ensures Valid()
      ensures CodeUsed(old(rows), req.code) ==> r == Err(CodeExists(req.code)) && rows == old(rows)
      ensures !CodeUsed(old(rows), req.code) ==>
        && r == Ok(Coupon(old(nextId), req.code, req.discountPercentage, req.applicableCategories,
                          req.applicableProducts, req.expiresAt, DefaultActive))
        && rows == old(rows) + [r.value]
      ensures UniqueCodes(old(rows)) ==> UniqueCodes(rows)
    {
      if CodeUsed(rows, req.code) {
        return Err(CodeExists(req.code));
      }
      var c := Coupon(nextId, req.code, req.discountPercentage, req.applicableCategories,
                      req.applicableProducts, req.expiresAt, DefaultActive);
      rows := rows + [c];
      nextId := nextId + 1;
      r := Ok(c);
    }

    /** `update_coupon`: 404 for an unknown id; 400 when the code changes to
        one in use; otherwise only the set fields change. Codes stay unique
        unless the request sets the empty code, which the guard lets through. */
    method UpdateCoupon(id: int, p: CouponPatch) returns (r: Result<Coupon, CouponError>)
      requires Valid()
      modifies this
      ensures Valid() && nextId == old(nextId)
      ensures CouponIndex(old(rows), id).None? ==> r == Err(CouponNotFound) && rows == old(rows)
      ensures CouponIndex(old(rows), id).Some? ==>
        var i := CouponIndex(old(rows), id).value;
        && (CodeChangeRefused(old(rows), old(rows)[i], p) ==>
              r == Err(CodeExists(p.code.value)) && rows == old(rows))
        && (!CodeChangeRefused(old(rows), old(rows)[i], p) ==>
              r == Ok(PatchCoupon(old(rows)[i], p)) && rows == old(rows)[i := r.value])
      ensures UniqueCodes(old(rows)) && p.code != Some("") ==> UniqueCodes(rows)
    {
      var found := CouponIndex(rows, id);
      if found.None? {
        return Err(CouponNotFound);
      }
      var i := found.value;
      if CodeChangeRefused(rows, rows[i], p) {
        return Err(CodeExists(p.code.value));
      }
      var c := PatchCoupon(rows[i], p);
      rows := rows[i := c];
      r := Ok(c);
    }

    /** `delete_coupon`: 404 for an unknown id; otherwise that coupon goes
        and the others keep their order. */
    method DeleteCoupon(id: int) returns (r: Result<(), CouponError>)
      requires Valid()
      modifies this
      ensures Valid() && nextId == old(nextId)
      ensures CouponIndex(old(rows), id).None? ==> r == Err(CouponNotFound) && rows == old(rows)
      ensures CouponIndex(old(rows), id).Some? ==>
        var i := CouponIndex(old(rows), id).value;
        r == Ok(()) && rows == old(rows)[..i] + old(rows)[i + 1..]
      ensures CouponIndex(rows, id).None?
    {
      var found := CouponIndex(rows, id);
      if found.None? {
        return Err(CouponNotFound);
      }
      var i := found.value;
      rows := rows[..i] + rows[i + 1..];
      r := Ok(());
      assert forall j :: 0 <= j < |rows| ==> rows[j] == if j < i then old(rows)[j] else old(rows)[j + 1];
    }
  }

  /** The empty code slips past the update guard: a second coupon can take
      the empty code while another coupon already holds it. */
  lemma EmptyCodeSlipsThrough(held: Coupon, other: Coupon)
    requires held.code == "" && other.code != ""
    ensures var p := CouponPatch(Some(""), None, None, None, None, None);
      && !CodeChangeRefused([held, other], other, p)
      && PatchCoupon(other, p).code == held.code
  {
  }
}
