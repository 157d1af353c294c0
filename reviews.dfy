/** The product_reviews table (routers/products/models.py:52-61) and
    routers/products/reviews.py: one review per user and product, with the
    product's average rating recomputed after every new review. */
module Reviews {
  import opened Common
  import opened Schema
  import Products

  datatype ReviewError = AlreadyReviewed | UserNotFound
  {
    function Status(): int {
      match this
      case AlreadyReviewed => 400
      case UserNotFound => 404
    }
  }

  datatype ReviewRequest = ReviewRequest(
    clerkId: string,
    productId: string,
    rating: int,
    reviewText: Option<string>)

  /** Has this user already reviewed this product? */
  predicate Reviewed(reviews: seq<Review>, clerkId: string, productId: string) {
    exists i :: 0 <= i < |reviews| && reviews[i].clerkId == clerkId && reviews[i].productId == productId
  }

  /** The `(clerkId, product_id)` unique constraint. */
  ghost predicate OnePerUserAndProduct(reviews: seq<Review>) {
    forall i, j :: 0 <= i < j < |reviews| ==>
      reviews[i].clerkId != reviews[j].clerkId || reviews[i].productId != reviews[j].productId
  }

  /** The reviews of one product, in stored order. */
  function ReviewsFor(reviews: seq<Review>, productId: string): (r: seq<Review>)
    ensures forall i :: 0 <= i < |r| ==> r[i] in reviews && r[i].productId == productId
    ensures forall i :: 0 <= i < |reviews| && reviews[i].productId == productId ==> reviews[i] in r
  {
    Filter(reviews, (rv: Review) => rv.productId == productId)
  }

  /** Each review of the product is listed as often as it is stored, and no
      other review is listed. */
  lemma ReviewsForCounts(reviews: seq<Review>, productId: string)
    ensures forall rv ::
      multiset(ReviewsFor(reviews, productId))[rv] == if rv.productId == productId then multiset(reviews)[rv] else 0
  {
    FilterCounts(reviews, (rv: Review) => rv.productId == productId);
  }

  function Ratings(reviews: seq<Review>): (r: seq<int>)
    ensures |r| == |reviews|
    ensures forall i :: 0 <= i < |r| ==> r[i] == reviews[i].rating
  {
    if reviews == [] then [] else [reviews[0].rating] + Ratings(reviews[1..])
  }

  function Sum(s: seq<int>): int {
    if s == [] then 0 else s[0] + Sum(s[1..])
  }

  /** `sum(ratings) / len(ratings)`, exactly. */
  function Mean(s: seq<int>): real
    requires |s| > 0
  {
    Sum(s) as real / |s| as real
  }

  lemma {:induction false} SumAppend(a: seq<int>, b: seq<int>)
    ensures Sum(a + b) == Sum(a) + Sum(b)
  {
    if a == [] {
      assert a + b == b;
    } else {
      assert (a + b)[1..] == a[1..] + b;
      SumAppend(a[1..], b);
    }
  }

  lemma {:induction false} SumBounds(s: seq<int>, lo: int, hi: int)
    requires forall i :: 0 <= i < |s| ==> lo <= s[i] <= hi
    ensures lo * |s| <= Sum(s) <= hi * |s|
  {
    if s != [] {
      SumBounds(s[1..], lo, hi);
      assert lo * |s| == lo + lo * (|s| - 1);
      assert hi * |s| == hi + hi * (|s| - 1);
    }
  }

  lemma CastMul(a: int, b: int)
    ensures (a * b) as real == a as real * b as real
  {
  }

  lemma DivAtLeast(a: real, n: real, b: real)
    requires n > 0.0 && a >= b * n
    ensures a / n >= b
  {
    var q := a / n;
    assert q * n == a;
    if q < b {
      assert (b - q) * n > 0.0;
    }
  }

  lemma DivAtMost(a: real, n: real, b: real)
    requires n > 0.0 && a <= b * n
    ensures a / n <= b
  {
    var q := a / n;
    assert q * n == a;
    if q > b {
      assert (q - b) * n > 0.0;
    }
  }

  /** The mean lies between the smallest and the largest possible rating. */
  lemma MeanBounds(s: seq<int>, lo: int, hi: int)
    requires |s| > 0
    requires forall i :: 0 <= i < |s| ==> lo <= s[i] <= hi
    ensures lo as real <= Mean(s) <= hi as real
  {
    SumBounds(s, lo, hi);
    QuotientBounds(Sum(s), |s|, lo, hi);
  }

  lemma QuotientBounds(total: int, n: int, lo: int, hi: int)
    requires n > 0 && lo * n <= total <= hi * n
    ensures lo as real <= total as real / n as real <= hi as real
  {
    CastMul(lo, n);
    CastMul(hi, n);
    DivAtLeast(total as real, n as real, lo as real);
    DivAtMost(total as real, n as real, hi as real);
  }

  /** Adding one rating moves the mean to the weighted combination of the
      old mean and the new rating. */
  lemma MeanAfterAppend(s: seq<int>, x: int)
    requires |s| > 0
    ensures Mean(s + [x]) == (Mean(s) * |s| as real + x as real) / (|s| + 1) as real
  {
    SumAppend(s, [x]);
    assert Sum([x]) == x;
    var n := |s| as real;
    var q := Sum(s) as real / n;
    assert q * n == Sum(s) as real;
    assert Mean(s) == q;
    assert |s + [x]| as real == n + 1.0;
    var total := Sum(s + [x]) as real;
    assert total == Mean(s) * n + x as real;
    assert (|s| + 1) as real == n + 1.0;
    assert Mean(s + [x]) == total / (n + 1.0);
  }

  lemma RatingsAppend(a: seq<Review>, b: seq<Review>)
    ensures Ratings(a + b) == Ratings(a) + Ratings(b)
  {
  }

  /** The reviews of a product after one more review is stored. */
  lemma RatingsForAppend(reviews: seq<Review>, rv: Review, productId: string)
    ensures Ratings(ReviewsFor(reviews + [rv], productId)) ==
      Ratings(ReviewsFor(reviews, productId)) + (if rv.productId == productId then [rv.rating] else [])
  {
    FilterAppend(reviews, [rv], (r: Review) => r.productId == productId);
    RatingsAppend(ReviewsFor(reviews, productId), ReviewsFor([rv], productId));
  }

  /** The table's invariant: the unique constraint, and ids drawn in
      increasing order from the identity sequence whose next value is
      `nextId`. */
  ghost predicate StoredRows(reviews: seq<Review>, nextId: int) {
    && OnePerUserAndProduct(reviews)
    && (forall i, j :: 0 <= i < j < |reviews| ==> reviews[i].id < reviews[j].id)
    && (forall i :: 0 <= i < |reviews| ==> reviews[i].id < nextId)
  }

  /** Storing a review of a new (user, product) pair under the next id keeps
      the invariant. */
  lemma StoredRowsAppend(reviews: seq<Review>, nextId: int, rv: Review)
    requires StoredRows(reviews, nextId)
    requires !Reviewed(reviews, rv.clerkId, rv.productId) && rv.id == nextId
    ensures StoredRows(reviews + [rv], nextId + 1)
  {
  }

  class ReviewTable {
    var reviews: seq<Review>
    /** The next value of the identity sequence behind the table's `id`. */
    var nextId: int

    ghost predicate Valid()
      reads this
    {
      StoredRows(reviews, nextId)
    }

    constructor ()
      ensures Valid() && reviews == [] && nextId == 1
    {
      reviews := [];
      nextId := 1;
    }

    /** `create_review`: a repeated (user, product) pair is refused before the
        user is looked up; the stored name is first and last name with a
        space; afterwards the product, when its row exists, carries the mean of
        all its ratings, the new one included. */
    method CreateReview(req: ReviewRequest, users: map<string, User>, products: Products.ProductTable, now: int)
      returns (r: Result<Review, ReviewError>)
      requires Valid() && products.Valid()
      modifies this, products
      ensures Valid() && products.Valid()
      ensures Reviewed(old(reviews), req.clerkId, req.productId) ==>
        r == Err(AlreadyReviewed) && reviews == old(reviews) && nextId == old(nextId) && products.rows == old(products.rows)
      ensures !Reviewed(old(reviews), req.clerkId, req.productId) && req.clerkId !in users ==>
        r == Err(UserNotFound) && reviews == old(reviews) && nextId == old(nextId) && products.rows == old(products.rows)
      ensures !Reviewed(old(reviews), req.clerkId, req.productId) && req.clerkId in users ==>
        var user := users[req.clerkId];
        && r == Ok(Review(old(nextId), req.clerkId, user.firstName + " " + user.lastName, req.productId,
                          req.rating, req.reviewText, now))
        && reviews == old(reviews) + [r.value]
        && nextId == old(nextId) + 1
        && |ReviewsFor(reviews, req.productId)| > 0
        && var average := Mean(Ratings(ReviewsFor(reviews, req.productId)));
           && (Products.ProductIndex(old(products.rows), req.productId).None? ==> products.rows == old(products.rows))
           && (Products.ProductIndex(old(products.rows), req.productId).Some? ==>
                 var i := Products.ProductIndex(old(products.rows), req.productId).value;
                 products.rows == old(products.rows)[i := old(products.rows)[i].(averageRating := average)])
    {
      if Reviewed(reviews, req.clerkId, req.productId) {
        return Err(AlreadyReviewed);
      }
      if req.clerkId !in users {
        return Err(UserNotFound);
      }
      var user := users[req.clerkId];
      var rv := Review(nextId, req.clerkId, user.firstName + " " + user.lastName, req.productId,
                       req.rating, req.reviewText, now);
      StoredRowsAppend(reviews, nextId, rv);
      reviews := reviews + [rv];
      nextId := nextId + 1;
      r := Ok(rv);
      var mine := ReviewsFor(reviews, req.productId);
      assert rv in mine by {
        assert reviews[|reviews| - 1] == rv;
      }
      var average := Mean(Ratings(mine));
      products.SetAverageRating(req.productId, average);
    }

    /** `get_reviews`: exactly the reviews of one product, in stored order. */
    function GetReviews(productId: string): (r: seq<Review>)
      reads this
      ensures forall rv :: rv in r <==> rv in reviews && rv.productId == productId
      ensures forall rv :: multiset(r)[rv] == if rv.productId == productId then multiset(reviews)[rv] else 0
    {
      ReviewsForCounts(reviews, productId);
      ReviewsFor(reviews, productId)
    }
  }
}
