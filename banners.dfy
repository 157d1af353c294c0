/** The homepage banners of routers/featured/featured.py:398-501. The
    `Banner` model is not declared in any model file of the repository; the
    row holds the columns the routes read and write, with ids drawn from an
    increasing identity sequence. */
module Banners {
  import opened Common
  import opened Schema
  import opened Sorting

  datatype BannerError =
    | UploadFailed
    | BannerNotFound
  {
    function Status(): int {
      match this
      case UploadFailed => 500
      case BannerNotFound => 404
    }
  }

  /** `BannerCreate` without the image payload; `None` marks a field the
      request left out. */
  datatype BannerRequest = BannerRequest(displayOrder: Option<int>, active: Option<int>)

  /** `BannerUpdate`: only the fields that are `Some` are written. */
  datatype BannerPatch = BannerPatch(displayOrder: Option<int>, active: Option<int>)

  datatype BannerListing = BannerListing(total: nat, banners: seq<Banner>)

  /** The request schema's defaults: position 0, active. */
  const DefaultDisplayOrder := 0
  const DefaultActive := 1

  function OrDefault(x: Option<int>, default: int): (r: int)
    ensures x.Some? ==> r == x.value
    ensures x.None? ==> r == default
  {
    if x.Some? then x.value else default
  }

  function BannerIndex(rows: seq<Banner>, id: int): (r: Option<nat>)
    ensures r.Some? ==> r.value < |rows| && rows[r.value].id == id
    ensures r.None? ==> forall j :: 0 <= j < |rows| ==> rows[j].id != id
  {
    FindIndex(rows, (b: Banner) => b.id == id)
  }

  function DisplayOrder(b: Banner): int {
    b.displayOrder
  }

  predicate IsActive(b: Banner) {
    b.active == 1
  }

  /** The `setattr` loop of `update_banner`. */
  function PatchBanner(b: Banner, p: BannerPatch): (r: Banner)
    ensures r.id == b.id && r.imageUrl == b.imageUrl && r.createdAt == b.createdAt
    ensures r.displayOrder == OrDefault(p.displayOrder, b.displayOrder)
    ensures r.active == OrDefault(p.active, b.active)
  {
    b.(displayOrder := OrDefault(p.displayOrder, b.displayOrder), active := OrDefault(p.active, b.active))
  }

  /** A banner update is idempotent, and an empty one changes nothing. */
  lemma PatchBannerIdempotent(b: Banner, p: BannerPatch)
    ensures PatchBanner(PatchBanner(b, p), p) == PatchBanner(b, p)
    ensures p == BannerPatch(None, None) ==> PatchBanner(b, p) == b
  {
  }

  ghost predicate UniqueIds(rows: seq<Banner>) {
    forall i, j :: 0 <= i < j < |rows| ==> rows[i].id != rows[j].id
  }

  /** `get_banners`: every banner, or with `activeOnly` those whose `active`
      is 1, ordered by display order; `total` counts what is listed. */
  function GetBanners(rows: seq<Banner>, activeOnly: bool): (r: BannerListing)
    ensures r.total == |r.banners|
    ensures Sorted(r.banners, DisplayOrder, true)
    ensures !activeOnly ==> multiset(r.banners) == multiset(rows)
    ensures activeOnly ==> forall b :: b in r.banners <==> b in rows && b.active == 1
    ensures forall b :: multiset(r.banners)[b] == if activeOnly && b.active != 1 then 0 else multiset(rows)[b]
    ensures forall b :: b in r.banners ==> b in rows
  {
    FilterCounts(rows, IsActive);
    var kept := if activeOnly then Filter(rows, IsActive) else rows;
    var sorted := SortBy(kept, DisplayOrder, true);
    assert forall b :: b in sorted <==> b in multiset(kept);
    BannerListing(|sorted|, sorted)
  }

  class BannerTable {
    var rows: seq<Banner>
    /** The next value of the identity sequence behind the table's `id`. */
    var nextId: int

    ghost predicate Valid()
      reads this
    {
      && UniqueIds(rows)
      && forall i :: 0 <= i < |rows| ==> rows[i].id < nextId
    }

    constructor ()
      ensures Valid() && rows == [] && nextId == 1
    {
      rows := [];
      nextId := 1;
    }

    /** `add_banner`: the image is uploaded first (`imageUrl` is the URL the
        upload returned, `None` when it failed, which becomes a 500); the
        banner is stored with the request's order and flag, or their
        defaults, and the transaction time `now`. */
    method AddBanner(req: BannerRequest, imageUrl: Option<string>, now: int) returns (r: Result<Banner, BannerError>)
      requires Valid()
      modifies this
      ensures Valid()
      ensures imageUrl.None? ==> r == Err(UploadFailed) && rows == old(rows) && nextId == old(nextId)
      ensures imageUrl.Some? ==>
        && r == Ok(Banner(old(nextId), imageUrl.value, OrDefault(req.displayOrder, DefaultDisplayOrder),
                          OrDefault(req.active, DefaultActive), now))
        && rows == old(rows) + [r.value]
      ensures r.Ok? ==> BannerIndex(rows, r.value.id) == Some(|old(rows)|)
    {
      if imageUrl.None? {
        return Err(UploadFailed);
      }
      var b := Banner(nextId, imageUrl.value, OrDefault(req.displayOrder, DefaultDisplayOrder),
                      OrDefault(req.active, DefaultActive), now);
      rows := rows + [b];
      nextId := nextId + 1;
      r := Ok(b);
      assert rows[|old(rows)|].id == b.id;
      assert forall j :: 0 <= j < |old(rows)| ==> rows[j].id != b.id;
    }

    /** `update_banner`: 404 for an unknown id; otherwise only the fields
        the request set change, and no other banner changes. */
    method UpdateBanner(id: int, p: BannerPatch) returns (r: Result<Banner, BannerError>)
      requires Valid()
      modifies this
      ensures Valid() && nextId == old(nextId)
      ensures BannerIndex(old(rows), id).None? ==> r == Err(BannerNotFound) && rows == old(rows)
      ensures BannerIndex(old(rows), id).Some? ==>
        var i := BannerIndex(old(rows), id).value;
        r == Ok(PatchBanner(old(rows)[i], p)) && rows == old(rows)[i := r.value]
    {
      var found := BannerIndex(rows, id);
      if found.None? {
        return Err(BannerNotFound);
      }
      var i := found.value;
      var b := PatchBanner(rows[i], p);
      rows := rows[i := b];
      r := Ok(b);
    }

    /** `delete_banner`: 404 for an unknown id; otherwise that banner goes
        and no banner holds the id any more. */
    method DeleteBanner(id: int) returns (r: Result<(), BannerError>)
      requires Valid()
      modifies this
      ensures Valid() && nextId == old(nextId)
      ensures BannerIndex(old(rows), id).None? ==> r == Err(BannerNotFound) && rows == old(rows)
      ensures BannerIndex(old(rows), id).Some? ==>
        var i := BannerIndex(old(rows), id).value;
        r == Ok(()) && rows == old(rows)[..i] + old(rows)[i + 1..]
      ensures BannerIndex(rows, id).None?
    {
      var found := BannerIndex(rows, id);
      if found.None? {
        return Err(BannerNotFound);
      }
      var i := found.value;
      assert forall j :: 0 <= j < |rows| - 1 ==> (rows[..i] + rows[i + 1..])[j] == if j < i then rows[j] else rows[j + 1];
      rows := rows[..i] + rows[i + 1..];
      r := Ok(());
    }
  }
}
