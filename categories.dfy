/** The categories table (models.py:34-40) and routers/products/categories.py:
    create, list and partially update categories. Names are unique
    (models.py:37); ids come from an increasing identity sequence. */
module Categories {
  import opened Common
  import opened Schema

  datatype CategoryError =
    | CategoryNotFound
      /** A commit refused by the unique `name` column. */
    | DuplicateName(name: string)
  {
    function Status(): int {
      match this
      case CategoryNotFound => 404
      case DuplicateName(_) => 500
    }
  }

  datatype CategoryRequest = CategoryRequest(
    name: string,
    allowedCustomizations: Option<Customizations>,
    userCustomizationOptions: Option<seq<UserCustomizationKind>>)

  /** A partial update; `None` marks a field the request left unset. */
  datatype CategoryPatch = CategoryPatch(
    name: Option<string>,
    allowedCustomizations: Option<Option<Customizations>>,
    userCustomizationOptions: Option<Option<seq<UserCustomizationKind>>>)

  /** The position of the category with this id, if any. */
  function CategoryIndex(rows: seq<Category>, id: int): (r: Option<nat>)
    ensures r.Some? ==> r.value < |rows| && rows[r.value].id == id
    ensures r.None? ==> forall j :: 0 <= j < |rows| ==> rows[j].id != id
  {
    FindIndex(rows, (c: Category) => c.id == id)
  }

  /** Is `name` held by a category other than the one at `except`? */
  predicate NameHeldByOther(rows: seq<Category>, name: string, except: int) {
    exists j :: 0 <= j < |rows| && j != except && rows[j].name == name
  }

  ghost predicate UniqueIdsAndNames(rows: seq<Category>) {
    forall i, j :: 0 <= i < j < |rows| ==> rows[i].id != rows[j].id && rows[i].name != rows[j].name
  }

  /** The `setattr` loop of `update_category`. */
  function PatchCategory(c: Category, p: CategoryPatch): (r: Category)
    ensures r.id == c.id
    ensures p.name.None? ==> r.name == c.name
  {
    Category(
      c.id,
      if p.name.Some? then p.name.value else c.name,
      if p.allowedCustomizations.Some? then p.allowedCustomizations.value else c.allowedCustomizations,
      if p.userCustomizationOptions.Some? then p.userCustomizationOptions.value else c.userCustomizationOptions)
  }

  /** A partial update is idempotent, and an update that sets nothing is the identity. */
  lemma PatchCategoryIdempotent(c: Category, p: CategoryPatch)
    ensures PatchCategory(PatchCategory(c, p), p) == PatchCategory(c, p)
    ensures p == CategoryPatch(None, None, None) ==> PatchCategory(c, p) == c
  {
  }

  class CategoryTable {
    var rows: seq<Category>
    /** The next value of the identity sequence behind `categories.id`. */
    var nextId: int

    ghost predicate Valid()
      reads this
    {
      && UniqueIdsAndNames(rows)
      && forall i :: 0 <= i < |rows| ==> rows[i].id < nextId
    }

    constructor ()
      ensures Valid() && rows == [] && nextId == 1
    {
      rows := [];
      nextId := 1;
    }

    /** `create_category`: the request's three fields stored as given under a
        fresh id; a name already in use is refused by the unique index. */
    method CreateCategory(req: CategoryRequest) returns (r: Result<Category, CategoryError>)
      requires Valid()
      modifies this
      ensures Valid()
      ensures NameHeldByOther(old(rows), req.name, -1) ==>
        r == Err(DuplicateName(req.name)) && rows == old(rows)
      ensures !NameHeldByOther(old(rows), req.name, -1) ==>
        && r == Ok(Category(old(nextId), req.name, req.allowedCustomizations, req.userCustomizationOptions))
        && rows == old(rows) + [r.value]
      ensures r.Ok? ==> CategoryIndex(rows, r.value.id) == Some(|old(rows)|)
    {
      if NameHeldByOther(rows, req.name, -1) {
        return Err(DuplicateName(req.name));
      }
      var c := Category(nextId, req.name, req.allowedCustomizations, req.userCustomizationOptions);
      rows := rows + [c];
      nextId := nextId + 1;
      r := Ok(c);
      assert rows[|old(rows)|].id == c.id;
      assert forall j :: 0 <= j < |old(rows)| ==> rows[j].id != c.id;
    }

    /** `get_categories`: every stored category. */
    function GetCategories(): (all: seq<Category>)
      reads this
      ensures forall c :: c in rows <==> c in all
      ensures |all| == |rows|
    {
      rows
    }

    /** `update_category`: 404 for an unknown id; otherwise only the set
        fields change, no other category changes, and a new name already held
        by another category is refused by the unique index. */
    method UpdateCategory(id: int, p: CategoryPatch) returns (r: Result<Category, CategoryError>)
      requires Valid()
      modifies this
      ensures Valid() && nextId == old(nextId)
      ensures CategoryIndex(old(rows), id).None? ==> r == Err(CategoryNotFound) && rows == old(rows)
      ensures CategoryIndex(old(rows), id).Some? ==>
        var i := CategoryIndex(old(rows), id).value;
        var c := PatchCategory(old(rows)[i], p);
        && (NameHeldByOther(old(rows), c.name, i) ==> r == Err(DuplicateName(c.name)) && rows == old(rows))
        && (!NameHeldByOther(old(rows), c.name, i) ==> r == Ok(c) && rows == old(rows)[i := c])
    {
      var found := CategoryIndex(rows, id);
      if found.None? {
        return Err(CategoryNotFound);
      }
      var i := found.value;
      var c := PatchCategory(rows[i], p);
      if NameHeldByOther(rows, c.name, i) {
        return Err(DuplicateName(c.name));
      }
      rows := rows[i := c];
      r := Ok(c);
    }
  }
}
