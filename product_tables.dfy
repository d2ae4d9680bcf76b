/**
 * The two tables the wishlist store reads and writes, `wishlists` and
 * `wishlist_items`, with the queries the store issues against them.
 *
 * Identifiers come from one counter and `created_at` from a clock that
 * advances with every insert. A query either succeeds or fails: every query
 * fails while the database is unreachable, an insert or update that would
 * repeat a share slug fails, and a query that asks for a single row fails
 * unless exactly one row matches.
 */
module ProductTables {
  import opened JsValue

  datatype WishlistRow = WishlistRow(id: nat, ownerId: string, shareSlug: string)

  /** The columns of an item the store edits; `None` is a null column. */
  datatype Fields = Fields(name: Option<string>, price: Option<string>, image: Option<string>, link: Option<string>)

  datatype ItemRow = ItemRow(id: nat, wishlistId: nat, fields: Fields, createdAt: nat)

  /** An item as a query returns it; only the listing selects `created_at`. */
  datatype Product = Product(id: nat, fields: Fields, createdAt: Option<nat>)

  datatype Tables = Tables(wishlists: seq<WishlistRow>, items: seq<ItemRow>, nextId: nat, clock: nat)

  datatype DbError = Unreachable | DuplicateSlug | NotSingle

  datatype Result<T> = Ok(value: T) | Err(error: DbError)

  /** What a write returns, and the tables after it. */
  datatype Write<T> = Write(tables: Tables, result: Result<T>)

  /**
   * The invariant of the tables: identifiers are unique and below the
   * counter, share slugs are unique, and items are stored in the order they
   * were created, at times before the clock.
   */
  predicate Valid(t: Tables) {
    (forall i, j :: 0 <= i < j < |t.wishlists| ==>
      t.wishlists[i].id != t.wishlists[j].id && t.wishlists[i].shareSlug != t.wishlists[j].shareSlug) &&
    (forall i :: 0 <= i < |t.wishlists| ==> t.wishlists[i].id < t.nextId) &&
    InCreationOrder(t.items) &&
    (forall i :: 0 <= i < |t.items| ==> t.items[i].id < t.nextId && t.items[i].createdAt < t.clock)
  }

  /** Rows stored in the order they were created, each with its own identifier. */
  predicate InCreationOrder(items: seq<ItemRow>) {
    forall i, j :: 0 <= i < j < |items| ==> items[i].createdAt < items[j].createdAt && items[i].id != items[j].id
  }

  const EmptyTables := Tables([], [], 0, 0)

  lemma EmptyTablesValid()
    ensures Valid(EmptyTables)
  {
  }

  // wishlists

  /** `select('id, share_slug').eq('owner_id', owner)`, in table order. */
  function OwnedBy(rows: seq<WishlistRow>, owner: string): seq<WishlistRow>
    decreases |rows|
  {
    if |rows| == 0 then []
    else
      (if rows[0].ownerId == owner then [rows[0]] else []) + OwnedBy(rows[1..], owner)
  }

  /** The owner's wishlists are exactly the rows with that owner, in table order. */
  lemma {:induction false} OwnedByMeaning(rows: seq<WishlistRow>, owner: string)
    ensures forall r :: r in OwnedBy(rows, owner) <==> r in rows && r.ownerId == owner
    ensures |OwnedBy(rows, owner)| > 0 <==> FirstOwned(rows, owner) < |rows|
    ensures |OwnedBy(rows, owner)| > 0 && FirstOwned(rows, owner) < |rows| ==>
      OwnedBy(rows, owner)[0] == rows[FirstOwned(rows, owner)]
    decreases |rows|
  {
    if |rows| > 0 {
      OwnedByMeaning(rows[1..], owner);
      assert rows == [rows[0]] + rows[1..];
    }
  }

  /** The index of the owner's first row, or `|rows|` when there is none. */
  function FirstOwned(rows: seq<WishlistRow>, owner: string): (i: nat)
    ensures i <= |rows|
    ensures forall j :: 0 <= j < i ==> rows[j].ownerId != owner
    ensures i < |rows| ==> rows[i].ownerId == owner
    decreases |rows|
  {
    if |rows| == 0 then 0
    else if rows[0].ownerId == owner then 0
    else 1 + FirstOwned(rows[1..], owner)
  }

  predicate SlugTaken(rows: seq<WishlistRow>, slug: string) {
    exists i :: 0 <= i < |rows| && rows[i].shareSlug == slug
  }

  /** `insert({owner_id, share_slug}).select('id, share_slug').single()` */
  function InsertWishlist(t: Tables, owner: string, slug: string): Write<WishlistRow> {
    if SlugTaken(t.wishlists, slug) then Write(t, Err(DuplicateSlug))
    else
      var row := WishlistRow(t.nextId, owner, slug);
      Write(t.(wishlists := t.wishlists + [row], nextId := t.nextId + 1), Ok(row))
  }

  /**
   * Creating a wishlist adds one row with the owner and the slug, a fresh
   * identifier and nothing else, unless the slug is taken, and keeps the
   * tables valid.
   */
  lemma InsertWishlistMeaning(t: Tables, owner: string, slug: string)
    requires Valid(t)
    ensures Valid(InsertWishlist(t, owner, slug).tables)
    ensures InsertWishlist(t, owner, slug).result.Err? <==> SlugTaken(t.wishlists, slug)
    ensures InsertWishlist(t, owner, slug).result.Err? ==> InsertWishlist(t, owner, slug).tables == t
    ensures InsertWishlist(t, owner, slug).result.Ok? ==>
      var row := InsertWishlist(t, owner, slug).result.value;
      row.ownerId == owner && row.shareSlug == slug &&
      (forall r :: r in t.wishlists ==> r.id != row.id) &&
      InsertWishlist(t, owner, slug).tables.wishlists == t.wishlists + [row] &&
      InsertWishlist(t, owner, slug).tables.items == t.items
  {
    if !SlugTaken(t.wishlists, slug) {
      var t' := InsertWishlist(t, owner, slug).tables;
      assert forall i :: 0 <= i < |t.wishlists| ==> t'.wishlists[i] == t.wishlists[i];
      forall r | r in t.wishlists ensures r.id != t.nextId {
        var i :| 0 <= i < |t.wishlists| && t.wishlists[i] == r;
      }
    }
  }

  /** The index of the row with this identifier, or `|rows|` when there is none. */
  function RowIndex(rows: seq<WishlistRow>, id: nat): (i: nat)
    ensures i <= |rows|
    ensures forall j :: 0 <= j < i ==> rows[j].id != id
    ensures i < |rows| ==> rows[i].id == id
    decreases |rows|
  {
    if |rows| == 0 then 0
    else if rows[0].id == id then 0
    else 1 + RowIndex(rows[1..], id)
  }

  /** `update({share_slug}).eq('id', id).select('id, share_slug').single()` */
  function UpdateSlug(t: Tables, id: nat, slug: string): Write<WishlistRow> {
    var i := RowIndex(t.wishlists, id);
    if i == |t.wishlists| then Write(t, Err(NotSingle))
    else if exists j :: 0 <= j < |t.wishlists| && j != i && t.wishlists[j].shareSlug == slug then
      Write(t, Err(DuplicateSlug))
    else
      var row := t.wishlists[i].(shareSlug := slug);
      Write(t.(wishlists := t.wishlists[i := row]), Ok(row))
  }

  /**
   * Changing a slug changes that one row's slug and nothing else: after it
   * the new slug names the row and the old slug names no row. It fails, and
   * changes nothing, when no row has the identifier, and with a duplicate
   * slug exactly when another row has the slug.
   */
  lemma UpdateSlugMeaning(t: Tables, id: nat, slug: string)
    requires Valid(t)
    ensures Valid(UpdateSlug(t, id, slug).tables)
    ensures UpdateSlug(t, id, slug).result.Err? ==> UpdateSlug(t, id, slug).tables == t
    ensures UpdateSlug(t, id, slug).result == Err(NotSingle) <==> forall r :: r in t.wishlists ==> r.id != id
    ensures (exists r :: r in t.wishlists && r.id == id) ==>
      (UpdateSlug(t, id, slug).result == Err(DuplicateSlug) <==>
       exists r :: r in t.wishlists && r.id != id && r.shareSlug == slug)
    ensures UpdateSlug(t, id, slug).result.Ok? ==>
      var t' := UpdateSlug(t, id, slug).tables;
      var row := UpdateSlug(t, id, slug).result.value;
      row.id == id && row.shareSlug == slug && t'.items == t.items && t'.nextId == t.nextId &&
      |t'.wishlists| == |t.wishlists| &&
      (forall k :: 0 <= k < |t.wishlists| ==>
        if t.wishlists[k].id == id then t'.wishlists[k] == t.wishlists[k].(shareSlug := slug)
        else t'.wishlists[k] == t.wishlists[k]) &&
      (forall r :: r in t.wishlists && r.id == id && r.shareSlug != slug ==> !SlugTaken(t'.wishlists, r.shareSlug))
  {
    var i := RowIndex(t.wishlists, id);
    if i == |t.wishlists| {
      forall r | r in t.wishlists ensures r.id != id {
        var k :| 0 <= k < |t.wishlists| && t.wishlists[k] == r;
      }
    } else {
      assert t.wishlists[i] in t.wishlists;
      var t' := UpdateSlug(t, id, slug).tables;
      if t'.wishlists != t.wishlists {
        forall r | r in t.wishlists && r.id == id && r.shareSlug != slug ensures !SlugTaken(t'.wishlists, r.shareSlug) {
          var k :| 0 <= k < |t.wishlists| && t.wishlists[k] == r;
          assert k == i;
          forall j | 0 <= j < |t'.wishlists| ensures t'.wishlists[j].shareSlug != r.shareSlug {
            if j != i {
              assert t'.wishlists[j] == t.wishlists[j];
            }
          }
        }
      }
    }
  }

  // wishlist_items

  function Listed(row: ItemRow): Product {
    Product(row.id, row.fields, Some(row.createdAt))
  }

  function Detail(row: ItemRow): Product {
    Product(row.id, row.fields, None)
  }

  /**
   * `select('id, name, price, image, link, created_at').eq('wishlist_id', id)
   * .order('created_at', {ascending: false})`
   */
  function Newest(items: seq<ItemRow>, wishlistId: nat): seq<Product>
    decreases |items|
  {
    if |items| == 0 then []
    else
      var last := items[|items| - 1];
      (if last.wishlistId == wishlistId then [Listed(last)] else []) + Newest(items[..|items| - 1], wishlistId)
  }

  predicate NewestFirst(products: seq<Product>) {
    (forall i :: 0 <= i < |products| ==> products[i].createdAt.Some?) &&
    forall i, j :: 0 <= i < j < |products| ==> products[i].createdAt.value > products[j].createdAt.value
  }

  /** The listing holds exactly the items of the wishlist. */
  lemma {:induction false} NewestMembers(items: seq<ItemRow>, wishlistId: nat)
    ensures forall p :: p in Newest(items, wishlistId) <==>
      exists r :: r in items && r.wishlistId == wishlistId && p == Listed(r)
    decreases |items|
  {
    if |items| > 0 {
      var init := items[..|items| - 1];
      var last := items[|items| - 1];
      NewestMembers(init, wishlistId);
      assert items == init + [last];
      forall p | p in Newest(items, wishlistId)
        ensures exists r :: r in items && r.wishlistId == wishlistId && p == Listed(r)
      {
        if p in Newest(init, wishlistId) {
          var r :| r in init && r.wishlistId == wishlistId && p == Listed(r);
          assert r in items;
        }
      }
      forall r | r in items && r.wishlistId == wishlistId ensures Listed(r) in Newest(items, wishlistId) {
        if r != last { assert r in init; }
      }
    }
  }

  /** Every listed item carries its creation time, which is before the clock. */
  lemma {:induction false} NewestBounded(items: seq<ItemRow>, wishlistId: nat, clock: nat)
    requires forall i :: 0 <= i < |items| ==> items[i].createdAt < clock
    ensures forall p :: p in Newest(items, wishlistId) ==> p.createdAt.Some? && p.createdAt.value < clock
    decreases |items|
  {
    if |items| > 0 {
      NewestBounded(items[..|items| - 1], wishlistId, clock);
    }
  }

  /** Items stored in creation order are listed newest first. */
  lemma {:induction false} NewestSorted(items: seq<ItemRow>, wishlistId: nat)
    requires forall i, j :: 0 <= i < j < |items| ==> items[i].createdAt < items[j].createdAt
    ensures NewestFirst(Newest(items, wishlistId))
    decreases |items|
  {
    if |items| > 0 {
      var init := items[..|items| - 1];
      var last := items[|items| - 1];
      NewestSorted(init, wishlistId);
      NewestBounded(init, wishlistId, last.createdAt);
      var rest := Newest(init, wishlistId);
      if last.wishlistId == wishlistId {
        var all := [Listed(last)] + rest;
        forall i, j | 0 <= i < j < |all| ensures all[i].createdAt.value > all[j].createdAt.value {
          assert all[j] == rest[j - 1] && all[j] in rest;
          if i > 0 { assert all[i] == rest[i - 1]; }
        }
      }
    }
  }

  /**
   * The listing of a valid table holds exactly the items of the wishlist,
   * newest first.
   */
  lemma NewestMeaning(t: Tables, wishlistId: nat)
    requires Valid(t)
    ensures NewestFirst(Newest(t.items, wishlistId))
    ensures forall p :: p in Newest(t.items, wishlistId) <==>
      exists r :: r in t.items && r.wishlistId == wishlistId && p == Listed(r)
  {
    NewestSorted(t.items, wishlistId);
    NewestMembers(t.items, wishlistId);
  }

  /** The rows with this wishlist and this identifier. */
  function Matching(items: seq<ItemRow>, wishlistId: nat, id: nat): seq<ItemRow>
    decreases |items|
  {
    if |items| == 0 then []
    else
      (if items[0].wishlistId == wishlistId && items[0].id == id then [items[0]] else []) +
      Matching(items[1..], wishlistId, id)
  }

  lemma {:induction false} MatchingMeaning(items: seq<ItemRow>, wishlistId: nat, id: nat)
    ensures forall r :: r in Matching(items, wishlistId, id) <==> r in items && r.wishlistId == wishlistId && r.id == id
    decreases |items|
  {
    if |items| > 0 {
      MatchingMeaning(items[1..], wishlistId, id);
      assert items == [items[0]] + items[1..];
    }
  }

  /** `select('id, name, price, image, link').eq('wishlist_id', w).eq('id', id).single()` */
  function SelectItem(t: Tables, wishlistId: nat, id: nat): Result<Product> {
    var m := Matching(t.items, wishlistId, id);
    if |m| == 1 then Ok(Detail(m[0])) else Err(NotSingle)
  }

  /** `insert({wishlist_id, name, price, image, link})` */
  function InsertItem(t: Tables, wishlistId: nat, fields: Fields): Tables {
    t.(items := t.items + [ItemRow(t.nextId, wishlistId, fields, t.clock)], nextId := t.nextId + 1, clock := t.clock + 1)
  }

  /** The items of other wishlists. */
  function Outside(items: seq<ItemRow>, wishlistId: nat): seq<ItemRow>
    decreases |items|
  {
    if |items| == 0 then []
    else
      (if items[0].wishlistId != wishlistId then [items[0]] else []) + Outside(items[1..], wishlistId)
  }

  lemma {:induction false} OutsideAppend(a: seq<ItemRow>, b: seq<ItemRow>, wishlistId: nat)
    ensures Outside(a + b, wishlistId) == Outside(a, wishlistId) + Outside(b, wishlistId)
    decreases |a|
  {
    if |a| == 0 {
      assert a + b == b;
    } else {
      assert (a + b)[1..] == a[1..] + b;
      OutsideAppend(a[1..], b, wishlistId);
    }
  }

  /**
   * Adding an item adds one row to the wishlist, newer than every row, with
   * a fresh identifier; the items of other wishlists stay as they were, and
   * the tables stay valid.
   */
  lemma InsertItemMeaning(t: Tables, wishlistId: nat, fields: Fields)
    requires Valid(t)
    ensures Valid(InsertItem(t, wishlistId, fields))
    ensures Outside(InsertItem(t, wishlistId, fields).items, wishlistId) == Outside(t.items, wishlistId)
    ensures InsertItem(t, wishlistId, fields).wishlists == t.wishlists
    ensures Newest(InsertItem(t, wishlistId, fields).items, wishlistId) ==
      [Product(t.nextId, fields, Some(t.clock))] + Newest(t.items, wishlistId)
  {
    var row := ItemRow(t.nextId, wishlistId, fields, t.clock);
    OutsideAppend(t.items, [row], wishlistId);
    assert Outside([row], wishlistId) == [] by { assert [row][1..] == []; }
    assert (t.items + [row])[..|t.items + [row]| - 1] == t.items;
  }

  /** Set the fields of the rows with this wishlist and this identifier. */
  function UpdateMatching(items: seq<ItemRow>, wishlistId: nat, id: nat, fields: Fields): (u: seq<ItemRow>)
    ensures |u| == |items|
  {
    seq(|items|, i requires 0 <= i < |items| =>
      if items[i].wishlistId == wishlistId && items[i].id == id then items[i].(fields := fields) else items[i])
  }

  /** `update({name, price, image, link}).eq('wishlist_id', w).eq('id', id).select(...).single()` */
  function UpdateItem(t: Tables, wishlistId: nat, id: nat, fields: Fields): Write<Product> {
    var m := Matching(t.items, wishlistId, id);
    if |m| == 1 then
      Write(t.(items := UpdateMatching(t.items, wishlistId, id, fields)), Ok(Detail(m[0].(fields := fields))))
    else Write(t, Err(NotSingle))
  }

  lemma {:induction false} OutsideUpdate(items: seq<ItemRow>, wishlistId: nat, id: nat, fields: Fields)
    ensures Outside(UpdateMatching(items, wishlistId, id, fields), wishlistId) == Outside(items, wishlistId)
    decreases |items|
  {
    if |items| > 0 {
      var u := UpdateMatching(items, wishlistId, id, fields);
      OutsideUpdate(items[1..], wishlistId, id, fields);
      assert u[1..] == UpdateMatching(items[1..], wishlistId, id, fields);
    }
  }

  /**
   * Updating an item succeeds only when the wishlist holds an item with the
   * identifier; it then sets that item's fields. An identifier of another
   * wishlist's item fails and changes nothing, and the items of other
   * wishlists never change.
   */
  lemma UpdateItemMeaning(t: Tables, wishlistId: nat, id: nat, fields: Fields)
    requires Valid(t)
    ensures Valid(UpdateItem(t, wishlistId, id, fields).tables)
    ensures Outside(UpdateItem(t, wishlistId, id, fields).tables.items, wishlistId) == Outside(t.items, wishlistId)
    ensures UpdateItem(t, wishlistId, id, fields).tables.wishlists == t.wishlists
    ensures UpdateItem(t, wishlistId, id, fields).result.Ok? <==>
      exists r :: r in t.items && r.wishlistId == wishlistId && r.id == id
    ensures UpdateItem(t, wishlistId, id, fields).result.Err? ==> UpdateItem(t, wishlistId, id, fields).tables == t
    ensures UpdateItem(t, wishlistId, id, fields).result.Ok? ==>
      UpdateItem(t, wishlistId, id, fields).result.value == Product(id, fields, None)
  {
    MatchingMeaning(t.items, wishlistId, id);
    OutsideUpdate(t.items, wishlistId, id, fields);
    SingleMatch(t, wishlistId, id);
    var u := UpdateMatching(t.items, wishlistId, id, fields);
    assert forall i :: 0 <= i < |u| ==> u[i].id == t.items[i].id && u[i].createdAt == t.items[i].createdAt;
  }

  /** The item identifiers are unique, so at most one row matches. */
  lemma SingleMatch(t: Tables, wishlistId: nat, id: nat)
    requires Valid(t)
    ensures (exists r :: r in t.items && r.wishlistId == wishlistId && r.id == id) <==>
      |Matching(t.items, wishlistId, id)| == 1
  {
    MatchingMeaning(t.items, wishlistId, id);
    AtMostOneMatch(t.items, wishlistId, id);
    var m := Matching(t.items, wishlistId, id);
    if |m| == 1 {
      assert m[0] in m;
    }
  }

  lemma {:induction false} AtMostOneMatch(items: seq<ItemRow>, wishlistId: nat, id: nat)
    requires forall i, j :: 0 <= i < j < |items| ==> items[i].id != items[j].id
    ensures |Matching(items, wishlistId, id)| <= 1
    decreases |items|
  {
    if |items| > 0 {
      var tail := items[1..];
      assert forall i, j :: 0 <= i < j < |tail| ==> tail[i].id != tail[j].id by {
        forall i, j | 0 <= i < j < |tail| ensures tail[i].id != tail[j].id {
          assert tail[i] == items[i + 1] && tail[j] == items[j + 1];
        }
      }
      AtMostOneMatch(tail, wishlistId, id);
      if items[0].wishlistId == wishlistId && items[0].id == id {
        forall k | 0 <= k < |tail| ensures tail[k].id != id {
          assert tail[k] == items[k + 1];
        }
        NoMatching(tail, wishlistId, id);
      }
    }
  }

  lemma {:induction false} NoMatching(items: seq<ItemRow>, wishlistId: nat, id: nat)
    requires forall k :: 0 <= k < |items| ==> items[k].id != id
    ensures Matching(items, wishlistId, id) == []
    decreases |items|
  {
    if |items| > 0 {
      NoMatching(items[1..], wishlistId, id);
    }
  }

  /**
   * Reading an item succeeds exactly when the wishlist holds an item with
   * the identifier, and returns that item; an identifier of another
   * wishlist's item is not found.
   */
  lemma SelectItemMeaning(t: Tables, wishlistId: nat, id: nat)
    requires Valid(t)
    ensures SelectItem(t, wishlistId, id).Ok? <==> exists r :: r in t.items && r.wishlistId == wishlistId && r.id == id
    ensures SelectItem(t, wishlistId, id).Ok? ==>
      exists r :: r in t.items && r.wishlistId == wishlistId && r.id == id &&
        SelectItem(t, wishlistId, id).value == Detail(r)
  {
    SingleMatch(t, wishlistId, id);
    MatchingMeaning(t.items, wishlistId, id);
    var m := Matching(t.items, wishlistId, id);
    if |m| == 1 {
      assert m[0] in m;
      assert SelectItem(t, wishlistId, id).value == Detail(m[0]);
    }
  }

  /** The rows that are not this wishlist's item with this identifier. */
  function Unmatched(items: seq<ItemRow>, wishlistId: nat, id: nat): seq<ItemRow>
    decreases |items|
  {
    if |items| == 0 then []
    else
      (if items[0].wishlistId == wishlistId && items[0].id == id then [] else [items[0]]) +
      Unmatched(items[1..], wishlistId, id)
  }

  /** `delete().eq('wishlist_id', w).eq('id', id)` */
  function DeleteItems(t: Tables, wishlistId: nat, id: nat): Tables {
    t.(items := Unmatched(t.items, wishlistId, id))
  }

  lemma {:induction false} UnmatchedMeaning(items: seq<ItemRow>, wishlistId: nat, id: nat)
    ensures forall r :: r in Unmatched(items, wishlistId, id) <==>
      r in items && !(r.wishlistId == wishlistId && r.id == id)
    ensures Outside(Unmatched(items, wishlistId, id), wishlistId) == Outside(items, wishlistId)
    decreases |items|
  {
    if |items| > 0 {
      UnmatchedMeaning(items[1..], wishlistId, id);
      assert items == [items[0]] + items[1..];
      var rest := Unmatched(items[1..], wishlistId, id);
      if !(items[0].wishlistId == wishlistId && items[0].id == id) {
        assert ([items[0]] + rest)[1..] == rest;
        assert Outside([items[0]] + rest, wishlistId) ==
          (if items[0].wishlistId != wishlistId then [items[0]] else []) + Outside(rest, wishlistId);
      } else {
        assert Unmatched(items, wishlistId, id) == rest;
      }
    }
  }

  /** A subsequence of a list in creation order is in creation order. */
  lemma UnmatchedOrdered(items: seq<ItemRow>, wishlistId: nat, id: nat)
    requires InCreationOrder(items)
    ensures InCreationOrder(Unmatched(items, wishlistId, id))
  {
    UnmatchedOrderedFrom(items, wishlistId, id);
  }

  lemma {:induction false} UnmatchedOrderedFrom(items: seq<ItemRow>, wishlistId: nat, id: nat)
    requires InCreationOrder(items)
    ensures InCreationOrder(Unmatched(items, wishlistId, id))
    ensures forall r :: r in Unmatched(items, wishlistId, id) ==> r in items
    decreases |items|
  {
    if |items| > 0 {
      var tail := items[1..];
      assert InCreationOrder(tail) by {
        forall i, j | 0 <= i < j < |tail| ensures tail[i].createdAt < tail[j].createdAt && tail[i].id != tail[j].id {
          assert tail[i] == items[i + 1] && tail[j] == items[j + 1];
        }
      }
      UnmatchedOrderedFrom(tail, wishlistId, id);
      var rest := Unmatched(tail, wishlistId, id);
      var u := Unmatched(items, wishlistId, id);
      forall r | r in u ensures r in items {
        if r in rest { assert r in tail; }
      }
      if !(items[0].wishlistId == wishlistId && items[0].id == id) {
        assert u == [items[0]] + rest;
        forall i, j | 0 <= i < j < |u| ensures u[i].createdAt < u[j].createdAt && u[i].id != u[j].id {
          if i == 0 {
            assert u[j] == rest[j - 1] && u[j] in rest && u[j] in tail;
            var k :| 0 <= k < |tail| && tail[k] == u[j];
            assert tail[k] == items[k + 1];
          } else {
            assert u[i] == rest[i - 1] && u[j] == rest[j - 1];
          }
        }
      } else {
        assert u == rest;
      }
    }
  }

  /**
   * Deleting removes exactly this wishlist's item with the identifier; the
   * other rows keep their order, the items of other wishlists do not
   * change, and the tables stay valid.
   */
  lemma DeleteItemsMeaning(t: Tables, wishlistId: nat, id: nat)
    requires Valid(t)
    ensures Valid(DeleteItems(t, wishlistId, id))
    ensures DeleteItems(t, wishlistId, id).wishlists == t.wishlists
    ensures Outside(DeleteItems(t, wishlistId, id).items, wishlistId) == Outside(t.items, wishlistId)
    ensures forall r :: r in DeleteItems(t, wishlistId, id).items <==>
      r in t.items && !(r.wishlistId == wishlistId && r.id == id)
  {
    UnmatchedMeaning(t.items, wishlistId, id);
    UnmatchedOrdered(t.items, wishlistId, id);
    var u := Unmatched(t.items, wishlistId, id);
    forall i | 0 <= i < |u| ensures u[i].id < t.nextId && u[i].createdAt < t.clock {
      assert u[i] in u;
      var k :| 0 <= k < |t.items| && t.items[k] == u[i];
    }
  }

  /** The tables behind the store. */
  class Database {
    var tables: Tables
    /** Whether the database can be reached; every query fails while it cannot. */
    var online: bool

    constructor(online: bool)
      ensures tables == EmptyTables && this.online == online
    {
      tables := EmptyTables;
      this.online := online;
    }

    method SelectOwned(owner: string) returns (r: Result<seq<WishlistRow>>)
      ensures r == (if online then Ok(OwnedBy(tables.wishlists, owner)) else Err(Unreachable))
    {
      if !online { return Err(Unreachable); }
      r := Ok(OwnedBy(tables.wishlists, owner));
    }

    method InsertWishlistRow(owner: string, slug: string) returns (r: Result<WishlistRow>)
      modifies this
      ensures online == old(online)
      ensures !online ==> r == Err(Unreachable) && tables == old(tables)
      ensures online ==>
        r == InsertWishlist(old(tables), owner, slug).result && tables == InsertWishlist(old(tables), owner, slug).tables
    {
      if !online { return Err(Unreachable); }
      var w := InsertWishlist(tables, owner, slug);
      tables := w.tables;
      r := w.result;
    }

    method UpdateShareSlug(id: nat, slug: string) returns (r: Result<WishlistRow>)
      modifies this
      ensures online == old(online)
      ensures !online ==> r == Err(Unreachable) && tables == old(tables)
      ensures online ==> r == UpdateSlug(old(tables), id, slug).result && tables == UpdateSlug(old(tables), id, slug).tables
    {
      if !online { return Err(Unreachable); }
      var w := UpdateSlug(tables, id, slug);
      tables := w.tables;
      r := w.result;
    }

    method SelectItems(wishlistId: nat) returns (r: Result<seq<Product>>)
      ensures r == (if online then Ok(Newest(tables.items, wishlistId)) else Err(Unreachable))
    {
      if !online { return Err(Unreachable); }
      r := Ok(Newest(tables.items, wishlistId));
    }

    method SelectOneItem(wishlistId: nat, id: nat) returns (r: Result<Product>)
      ensures r == (if online then SelectItem(tables, wishlistId, id) else Err(Unreachable))
    {
      if !online { return Err(Unreachable); }
      r := SelectItem(tables, wishlistId, id);
    }

    method InsertItemRow(wishlistId: nat, fields: Fields) returns (r: Result<()>)
      modifies this
      ensures online == old(online)
      ensures !online ==> r == Err(Unreachable) && tables == old(tables)
      ensures online ==> r == Ok(()) && tables == InsertItem(old(tables), wishlistId, fields)
    {
      if !online { return Err(Unreachable); }
      tables := InsertItem(tables, wishlistId, fields);
      r := Ok(());
    }

    method UpdateItemRow(wishlistId: nat, id: nat, fields: Fields) returns (r: Result<Product>)
      modifies this
      ensures online == old(online)
      ensures !online ==> r == Err(Unreachable) && tables == old(tables)
      ensures online ==>
        r == UpdateItem(old(tables), wishlistId, id, fields).result &&
        tables == UpdateItem(old(tables), wishlistId, id, fields).tables
    {
      if !online { return Err(Unreachable); }
      var w := UpdateItem(tables, wishlistId, id, fields);
      tables := w.tables;
      r := w.result;
    }

    method DeleteItemRows(wishlistId: nat, id: nat) returns (r: Result<()>)
      modifies this
      ensures online == old(online)
      ensures !online ==> r == Err(Unreachable) && tables == old(tables)
      ensures online ==> r == Ok(()) && tables == DeleteItems(old(tables), wishlistId, id)
    {
      if !online { return Err(Unreachable); }
      tables := DeleteItems(tables, wishlistId, id);
      r := Ok(());
    }
  }
}
