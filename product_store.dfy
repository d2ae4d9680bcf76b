/**
 * The wishlist store of the front end: the signed-in user's wishlist, its
 * items, the item being edited, the form, and the public share link.
 *
 * Each action of the store is specified by a step function from the state
 * before it and the tables before it to the state and tables after it; the
 * `ProductStore` class performs the same steps on its fields and on the
 * database, one query at a time, and is proved to end where its step
 * function says.
 *
 * The signed-in user (`None` when nobody is signed in), the slugs that the
 * random slug generator would produce, and the page origin (`None` where
 * there is no window) are parameters.
 */
module WishlistStore {
  import opened JsValue
  import opened ProductTables

  datatype Form = Form(name: string, price: string, image: string, link: string)

  const EmptyForm := Form("", "", "", "")

  datatype Wishlist = Wishlist(id: nat, shareSlug: string)

  datatype State = State(
    products: seq<Product>,
    wishlist: Option<Wishlist>,
    loading: bool,
    error: Option<string>,
    currentProduct: Option<Product>,
    shareUrl: Option<string>,
    formData: Form)

  const InitialState := State([], None, false, None, None, None, EmptyForm)

  const LoadFailedMessage := "Failed to load wishlist"
  const DetailsFailedMessage := "Unable to load item details"

  // share links

  /** The public link of a slug: empty where there is no window. */
  function BuildShareUrl(origin: Option<string>, slug: string): string {
    if origin.None? then "" else origin.value + "/share/" + slug
  }

  /**
   * A share link is the origin, `/share/` and the slug, so on one origin
   * different slugs give different links: a regenerated slug retires the
   * old link.
   */
  lemma ShareUrlNamesSlug(origin: Option<string>, a: string, b: string)
    ensures origin.None? ==> BuildShareUrl(origin, a) == ""
    ensures origin.Some? ==>
      var prefix := origin.value + "/share/";
      |BuildShareUrl(origin, a)| == |prefix| + |a| &&
      BuildShareUrl(origin, a)[..|prefix|] == prefix && BuildShareUrl(origin, a)[|prefix|..] == a
    ensures origin.Some? && BuildShareUrl(origin, a) == BuildShareUrl(origin, b) ==> a == b
  {
    if origin.Some? {
      var prefix := origin.value + "/share/";
      assert BuildShareUrl(origin, a) == prefix + a;
      assert (prefix + a)[|prefix|..] == a;
      assert (prefix + b)[|prefix|..] == b;
    }
  }

  // the form and the item columns

  /** The columns written from the form: an empty link is stored as null. */
  function FieldsOf(form: Form): Fields {
    Fields(Some(form.name), Some(form.price), Some(form.image), if form.link == "" then None else Some(form.link))
  }

  function OrEmpty(v: Option<string>): string {
    if v.Some? then v.value else ""
  }

  /** The form filled from an item's columns: a null column becomes empty. */
  function FormOf(fields: Fields): Form {
    Form(OrEmpty(fields.name), OrEmpty(fields.price), OrEmpty(fields.image), OrEmpty(fields.link))
  }

  /**
   * Reading back what the form wrote gives the form again; the link is null
   * exactly when the form's link was empty.
   */
  lemma FormRoundTrip(form: Form)
    ensures FormOf(FieldsOf(form)) == form
    ensures FieldsOf(form).link.None? <==> form.link == ""
  {
  }

  // the listing in the store

  /** `products.filter(p => p.id !== id)` */
  function RemoveId(products: seq<Product>, id: nat): seq<Product>
    decreases |products|
  {
    if |products| == 0 then []
    else
      (if products[0].id != id then [products[0]] else []) + RemoveId(products[1..], id)
  }

  /** Removing keeps exactly the products with another identifier. */
  lemma {:induction false} RemoveIdMeaning(products: seq<Product>, id: nat)
    ensures forall p :: p in RemoveId(products, id) <==> p in products && p.id != id
    ensures (forall p :: p in products ==> p.id != id) ==> RemoveId(products, id) == products
    decreases |products|
  {
    if |products| > 0 {
      RemoveIdMeaning(products[1..], id);
      assert products == [products[0]] + products[1..];
    }
  }

  /** Removing works piece by piece, so the kept products keep their order. */
  lemma {:induction false} RemoveIdAppend(a: seq<Product>, b: seq<Product>, id: nat)
    ensures RemoveId(a + b, id) == RemoveId(a, id) + RemoveId(b, id)
    decreases |a|
  {
    if |a| == 0 {
      assert a + b == b;
    } else {
      assert (a + b)[1..] == a[1..] + b;
      RemoveIdAppend(a[1..], b, id);
    }
  }

  // ensureWishlist

  datatype Ensured = Found(wishlist: Option<Wishlist>) | Threw(error: DbError)

  datatype EnsureStep = EnsureStep(state: State, tables: Tables, outcome: Ensured)

  datatype Step = Step(state: State, tables: Tables)

  /** Keep a wishlist row as the store's wishlist, with its share link. */
  function Adopt(s: State, t: Tables, origin: Option<string>, row: WishlistRow): EnsureStep {
    var w := Wishlist(row.id, row.shareSlug);
    EnsureStep(s.(wishlist := Some(w), shareUrl := Some(BuildShareUrl(origin, row.shareSlug))), t, Found(Some(w)))
  }

  /** `ensureWishlist()`, creating a wishlist with `slug` when the user has none. */
  function EnsureWishlistStep(s: State, t: Tables, online: bool, origin: Option<string>, user: Option<string>, slug: string): EnsureStep {
    if user.None? then
      EnsureStep(s.(wishlist := None, shareUrl := None, products := [], currentProduct := None), t, Found(None))
    else if s.wishlist.Some? then EnsureStep(s, t, Found(s.wishlist))
    else if !online then EnsureStep(s, t, Threw(Unreachable))
    else
      var rows := OwnedBy(t.wishlists, user.value);
      if |rows| > 0 then Adopt(s, t, origin, rows[0])
      else
        var w := InsertWishlist(t, user.value, slug);
        if w.result.Err? then EnsureStep(s, w.tables, Threw(w.result.error))
        else Adopt(s, w.tables, origin, w.result.value)
  }

  /** The actions that need a wishlist give up when there is none. */
  predicate NoWishlist(outcome: Ensured) {
    outcome.Threw? || outcome.wishlist.None?
  }

  predicate HasRow(rows: seq<WishlistRow>, w: Wishlist) {
    exists i :: 0 <= i < |rows| && rows[i].id == w.id && rows[i].shareSlug == w.shareSlug
  }

  /**
   * The invariant of the store and its tables: the tables are valid, and a
   * wishlist in the store is a row of the table, with the share link built
   * from its slug.
   */
  predicate Consistent(s: State, t: Tables, origin: Option<string>) {
    Valid(t) &&
    (s.wishlist.Some? ==>
      s.shareUrl == Some(BuildShareUrl(origin, s.wishlist.value.shareSlug)) && HasRow(t.wishlists, s.wishlist.value))
  }

  /** Without a signed-in user the store forgets the wishlist and its items. */
  lemma EnsureWithoutUser(s: State, t: Tables, online: bool, origin: Option<string>, slug: string)
    ensures var e := EnsureWishlistStep(s, t, online, origin, None, slug);
      e.outcome == Found(None) && e.tables == t &&
      e.state == s.(wishlist := None, shareUrl := None, products := [], currentProduct := None)
  {
  }

  /** A wishlist already in the store is returned without a query. */
  lemma EnsureCached(s: State, t: Tables, online: bool, origin: Option<string>, user: string, slug: string)
    requires s.wishlist.Some?
    ensures EnsureWishlistStep(s, t, online, origin, Some(user), slug) == EnsureStep(s, t, Found(s.wishlist))
  {
  }

  /**
   * With a user and no wishlist in the store, the store takes the user's
   * first wishlist row, or creates one with the slug when the user has none;
   * a failed query changes nothing. Either way the items are untouched and
   * the store stays consistent.
   */
  lemma EnsureLookup(s: State, t: Tables, online: bool, origin: Option<string>, user: string, slug: string)
    requires Valid(t) && s.wishlist.None?
    ensures var e := EnsureWishlistStep(s, t, online, origin, Some(user), slug);
      Consistent(e.state, e.tables, origin) && e.tables.items == t.items &&
      (e.outcome.Threw? ==> e.state == s && e.tables == t) &&
      (e.outcome.Threw? <==> !online || (|OwnedBy(t.wishlists, user)| == 0 && SlugTaken(t.wishlists, slug))) &&
      (e.outcome.Found? ==>
        e.outcome.wishlist.Some? && e.state.wishlist == e.outcome.wishlist &&
        e.state == s.(wishlist := e.outcome.wishlist, shareUrl := Some(BuildShareUrl(origin, e.outcome.wishlist.value.shareSlug))) &&
        exists i :: 0 <= i < |e.tables.wishlists| &&
          e.tables.wishlists[i] == WishlistRow(e.outcome.wishlist.value.id, user, e.outcome.wishlist.value.shareSlug)) &&
      (online && |OwnedBy(t.wishlists, user)| > 0 ==>
        e.tables == t && e.outcome.wishlist.value.id == t.wishlists[FirstOwned(t.wishlists, user)].id) &&
      (online && |OwnedBy(t.wishlists, user)| == 0 && !SlugTaken(t.wishlists, slug) ==>
        e.tables.wishlists == t.wishlists + [WishlistRow(e.outcome.wishlist.value.id, user, slug)])
  {
    if online {
      var rows := OwnedBy(t.wishlists, user);
      OwnedByMeaning(t.wishlists, user);
      if |rows| > 0 {
        assert rows[0] in rows;
        var i := FirstOwned(t.wishlists, user);
        assert t.wishlists[i] == rows[0];
      } else {
        InsertWishlistMeaning(t, user, slug);
        var w := InsertWishlist(t, user, slug);
        if w.result.Ok? {
          assert w.tables.wishlists[|t.wishlists|] == w.result.value;
        }
      }
    }
  }

  /**
   * What the rest of an action may rely on once `ensureWishlist` has
   * settled: the store is consistent, the items are as they were, the
   * loading flag, the error and the form are untouched, a found wishlist is
   * the store's wishlist with the list unchanged, and a failure changed
   * nothing.
   */
  predicate Settled(e: EnsureStep, s: State, t: Tables, origin: Option<string>) {
    Consistent(e.state, e.tables, origin) && e.tables.items == t.items &&
    e.state.loading == s.loading && e.state.error == s.error && e.state.formData == s.formData &&
    (e.outcome.Found? && e.outcome.wishlist.Some? ==>
      e.state.wishlist == e.outcome.wishlist && e.state.products == s.products) &&
    (e.outcome.Threw? ==> e.state == s && e.tables == t)
  }

  /** Every outcome of `ensureWishlist` keeps the store consistent and the items as they were. */
  lemma EnsureKeepsConsistent(s: State, t: Tables, online: bool, origin: Option<string>, user: Option<string>, slug: string)
    requires Consistent(s, t, origin)
    ensures Settled(EnsureWishlistStep(s, t, online, origin, user, slug), s, t, origin)
    ensures user.None? <==> EnsureWishlistStep(s, t, online, origin, user, slug).outcome == Found(None)
    ensures user.Some? && s.wishlist.Some? ==> EnsureWishlistStep(s, t, online, origin, user, slug).outcome == Found(s.wishlist)
  {
    if user.Some? && s.wishlist.None? {
      EnsureLookup(s, t, online, origin, user.value, slug);
    }
  }

  /**
   * A second call finds the wishlist the first one found: the same one,
   * with no query and no change.
   */
  lemma EnsureTwice(s: State, t: Tables, online: bool, origin: Option<string>, user: string, slug: string, slug2: string)
    requires Consistent(s, t, origin)
    requires EnsureWishlistStep(s, t, online, origin, Some(user), slug).outcome.Found?
    ensures var e := EnsureWishlistStep(s, t, online, origin, Some(user), slug);
      var e2 := EnsureWishlistStep(e.state, e.tables, online, origin, Some(user), slug2);
      e2.outcome == e.outcome && e2.state == e.state && e2.tables == e.tables
  {
    if s.wishlist.None? {
      EnsureLookup(s, t, online, origin, user, slug);
    }
  }

  // fetchProducts

  /** `fetchProducts()` */
  function FetchProductsStep(s: State, t: Tables, online: bool, origin: Option<string>, user: Option<string>, slug: string): Step {
    ListAfter(EnsureWishlistStep(s.(loading := true, error := None), t, online, origin, user, slug), online)
  }

  /** The rest of `fetchProducts` once `ensureWishlist` has settled. */
  function ListAfter(e: EnsureStep, online: bool): Step {
    if e.outcome.Threw? then Step(e.state.(loading := false, error := Some(LoadFailedMessage)), e.tables)
    else if e.outcome.wishlist.None? then Step(e.state.(products := [], loading := false), e.tables)
    else if !online then Step(e.state.(loading := false, error := Some(LoadFailedMessage)), e.tables)
    else
      Step(e.state.(products := Newest(e.tables.items, e.outcome.wishlist.value.id), loading := false, error := None), e.tables)
  }

  lemma ListAfterMeaning(e: EnsureStep, s: State, t: Tables, online: bool, origin: Option<string>)
    requires Settled(e, s, t, origin)
    ensures var f := ListAfter(e, online);
      Consistent(f.state, f.tables, origin) && f.tables.items == t.items && !f.state.loading &&
      f.state.formData == s.formData &&
      (e.outcome == Found(None) ==> f.state.products == [] && f.state.error == e.state.error) &&
      (f.state.error.None? || f.state.error == Some(LoadFailedMessage) || f.state.error == e.state.error) &&
      (f.state.error == Some(LoadFailedMessage) && !e.outcome.Found? ==> f.state.products == s.products) &&
      (e.outcome.Found? && e.outcome.wishlist.Some? && online ==>
        f.state.error.None? && f.state.wishlist == e.outcome.wishlist &&
        NewestFirst(f.state.products) &&
        forall p :: p in f.state.products <==>
          exists r :: r in t.items && r.wishlistId == e.outcome.wishlist.value.id && p == Listed(r)) &&
      (e.outcome.Found? && e.outcome.wishlist.Some? && !online ==>
        f.state.error == Some(LoadFailedMessage) && f.state.products == s.products)
  {
    if e.outcome.Found? && e.outcome.wishlist.Some? && online {
      NewestMeaning(e.tables, e.outcome.wishlist.value.id);
    }
  }

  /**
   * Loading the list ends idle and keeps the store consistent. The items
   * are never written. Without a user the list is empty. With a wishlist
   * the list holds exactly that wishlist's items, newest first. A failure
   * leaves the old list and sets the error message.
   */
  lemma FetchProductsMeaning(s: State, t: Tables, online: bool, origin: Option<string>, user: Option<string>, slug: string)
    requires Consistent(s, t, origin)
    ensures var f := FetchProductsStep(s, t, online, origin, user, slug);
      Consistent(f.state, f.tables, origin) && f.tables.items == t.items && !f.state.loading &&
      f.state.formData == s.formData &&
      (user.None? ==> f.state.products == [] && f.state.error == None && f.state.wishlist == None) &&
      (f.state.error.Some? ==> f.state.error == Some(LoadFailedMessage) && f.state.products == s.products) &&
      (user.Some? && f.state.error.None? ==>
        f.state.wishlist.Some? &&
        NewestFirst(f.state.products) &&
        forall p :: p in f.state.products <==>
          exists r :: r in t.items && r.wishlistId == f.state.wishlist.value.id && p == Listed(r)) &&
      (user.Some? && s.wishlist.Some? && online ==> f.state.error.None? && f.state.wishlist == s.wishlist)
  {
    var s1 := s.(loading := true, error := None);
    EnsureKeepsConsistent(s1, t, online, origin, user, slug);
    ListAfterMeaning(EnsureWishlistStep(s1, t, online, origin, user, slug), s1, t, online, origin);
  }

  // addProduct

  /** `addProduct()` */
  function AddProductStep(s: State, t: Tables, online: bool, origin: Option<string>, user: Option<string>, slug: string): Step {
    AddAfter(EnsureWishlistStep(s.(loading := true), t, online, origin, user, slug), online, origin, user, slug)
  }

  /** The rest of `addProduct` once `ensureWishlist` has settled. */
  function AddAfter(e: EnsureStep, online: bool, origin: Option<string>, user: Option<string>, slug: string): Step {
    if NoWishlist(e.outcome) || !online then Step(e.state.(loading := false), e.tables)
    else
      var t2 := InsertItem(e.tables, e.outcome.wishlist.value.id, FieldsOf(e.state.formData));
      var f := FetchProductsStep(e.state, t2, online, origin, user, slug);
      Step(f.state.(formData := EmptyForm, loading := false), f.tables)
  }

  lemma AddAfterKeepsConsistent(e: EnsureStep, s: State, t: Tables, online: bool, origin: Option<string>, user: Option<string>, slug: string)
    requires Settled(e, s, t, origin) && (!NoWishlist(e.outcome) ==> user.Some?)
    ensures var a := AddAfter(e, online, origin, user, slug);
      Consistent(a.state, a.tables, origin) && !a.state.loading &&
      (a.state.wishlist.None? ==> a.tables.items == t.items) &&
      (a.state.wishlist.Some? ==> Outside(a.tables.items, a.state.wishlist.value.id) == Outside(t.items, a.state.wishlist.value.id)) &&
      (a.tables.items == t.items || a.state.formData == EmptyForm) &&
      (a.tables.items == t.items ==> a.state.formData == s.formData)
  {
    if !(NoWishlist(e.outcome) || !online) {
      var w := e.outcome.wishlist.value;
      var t2 := InsertItem(e.tables, w.id, FieldsOf(e.state.formData));
      InsertItemMeaning(e.tables, w.id, FieldsOf(e.state.formData));
      assert Consistent(e.state, t2, origin);
      FetchProductsMeaning(e.state, t2, online, origin, user, slug);
      assert |t2.items| == |t.items| + 1;
    }
  }

  /**
   * Adding an item ends idle and keeps the store consistent. It writes no
   * item of another wishlist. When it fails, the items and the form are
   * unchanged.
   */
  lemma AddProductKeepsConsistent(s: State, t: Tables, online: bool, origin: Option<string>, user: Option<string>, slug: string)
    requires Consistent(s, t, origin)
    ensures var a := AddProductStep(s, t, online, origin, user, slug);
      Consistent(a.state, a.tables, origin) && !a.state.loading &&
      (a.state.wishlist.None? ==> a.tables.items == t.items) &&
      (a.state.wishlist.Some? ==> Outside(a.tables.items, a.state.wishlist.value.id) == Outside(t.items, a.state.wishlist.value.id)) &&
      (a.tables.items == t.items || a.state.formData == EmptyForm) &&
      (a.tables.items == t.items ==> a.state.formData == s.formData)
  {
    var s1 := s.(loading := true);
    EnsureKeepsConsistent(s1, t, online, origin, user, slug);
    AddAfterKeepsConsistent(EnsureWishlistStep(s1, t, online, origin, user, slug), s1, t, online, origin, user, slug);
  }

  /**
   * With a wishlist in the store and the database reachable, adding an item
   * stores the form as one new row of that wishlist. The list then starts
   * with that row, whose columns read back as the form. The form is then
   * cleared.
   */
  lemma AddProductMeaning(s: State, t: Tables, origin: Option<string>, user: string, slug: string)
    requires Consistent(s, t, origin) && s.wishlist.Some?
    ensures var a := AddProductStep(s, t, true, origin, Some(user), slug);
      a.tables.items == t.items + [ItemRow(t.nextId, s.wishlist.value.id, FieldsOf(s.formData), t.clock)] &&
      a.state.products == Newest(a.tables.items, s.wishlist.value.id) &&
      NewestFirst(a.state.products) &&
      a.state.products[0] == Product(t.nextId, FieldsOf(s.formData), Some(t.clock)) &&
      FormOf(a.state.products[0].fields) == s.formData &&
      a.state.formData == EmptyForm && a.state.error == None && !a.state.loading
  {
    var w := s.wishlist.value;
    var t2 := InsertItem(t, w.id, FieldsOf(s.formData));
    InsertItemMeaning(t, w.id, FieldsOf(s.formData));
    NewestMeaning(t2, w.id);
    FormRoundTrip(s.formData);
  }

  // fetchProduct

  /** `fetchProduct(id)` */
  function FetchProductStep(s: State, t: Tables, online: bool, origin: Option<string>, user: Option<string>, slug: string, id: nat): Step {
    DetailAfter(EnsureWishlistStep(s.(loading := true), t, online, origin, user, slug), online, id)
  }

  /** The rest of `fetchProduct` once `ensureWishlist` has settled. */
  function DetailAfter(e: EnsureStep, online: bool, id: nat): Step {
    var failed := e.state.(loading := false, error := Some(DetailsFailedMessage), currentProduct := None);
    if NoWishlist(e.outcome) || !online then Step(failed, e.tables)
    else
      var r := SelectItem(e.tables, e.outcome.wishlist.value.id, id);
      if r.Err? then Step(failed, e.tables)
      else
        Step(e.state.(currentProduct := Some(r.value), formData := FormOf(r.value.fields), loading := false, error := None), e.tables)
  }

  /**
   * Opening an item ends idle, never writes an item and keeps the store
   * consistent. With a wishlist in the store and the database reachable it
   * succeeds exactly when the wishlist holds an item with the identifier;
   * the form then shows that item's columns, null ones as empty strings.
   * When it fails the current item is cleared and the error message set.
   */
  lemma FetchProductMeaning(s: State, t: Tables, online: bool, origin: Option<string>, user: Option<string>, slug: string, id: nat)
    requires Consistent(s, t, origin)
    ensures var f := FetchProductStep(s, t, online, origin, user, slug, id);
      Consistent(f.state, f.tables, origin) && f.tables.items == t.items && !f.state.loading &&
      (f.state.error.None? || (f.state.error == Some(DetailsFailedMessage) && f.state.currentProduct.None?)) &&
      (f.state.error.None? ==>
        f.state.wishlist.Some? &&
        exists r :: r in t.items && r.wishlistId == f.state.wishlist.value.id && r.id == id &&
          f.state.currentProduct == Some(Detail(r)) && f.state.formData == FormOf(r.fields)) &&
      (user.Some? && s.wishlist.Some? && online ==>
        (f.state.error.None? <==> exists r :: r in t.items && r.wishlistId == s.wishlist.value.id && r.id == id))
  {
    var s1 := s.(loading := true);
    EnsureKeepsConsistent(s1, t, online, origin, user, slug);
    var e := EnsureWishlistStep(s1, t, online, origin, user, slug);
    if !(NoWishlist(e.outcome) || !online) {
      SelectItemMeaning(e.tables, e.outcome.wishlist.value.id, id);
    }
  }

  // updateProduct

  /** `updateProduct(id)` */
  function UpdateProductStep(s: State, t: Tables, online: bool, origin: Option<string>, user: Option<string>, slug: string, id: nat): Step {
    SaveAfter(EnsureWishlistStep(s.(loading := true), t, online, origin, user, slug), online, origin, user, slug, id)
  }

  /** The rest of `updateProduct` once `ensureWishlist` has settled. */
  function SaveAfter(e: EnsureStep, online: bool, origin: Option<string>, user: Option<string>, slug: string, id: nat): Step {
    if NoWishlist(e.outcome) || !online then Step(e.state.(loading := false), e.tables)
    else
      var u := UpdateItem(e.tables, e.outcome.wishlist.value.id, id, FieldsOf(e.state.formData));
      if u.result.Err? then Step(e.state.(loading := false), u.tables)
      else
        var s2 := e.state.(currentProduct := Some(u.result.value), formData := FormOf(u.result.value.fields), loading := false);
        FetchProductsStep(s2, u.tables, online, origin, user, slug)
  }

  lemma SaveAfterKeepsConsistent(e: EnsureStep, s: State, t: Tables, online: bool, origin: Option<string>, user: Option<string>, slug: string, id: nat)
    requires Settled(e, s, t, origin) && (!NoWishlist(e.outcome) ==> user.Some?)
    ensures var u := SaveAfter(e, online, origin, user, slug, id);
      Consistent(u.state, u.tables, origin) && !u.state.loading &&
      (u.state.wishlist.None? ==> u.tables.items == t.items) &&
      (u.state.wishlist.Some? ==> Outside(u.tables.items, u.state.wishlist.value.id) == Outside(t.items, u.state.wishlist.value.id))
  {
    if !(NoWishlist(e.outcome) || !online) {
      var w := e.outcome.wishlist.value;
      UpdateItemMeaning(e.tables, w.id, id, FieldsOf(e.state.formData));
      var u := UpdateItem(e.tables, w.id, id, FieldsOf(e.state.formData));
      if u.result.Ok? {
        var s2 := e.state.(currentProduct := Some(u.result.value), formData := FormOf(u.result.value.fields), loading := false);
        assert Consistent(s2, u.tables, origin);
        FetchProductsMeaning(s2, u.tables, online, origin, user, slug);
      }
    }
  }

  /**
   * Saving an item ends idle and keeps the store consistent. It writes no
   * item of another wishlist.
   */
  lemma UpdateProductKeepsConsistent(s: State, t: Tables, online: bool, origin: Option<string>, user: Option<string>, slug: string, id: nat)
    requires Consistent(s, t, origin)
    ensures var u := UpdateProductStep(s, t, online, origin, user, slug, id);
      Consistent(u.state, u.tables, origin) && !u.state.loading &&
      (u.state.wishlist.None? ==> u.tables.items == t.items) &&
      (u.state.wishlist.Some? ==> Outside(u.tables.items, u.state.wishlist.value.id) == Outside(t.items, u.state.wishlist.value.id))
  {
    var s1 := s.(loading := true);
    EnsureKeepsConsistent(s1, t, online, origin, user, slug);
    SaveAfterKeepsConsistent(EnsureWishlistStep(s1, t, online, origin, user, slug), s1, t, online, origin, user, slug, id);
  }

  /**
   * With a wishlist in the store and the database reachable, saving
   * succeeds exactly when the wishlist holds an item with the identifier.
   * The item then holds the form's columns, and the form reads back
   * unchanged. A failed save changes no item.
   */
  lemma UpdateProductMeaning(s: State, t: Tables, origin: Option<string>, user: string, slug: string, id: nat)
    requires Consistent(s, t, origin) && s.wishlist.Some?
    ensures var u := UpdateProductStep(s, t, true, origin, Some(user), slug, id);
      var found := exists r :: r in t.items && r.wishlistId == s.wishlist.value.id && r.id == id;
      (found ==>
        u.tables.items == UpdateMatching(t.items, s.wishlist.value.id, id, FieldsOf(s.formData)) &&
        u.state.currentProduct == Some(Product(id, FieldsOf(s.formData), None)) &&
        u.state.formData == s.formData &&
        u.state.error == None && u.state.products == Newest(u.tables.items, s.wishlist.value.id)) &&
      (!found ==> u.tables == t && u.state == s.(loading := false))
  {
    var w := s.wishlist.value;
    var s1 := s.(loading := true);
    assert EnsureWishlistStep(s1, t, true, origin, Some(user), slug) == EnsureStep(s1, t, Found(s.wishlist));
    UpdateItemMeaning(t, w.id, id, FieldsOf(s.formData));
    FormRoundTrip(s.formData);
    var u := UpdateItem(t, w.id, id, FieldsOf(s.formData));
    if u.result.Ok? {
      var s2 := s1.(currentProduct := Some(u.result.value), formData := FormOf(u.result.value.fields), loading := false);
      assert EnsureWishlistStep(s2.(loading := true, error := None), u.tables, true, origin, Some(user), slug) ==
        EnsureStep(s2.(loading := true, error := None), u.tables, Found(s.wishlist));
    }
  }

  // deleteProduct

  /** `deleteProduct(id)` */
  function DeleteProductStep(s: State, t: Tables, online: bool, origin: Option<string>, user: Option<string>, slug: string, id: nat): Step {
    DeleteAfter(EnsureWishlistStep(s.(loading := true), t, online, origin, user, slug), online, id)
  }

  /** The rest of `deleteProduct` once `ensureWishlist` has settled. */
  function DeleteAfter(e: EnsureStep, online: bool, id: nat): Step {
    if NoWishlist(e.outcome) || !online then Step(e.state.(loading := false), e.tables)
    else
      Step(e.state.(products := RemoveId(e.state.products, id), loading := false),
           DeleteItems(e.tables, e.outcome.wishlist.value.id, id))
  }

  /**
   * Deleting ends idle and keeps the store consistent. It writes no item of
   * another wishlist.
   */
  lemma DeleteProductKeepsConsistent(s: State, t: Tables, online: bool, origin: Option<string>, user: Option<string>, slug: string, id: nat)
    requires Consistent(s, t, origin)
    ensures var d := DeleteProductStep(s, t, online, origin, user, slug, id);
      Consistent(d.state, d.tables, origin) && !d.state.loading &&
      (d.state.wishlist.None? ==> d.tables.items == t.items) &&
      (d.state.wishlist.Some? ==> Outside(d.tables.items, d.state.wishlist.value.id) == Outside(t.items, d.state.wishlist.value.id))
  {
    var s1 := s.(loading := true);
    EnsureKeepsConsistent(s1, t, online, origin, user, slug);
    var e := EnsureWishlistStep(s1, t, online, origin, user, slug);
    if !(NoWishlist(e.outcome) || !online) {
      DeleteItemsMeaning(e.tables, e.outcome.wishlist.value.id, id);
    }
  }

  /**
   * With a wishlist in the store and the database reachable, deleting
   * removes the wishlist's item with the identifier from the table. It
   * removes from the list exactly the products with that identifier and
   * keeps the others in order.
   */
  lemma DeleteProductMeaning(s: State, t: Tables, origin: Option<string>, user: string, slug: string, id: nat)
    requires Consistent(s, t, origin) && s.wishlist.Some?
    ensures var d := DeleteProductStep(s, t, true, origin, Some(user), slug, id);
      d.tables == DeleteItems(t, s.wishlist.value.id, id) &&
      (forall r :: r in d.tables.items <==> r in t.items && !(r.wishlistId == s.wishlist.value.id && r.id == id)) &&
      d.state == s.(products := RemoveId(s.products, id), loading := false) &&
      (forall p :: p in d.state.products <==> p in s.products && p.id != id)
  {
    DeleteItemsMeaning(t, s.wishlist.value.id, id);
    RemoveIdMeaning(s.products, id);
  }

  // regenerateShareLink

  datatype Regenerated = Regenerated(state: State, tables: Tables, rejected: bool)

  /** Give the store's wishlist the new slug and the link built from it. */
  function ReplaceSlugStep(s: State, t: Tables, online: bool, origin: Option<string>, newSlug: string): Step
    requires s.wishlist.Some?
  {
    if !online then Step(s, t)
    else
      var u := UpdateSlug(t, s.wishlist.value.id, newSlug);
      if u.result.Err? then Step(s, u.tables)
      else
        var row := u.result.value;
        Step(s.(wishlist := Some(Wishlist(row.id, row.shareSlug)), shareUrl := Some(BuildShareUrl(origin, row.shareSlug))), u.tables)
  }

  /**
   * `regenerateShareLink()`. Without a wishlist in the store it first runs
   * `ensureWishlist` (creating with `createSlug`) and then starts again,
   * which finds the wishlist and replaces its slug with `newSlug`; a failure
   * of `ensureWishlist` rejects the call.
   */
  function RegenerateShareLinkStep(s: State, t: Tables, online: bool, origin: Option<string>, user: Option<string>, createSlug: string, newSlug: string): Regenerated
    decreases if s.wishlist.None? then 1 else 0
  {
    if user.None? then Regenerated(s, t, false)
    else if s.wishlist.Some? then
      var r := ReplaceSlugStep(s, t, online, origin, newSlug);
      Regenerated(r.state, r.tables, false)
    else
      var e := EnsureWishlistStep(s, t, online, origin, user, createSlug);
      if e.outcome.Threw? then Regenerated(e.state, e.tables, true)
      else RegenerateShareLinkStep(e.state, e.tables, online, origin, user, createSlug, newSlug)
  }

  /** Without a signed-in user nothing changes. */
  lemma RegenerateWithoutUser(s: State, t: Tables, online: bool, origin: Option<string>, createSlug: string, newSlug: string)
    ensures RegenerateShareLinkStep(s, t, online, origin, None, createSlug, newSlug) == Regenerated(s, t, false)
  {
  }

  /**
   * Replacing the slug either gives the store's wishlist the new slug and
   * its link, or changes nothing at all; the store stays consistent and the
   * items are untouched. When the database is unreachable or another
   * wishlist has the new slug, the wishlist and its link stay as they were.
   */
  lemma ReplaceSlugKeepsConsistent(s: State, t: Tables, online: bool, origin: Option<string>, newSlug: string)
    requires Consistent(s, t, origin) && s.wishlist.Some?
    ensures var r := ReplaceSlugStep(s, t, online, origin, newSlug);
      var w := s.wishlist.value;
      Consistent(r.state, r.tables, origin) && r.tables.items == t.items &&
      ((r.state == s && r.tables == t) ||
       r.state == s.(wishlist := Some(Wishlist(w.id, newSlug)), shareUrl := Some(BuildShareUrl(origin, newSlug))))
    ensures !online || (exists k :: 0 <= k < |t.wishlists| && t.wishlists[k].id != s.wishlist.value.id && t.wishlists[k].shareSlug == newSlug) ==>
      ReplaceSlugStep(s, t, online, origin, newSlug) == Step(s, t)
  {
    var w := s.wishlist.value;
    var i :| 0 <= i < |t.wishlists| && t.wishlists[i].id == w.id && t.wishlists[i].shareSlug == w.shareSlug;
    if online {
      UpdateSlugMeaning(t, w.id, newSlug);
      var u := UpdateSlug(t, w.id, newSlug);
      if u.result.Ok? {
        assert u.tables.wishlists[i].id == w.id && u.tables.wishlists[i].shareSlug == newSlug;
      }
    }
  }

  /**
   * When the database is reachable and no other wishlist has the new slug,
   * replacing succeeds. It changes that row's slug and no other row, and
   * the old slug then names no wishlist.
   */
  lemma ReplaceSlugMeaning(s: State, t: Tables, origin: Option<string>, newSlug: string)
    requires Consistent(s, t, origin) && s.wishlist.Some?
    requires !SlugTaken(t.wishlists, newSlug)
    ensures var r := ReplaceSlugStep(s, t, true, origin, newSlug);
      var w := s.wishlist.value;
      r.state.wishlist == Some(Wishlist(w.id, newSlug)) &&
      r.state.shareUrl == Some(BuildShareUrl(origin, newSlug)) &&
      |r.tables.wishlists| == |t.wishlists| &&
      (forall k :: 0 <= k < |t.wishlists| ==>
        r.tables.wishlists[k] == (if t.wishlists[k].id == w.id then t.wishlists[k].(shareSlug := newSlug) else t.wishlists[k])) &&
      !SlugTaken(r.tables.wishlists, w.shareSlug)
  {
    var w := s.wishlist.value;
    var i :| 0 <= i < |t.wishlists| && t.wishlists[i].id == w.id && t.wishlists[i].shareSlug == w.shareSlug;
    assert t.wishlists[i] in t.wishlists;
    UpdateSlugMeaning(t, w.id, newSlug);
    assert w.shareSlug != newSlug;
  }

  /**
   * Every outcome of `regenerateShareLink` keeps the store consistent and
   * the items as they were; the call is rejected exactly when the store has
   * no wishlist yet and `ensureWishlist` fails, and then nothing changes.
   */
  lemma RegenerateKeepsConsistent(s: State, t: Tables, online: bool, origin: Option<string>, user: Option<string>, createSlug: string, newSlug: string)
    requires Consistent(s, t, origin)
    ensures var g := RegenerateShareLinkStep(s, t, online, origin, user, createSlug, newSlug);
      Consistent(g.state, g.tables, origin) && g.tables.items == t.items &&
      (g.rejected ==> g.state == s && g.tables == t) &&
      (g.rejected <==> user.Some? && s.wishlist.None? && EnsureWishlistStep(s, t, online, origin, user, createSlug).outcome.Threw?)
  {
    if user.Some? {
      if s.wishlist.Some? {
        ReplaceSlugKeepsConsistent(s, t, online, origin, newSlug);
      } else {
        EnsureLookup(s, t, online, origin, user.value, createSlug);
        var e := EnsureWishlistStep(s, t, online, origin, user, createSlug);
        if e.outcome.Found? {
          ReplaceSlugKeepsConsistent(e.state, e.tables, online, origin, newSlug);
        }
      }
    }
  }

  /**
   * With a signed-in user and a reachable database, once `ensureWishlist`
   * has found or created the wishlist (at once when the store holds one),
   * a new slug that no wishlist has becomes the wishlist's slug and its
   * share link, and the call is not rejected.
   */
  lemma RegenerateReplacesSlug(s: State, t: Tables, origin: Option<string>, user: string, createSlug: string, newSlug: string)
    requires Consistent(s, t, origin)
    requires EnsureWishlistStep(s, t, true, origin, Some(user), createSlug).outcome.Found?
    requires !SlugTaken(EnsureWishlistStep(s, t, true, origin, Some(user), createSlug).tables.wishlists, newSlug)
    ensures var g := RegenerateShareLinkStep(s, t, true, origin, Some(user), createSlug, newSlug);
      !g.rejected && g.state.wishlist.Some? && g.state.wishlist.value.shareSlug == newSlug &&
      g.state.shareUrl == Some(BuildShareUrl(origin, newSlug))
  {
    var e := EnsureWishlistStep(s, t, true, origin, Some(user), createSlug);
    if s.wishlist.Some? {
      ReplaceSlugMeaning(s, t, origin, newSlug);
    } else {
      EnsureLookup(s, t, true, origin, user, createSlug);
      ReplaceSlugMeaning(e.state, e.tables, origin, newSlug);
    }
  }

  /** The store, its state held in fields, over one database. */
  class ProductStore {
    var products: seq<Product>
    var wishlist: Option<Wishlist>
    var loading: bool
    var error: Option<string>
    var currentProduct: Option<Product>
    var shareUrl: Option<string>
    var formData: Form
    const db: Database
    /** `window.location.origin`, or `None` where there is no window. */
    const origin: Option<string>

    function View(): State
      reads this
    {
      State(products, wishlist, loading, error, currentProduct, shareUrl, formData)
    }

    predicate Valid()
      reads this, db
    {
      Consistent(View(), db.tables, origin)
    }

    constructor(db: Database, origin: Option<string>)
      requires ProductTables.Valid(db.tables)
      ensures View() == InitialState && this.db == db && this.origin == origin && Valid()
    {
      products := [];
      wishlist := None;
      loading := false;
      error := None;
      currentProduct := None;
      shareUrl := None;
      formData := EmptyForm;
      this.db := db;
      this.origin := origin;
    }

    /** `setFormData(formData)`: only the form changes. */
    method SetFormData(form: Form)
      requires Valid()
      modifies this
      ensures View() == old(View()).(formData := form) && Valid()
    {
      formData := form;
    }

    /** `resetForm()`: the form is emptied and nothing else changes. */
    method ResetForm()
      requires Valid()
      modifies this
      ensures View() == old(View()).(formData := EmptyForm) && Valid()
    {
      formData := EmptyForm;
    }

    method EnsureWishlist(user: Option<string>, slug: string) returns (outcome: Ensured)
      requires Valid()
      modifies this, db
      ensures db.online == old(db.online) && Valid()
      ensures var e := EnsureWishlistStep(old(View()), old(db.tables), db.online, origin, user, slug);
        View() == e.state && db.tables == e.tables && outcome == e.outcome
    {
      EnsureKeepsConsistent(View(), db.tables, db.online, origin, user, slug);
      if user.None? {
        wishlist := None;
        shareUrl := None;
        products := [];
        currentProduct := None;
        return Found(None);
      }
      if wishlist.Some? {
        return Found(wishlist);
      }
      var selected := db.SelectOwned(user.value);
      if selected.Err? {
        return Threw(selected.error);
      }
      var rows := selected.value;
      if |rows| > 0 {
        var first := rows[0];
        wishlist := Some(Wishlist(first.id, first.shareSlug));
        shareUrl := Some(BuildShareUrl(origin, first.shareSlug));
        return Found(wishlist);
      }
      var inserted := db.InsertWishlistRow(user.value, slug);
      if inserted.Err? {
        return Threw(inserted.error);
      }
      var row := inserted.value;
      wishlist := Some(Wishlist(row.id, row.shareSlug));
      shareUrl := Some(BuildShareUrl(origin, row.shareSlug));
      outcome := Found(wishlist);
    }

    method FetchProducts(user: Option<string>, slug: string)
      requires Valid()
      modifies this, db
      ensures db.online == old(db.online) && Valid()
      ensures var f := FetchProductsStep(old(View()), old(db.tables), db.online, origin, user, slug);
        View() == f.state && db.tables == f.tables
    {
      FetchProductsMeaning(View(), db.tables, db.online, origin, user, slug);
      loading := true;
      error := None;
      var ensured := EnsureWishlist(user, slug);
      if ensured.Threw? {
        loading := false;
        error := Some(LoadFailedMessage);
        return;
      }
      if ensured.wishlist.None? {
        products := [];
        loading := false;
        return;
      }
      var listed := db.SelectItems(ensured.wishlist.value.id);
      if listed.Err? {
        loading := false;
        error := Some(LoadFailedMessage);
        return;
      }
      products := listed.value;
      loading := false;
      error := None;
    }

    method AddProduct(user: Option<string>, slug: string)
      requires Valid()
      modifies this, db
      ensures db.online == old(db.online) && Valid()
      ensures var a := AddProductStep(old(View()), old(db.tables), db.online, origin, user, slug);
        View() == a.state && db.tables == a.tables
    {
      loading := true;
      EnsureKeepsConsistent(View(), db.tables, db.online, origin, user, slug);
      var ensured := EnsureWishlist(user, slug);
      FinishAdd(ensured, user, slug);
    }

    /** The rest of `addProduct` once `ensureWishlist` has settled. */
    method FinishAdd(ensured: Ensured, user: Option<string>, slug: string)
      requires Valid() && (!NoWishlist(ensured) ==> wishlist == ensured.wishlist && user.Some?)
      modifies this, db
      ensures db.online == old(db.online) && Valid()
      ensures var a := AddAfter(EnsureStep(old(View()), old(db.tables), ensured), db.online, origin, user, slug);
        View() == a.state && db.tables == a.tables
    {
      AddAfterKeepsConsistent(EnsureStep(View(), db.tables, ensured), View(), db.tables, db.online, origin, user, slug);
      if NoWishlist(ensured) {
        loading := false;
        return;
      }
      var inserted := db.InsertItemRow(ensured.wishlist.value.id, FieldsOf(formData));
      if inserted.Err? {
        loading := false;
        return;
      }
      InsertItemMeaning(old(db.tables), ensured.wishlist.value.id, FieldsOf(formData));
      FetchProducts(user, slug);
      ResetForm();
      loading := false;
    }

    method FetchProduct(user: Option<string>, slug: string, id: nat)
      requires Valid()
      modifies this, db
      ensures db.online == old(db.online) && Valid()
      ensures var f := FetchProductStep(old(View()), old(db.tables), db.online, origin, user, slug, id);
        View() == f.state && db.tables == f.tables
    {
      FetchProductMeaning(View(), db.tables, db.online, origin, user, slug, id);
      loading := true;
      var ensured := EnsureWishlist(user, slug);
      FinishFetchProduct(ensured, id);
    }

    /** The rest of `fetchProduct` once `ensureWishlist` has settled. */
    method FinishFetchProduct(ensured: Ensured, id: nat)
      modifies this
      ensures var f := DetailAfter(EnsureStep(old(View()), db.tables, ensured), db.online, id);
        View() == f.state && db.tables == f.tables
    {
      if NoWishlist(ensured) {
        loading := false;
        error := Some(DetailsFailedMessage);
        currentProduct := None;
        return;
      }
      var selected := db.SelectOneItem(ensured.wishlist.value.id, id);
      if selected.Err? {
        loading := false;
        error := Some(DetailsFailedMessage);
        currentProduct := None;
        return;
      }
      currentProduct := Some(selected.value);
      formData := FormOf(selected.value.fields);
      loading := false;
      error := None;
    }

    method UpdateProduct(user: Option<string>, slug: string, id: nat)
      requires Valid()
      modifies this, db
      ensures db.online == old(db.online) && Valid()
      ensures var u := UpdateProductStep(old(View()), old(db.tables), db.online, origin, user, slug, id);
        View() == u.state && db.tables == u.tables
    {
      loading := true;
      EnsureKeepsConsistent(View(), db.tables, db.online, origin, user, slug);
      var ensured := EnsureWishlist(user, slug);
      FinishUpdate(ensured, user, slug, id);
    }

    /** The rest of `updateProduct` once `ensureWishlist` has settled. */
    method FinishUpdate(ensured: Ensured, user: Option<string>, slug: string, id: nat)
      requires Valid() && (!NoWishlist(ensured) ==> wishlist == ensured.wishlist && user.Some?)
      modifies this, db
      ensures db.online == old(db.online) && Valid()
      ensures var u := SaveAfter(EnsureStep(old(View()), old(db.tables), ensured), db.online, origin, user, slug, id);
        View() == u.state && db.tables == u.tables
    {
      SaveAfterKeepsConsistent(EnsureStep(View(), db.tables, ensured), View(), db.tables, db.online, origin, user, slug, id);
      if NoWishlist(ensured) {
        loading := false;
        return;
      }
      var updated := db.UpdateItemRow(ensured.wishlist.value.id, id, FieldsOf(formData));
      if updated.Err? {
        loading := false;
        return;
      }
      UpdateItemMeaning(old(db.tables), ensured.wishlist.value.id, id, FieldsOf(formData));
      currentProduct := Some(updated.value);
      formData := FormOf(updated.value.fields);
      loading := false;
      FetchProducts(user, slug);
    }

    method DeleteProduct(user: Option<string>, slug: string, id: nat)
      requires Valid()
      modifies this, db
      ensures db.online == old(db.online) && Valid()
      ensures var d := DeleteProductStep(old(View()), old(db.tables), db.online, origin, user, slug, id);
        View() == d.state && db.tables == d.tables
    {
      DeleteProductKeepsConsistent(View(), db.tables, db.online, origin, user, slug, id);
      loading := true;
      var ensured := EnsureWishlist(user, slug);
      FinishDelete(ensured, id);
    }

    /** The rest of `deleteProduct` once `ensureWishlist` has settled. */
    method FinishDelete(ensured: Ensured, id: nat)
      modifies this, db
      ensures db.online == old(db.online)
      ensures var d := DeleteAfter(EnsureStep(old(View()), old(db.tables), ensured), db.online, id);
        View() == d.state && db.tables == d.tables
    {
      if NoWishlist(ensured) {
        loading := false;
        return;
      }
      var deleted := db.DeleteItemRows(ensured.wishlist.value.id, id);
      if deleted.Err? {
        loading := false;
        return;
      }
      products := RemoveId(products, id);
      loading := false;
    }

    /** Returns whether the call was rejected by a failing `ensureWishlist`. */
    method RegenerateShareLink(user: Option<string>, createSlug: string, newSlug: string) returns (rejected: bool)
      requires Valid()
      modifies this, db
      ensures db.online == old(db.online) && Valid()
      ensures var g := RegenerateShareLinkStep(old(View()), old(db.tables), db.online, origin, user, createSlug, newSlug);
        View() == g.state && db.tables == g.tables && rejected == g.rejected
      decreases if wishlist.None? then 1 else 0
    {
      RegenerateKeepsConsistent(View(), db.tables, db.online, origin, user, createSlug, newSlug);
      if user.None? {
        return false;
      }
      if wishlist.None? {
        var ensured := EnsureWishlist(user, createSlug);
        if ensured.Threw? {
          return true;
        }
        rejected := RegenerateShareLink(user, createSlug, newSlug);
        return;
      }
      ReplaceSlugKeepsConsistent(View(), db.tables, db.online, origin, newSlug);
      var updated := db.UpdateShareSlug(wishlist.value.id, newSlug);
      if updated.Err? {
        return false;
      }
      wishlist := Some(Wishlist(updated.value.id, updated.value.shareSlug));
      shareUrl := Some(BuildShareUrl(origin, updated.value.shareSlug));
      rejected := false;
    }
  }
}
