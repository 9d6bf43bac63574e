/** The artwork API (app/api/artworks/route.ts): create an artwork from an
    uploaded form, and list artworks by a search query, a category and a sort
    option.

    The session is the signed-in user, if any. Each form field is `None` when
    the form leaves it out; the price is the result of `parseFloat`, with
    `None` for NaN. The image upload is a foreign call: `uploaded` is the URL it
    returns, or `None` when it throws. `storeFails` stands for a database error. */
module ArtworksRoute {
  import opened Common
  import opened Schema
  import opened Store
  import opened Sorting

  // ---------------------------------------------------------------------
  // GET: the query the handler builds

  /** One branch of the `OR` of a text search: a case-insensitive substring test. */
  datatype TextCondition = TitleContains(text: string) | DescriptionContains(text: string)

  /** `Prisma.ArtworkWhereInput` as the handler builds it: an optional `OR`
      over text conditions and an optional category equality. */
  datatype Where = Where(anyOf: Option<seq<TextCondition>>, category: Option<string>)

  /** `mode: 'insensitive'` containment. */
  predicate ContainsInsensitive(s: string, sub: string) {
    Contains(ToLower(s), ToLower(sub))
  }

  predicate Holds(c: TextCondition, a: Artwork) {
    match c
    case TitleContains(t) => ContainsInsensitive(a.title, t)
    case DescriptionContains(t) => ContainsInsensitive(a.description, t)
  }

  /** The rows the database returns for a `where`. */
  predicate Selects(w: Where, a: Artwork) {
    && (w.anyOf.None? || exists c :: c in w.anyOf.value && Holds(c, a))
    && (w.category.None? || a.category == w.category.value)
  }

  /** The `where` object: the spreads `...(query && {...})` and
      `...(category && { category })`, which add nothing for a missing or empty parameter. */
  function BuildWhere(query: Option<string>, category: Option<string>): Where {
    Where(
      if Truthy(query) then Some([TitleContains(query.value), DescriptionContains(query.value)]) else None,
      if Truthy(category) then category else None)
  }

  /** A row is listed exactly when a present query occurs in its title or in
      its description, ignoring case, and a present category equals its own. */
  lemma BuildWhereSpec(query: Option<string>, category: Option<string>, a: Artwork)
    ensures Selects(BuildWhere(query, category), a) <==>
      && (Truthy(query) ==> ContainsInsensitive(a.title, query.value) || ContainsInsensitive(a.description, query.value))
      && (Truthy(category) ==> a.category == category.value)
  {
    if Truthy(query) {
      var w := BuildWhere(query, category);
      if ContainsInsensitive(a.title, query.value) {
        assert Holds(w.anyOf.value[0], a);
      } else if ContainsInsensitive(a.description, query.value) {
        assert Holds(w.anyOf.value[1], a);
      }
    }
  }

  /** Without a query and a category every row is listed. */
  lemma NoParamsSelectAll(a: Artwork)
    ensures Selects(BuildWhere(None, None), a) && Selects(BuildWhere(Some(""), Some("")), a)
  {
  }

  datatype Direction = Asc | Desc

  /** `Prisma.ArtworkOrderByWithRelationInput` on the two columns the handler uses. */
  datatype OrderBy = OrderBy(createdAt: Option<Direction>, price: Option<Direction>)

  /** The `orderBy` object: one spread per recognised `sort` value, and
      `createdAt: 'desc'` when `sort` is missing or empty. */
  function BuildOrderBy(sort: Option<string>): OrderBy {
    var s := OrElse(sort, "");
    OrderBy(
      if s == "newest" || s == "" then Some(Desc) else if s == "oldest" then Some(Asc) else None,
      if s == "price_asc" then Some(Asc) else if s == "price_desc" then Some(Desc) else None)
  }

  /** The sort key the database orders by, ascending; an empty ordering ties every row. */
  function OrderKey(o: OrderBy, a: Artwork): int {
    if o.createdAt == Some(Desc) then -a.createdAt
    else if o.createdAt == Some(Asc) then a.createdAt
    else if o.price == Some(Asc) then a.price
    else if o.price == Some(Desc) then -a.price
    else 0
  }

  /** Every sort value orders by at most one column: newest (or none) is
      newest first, oldest is oldest first, the two price options order by
      price, and any other value gives the empty ordering. */
  lemma BuildOrderBySpec(sort: Option<string>)
    ensures var o := BuildOrderBy(sort);
      && (o.createdAt.None? || o.price.None?)
      && ((sort.None? || sort == Some("") || sort == Some("newest")) <==> o == OrderBy(Some(Desc), None))
      && (sort == Some("oldest") <==> o == OrderBy(Some(Asc), None))
      && (sort == Some("price_asc") <==> o == OrderBy(None, Some(Asc)))
      && (sort == Some("price_desc") <==> o == OrderBy(None, Some(Desc)))
      && (Truthy(sort) && sort.value !in {"newest", "oldest", "price_asc", "price_desc"}
          <==> o == OrderBy(None, None))
  {
  }

  /** The listing the database returns: the selected rows, ordered by the
      key; rows the ordering ties come in table order. */
  function FindArtworks(table: seq<Artwork>, w: Where, o: OrderBy): seq<Artwork> {
    SortByKey(Filter(table, (a: Artwork) => Selects(w, a)), (a: Artwork) => OrderKey(o, a))
  }

  /** `GET`: the listing for the query parameters, or 500 when the store fails. */
  method GetArtworks(db: Store.Database, query: Option<string>, category: Option<string>, sort: Option<string>,
                     storeFails: bool)
    returns (r: Response<seq<Artwork>>)
    ensures storeFails ==> r == Failure(500, "Internal Server Error")
    ensures !storeFails ==> r == Ok(200, FindArtworks(db.artworks, BuildWhere(query, category), BuildOrderBy(sort)))
  {
    if storeFails {
      return Failure(500, "Internal Server Error");
    }
    var w := BuildWhere(query, category);
    var o := BuildOrderBy(sort);
    r := Ok(200, FindArtworks(db.artworks, w, o));
  }

  /** The listing holds exactly the table's rows the parameters select, once
      each, newest first unless another order is asked for. */
  lemma FindArtworksSpec(table: seq<Artwork>, query: Option<string>, category: Option<string>, sort: Option<string>)
    ensures var w := BuildWhere(query, category);
      multiset(FindArtworks(table, w, BuildOrderBy(sort))) == multiset(Filter(table, (a: Artwork) => Selects(w, a)))
    ensures var w := BuildWhere(query, category);
      forall a :: a in FindArtworks(table, w, BuildOrderBy(sort)) <==> a in table && Selects(w, a)
    ensures var s := FindArtworks(table, BuildWhere(query, category), BuildOrderBy(sort));
      && (!Truthy(sort) || sort == Some("newest") ==> forall i, j :: 0 <= i < j < |s| ==> s[i].createdAt >= s[j].createdAt)
      && (sort == Some("oldest") ==> forall i, j :: 0 <= i < j < |s| ==> s[i].createdAt <= s[j].createdAt)
      && (sort == Some("price_asc") ==> forall i, j :: 0 <= i < j < |s| ==> s[i].price <= s[j].price)
      && (sort == Some("price_desc") ==> forall i, j :: 0 <= i < j < |s| ==> s[i].price >= s[j].price)
  {
    var w := BuildWhere(query, category);
    var o := BuildOrderBy(sort);
    var selected := Filter(table, (a: Artwork) => Selects(w, a));
    var s := FindArtworks(table, w, o);
    forall a ensures a in s <==> a in table && Selects(w, a) {
      assert a in s <==> a in multiset(selected);
      FilterMembership(table, (a: Artwork) => Selects(w, a), a);
    }
    SortByKeySorted(selected, (a: Artwork) => OrderKey(o, a));
    BuildOrderBySpec(sort);
    OrderedByKey(s, o);
  }

  /** A list sorted by the key of an ordering is ordered by that ordering's column and direction. */
  lemma OrderedByKey(s: seq<Artwork>, o: OrderBy)
    requires SortedBy(s, (a: Artwork) => OrderKey(o, a))
    ensures o == OrderBy(Some(Desc), None) ==> forall i, j :: 0 <= i < j < |s| ==> s[i].createdAt >= s[j].createdAt
    ensures o == OrderBy(Some(Asc), None) ==> forall i, j :: 0 <= i < j < |s| ==> s[i].createdAt <= s[j].createdAt
    ensures o == OrderBy(None, Some(Asc)) ==> forall i, j :: 0 <= i < j < |s| ==> s[i].price <= s[j].price
    ensures o == OrderBy(None, Some(Desc)) ==> forall i, j :: 0 <= i < j < |s| ==> s[i].price >= s[j].price
  {
    forall i, j | 0 <= i < j < |s|
      ensures OrderKey(o, s[i]) <= OrderKey(o, s[j])
    {
    }
  }

  // ---------------------------------------------------------------------
  // POST

  /** An uploaded image file; any file object is truthy. */
  datatype ImageFile = ImageFile(name: string, bytes: seq<int>)

  /** The multipart form of `POST`. */
  datatype ArtworkForm = ArtworkForm(
    title: Option<string>,
    description: Option<string>,
    category: Option<string>,
    price: Option<int>,
    image: Option<ImageFile>)

  /** The required-fields test: every text field non-empty, the price neither
      NaN nor 0, an image present. A negative price passes. */
  predicate Complete(f: ArtworkForm) {
    Truthy(f.title) && Truthy(f.description) && Truthy(f.category)
    && f.price.Some? && f.price.value != 0 && f.image.Some?
  }

  /** `POST`: 401 without a signed-in user, 500 for a body that is not a
      multipart form (`form` is `None`), 400 for an incomplete form, 500 when
      the upload or the store fails; otherwise one new row, owned by the
      session user, holding the form's fields and the uploaded URL. */
  method PostArtwork(db: Store.Database, session: Option<SessionUser>, form: Option<ArtworkForm>,
                     uploaded: Option<string>, storeFails: bool, now: int)
    returns (r: Response<Artwork>)
    modifies db
    requires db.Valid()
    ensures db.Valid()
    ensures db.users == old(db.users) && db.categories == old(db.categories)
    ensures db.preferences == old(db.preferences) && db.collections == old(db.collections)
    ensures session.None? ==> r == Failure(401, Unauthorized)
    ensures session.Some? && form.None? ==> r == Failure(500, "Internal Server Error")
    ensures session.Some? && form.Some? && !Complete(form.value) ==> r == Failure(400, "Missing required fields")
    ensures session.Some? && form.Some? && Complete(form.value) && (uploaded.None? || storeFails)
      ==> r == Failure(500, "Internal Server Error")
    ensures session.Some? && form.Some? && Complete(form.value) && uploaded.Some? && !storeFails ==> r.Ok?
    ensures r.Failure? ==> db.artworks == old(db.artworks)
    ensures r.Ok? ==>
      && r.status == 200 && session.Some? && form.Some? && Complete(form.value) && uploaded.Some?
      && var f := form.value;
         && db.artworks == old(db.artworks) + [r.body]
         && r.body == Artwork(old(db.nextId), f.title.value, f.description.value, f.category.value,
                              f.price.value, uploaded.value, session.value.id, now)
  {
    if session.None? {
      return Failure(401, Unauthorized);
    }
    if form.None? {
      return Failure(500, "Internal Server Error");
    }
    var f := form.value;
    if !Complete(f) {
      return Failure(400, "Missing required fields");
    }
    if uploaded.None? || storeFails {
      return Failure(500, "Internal Server Error");
    }
    var id := db.NewId();
    var row := Artwork(id, f.title.value, f.description.value, f.category.value,
                       f.price.value, uploaded.value, session.value.id, now);
    db.artworks := db.artworks + [row];
    r := Ok(200, row);
  }

  /** The required-fields test rejects a price of 0 and an unparseable price,
      and lets a negative price through. */
  lemma CompletePrice(f: ArtworkForm)
    requires Truthy(f.title) && Truthy(f.description) && Truthy(f.category) && f.image.Some?
    ensures f.price == Some(0) || f.price.None? ==> !Complete(f)
    ensures f.price.Some? && f.price.value < 0 ==> Complete(f)
  {
  }
}
