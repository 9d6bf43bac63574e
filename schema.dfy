/** The rows of the application's database tables, as the route handlers,
    the seed script and the preference pages see them. Ids are drawn from a
    counter (the database generates unique string ids). */
module Schema {
  import opened Common

  type Id = nat

  /** A registered account. `email` and `password` may be missing for accounts
      created through an external sign-in provider. */
  datatype User = User(
    id: Id,
    name: Option<string>,
    email: Option<string>,
    password: Option<string>,
    role: string)

  /** A node of the two-level category forest. */
  datatype Category = Category(id: Id, name: string, slug: string, parentId: Option<Id>)

  /** A subscription of one user to one category. */
  datatype ArtPreference = ArtPreference(id: Id, userId: Id, categoryId: Id)

  /** A list of subscriptions without the ones carrying `id`, the rest in order. */
  function WithoutPreference(prefs: seq<ArtPreference>, id: Id): seq<ArtPreference> {
    Filter(prefs, (p: ArtPreference) => p.id != id)
  }

  /** A named, user-owned list of artworks. */
  datatype Collection = Collection(
    id: Id,
    name: string,
    description: Option<string>,
    userId: Id,
    createdAt: int)

  /** An artwork row as the artwork routes write and list it; the category is a
      free-form string there. Prices are whole currency units. */
  datatype Artwork = Artwork(
    id: Id,
    title: string,
    description: string,
    category: string,
    price: int,
    imageUrl: string,
    artistId: Id,
    createdAt: int)

  /** The signed-in user of a request, as the session reports it. */
  datatype SessionUser = SessionUser(id: Id, email: Option<string>)
}
