/** Entities, request bodies and responses shared by the route handlers of the
    movie service, and the enumeration of a collection in store order. */
module Domain {

  datatype Option<+T> = None | Some(value: T)

  /** Identity of a stored document (a Mongo ObjectId). The store hands out
      fresh identities from a counter, so a new identity is neither a stored
      one nor one that an existing review refers to. */
  type Id = nat

  /** A stored account; `name` may be missing, because signup does not check it. */
  datatype User = User(name: Option<string>, username: string, password: string)

  datatype Movie = Movie(title: string, actors: seq<string>)

  /** A review of the external reviews collection; only read, never written. */
  datatype Review = Review(movieId: Id, rating: int)

  /** A field of a JSON request body: `None` when the key is absent. */
  type Field = Option<string>

  /** JavaScript truthiness of a body field: `undefined` and `""` are falsy. */
  predicate Truthy(f: Field) {
    f.Some? && f.value != ""
  }

  datatype UserForm = UserForm(name: Field, username: Field, password: Field)

  datatype MovieForm = MovieForm(title: Field, actors: Option<seq<string>>)

  /** A movie document as `Movie.find()` returns it. */
  datatype MovieDoc = MovieDoc(id: Id, movie: Movie)

  /** A movie document after `$lookup` and `$addFields`: `movieReviews` holds
      the matched review documents and `avgRating` is `None` (null) when none matched. */
  datatype MovieView = MovieView(id: Id, movie: Movie, movieReviews: seq<Review>, avgRating: Option<real>)

  /** The claims signed into a session token. */
  datatype Claims = Claims(id: Id, username: string)

  /** JSON bodies the handlers send. `Msg` is `{success, msg}`, the shape of the
      signup and signin answers; `Message` is `{success, message}`. */
  datatype Body =
    | Msg(success: bool, text: string)
    | Message(success: bool, text: string)
    | Token(success: bool, token: string)
    | UserBody(id: Id, user: User)
    | MovieBody(doc: MovieDoc)
    | MovieList(docs: seq<MovieDoc>)
    | RatedList(views: seq<MovieView>)
    | RatedMovie(view: MovieView)

  datatype Response = Response(status: int, body: Body)

  /** `ids` lists every key of `keys` exactly once, in some order. */
  predicate Enumerates(ids: seq<Id>, keys: set<Id>) {
    && (forall i, j :: 0 <= i < j < |ids| ==> ids[i] != ids[j])
    && (forall i :: 0 <= i < |ids| ==> ids[i] in keys)
    && (forall k :: k in keys ==> k in ids)
  }

  /** The order in which the store returns the documents of a collection.
      The store promises no particular order, so any order may be chosen. */
  method StoreOrder<V>(m: map<Id, V>) returns (ids: seq<Id>)
    ensures Enumerates(ids, m.Keys)
  {
    ids := [];
    var rest := m.Keys;
    while rest != {}
      invariant rest <= m.Keys
      invariant forall i, j :: 0 <= i < j < |ids| ==> ids[i] != ids[j]
      invariant forall i :: 0 <= i < |ids| ==> ids[i] in m.Keys && ids[i] !in rest
      invariant forall k :: k in m.Keys ==> k in rest || k in ids
      decreases rest
    {
      var k :| k in rest;
      ids := ids + [k];
      rest := rest - {k};
    }
  }
}
