/** The route handlers of the movie service over an in-memory store: the
    users and movies collections the handlers write, the reviews collection
    they only read, and the counter that hands out document identities. */
module Server {
  import opened Domain
  import opened Accounts
  import opened Aggregation

  const MovieMissingMsg := "Movie must have a title and at least one actor."
  const MovieDeletedMsg := "Movie deleted."

  /** Create-movie needs a title and at least one actor. */
  predicate MovieAccepted(form: MovieForm) {
    Truthy(form.title) && form.actors.Some? && form.actors.value != []
  }

  class Service {
    var users: map<Id, User>
    var movies: map<Id, Movie>
    var reviews: seq<Review>
    var nextId: Id

    /** Usernames are unique, and every stored identity, and every movie
        identity a review refers to, was handed out before `nextId`. */
    ghost predicate Valid()
      reads this
    {
      && UniqueUsernames(users)
      && (forall id :: id in users ==> id < nextId)
      && (forall id :: id in movies ==> id < nextId)
      && (forall r :: r in reviews ==> r.movieId < nextId)
    }

    /** An empty store beside an existing reviews collection; identities
        start at `start`, past every movie identity a review refers to. */
    constructor (reviews: seq<Review>, start: Id)
      requires forall r :: r in reviews ==> r.movieId < start
      ensures Valid()
      ensures users == map[] && movies == map[] && this.reviews == reviews && nextId == start
    {
      users := map[];
      movies := map[];
      this.reviews := reviews;
      nextId := start;
    }

    /** A new document identity, distinct from every stored one and from
        every movie identity a review refers to. */
    method FreshId() returns (id: Id)
      requires Valid()
      modifies this`nextId
      ensures Valid()
      ensures id == old(nextId) && nextId == id + 1
      ensures id !in users && id !in movies
      ensures forall r :: r in reviews ==> r.movieId != id
    {
      id := nextId;
      nextId := nextId + 1;
    }

    /** `POST /signup`: validate, then insert; the unique index turns a taken username into 409. */
    method Signup(form: UserForm) returns (resp: Response)
      requires Valid()
      modifies this
      ensures Valid()
      ensures movies == old(movies) && reviews == old(reviews)
      ensures !SignupAccepted(form) ==>
        resp == Response(400, Msg(false, SignupMissingMsg)) && users == old(users) && nextId == old(nextId)
      ensures SignupAccepted(form) && UsernameTaken(old(users), form.username.value) ==>
        resp == Response(409, Message(false, DuplicateUserMsg)) && users == old(users) && nextId == old(nextId)
      ensures SignupAccepted(form) && !UsernameTaken(old(users), form.username.value) ==>
        && resp == Response(201, Msg(true, SignupCreatedMsg))
        && old(nextId) !in old(users) && nextId == old(nextId) + 1
        && users == old(users)[old(nextId) := User(form.name, form.username.value, form.password.value)]
    {
      if !SignupAccepted(form) {
        return Response(400, Msg(false, SignupMissingMsg));
      }
      var user := User(form.name, form.username.value, form.password.value);
      if UsernameTaken(users, user.username) {
        return Response(409, Message(false, DuplicateUserMsg));
      }
      var id := FreshId();
      InsertKeepsUnique(users, id, user);
      users := users[id := user];
      resp := Response(201, Msg(true, SignupCreatedMsg));
    }

    /** `User.findOne({username})`. */
    method FindByUsername(username: string) returns (found: Option<Id>)
      ensures found.Some? ==> found.value in users && users[found.value].username == username
      ensures found.None? ==> !UsernameTaken(users, username)
    {
      var rest := users.Keys;
      while rest != {}
        invariant rest <= users.Keys
        invariant forall id :: id in users && id !in rest ==> users[id].username != username
        decreases rest
      {
        var id :| id in rest;
        if users[id].username == username {
          return Some(id);
        }
        rest := rest - {id};
      }
      return None;
    }

    /** `POST /signin`: look the user up, check the password, issue a token. Nothing is written. */
    method Signin(username: string, password: string,
                  matches: (User, string) -> bool,
                  sign: (Claims, nat) -> string) returns (resp: Response)
      requires Valid()
      ensures !UsernameTaken(users, username) ==>
        resp == Response(401, Msg(false, UserNotFoundAuthMsg))
      ensures forall id :: id in users && users[id].username == username ==>
        && (matches(users[id], password) ==>
              resp == Response(200, Token(true, TokenScheme + sign(Claims(id, username), TokenLifetime))))
        && (!matches(users[id], password) ==>
              resp == Response(401, Msg(false, IncorrectPasswordMsg)))
    {
      var found := FindByUsername(username);
      match found {
        case None =>
          resp := SigninDecision(None, password, matches, sign);
        case Some(id) =>
          resp := SigninDecision(Some((id, users[id])), password, matches, sign);
      }
    }

    /** `PUT /users/:id`: validate, then replace the whole record. The unique
        index rejects a username held by another user; that error becomes 500. */
    method UpdateUser(id: Id, form: UserForm) returns (resp: Response)
      requires Valid()
      modifies this
      ensures Valid()
      ensures movies == old(movies) && reviews == old(reviews) && nextId == old(nextId)
      ensures !UpdateAccepted(form) ==>
        resp == Response(400, Message(false, UpdateMissingMsg)) && users == old(users)
      ensures UpdateAccepted(form) && id !in old(users) ==>
        resp == Response(404, Message(false, UserNotFoundMsg)) && users == old(users)
      ensures UpdateAccepted(form) && id in old(users) && TakenByOther(old(users), id, form.username.value) ==>
        resp == Response(500, Message(false, UpdateFailedMsg)) && users == old(users)
      ensures UpdateAccepted(form) && id in old(users) && !TakenByOther(old(users), id, form.username.value) ==>
        var u := User(form.name, form.username.value, form.password.value);
        resp == Response(200, UserBody(id, u)) && users == old(users)[id := u]
    {
      if !UpdateAccepted(form) {
        return Response(400, Message(false, UpdateMissingMsg));
      }
      var u := User(form.name, form.username.value, form.password.value);
      if id !in users {
        return Response(404, Message(false, UserNotFoundMsg));
      }
      if TakenByOther(users, id, u.username) {
        return Response(500, Message(false, UpdateFailedMsg));
      }
      ReplaceKeepsUnique(users, id, u);
      users := users[id := u];
      resp := Response(200, UserBody(id, u));
    }

    /** `DELETE /users/:id`. */
    method DeleteUser(id: Id) returns (resp: Response)
      requires Valid()
      modifies this
      ensures Valid()
      ensures movies == old(movies) && reviews == old(reviews) && nextId == old(nextId)
      ensures id !in old(users) ==>
        resp == Response(404, Message(false, UserNotFoundMsg)) && users == old(users)
      ensures id in old(users) ==>
        resp == Response(200, Message(true, UserDeletedMsg)) && users == old(users) - {id}
    {
      if id !in users {
        return Response(404, Message(false, UserNotFoundMsg));
      }
      users := users - {id};
      resp := Response(200, Message(true, UserDeletedMsg));
    }

    /** `POST /movies` (as written, behind the unsupported handler): validate, then insert. */
    method CreateMovie(form: MovieForm) returns (resp: Response)
      requires Valid()
      modifies this
      ensures Valid()
      ensures users == old(users) && reviews == old(reviews)
      ensures !MovieAccepted(form) ==>
        resp == Response(400, Message(false, MovieMissingMsg)) && movies == old(movies) && nextId == old(nextId)
      ensures MovieAccepted(form) ==>
        var doc := MovieDoc(old(nextId), Movie(form.title.value, form.actors.value));
        && old(nextId) !in old(movies) && nextId == old(nextId) + 1
        && resp == Response(201, MovieBody(doc))
        && movies == old(movies)[doc.id := doc.movie]
        && Enrich(doc.id, doc.movie, reviews).movieReviews == []
        && Enrich(doc.id, doc.movie, reviews).avgRating == None
    {
      if !MovieAccepted(form) {
        return Response(400, Message(false, MovieMissingMsg));
      }
      var m := Movie(form.title.value, form.actors.value);
      var id := FreshId();
      movies := movies[id := m];
      JoinedMembers(id, reviews);
      resp := Response(201, MovieBody(MovieDoc(id, m)));
    }

    /** `DELETE /movies/:id`. The movie's reviews are left in place. */
    method DeleteMovie(id: Id) returns (resp: Response)
      requires Valid()
      modifies this
      ensures Valid()
      ensures users == old(users) && reviews == old(reviews) && nextId == old(nextId)
      ensures id !in old(movies) ==>
        resp == Response(404, Message(false, MovieNotFoundMsg)) && movies == old(movies)
      ensures id in old(movies) ==>
        resp == Response(200, Message(true, MovieDeletedMsg)) && movies == old(movies) - {id}
    {
      if id !in movies {
        return Response(404, Message(false, MovieNotFoundMsg));
      }
      movies := movies - {id};
      resp := Response(200, Message(true, MovieDeletedMsg));
    }

    /** `GET /movies` (as written, behind the unsupported handler). With
        `?reviews=true` every movie comes once, with its average rating, in
        non-increasing order of that average; otherwise as plain documents. */
    method ListMovies(reviewsQuery: Option<string>) returns (resp: Response)
      ensures resp.status == 200
      ensures reviewsQuery == Some("true") ==>
        && resp.body.RatedList?
        && SortedByRating(resp.body.views)
        && (forall v :: v in resp.body.views ==> v.id in movies && v == Enrich(v.id, movies[v.id], reviews))
        && (forall id :: id in movies ==> multiset(resp.body.views)[Enrich(id, movies[id], reviews)] == 1)
      ensures reviewsQuery != Some("true") ==>
        && resp.body.MovieList?
        && (forall d :: d in resp.body.docs ==> d.id in movies && d.movie == movies[d.id])
        && (forall id :: id in movies ==> multiset(resp.body.docs)[MovieDoc(id, movies[id])] == 1)
    {
      var ids := StoreOrder(movies);
      if reviewsQuery == Some("true") {
        RatedListingSpec(ids, movies, reviews);
        resp := Response(200, RatedList(RatedListing(ids, movies, reviews)));
      } else {
        PlainListingSpec(ids, movies);
        resp := Response(200, MovieList(Plain(ids, movies)));
      }
    }

    /** `GET /movies/:id`: always joined; 404 exactly when no movie has the id. */
    method GetMovie(id: Id) returns (resp: Response)
      ensures resp.status == 404 <==> id !in movies
      ensures id !in movies ==> resp == Response(404, Message(false, MovieNotFoundMsg))
      ensures id in movies ==> resp == Response(200, RatedMovie(Enrich(id, movies[id], reviews)))
    {
      var ids := StoreOrder(movies);
      var found := Detail(ids, movies, reviews, id);
      DetailSpec(ids, movies, reviews, id);
      if |found| == 0 {
        return Response(404, Message(false, MovieNotFoundMsg));
      }
      resp := Response(200, RatedMovie(found[0]));
    }
  }

  /** A client session: sign up twice with one username, then sign in with
      the wrong and with the right password; a movie created beside an
      existing review of another movie has no reviews and no average.
      `matches` stands for an exact password check. */
  method SessionWalkthrough(sign: (Claims, nat) -> string) {
    var service := new Service([Review(0, 4)], 1);
    var matches := (u: User, p: string) => u.password == p;
    var r := service.Signup(UserForm(None, Some("alice"), Some("pw")));
    assert r.status == 201;
    assert UsernameTaken(service.users, "alice");
    r := service.Signup(UserForm(None, Some("alice"), Some("pw2")));
    assert r.status == 409;
    var stored := service.users[1];
    assert stored.password == "pw";
    r := service.Signin("alice", "pw2", matches, sign);
    assert r == Response(401, Msg(false, IncorrectPasswordMsg));
    r := service.Signin("alice", "pw", matches, sign);
    assert r.status == 200;
    r := service.CreateMovie(MovieForm(Some("Heat"), Some(["Al Pacino"])));
    assert r.status == 201;
    r := service.GetMovie(r.body.doc.id);
    assert r.status == 200 && r.body.view.movieReviews == [] && r.body.view.avgRating == None;
  }
}
