/** Request dispatch as the router performs it: routes are tried in
    registration order and the first whose verb and path pattern match answers
    the request. A guarded route whose token check fails answers 401 itself. */
module Routing {
  import opened Domain

  datatype Verb = Get | Post | Put | Delete

  /** A path segment pattern: a literal, or a named parameter such as `:id`. */
  datatype Segment = Lit(name: string) | Param

  datatype Handler =
    | SignupHandler
    | SigninHandler
    | MoviesGetUnsupported
    | MoviesPostUnsupported
    | ListUsersHandler
    | SignupAgainHandler
    | UpdateUserHandler
    | DeleteUserHandler
    | ListMoviesHandler
    | CreateMovieHandler
    | GetMovieHandler
    | DeleteMovieHandler

  /** `guarded` routes run the token check before their handler. */
  datatype Route = Route(verb: Verb, pattern: seq<Segment>, guarded: bool, handler: Handler)

  /** The routes of the service, in the order they are registered. */
  const Registered: seq<Route> := [
    Route(Post, [Lit("signup")], false, SignupHandler),
    Route(Post, [Lit("signin")], false, SigninHandler),
    Route(Get, [Lit("movies")], true, MoviesGetUnsupported),
    Route(Post, [Lit("movies")], true, MoviesPostUnsupported),
    Route(Get, [Lit("users")], true, ListUsersHandler),
    Route(Post, [Lit("signup")], false, SignupAgainHandler),
    Route(Put, [Lit("users"), Param], true, UpdateUserHandler),
    Route(Delete, [Lit("users"), Param], true, DeleteUserHandler),
    Route(Get, [Lit("movies")], true, ListMoviesHandler),
    Route(Post, [Lit("movies")], true, CreateMovieHandler),
    Route(Get, [Lit("movies"), Param], true, GetMovieHandler),
    Route(Delete, [Lit("movies"), Param], true, DeleteMovieHandler)
  ]

  /** A pattern matches a path of as many segments; a parameter takes any non-empty segment. */
  predicate PatternMatches(pattern: seq<Segment>, path: seq<string>) {
    |pattern| == |path| &&
    forall i :: 0 <= i < |pattern| ==>
      match pattern[i]
      case Lit(name) => path[i] == name
      case Param => path[i] != ""
  }

  predicate RouteMatches(r: Route, verb: Verb, path: seq<string>) {
    r.verb == verb && PatternMatches(r.pattern, path)
  }

  /** The index of the first route, at `from` or later, that matches the request. */
  function FirstMatch(routes: seq<Route>, verb: Verb, path: seq<string>, from: nat): (r: Option<nat>)
    requires from <= |routes|
    ensures r.Some? ==> from <= r.value < |routes| && RouteMatches(routes[r.value], verb, path)
    ensures r.Some? ==> forall k :: from <= k < r.value ==> !RouteMatches(routes[k], verb, path)
    ensures r.None? ==> forall k :: from <= k < |routes| ==> !RouteMatches(routes[k], verb, path)
    decreases |routes| - from
  {
    if from == |routes| then None
    else if RouteMatches(routes[from], verb, path) then Some(from)
    else FirstMatch(routes, verb, path, from + 1)
  }

  datatype Outcome =
    | NoRoute       // the framework's default 404
    | Unauthorized  // the token check rejected the request (401)
    | Run(handler: Handler)

  /** What answers a request under the route table `routes`. The token check
      is abstract: `authenticated` says whether the request carries a token
      that the guard accepts. */
  function Dispatch(routes: seq<Route>, verb: Verb, path: seq<string>, authenticated: bool): (r: Outcome)
    ensures r == NoRoute <==> forall k :: 0 <= k < |routes| ==> !RouteMatches(routes[k], verb, path)
    ensures r != NoRoute ==> exists k ::
      && 0 <= k < |routes| && RouteMatches(routes[k], verb, path)
      && (forall i :: 0 <= i < k ==> !RouteMatches(routes[i], verb, path))
      && r == (if routes[k].guarded && !authenticated then Unauthorized else Run(routes[k].handler))
  {
    match FirstMatch(routes, verb, path, 0)
    case None => NoRoute
    case Some(k) =>
      if routes[k].guarded && !authenticated then Unauthorized else Run(routes[k].handler)
  }

  /** A route registered after another one with the same verb and pattern is never chosen. */
  lemma Shadowed(routes: seq<Route>, i: nat, j: nat, verb: Verb, path: seq<string>)
    requires i < j < |routes|
    requires routes[i].verb == routes[j].verb && routes[i].pattern == routes[j].pattern
    ensures FirstMatch(routes, verb, path, 0) != Some(j)
  {
  }

  /** The list-with-reviews handler, the create-movie handler and the second
      signup handler can never run: earlier routes take all their requests. */
  lemma ShadowedHandlersNeverRun(verb: Verb, path: seq<string>, authenticated: bool)
    ensures Dispatch(Registered, verb, path, authenticated) != Run(ListMoviesHandler)
    ensures Dispatch(Registered, verb, path, authenticated) != Run(CreateMovieHandler)
    ensures Dispatch(Registered, verb, path, authenticated) != Run(SignupAgainHandler)
  {
    Shadowed(Registered, 2, 8, verb, path);
    Shadowed(Registered, 3, 9, verb, path);
    Shadowed(Registered, 0, 5, verb, path);
    var m := FirstMatch(Registered, verb, path, 0);
    if m.Some? {
      HandlerRegisteredOnce(m.value);
    }
  }

  /** Each of the three shadowed handlers is registered at one position only. */
  lemma HandlerRegisteredOnce(k: nat)
    requires k < |Registered|
    ensures Registered[k].handler == ListMoviesHandler ==> k == 8
    ensures Registered[k].handler == CreateMovieHandler ==> k == 9
    ensures Registered[k].handler == SignupAgainHandler ==> k == 5
  {
  }

  const GetUnsupportedMsg := "GET request not supported"
  const PostUnsupportedMsg := "POST request not supported"

  /** The handlers that take `GET /movies` and `POST /movies`: always 500. */
  function Unsupported(h: Handler): (r: Response)
    requires h == MoviesGetUnsupported || h == MoviesPostUnsupported
    ensures r.status == 500 && r.body.Message? && !r.body.success
  {
    if h == MoviesGetUnsupported then Response(500, Message(false, GetUnsupportedMsg))
    else Response(500, Message(false, PostUnsupportedMsg))
  }

  /** An authenticated `GET /movies` or `POST /movies` reaches only the unsupported handlers. */
  lemma MovieCollectionUnsupported(authenticated: bool)
    ensures Dispatch(Registered, Get, ["movies"], authenticated) ==
      if authenticated then Run(MoviesGetUnsupported) else Unauthorized
    ensures Dispatch(Registered, Post, ["movies"], authenticated) ==
      if authenticated then Run(MoviesPostUnsupported) else Unauthorized
  {
    assert RouteMatches(Registered[2], Get, ["movies"]);
    assert RouteMatches(Registered[3], Post, ["movies"]);
    assert !RouteMatches(Registered[0], Get, ["movies"]) && !RouteMatches(Registered[1], Get, ["movies"]);
    assert "signup"[0] != "movies"[0] && "signin"[0] != "movies"[0];
    assert Registered[0].pattern[0] == Lit("signup") && Registered[1].pattern[0] == Lit("signin");
    assert ["movies"][0] == "movies";
    assert !RouteMatches(Registered[0], Post, ["movies"]) && !RouteMatches(Registered[1], Post, ["movies"]);
    assert !RouteMatches(Registered[2], Post, ["movies"]);
  }

  /** A movie id in the path reaches the detail handler; `signup` needs no token. */
  lemma DetailAndSignupReachable(id: string, authenticated: bool)
    requires id != ""
    ensures Dispatch(Registered, Get, ["movies", id], authenticated) ==
      if authenticated then Run(GetMovieHandler) else Unauthorized
    ensures Dispatch(Registered, Post, ["signup"], authenticated) == Run(SignupHandler)
  {
    var p := ["movies", id];
    assert RouteMatches(Registered[10], Get, p);
    forall k | 0 <= k < 10 ensures !RouteMatches(Registered[k], Get, p) {
      assert Registered[k].verb != Get || |Registered[k].pattern| == 1;
    }
    assert RouteMatches(Registered[0], Post, ["signup"]);
  }

  /** The route table with the two unsupported handlers of the movie
      collection taken out, as the list and create handlers evidently intend. */
  const Intended: seq<Route> := Registered[..2] + Registered[4..]

  /** Under the intended table the list and create handlers answer the movie collection. */
  lemma IntendedReachesMovieHandlers(authenticated: bool)
    ensures Dispatch(Intended, Get, ["movies"], authenticated) ==
      if authenticated then Run(ListMoviesHandler) else Unauthorized
    ensures Dispatch(Intended, Post, ["movies"], authenticated) ==
      if authenticated then Run(CreateMovieHandler) else Unauthorized
  {
    var p := ["movies"];
    assert p[0] == "movies";
    assert "signup"[0] != "movies"[0] && "signin"[0] != "movies"[0] && "users"[0] != "movies"[0];
    assert Intended[6] == Registered[8] && Intended[7] == Registered[9];
    assert RouteMatches(Intended[6], Get, p);
    assert RouteMatches(Intended[7], Post, p);
    forall k | 0 <= k < 6 ensures !RouteMatches(Intended[k], Get, p) && !RouteMatches(Intended[k], Post, p) {
      assert Intended[k] == Registered[if k < 2 then k else k + 2];
      if |Intended[k].pattern| == 1 {
        assert Intended[k].pattern[0] in {Lit("signup"), Lit("signin"), Lit("users")};
      }
    }
  }
}
