# Movie service route handlers, modelled in Dafny

This project models the decision rules of an Express movie-catalog service
(`server.js`). The service handles accounts (signup, signin, update and
delete by id), movies (create and delete by id), and a rating aggregation
that joins movies to a separate reviews collection at read time. The model
replaces the Mongo collections with an in-memory store: class
`Server.Service` holds `users: map<Id, User>`, `movies: map<Id, Movie>`,
`reviews: seq<Review>` and a counter `nextId` that hands out fresh document
identities. Each route handler is a method that returns a `Response`, which
pairs a status with a JSON body. The join, the mean and the sort are pure
functions. Each pipeline is proved correct over any order in which the store
may return the movies.

Modules:

- `Domain` (domain.dfy): the entities, request bodies as optional fields,
  JavaScript truthiness (`undefined` and `""` are falsy), responses, and
  `StoreOrder`, the unspecified order in which a collection is returned.
- `Accounts` (accounts.dfy): which bodies the user handlers accept, the
  username-uniqueness invariant and why the handlers keep it, and the
  three-way signin decision.
- `Aggregation` (aggregation.dfy): `$lookup` as `Joined`, the path
  `$movieReviews.rating` as `RatingsOf`, `$avg` as the exact rational
  `Mean`, the two stages on one movie as `Enrich`, `$match` as `MatchId`,
  `$sort: {avgRating: -1}` as `SortByRating`, and the list and detail
  pipelines.
- `Routing` (routing.dfy): first-match dispatch over the registered route
  table, with the token guard as an abstract boolean.
- `Server` (server.dfy): the class and its handler methods, plus a client
  walkthrough: two signups with one username, then signin with a wrong and
  a right password, then the detail view of a new movie created beside an
  existing review of another movie.

Behaviour of the code worth noting:

- Signup checks only `username` and `password`. `name` is stored as given,
  possibly absent (server.js:39).
- No handler updates a movie. The comment at server.js:238 says "PUT", but
  the route it labels is `GET /movies/:id`.
- `$avg` over an empty match set yields `null`. The model writes this as
  `avgRating == None`, never 0.
- The code registers `GET /movies` and `POST /movies` first with handlers
  that always answer 500 (server.js:87-93). So the aggregation list handler
  (server.js:176) and the create handler (server.js:216) can never run.
  The second `/signup` (server.js:108) can never run either. The handler
  bodies are still modelled as methods; `Routing` proves that they are
  shadowed.
- The aggregation keeps the joined review documents: each movie of the
  list and detail views carries them as `movieReviews` beside
  `avgRating`, because no `$project` stage removes them.
- Signup and signin answer with the key `msg` (server.js:40, 52, 69, 79),
  the other handlers and the duplicate-username answer of signup with
  `message`. The model keeps the two shapes apart as `Msg` and `Message`.
- `findByIdAndUpdate` is subject to the unique index on `username`.
  Updating a user to a username another user holds fails in the store, and
  the catch block answers 500 "Failed to update user." (server.js:151-153).
  The model keeps that branch, so usernames stay unique.

## Model

| member | source | states |
|---|---|---|
| Domain.StoreOrder | server.js:204 | the store returns every stored document exactly once, in an order it does not promise |
| Accounts.InsertKeepsUnique | server.js:44-55 | inserting a user with a fresh id and an unused username keeps all usernames distinct |
| Accounts.ReplaceKeepsUnique | server.js:140-144 | replacing one record with a username no other record holds keeps all usernames distinct |
| Accounts.SigninDecision | server.js:68-80 | status 200 iff a user was found and the password check passed; otherwise 401, with "User not found" exactly when no user was found; on success the token is "JWT " followed by the signature of {id, username} with a one-hour lifetime |
| Aggregation.Joined | server.js:182-187 | the join attaches to a movie only reviews whose movieId is its id, never more reviews than the collection holds |
| Aggregation.JoinedMembers | server.js:182-187 | a review is attached to a movie iff it is in the collection and refers to that movie |
| Aggregation.JoinedCount | server.js:182-187 | the join keeps each review of the movie exactly as often as the collection holds it, and no other review |
| Aggregation.JoinedAppend | server.js:182-187 | the join of a split reviews collection is the concatenation of the joins of its parts |
| Aggregation.RatingsMembers | server.js:190-192 | a rating takes part in a movie's average iff some review with that movieId carries it |
| Aggregation.RatingsAppend | server.js:190-192 | the ratings of a split reviews collection are the concatenation of the ratings of its parts |
| Aggregation.Mean | server.js:190-192 | the mean is absent iff there are no ratings; otherwise mean times count equals the sum |
| Aggregation.MeanWithin | server.js:190-192 | the mean lies between any lower and any upper bound of the ratings |
| Aggregation.AvgRatingSpec | server.js:180-192 | avgRating is absent iff no review refers to the movie; otherwise avgRating times the number of matched reviews is their rating sum |
| Aggregation.AvgIgnoresOtherMovies | server.js:245-256 | adding a review of another movie, at either end, leaves a movie's avgRating unchanged |
| Aggregation.AvgRatingExample | server.js:253-256 | reviews rated 3 and 5 give avgRating 4, a movie without reviews gets none, and ratings 5, 5 and 2 give 4 |
| Aggregation.Enrich | server.js:182-192 | a movie keeps its id and fields and carries exactly the reviews that refer to it, each as often as the collection holds it; avgRating is the mean of their ratings, absent iff none refer to it |
| Aggregation.Lookup | server.js:245-257 | the join-and-derive stages keep the input order and enrich each movie with its own avgRating |
| Aggregation.LookupCount | server.js:245-257 | each stored movie occurs in the joined sequence exactly as often as its id is input |
| Aggregation.MatchId | server.js:244 | the match stage yields only the requested id, and yields nothing iff the id is not among the documents |
| Aggregation.MatchIdEnumerated | server.js:244 | over the store's documents, `$match` on `_id` yields the one matching id, or nothing |
| Aggregation.Detail | server.js:243-258 | the detail pipeline yields nothing iff the id is not among the documents, and otherwise only that stored movie, enriched |
| Aggregation.DetailSpec | server.js:243-263 | the detail pipeline yields nothing iff no movie has the id, and otherwise only that movie, enriched |
| Aggregation.Insert | server.js:194-196 | inserting into a list sorted by descending avgRating keeps it sorted and adds exactly that element |
| Aggregation.SortByRating | server.js:194-196 | the result is a permutation of the input, non-increasing in avgRating, with movies lacking an average last |
| Aggregation.LookupMembers | server.js:182-192 | every element of the joined sequence is a stored movie enriched with its own reviews |
| Aggregation.RatedListing | server.js:180-197 | the list pipeline yields a permutation of the enriched input movies, sorted by non-increasing avgRating, each a stored movie enriched with its own reviews |
| Aggregation.RatedListingSpec | server.js:180-200 | the list view holds every stored movie exactly once, each with its own avgRating, in non-increasing order |
| Aggregation.Plain | server.js:204-205 | the plain list keeps the store order and holds each movie document without avgRating |
| Aggregation.PlainListingSpec | server.js:204-205 | the plain list holds every stored movie exactly once |
| Routing.FirstMatch | server.js:87-93 | the chosen route matches the request and no earlier route does; no route is chosen iff none matches |
| Routing.Dispatch | server.js:87-93 | a request finds no route iff no registered route matches; otherwise the first matching route answers, with 401 when it is guarded and the token is rejected |
| Routing.HandlerRegisteredOnce | server.js:108-236 | the list, create and second signup handlers are each registered at one position of the table only |
| Routing.Shadowed | server.js:108-129 | a route registered after one with the same verb and pattern is never chosen |
| Routing.ShadowedHandlersNeverRun | server.js:176-236 | no request ever runs the list-with-reviews handler, the create-movie handler or the second signup handler |
| Routing.Unsupported | server.js:87-93 | the handlers registered first for GET and POST on /movies always answer 500 |
| Routing.MovieCollectionUnsupported | server.js:87-93 | GET and POST /movies reach only the unsupported handlers, or 401 without a valid token |
| Routing.DetailAndSignupReachable | server.js:239 | GET /movies/:id reaches the detail handler, and POST /signup reaches the first signup handler without a token |
| Routing.IntendedReachesMovieHandlers | server.js:176-236 | with the two unsupported handlers removed, GET and POST /movies reach the list and create handlers |
| Server.Service.constructor | server.js:224-229 | the store starts empty beside the reviews collection, with the counter past every movie identity a review refers to |
| Server.Service.FreshId | server.js:224-229 | a new document identity differs from every stored user and movie identity and from every movie identity a review refers to |
| Server.Service.Signup | server.js:38-61 | a missing or empty username or password gives 400 whatever the store holds; a taken username gives 409; otherwise 201 and exactly one new user under a fresh id, the counter advanced by one; an error changes nothing; usernames stay unique |
| Server.Service.FindByUsername | server.js:66 | the returned id belongs to a user with that username, and none is returned only if no user has it |
| Server.Service.Signin | server.js:64-85 | unknown username gives 401 "User not found"; a failed password check gives 401 "Incorrect password"; otherwise 200 with "JWT " and the signed {id, username}; no state is touched |
| Server.Service.UpdateUser | server.js:132-155 | 400 unless name, username and password are all non-empty; 404 for an absent id; 500 when another user holds the username; otherwise exactly that record is replaced by the three fields; an error changes nothing |
| Server.Service.DeleteUser | server.js:159-172 | an absent id gives 404 and no change; a present id gives 200 and removes exactly that record |
| Server.Service.CreateMovie | server.js:216-236 | a missing or empty title, or missing or empty actors, gives 400 before any insert; otherwise 201 with exactly one new movie under a fresh id, which is returned and which no review refers to, so its view has no reviews and no avgRating |
| Server.Service.DeleteMovie | server.js:273-286 | an absent id gives 404 and no change; a present id gives 200 and removes exactly that movie, leaving its reviews |
| Server.Service.ListMovies | server.js:176-212 | with reviews=true every movie appears once, with its avgRating, in non-increasing order; otherwise every movie appears once as a plain document |
| Server.Service.GetMovie | server.js:239-270 | 404 iff no movie has the id; otherwise 200 with that movie, its reviews and its avgRating |

## Left out

- HTTP plumbing: body parsing, CORS, Passport setup and `app.listen`
  (server.js:1-21, 289-296). Requests are given to the handlers as already
  decoded fields.
- `mongoose.connect` and the connection string (server.js:23-34), which are
  network I/O.
- Persistence failures that the catch blocks turn into 500, and `ObjectId`
  parsing failures (server.js:241). These are library behaviour and depend
  on the database at run time. The one 500 that is kept is the unique index
  rejecting an update.
- Password hashing and `comparePassword`. The `Users` module is not part of
  this model. The password check is a function parameter `matches`, and
  stored passwords are kept as given.
- `jwt.sign`, the signing secret, and token verification by the
  `auth_jwt` guard. The `auth_jwt` module is not part of this model. The
  signer is a function parameter `sign`, which receives the claims and the
  3600-second lifetime. The guard is the boolean `authenticated` in
  `Routing.Dispatch`.
- `GET /users` (server.js:97-105) is not part of this model.
- Request body fields are strings or absent. Other JSON values are not
  modelled: falsy ones such as `null`, `0` and `false`, and truthy ones
  such as a string `actors`, which passes `actors.length === 0` at
  server.js:219. The model has no dynamic JSON values.
- Server.Service.Signin: takes `username` and `password` as present
  strings. A signin body without them is not modelled, because what the
  filter `{username: undefined}` matches depends on the Mongoose
  configuration.
- Routing.PatternMatches: path matching is case-sensitive and ignores
  trailing slashes. Express's default case-insensitive matching is not
  modelled, because the model has no case folding of strings.
- Ratings are integers and every review has one. Non-numeric or missing
  ratings, which `$avg` skips, are not modelled. The mean is an exact
  rational, not a floating-point number.
- The tie order of `$sort` among movies with equal averages is unspecified.
  `SortByRating` picks one admissible order, and the list contracts allow
  any.
- Concurrency: the unique index settles concurrent signups atomically. The
  model runs handlers one at a time and keeps uniqueness as a class
  invariant.
- Logging (`console.error`).

## Findings

| source | as written | input that shows it | evidently intended | confidence | as-written member | corrected member |
|---|---|---|---|---|---|---|
| server.js:87-93 | `GET /movies` and `POST /movies` are first registered with handlers that always answer 500, so the list and create handlers at server.js:176 and server.js:216 never run | an authenticated `GET /movies?reviews=true` answers 500 "GET request not supported" | the list and create handlers answer the movie collection | medium, not executed | Routing.ShadowedHandlersNeverRun | Routing.IntendedReachesMovieHandlers |
