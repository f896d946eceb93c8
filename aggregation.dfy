/** The read-time rating aggregation of the movie catalog: an equality join of
    movies to reviews on `movieId`, the mean of the matched ratings as the
    derived field `avgRating`, and the descending sort of the list view. */
module Aggregation {
  import opened Domain

  const MovieNotFoundMsg := "Movie not found."

  /** `$lookup` from `reviews` on `movieId`, `as: 'movieReviews'`: the reviews
      of the movie `id`, in collection order. */
  function Joined(id: Id, reviews: seq<Review>): (j: seq<Review>)
    ensures |j| <= |reviews|
    ensures forall k :: 0 <= k < |j| ==> j[k].movieId == id
  {
    if reviews == [] then []
    else (if reviews[0].movieId == id then [reviews[0]] else []) + Joined(id, reviews[1..])
  }

  /** Exactly the reviews of the movie take part in the join. */
  lemma {:induction false} JoinedMembers(id: Id, reviews: seq<Review>)
    ensures forall v :: v in Joined(id, reviews) <==> v in reviews && v.movieId == id
  {
    if reviews != [] {
      JoinedMembers(id, reviews[1..]);
      assert reviews == [reviews[0]] + reviews[1..];
    }
  }

  /** `s` holds each review of movie `id` as often as `reviews` does, and no other review. */
  ghost predicate CountsOf(s: seq<Review>, id: Id, reviews: seq<Review>) {
    forall r :: multiset(s)[r] == (if r.movieId == id then multiset(reviews)[r] else 0)
  }

  /** The join keeps every review of the movie as often as the collection holds it. */
  lemma {:induction false} JoinedCount(id: Id, reviews: seq<Review>)
    ensures CountsOf(Joined(id, reviews), id, reviews)
  {
    if reviews != [] {
      JoinedCount(id, reviews[1..]);
      assert reviews == [reviews[0]] + reviews[1..];
    }
  }

  /** The join is computed review by review: splitting the reviews collection splits the match set. */
  lemma {:induction false} JoinedAppend(id: Id, a: seq<Review>, b: seq<Review>)
    ensures Joined(id, a + b) == Joined(id, a) + Joined(id, b)
  {
    if a == [] {
      assert a + b == b;
    } else {
      var c := a + b;
      assert c[0] == a[0] && c[1..] == a[1..] + b;
      JoinedAppend(id, a[1..], b);
      var h := if a[0].movieId == id then [a[0]] else [];
      calc {
        Joined(id, c);
        h + Joined(id, a[1..] + b);
        h + (Joined(id, a[1..]) + Joined(id, b));
        (h + Joined(id, a[1..])) + Joined(id, b);
      }
    }
  }

  /** The path `$movieReviews.rating`: the rating of each attached review. */
  function RatingsOf(rs: seq<Review>): seq<int> {
    seq(|rs|, k requires 0 <= k < |rs| => rs[k].rating)
  }

  /** The ratings the average of movie `id` is taken over. */
  function Ratings(id: Id, reviews: seq<Review>): seq<int> {
    RatingsOf(Joined(id, reviews))
  }

  /** A rating takes part in a movie's average iff some review of that movie carries it. */
  lemma RatingsMembers(id: Id, reviews: seq<Review>, x: int)
    ensures x in Ratings(id, reviews) <==>
      exists i :: 0 <= i < |reviews| && reviews[i].movieId == id && reviews[i].rating == x
  {
    var j := Joined(id, reviews);
    JoinedMembers(id, reviews);
    if x in Ratings(id, reviews) {
      var k :| 0 <= k < |j| && Ratings(id, reviews)[k] == x;
      assert j[k] in j;
      var i :| 0 <= i < |reviews| && reviews[i] == j[k];
    }
    if exists i :: 0 <= i < |reviews| && reviews[i].movieId == id && reviews[i].rating == x {
      var i :| 0 <= i < |reviews| && reviews[i].movieId == id && reviews[i].rating == x;
      assert reviews[i] in j;
      var k :| 0 <= k < |j| && j[k] == reviews[i];
      assert Ratings(id, reviews)[k] == x;
    }
  }

  /** Splitting the reviews collection splits the ratings of a movie. */
  lemma RatingsAppend(id: Id, a: seq<Review>, b: seq<Review>)
    ensures Ratings(id, a + b) == Ratings(id, a) + Ratings(id, b)
  {
    JoinedAppend(id, a, b);
    var x, y := Joined(id, a), Joined(id, b);
    assert RatingsOf(x + y) == RatingsOf(x) + RatingsOf(y);
  }

  function Sum(s: seq<int>): int {
    if s == [] then 0 else s[0] + Sum(s[1..])
  }

  /** `$avg` over the matched ratings, as an exact rational: null on an empty match set. */
  function Mean(s: seq<int>): (m: Option<real>)
    ensures m.None? <==> s == []
    ensures m.Some? ==> m.value * (|s| as real) == Sum(s) as real
  {
    if s == [] then None else Some(Sum(s) as real / |s| as real)
  }

  lemma {:induction false} SumBounds(s: seq<int>, lo: int, hi: int)
    requires forall i :: 0 <= i < |s| ==> lo <= s[i] <= hi
    ensures |s| * lo <= Sum(s) <= |s| * hi
  {
    if s != [] {
      SumBounds(s[1..], lo, hi);
      assert |s| * lo == lo + (|s| - 1) * lo;
      assert |s| * hi == hi + (|s| - 1) * hi;
    }
  }

  /** The mean lies between any lower and upper bound of the ratings. */
  lemma MeanWithin(s: seq<int>, lo: int, hi: int)
    requires s != []
    requires forall i :: 0 <= i < |s| ==> lo <= s[i] <= hi
    ensures lo as real <= Mean(s).value <= hi as real
  {
    SumBounds(s, lo, hi);
    var n := |s| as real;
    assert (lo as real) * n <= Sum(s) as real <= (hi as real) * n;
    QuotientBounds(Sum(s) as real, n, lo as real, hi as real);
  }

  lemma QuotientBounds(x: real, n: real, lo: real, hi: real)
    requires n > 0.0 && lo * n <= x <= hi * n
    ensures lo <= x / n <= hi
  {
  }

  /** The derived field of a movie: the mean rating of its reviews. */
  function AvgRating(id: Id, reviews: seq<Review>): Option<real> {
    Mean(Ratings(id, reviews))
  }

  /** `avgRating` is absent exactly when no review refers to the movie, and
      otherwise times the number of matched reviews gives their rating sum. */
  lemma AvgRatingSpec(id: Id, reviews: seq<Review>)
    ensures AvgRating(id, reviews).None? <==>
      forall i :: 0 <= i < |reviews| ==> reviews[i].movieId != id
    ensures AvgRating(id, reviews).Some? ==>
      AvgRating(id, reviews).value * (|Ratings(id, reviews)| as real) == Sum(Ratings(id, reviews)) as real
  {
    var r := Ratings(id, reviews);
    if r != [] {
      RatingsMembers(id, reviews, r[0]);
    } else {
      forall i | 0 <= i < |reviews| ensures reviews[i].movieId != id {
        RatingsMembers(id, reviews, reviews[i].rating);
      }
    }
  }

  /** Reviews of other movies never change a movie's average. */
  lemma AvgIgnoresOtherMovies(id: Id, reviews: seq<Review>, other: Review)
    requires other.movieId != id
    ensures AvgRating(id, reviews + [other]) == AvgRating(id, reviews)
    ensures AvgRating(id, [other] + reviews) == AvgRating(id, reviews)
  {
    assert [other][1..] == [];
    assert Ratings(id, [other]) == [];
    RatingsAppend(id, reviews, [other]);
    RatingsAppend(id, [other], reviews);
    assert Ratings(id, reviews) + [] == Ratings(id, reviews);
    assert [] + Ratings(id, reviews) == Ratings(id, reviews);
  }

  /** With reviews rated 3 and 5 a movie averages 4; a movie without reviews has no average;
      two equal reviews both count, so ratings 5, 5 and 2 average 4. */
  lemma AvgRatingExample()
    ensures AvgRating(1, [Review(1, 3), Review(2, 1), Review(1, 5)]) == Some(4.0)
    ensures AvgRating(3, [Review(1, 3), Review(2, 1), Review(1, 5)]) == None
    ensures AvgRating(1, [Review(1, 5), Review(1, 5), Review(1, 2)]) == Some(4.0)
  {
  }

  /** `$lookup` and `$addFields` on one movie: it carries exactly the reviews
      that refer to it, each as often as the collection holds it, and the mean
      of their ratings, null when there are none. */
  function Enrich(id: Id, m: Movie, reviews: seq<Review>): (v: MovieView)
    ensures v.id == id && v.movie == m
    ensures forall r :: r in v.movieReviews <==> r in reviews && r.movieId == id
    ensures CountsOf(v.movieReviews, id, reviews)
    ensures v.avgRating == Mean(RatingsOf(v.movieReviews))
    ensures v.avgRating.None? <==> v.movieReviews == []
  {
    JoinedMembers(id, reviews);
    JoinedCount(id, reviews);
    MovieView(id, m, Joined(id, reviews), AvgRating(id, reviews))
  }

  predicate AllStored(ids: seq<Id>, movies: map<Id, Movie>) {
    forall i :: 0 <= i < |ids| ==> ids[i] in movies
  }

  /** The join and derivation stages applied to the movies `ids`, in that order. */
  function Lookup(ids: seq<Id>, movies: map<Id, Movie>, reviews: seq<Review>): (r: seq<MovieView>)
    requires AllStored(ids, movies)
    ensures |r| == |ids|
    ensures forall i :: 0 <= i < |ids| ==> r[i] == Enrich(ids[i], movies[ids[i]], reviews)
  {
    if ids == [] then []
    else [Enrich(ids[0], movies[ids[0]], reviews)] + Lookup(ids[1..], movies, reviews)
  }

  /** Each stored movie occurs in the joined sequence as often as its id occurs in `ids`. */
  lemma {:induction false} LookupCount(ids: seq<Id>, movies: map<Id, Movie>, reviews: seq<Review>, id: Id)
    requires AllStored(ids, movies) && id in movies
    requires forall i, j :: 0 <= i < j < |ids| ==> ids[i] != ids[j]
    ensures multiset(Lookup(ids, movies, reviews))[Enrich(id, movies[id], reviews)] ==
      if id in ids then 1 else 0
  {
    if ids != [] {
      LookupCount(ids[1..], movies, reviews, id);
      assert Lookup(ids, movies, reviews) ==
        [Enrich(ids[0], movies[ids[0]], reviews)] + Lookup(ids[1..], movies, reviews);
      assert id in ids <==> id == ids[0] || id in ids[1..];
      if id == ids[0] {
        assert id !in ids[1..] by {
          forall k | 0 <= k < |ids[1..]| ensures ids[1..][k] != id {
            assert ids[1..][k] == ids[k + 1];
          }
        }
      }
    }
  }

  /** `$match: {_id}`: the ids equal to `id`. */
  function MatchId(ids: seq<Id>, id: Id): (r: seq<Id>)
    ensures forall k :: 0 <= k < |r| ==> r[k] == id
    ensures r == [] <==> id !in ids
  {
    if ids == [] then []
    else (if ids[0] == id then [ids[0]] else []) + MatchId(ids[1..], id)
  }

  /** Over an enumeration of the store, the match stage finds the one movie with that id, or none. */
  lemma {:induction false} MatchIdEnumerated(ids: seq<Id>, id: Id)
    requires forall i, j :: 0 <= i < j < |ids| ==> ids[i] != ids[j]
    ensures MatchId(ids, id) == if id in ids then [id] else []
  {
    if ids != [] {
      MatchIdEnumerated(ids[1..], id);
      if ids[0] == id {
        assert id !in ids[1..] by {
          forall k | 0 <= k < |ids[1..]| ensures ids[1..][k] != id {
            assert ids[1..][k] == ids[k + 1];
          }
        }
      } else {
        assert id in ids <==> id in ids[1..];
      }
    }
  }

  /** The pipeline of the detail view: match, join, derive. */
  function Detail(ids: seq<Id>, movies: map<Id, Movie>, reviews: seq<Review>, id: Id): (r: seq<MovieView>)
    requires AllStored(ids, movies)
    ensures r == [] <==> id !in ids
    ensures forall k :: 0 <= k < |r| ==> id in movies && r[k] == Enrich(id, movies[id], reviews)
  {
    MatchedStored(ids, movies, id);
    Lookup(MatchId(ids, id), movies, reviews)
  }

  lemma MatchedStored(ids: seq<Id>, movies: map<Id, Movie>, id: Id)
    requires AllStored(ids, movies)
    ensures AllStored(MatchId(ids, id), movies)
    ensures forall i :: 0 <= i < |MatchId(ids, id)| ==> MatchId(ids, id)[i] == id
  {
  }

  /** The detail pipeline yields nothing iff no movie has the id, and otherwise only that movie, enriched. */
  lemma DetailSpec(ids: seq<Id>, movies: map<Id, Movie>, reviews: seq<Review>, id: Id)
    requires Enumerates(ids, movies.Keys)
    ensures Detail(ids, movies, reviews, id) ==
      if id in movies then [Enrich(id, movies[id], reviews)] else []
  {
    MatchIdEnumerated(ids, id);
    MatchedStored(ids, movies, id);
  }

  /** `$sort: {avgRating: -1}`: `a` may come before `b`. A missing average is the lowest value. */
  predicate RanksAbove(a: Option<real>, b: Option<real>) {
    b.None? || (a.Some? && a.value >= b.value)
  }

  predicate SortedByRating(s: seq<MovieView>) {
    forall i, j :: 0 <= i < j < |s| ==> RanksAbove(s[i].avgRating, s[j].avgRating)
  }

  function Insert(x: MovieView, s: seq<MovieView>): (r: seq<MovieView>)
    requires SortedByRating(s)
    ensures SortedByRating(r)
    ensures multiset(r) == multiset(s) + multiset{x}
  {
    if s == [] then [x]
    else if RanksAbove(x.avgRating, s[0].avgRating) then [x] + s
    else
      var rest := Insert(x, s[1..]);
      InsertBehind(x, s, rest);
      [s[0]] + rest
  }

  /** Putting the head of a sorted `s` in front of `x` inserted into the tail keeps the order. */
  lemma InsertBehind(x: MovieView, s: seq<MovieView>, rest: seq<MovieView>)
    requires s != [] && SortedByRating(s) && !RanksAbove(x.avgRating, s[0].avgRating)
    requires SortedByRating(rest) && multiset(rest) == multiset(s[1..]) + multiset{x}
    ensures SortedByRating([s[0]] + rest)
    ensures multiset([s[0]] + rest) == multiset(s) + multiset{x}
  {
    assert s == [s[0]] + s[1..];
    forall j | 0 <= j < |rest| ensures RanksAbove(s[0].avgRating, rest[j].avgRating) {
      assert rest[j] in multiset(rest);
      if rest[j] != x {
        assert rest[j] in multiset(s[1..]);
        var k :| 0 <= k < |s[1..]| && s[1..][k] == rest[j];
        assert s[k + 1] == rest[j];
      }
    }
    var r := [s[0]] + rest;
    forall i, j | 0 <= i < j < |r| ensures RanksAbove(r[i].avgRating, r[j].avgRating) {
      if i > 0 {
        assert r[i] == rest[i - 1] && r[j] == rest[j - 1];
      } else {
        assert r[j] == rest[j - 1];
      }
    }
  }

  /** The list view's order: non-increasing `avgRating`, movies without an average last. */
  function SortByRating(s: seq<MovieView>): (r: seq<MovieView>)
    ensures SortedByRating(r)
    ensures multiset(r) == multiset(s)
    ensures forall i, j :: 0 <= i < j < |r| && r[i].avgRating.None? ==> r[j].avgRating.None?
  {
    if s == [] then [] else
      assert s == [s[0]] + s[1..];
      Insert(s[0], SortByRating(s[1..]))
  }

  /** The pipeline of the list view with reviews: join, derive, sort. */
  function RatedListing(ids: seq<Id>, movies: map<Id, Movie>, reviews: seq<Review>): (r: seq<MovieView>)
    requires AllStored(ids, movies)
    ensures SortedByRating(r)
    ensures multiset(r) == multiset(Lookup(ids, movies, reviews))
    ensures |r| == |ids|
    ensures forall v :: v in r ==> v.id in movies && v == Enrich(v.id, movies[v.id], reviews)
  {
    LookupMembers(ids, movies, reviews);
    SortByRating(Lookup(ids, movies, reviews))
  }

  /** Every element of the joined sequence is a stored movie, enriched. */
  lemma LookupMembers(ids: seq<Id>, movies: map<Id, Movie>, reviews: seq<Review>)
    requires AllStored(ids, movies)
    ensures forall v :: v in multiset(Lookup(ids, movies, reviews)) ==>
      v.id in movies && v == Enrich(v.id, movies[v.id], reviews)
  {
  }

  /** Over an enumeration of the store the list view holds every stored movie
      exactly once, each enriched with its own average, in non-increasing order. */
  lemma RatedListingSpec(ids: seq<Id>, movies: map<Id, Movie>, reviews: seq<Review>)
    requires Enumerates(ids, movies.Keys)
    ensures SortedByRating(RatedListing(ids, movies, reviews))
    ensures forall v :: v in RatedListing(ids, movies, reviews) ==>
      v.id in movies && v == Enrich(v.id, movies[v.id], reviews)
    ensures forall id :: id in movies ==>
      multiset(RatedListing(ids, movies, reviews))[Enrich(id, movies[id], reviews)] == 1
  {
    var r := RatedListing(ids, movies, reviews);
    forall id | id in movies
      ensures multiset(r)[Enrich(id, movies[id], reviews)] == 1
    {
      LookupCount(ids, movies, reviews, id);
    }
  }

  /** `Movie.find()`: the stored movies `ids` as plain documents, without `avgRating`. */
  function Plain(ids: seq<Id>, movies: map<Id, Movie>): (r: seq<MovieDoc>)
    requires AllStored(ids, movies)
    ensures |r| == |ids|
    ensures forall i :: 0 <= i < |ids| ==> r[i] == MovieDoc(ids[i], movies[ids[i]])
  {
    if ids == [] then [] else [MovieDoc(ids[0], movies[ids[0]])] + Plain(ids[1..], movies)
  }

  /** Over an enumeration of the store the plain list holds every stored movie exactly once. */
  lemma PlainListingSpec(ids: seq<Id>, movies: map<Id, Movie>)
    requires Enumerates(ids, movies.Keys)
    ensures forall d :: d in Plain(ids, movies) ==> d.id in movies && d.movie == movies[d.id]
    ensures forall id :: id in movies ==> multiset(Plain(ids, movies))[MovieDoc(id, movies[id])] == 1
  {
    forall id | id in movies ensures multiset(Plain(ids, movies))[MovieDoc(id, movies[id])] == 1 {
      PlainCount(ids, movies, id);
    }
  }

  lemma {:induction false} PlainCount(ids: seq<Id>, movies: map<Id, Movie>, id: Id)
    requires AllStored(ids, movies) && id in movies
    requires forall i, j :: 0 <= i < j < |ids| ==> ids[i] != ids[j]
    ensures multiset(Plain(ids, movies))[MovieDoc(id, movies[id])] == if id in ids then 1 else 0
  {
    if ids != [] {
      PlainCount(ids[1..], movies, id);
      assert Plain(ids, movies) == [MovieDoc(ids[0], movies[ids[0]])] + Plain(ids[1..], movies);
      assert id in ids <==> id == ids[0] || id in ids[1..];
      if id == ids[0] {
        assert id !in ids[1..] by {
          forall k | 0 <= k < |ids[1..]| ensures ids[1..][k] != id {
            assert ids[1..][k] == ids[k + 1];
          }
        }
      }
    }
  }
}
