/**
 * The search results page of `src/pages/Search.js`: the query taken from the navigation
 * state, the case-insensitive title filter over the page's three movies, and the seat
 * booking link built for every showtime of every result.
 */
module Search {
  import opened Wrappers
  import opened Strings

  datatype Movie = Movie(
    id: int,
    title: string,
    rating: string,
    runtime: string,
    genre: string,
    times: seq<string>)

  const AllMovies: seq<Movie> := [
    Movie(1, "The Great Gatsby", "PG-13", "2h 23min", "Drama, Romance", ["4:30 PM", "8:30 PM"]),
    Movie(2, "Wall-E", "G", "1h 38min", "Animation, Adventure", ["12:50 PM", "3:00 PM"]),
    Movie(3, "Cars", "G", "1h 57min", "Animation, Comedy", ["5:15 PM", "6:45 PM", "9:00 PM"])
  ]

  /** `location.state?.query || ""`: a missing or empty query reads as "". */
  function QueryOf(stateQuery: Option<string>): (query: string)
    ensures stateQuery.None? ==> query == ""
    ensures stateQuery.Some? ==> query == stateQuery.value
  {
    match stateQuery
    case None => ""
    case Some(q) => if q == "" then "" else q
  }

  /** The lower-cased title contains the lower-cased query. */
  predicate Matches(movie: Movie, query: string)
  {
    Includes(ToLower(movie.title), ToLower(query))
  }

  /** `allMovies.filter(movie => movie.title.toLowerCase().includes(query.toLowerCase()))`. */
  function Filter(movies: seq<Movie>, query: string): (results: seq<Movie>)
    ensures |results| <= |movies|
    ensures forall m :: m in results <==> m in movies && Matches(m, query)
  {
    if movies == [] then []
    else if Matches(movies[0], query) then [movies[0]] + Filter(movies[1..], query)
    else Filter(movies[1..], query)
  }

  /** `xs` is `ys` with some elements left out and the rest in their order. */
  ghost predicate SubsequenceOf<T>(xs: seq<T>, ys: seq<T>)
  {
    if xs == [] then true
    else if ys == [] then false
    else if xs[0] == ys[0] then SubsequenceOf(xs[1..], ys[1..])
    else SubsequenceOf(xs, ys[1..])
  }

  /** The results keep the page's order of the movies. */
  lemma {:induction false} FilterPreservesOrder(movies: seq<Movie>, query: string)
    ensures SubsequenceOf(Filter(movies, query), movies)
  {
    if movies != [] {
      FilterPreservesOrder(movies[1..], query);
      if !Matches(movies[0], query) {
        SubsequenceCons(Filter(movies[1..], query), movies[0], movies[1..]);
        assert [movies[0]] + movies[1..] == movies;
      }
    }
  }

  /** Putting an element in front of the longer list keeps a subsequence. */
  lemma {:induction false} SubsequenceCons<T>(xs: seq<T>, y: T, ys: seq<T>)
    requires SubsequenceOf(xs, ys)
    ensures SubsequenceOf(xs, [y] + ys)
    decreases |ys|, 1
  {
    assert ([y] + ys)[1..] == ys;
    if xs != [] && xs[0] == y {
      SubsequenceDropHead(xs, ys);
    }
  }

  /** Leaving out the head of the shorter list keeps a subsequence. */
  lemma {:induction false} SubsequenceDropHead<T>(xs: seq<T>, ys: seq<T>)
    requires xs != []
    requires SubsequenceOf(xs, ys)
    ensures SubsequenceOf(xs[1..], ys)
    decreases |ys|, 0
  {
    assert ys != [];
    assert [ys[0]] + ys[1..] == ys;
    if xs[0] == ys[0] {
      SubsequenceCons(xs[1..], ys[0], ys[1..]);
    } else {
      SubsequenceDropHead(xs, ys[1..]);
      SubsequenceCons(xs[1..], ys[0], ys[1..]);
    }
  }

  /** The empty query is found in every title, so it keeps every movie. */
  lemma {:induction false} EmptyQueryKeepsAll(movies: seq<Movie>)
    ensures Filter(movies, "") == movies
  {
    if movies != [] {
      assert OccursAt(ToLower(movies[0].title), ToLower(""), 0);
      EmptyQueryKeepsAll(movies[1..]);
    }
  }

  /** Reaching the page without a query lists all three movies. */
  lemma MissingQueryListsAll()
    ensures Filter(AllMovies, QueryOf(None)) == AllMovies
  {
    EmptyQueryKeepsAll(AllMovies);
  }

  // ---------------------------------------------------------------------------
  // Showtime links

  /** The route parameters of one showtime link, `/seat-booking/:theatreId/:movieId/:showtime`. */
  datatype SeatBookingLink = SeatBookingLink(theatreIndex: nat, movieIndex: nat, showtime: string)

  /** Every result's showtime links: theatre 0 and the movie's position among the results. */
  function ResultLinks(results: seq<Movie>): (links: seq<seq<SeatBookingLink>>)
    ensures |links| == |results|
    ensures forall i :: 0 <= i < |links| ==> |links[i]| == |results[i].times|
    ensures forall i, j :: 0 <= i < |links| && 0 <= j < |links[i]| ==>
      links[i][j] == SeatBookingLink(0, i, results[i].times[j])
  {
    seq(|results|, i requires 0 <= i < |results| =>
      seq(|results[i].times|, j requires 0 <= j < |results[i].times| =>
        SeatBookingLink(0, i, results[i].times[j])))
  }

  /** A searched "Cars" is the only result, so its links carry movie index 0, not its id 3. */
  lemma LinkIndexIsPosition()
    ensures Filter(AllMovies, "Cars") == [AllMovies[2]]
    ensures AllMovies[2].id == 3
    ensures ResultLinks(Filter(AllMovies, "Cars"))[0][0] == SeatBookingLink(0, 0, "5:15 PM")
  {
    assert ToLower("Cars") == "cars";
    assert OccursAt(ToLower(AllMovies[2].title), "cars", 0);
    LacksFirstChar(ToLower(AllMovies[0].title), "cars");
    LacksFirstChar(ToLower(AllMovies[1].title), "cars");
    assert AllMovies[1..][1..] == [AllMovies[2]];
  }

  /** A string without the needle's first character does not include the needle. */
  lemma LacksFirstChar(hay: string, needle: string)
    requires needle != []
    requires forall k :: 0 <= k < |hay| ==> hay[k] != needle[0]
    ensures !Includes(hay, needle)
  {
    forall i
      ensures !OccursAt(hay, needle, i)
    {
      if 0 <= i && i + |needle| <= |hay| {
        assert hay[i..i + |needle|][0] == hay[i];
      }
    }
  }

  /** No '/' in a string. */
  predicate SlashFree(s: string)
  {
    forall i :: 0 <= i < |s| ==> s[i] != '/'
  }

  /** The link's path; the showtime is put in as it is. */
  function LinkPath(link: SeatBookingLink): (path: string)
    ensures |path| >= |"/seat-booking/"| + |link.showtime|
    ensures path[..|"/seat-booking/"|] == "/seat-booking/"
    ensures path[|path| - |link.showtime|..] == link.showtime
  {
    "/seat-booking/" + NatToDecimal(link.theatreIndex) + "/" + NatToDecimal(link.movieIndex) + "/" + link.showtime
  }

  /** Two slash-free heads followed by a '/' split the same way. */
  lemma SplitAtSlash(a: string, r: string, b: string, s: string)
    requires SlashFree(a) && SlashFree(b)
    requires a + "/" + r == b + "/" + s
    ensures a == b && r == s
  {
    var x := a + "/" + r;
    assert x == b + "/" + s;
    assert x[|a|] == '/' && x[|b|] == '/';
    assert forall k :: 0 <= k < |a| ==> x[k] == a[k];
    assert forall k :: 0 <= k < |b| ==> x[k] == b[k];
    assert |a| == |b|;
    assert a == x[..|a|] == b;
    assert r == x[|a| + 1..] == s;
  }

  lemma DecimalSlashFree(n: nat)
    ensures SlashFree(NatToDecimal(n))
  {
  }

  /** The path regrouped as the prefix, then the theatre index, a '/' and the rest. */
  lemma LinkPathSegments(link: SeatBookingLink)
    ensures LinkPath(link) == "/seat-booking/" +
      (NatToDecimal(link.theatreIndex) + "/" + (NatToDecimal(link.movieIndex) + "/" + link.showtime))
  {
  }

  /** Different links lead to different paths: the theatre and movie indices are read back
      from the route's first two segments, and the showtime is the rest. */
  lemma {:induction false} LinkPathInjective(a: SeatBookingLink, b: SeatBookingLink)
    requires LinkPath(a) == LinkPath(b)
    ensures a == b
  {
    var prefix := "/seat-booking/";
    var ta, tb := NatToDecimal(a.theatreIndex), NatToDecimal(b.theatreIndex);
    var ma, mb := NatToDecimal(a.movieIndex), NatToDecimal(b.movieIndex);
    DecimalSlashFree(a.theatreIndex);
    DecimalSlashFree(b.theatreIndex);
    DecimalSlashFree(a.movieIndex);
    DecimalSlashFree(b.movieIndex);
    var ra := ma + "/" + a.showtime;
    var rb := mb + "/" + b.showtime;
    LinkPathSegments(a);
    LinkPathSegments(b);
    assert ta + "/" + ra == LinkPath(a)[|prefix|..] == tb + "/" + rb;
    SplitAtSlash(ta, ra, tb, rb);
    SplitAtSlash(ma, a.showtime, mb, b.showtime);
    NatToDecimalInjective(a.theatreIndex, b.theatreIndex);
    NatToDecimalInjective(a.movieIndex, b.movieIndex);
  }

}
