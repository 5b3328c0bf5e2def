/** The data the server handles: movies as they come from the seed document,
    the items it writes to the `movies` table, the projection it returns to
    clients and the JSON envelope of every answer. */
module Records {
  import opened Options
  import opened Strings

  /** The nested `info` object of a seed movie. */
  datatype Info = Info(rating: Option<real>, rank: Option<real>)

  /** One element of the seed array; `title` and `info` are always present. */
  datatype SourceMovie = SourceMovie(title: string, year: Option<real>, info: Info)

  /** One `PutRequest.Item`: the hash key `titleLower`, the range key
      `releaseYear`, and the `title`, `rating` and `rank` attributes. Number
      attributes hold the value the store decodes from their string form. */
  datatype Item = Item(titleLower: string, releaseYear: real, title: string, rating: real, rank: real)

  /** The number written for an absent `year`, `info.rating` or `info.rank`. */
  const MISSING: real := -1.0

  /** `x?.toString() ?? '-1'`: the value if present, the sentinel otherwise. */
  function NumberOr(x: Option<real>): (r: real)
    ensures x.None? ==> r == MISSING
    ensures x.Some? ==> r == x.value
  {
    x.GetOr(MISSING)
  }

  /** The item written for one seed movie. Its key is the lower-cased
      title, already in normal form, and its other attributes carry the
      movie's fields, with -1 for each absent number. */
  function MapMovie(m: SourceMovie): (it: Item)
    ensures it.title == m.title
    ensures it.titleLower == Lower(m.title) && Lower(it.titleLower) == it.titleLower
    ensures m.year.None? ==> it.releaseYear == MISSING
    ensures m.year.Some? ==> it.releaseYear == m.year.value
    ensures m.info.rating.None? ==> it.rating == MISSING
    ensures m.info.rating.Some? ==> it.rating == m.info.rating.value
    ensures m.info.rank.None? ==> it.rank == MISSING
    ensures m.info.rank.Some? ==> it.rank == m.info.rank.value
  {
    LowerIdempotent(m.title);
    Item(Lower(m.title), NumberOr(m.year), m.title, NumberOr(m.info.rating), NumberOr(m.info.rank))
  }

  /** The items for a whole seed document, in document order. */
  function MapAll(json: seq<SourceMovie>): seq<Item> {
    seq(|json|, k requires 0 <= k < |json| => MapMovie(json[k]))
  }

  /** One movie of a query answer: `{title, year, rating}`. */
  datatype MovieOut = MovieOut(title: string, year: real, rating: real)

  /** The `movies` member of an answer: `{}` or a list of movies. */
  datatype MovieList = EmptyObject | Listed(movies: seq<MovieOut>)

  datatype Outcome = Outcome(success: bool, message: string, movies: MovieList)

  /** The JSON body of every answer: `{result: {success, message, movies}}`. */
  datatype Response = Response(result: Outcome)

  /** `generateResponse(success, message, movies)`: the three values nested
      under `result`, unchanged. */
  function GenerateResponse(success: bool, message: string, movies: MovieList): (r: Response)
    ensures r.result.success == success && r.result.message == message && r.result.movies == movies
  {
    Response(Outcome(success, message, movies))
  }

  /** What a request ends in: a JSON answer, or an exception no handler
      catches, in which case no JSON answer is sent. */
  datatype Reply = Json(response: Response) | Unhandled(error: string)
}
