/** The query path: translating the `/appQuery` route parameters into scan
    arguments, the scan's filter expression, and the projection of the
    scanned items into the answer. */
module Query {
  import opened Options
  import opened Strings
  import opened Records

  /** The route parameters `:year`, `:rating` and `:prefix`. The routes
      always bind `:year`; `:rating` may be absent, and `:prefix` comes only
      together with `:rating`. */
  datatype Params = Params(year: string, rating: Option<string>, prefix: Option<string>)

  /** The values `:y`, `:p` and `:r` of the filter expression, as strings. */
  datatype ScanArgs = ScanArgs(year: string, prefix: string, rating: string)

  /** The values the store compares against once it has decoded `:y` and `:r`. */
  datatype Criteria = Criteria(year: int, prefix: string, rating: int)

  /** `parseInt(raw, 10)` of a route parameter that may be absent
      (`parseInt(undefined)` is `NaN`). */
  function ParseParam(raw: Option<string>): Option<int> {
    match raw
    case None => None
    case Some(s) => ParseInt(s)
  }

  /** What a query asks for: nothing when the year is `NaN`, otherwise that
      year, the lower-cased prefix (`''` when absent) and the rating floor
      (0 when absent or `NaN`). */
  function Translate(p: Params): Option<Criteria> {
    match ParseInt(p.year)
    case None => None
    case Some(y) => Some(Criteria(y, Lower(p.prefix.GetOr("")), ParseParam(p.rating).GetOr(0)))
  }

  /** The strings sent as `:y`, `:p` and `:r`: `year.toString()`, the
      prefix, `ratingParam.toString()`. */
  function Encode(c: Criteria): ScanArgs {
    ScanArgs(IntToString(c.year), c.prefix, IntToString(c.rating))
  }

  /** How the store reads the three values back; `None` is a value it
      rejects as not a number. */
  function Decode(args: ScanArgs): Option<Criteria> {
    match (StoreNumber(args.year), StoreNumber(args.rating))
    case (Some(y), Some(r)) => Some(Criteria(y, args.prefix, r))
    case _ => None
  }

  /** The store reads back exactly the criteria the server encoded. */
  lemma DecodeEncode(c: Criteria)
    ensures Decode(Encode(c)) == Some(c)
  {
    StoreNumberOfIntToString(c.year);
    StoreNumberOfIntToString(c.rating);
  }

  /** The parameter handling of the query handler: parses the year and the
      rating, defaults the prefix and, when the year is a number, replaces a
      `NaN` rating by 0 and encodes the scan's values. A `NaN` year encodes
      nothing. */
  method ParseQueryParams(p: Params) returns (args: Option<ScanArgs>)
    ensures args.None? <==> ParseInt(p.year).None?
    ensures args.Some? ==> Translate(p).Some? && args.value == Encode(Translate(p).value)
  {
    var year := ParseInt(p.year);
    var prefix := p.prefix.GetOr("");
    var ratingParam := ParseParam(p.rating);
    if year.None? {
      return None;
    }
    if ratingParam.None? {
      ratingParam := Some(0);
    }
    args := Some(ScanArgs(IntToString(year.value), Lower(prefix), IntToString(ratingParam.value)));
  }

  /** The filter expression
      `releaseYear = :y and begins_with(titleLower, :p) and rating >= :r`. */
  predicate Matches(it: Item, c: Criteria) {
    && it.releaseYear == c.year as real
    && c.prefix <= it.titleLower
    && it.rating >= c.rating as real
  }

  /** The items a filtered scan returns, in scan order: an item is returned
      exactly when it is stored and matches, and a matching item as often
      as it is stored. */
  function Filter(items: seq<Item>, c: Criteria): (r: seq<Item>)
    ensures |r| <= |items|
    ensures forall x :: x in r <==> x in items && Matches(x, c)
    ensures forall x {:trigger multiset(r)[x]} :: multiset(r)[x] == if Matches(x, c) then multiset(items)[x] else 0
  {
    if items == [] then []
    else
      assert items == [items[0]] + items[1..];
      (if Matches(items[0], c) then [items[0]] else []) + Filter(items[1..], c)
  }

  /** Filtering keeps the scan order: the matches of an earlier part of the
      table come before the matches of a later part. */
  lemma {:induction false} FilterAppend(a: seq<Item>, b: seq<Item>, c: Criteria)
    ensures Filter(a + b, c) == Filter(a, c) + Filter(b, c)
  {
    if a != [] {
      var head := if Matches(a[0], c) then [a[0]] else [];
      assert (a + b)[0] == a[0];
      assert (a + b)[1..] == a[1..] + b;
      assert Filter(a + b, c) == head + Filter(a[1..] + b, c);
      assert Filter(a, c) == head + Filter(a[1..], c);
      FilterAppend(a[1..], b, c);
    } else {
      assert a + b == b;
    }
  }

  /** The projection `title, releaseYear, rating`; `rank` and `titleLower`
      are never returned. */
  function ProjectItem(it: Item): MovieOut {
    MovieOut(it.title, it.releaseYear, it.rating)
  }

  function ProjectAll(raw: seq<Item>): seq<MovieOut> {
    seq(|raw|, k requires 0 <= k < |raw| => ProjectItem(raw[k]))
  }

  /** The `forEach` loop of `get_data`: one `{title, year, rating}` per
      scanned item, pushed in scan order. */
  method Project(raw: seq<Item>) returns (data: seq<MovieOut>)
    ensures data == ProjectAll(raw)
  {
    data := [];
    var i := 0;
    while i < |raw|
      invariant 0 <= i <= |raw|
      invariant data == ProjectAll(raw[..i])
    {
      data := data + [ProjectItem(raw[i])];
      i := i + 1;
      assert ProjectAll(raw[..i]) == ProjectAll(raw[..i - 1]) + [ProjectItem(raw[i - 1])];
    }
    assert raw[..i] == raw;
  }

  /** The movies a query answers with, for a table whose scan order is
      `table`. */
  function Select(table: seq<Item>, c: Criteria): seq<MovieOut> {
    ProjectAll(Filter(table, c))
  }

  lemma ProjectedMember(x: Item, f: seq<Item>)
    requires x in f
    ensures ProjectItem(x) in ProjectAll(f)
  {
    var k :| 0 <= k < |f| && f[k] == x;
    assert ProjectAll(f)[k] == ProjectItem(x);
  }

  /** A query with only a year asks for that year, every title and a rating
      floor of 0: it returns exactly the items of that year whose rating is
      not negative (so never one whose rating was absent). */
  lemma YearOnlyQuery(table: seq<Item>, y: int)
    ensures Translate(Params(IntToString(y), None, None)) == Some(Criteria(y, "", 0))
    ensures forall x :: x in Filter(table, Criteria(y, "", 0)) <==>
      x in table && x.releaseYear == y as real && x.rating >= 0.0
  {
    ParseIntOfIntToString(y, "");
    assert IntToString(y) + "" == IntToString(y);
  }

  /** A loaded movie is found again by a `/appQuery/:year/0/:prefix`
      request with its own year and any prefix of its title, in any letter
      case, exactly when it has a rating of at least 0; it then comes back
      as its title, year and rating. */
  lemma LoadedMovieIsFound(table: seq<Item>, m: SourceMovie, y: int, prefix: string)
    requires MapMovie(m) in table
    requires m.year == Some(y as real)
    requires Lower(prefix) <= Lower(m.title)
    ensures Translate(Params(IntToString(y), Some("0"), Some(prefix))) == Some(Criteria(y, Lower(prefix), 0))
    ensures MapMovie(m) in Filter(table, Criteria(y, Lower(prefix), 0)) <==>
      m.info.rating.Some? && m.info.rating.value >= 0.0
    ensures m.info.rating.Some? && m.info.rating.value >= 0.0 ==>
      MovieOut(m.title, y as real, m.info.rating.value) in Select(table, Criteria(y, Lower(prefix), 0))
  {
    ParseIntOfIntToString(y, "");
    assert IntToString(y) + "" == IntToString(y);
    ParseIntOfIntToString(0, "");
    assert IntToString(0) + "" == "0";
    if m.info.rating.Some? && m.info.rating.value >= 0.0 {
      ProjectedMember(MapMovie(m), Filter(table, Criteria(y, Lower(prefix), 0)));
    }
  }

  /** Matching ignores the letter case of the prefix: prefixes that differ
      only in case ask for the same items, and a prefix of the title (as
      typed, in any case) always passes the prefix test. */
  lemma PrefixIgnoresCase(year: string, rating: Option<string>, p1: string, p2: string, title: string)
    requires Lower(p1) == Lower(p2)
    ensures Translate(Params(year, rating, Some(p1))) == Translate(Params(year, rating, Some(p2)))
    ensures p1 <= title ==> Lower(p2) <= Lower(title)
  {
    if p1 <= title {
      LowerPrefix(p1, title);
    }
  }
}
