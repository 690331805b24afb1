/**
 * The movie-database client: the fixed genre table, genre-name formatting, the
 * normalisation of response records and the guards of `searchMovies`. The HTTP
 * request itself is a parameter: the response the server would have given.
 */
module MovieService {
  import opened Wrappers
  import opened Js
  import opened Seqs
  import opened Tmdb

  // ----- Genre table -----

  /** The ids `genresMap` knows. */
  const GenreIds: set<int> := {28, 12, 16, 35, 80, 99, 18, 10751, 14, 36, 27, 10402, 9648, 10749, 878, 10770, 53, 10752, 37}

  /**
   * `getGenreName(id)`, i.e. `genresMap[id] || ''`: the table entry (names in
   * Brazilian Portuguese), or the empty string for an id the table does not know.
   */
  function GenreName(id: int): (name: string)
    ensures name != "" <==> id in GenreIds
    ensures ',' !in name
  {
    match id
    case 28 => "Ação"
    case 12 => "Aventura"
    case 16 => "Animação"
    case 35 => "Comédia"
    case 80 => "Crime"
    case 99 => "Documentário"
    case 18 => "Drama"
    case 10751 => "Família"
    case 14 => "Fantasia"
    case 36 => "História"
    case 27 => "Terror"
    case 10402 => "Música"
    case 9648 => "Mistério"
    case 10749 => "Romance"
    case 878 => "Ficção Científica"
    case 10770 => "Cinema TV"
    case 53 => "Suspense"
    case 10752 => "Guerra"
    case 37 => "Faroeste"
    case _ => ""
  }

  /** The table has nineteen distinct ids: each id is new to the ones listed before it. */
  lemma GenreTableSize()
    ensures |GenreIds| == 19
  {
    assert 12 !in {28};
    assert |{28, 12}| == 2;
    assert 16 !in {28, 12};
    assert |{28, 12, 16}| == 3;
    assert 35 !in {28, 12, 16};
    assert |{28, 12, 16, 35}| == 4;
    assert 80 !in {28, 12, 16, 35};
    assert |{28, 12, 16, 35, 80}| == 5;
    assert 99 !in {28, 12, 16, 35, 80};
    assert |{28, 12, 16, 35, 80, 99}| == 6;
    assert 18 !in {28, 12, 16, 35, 80, 99};
    assert |{28, 12, 16, 35, 80, 99, 18}| == 7;
    assert 10751 !in {28, 12, 16, 35, 80, 99, 18};
    assert |{28, 12, 16, 35, 80, 99, 18, 10751}| == 8;
    assert 14 !in {28, 12, 16, 35, 80, 99, 18, 10751};
    assert |{28, 12, 16, 35, 80, 99, 18, 10751, 14}| == 9;
    assert 36 !in {28, 12, 16, 35, 80, 99, 18, 10751, 14};
    assert |{28, 12, 16, 35, 80, 99, 18, 10751, 14, 36}| == 10;
    assert 27 !in {28, 12, 16, 35, 80, 99, 18, 10751, 14, 36};
    assert |{28, 12, 16, 35, 80, 99, 18, 10751, 14, 36, 27}| == 11;
    assert 10402 !in {28, 12, 16, 35, 80, 99, 18, 10751, 14, 36, 27};
    assert |{28, 12, 16, 35, 80, 99, 18, 10751, 14, 36, 27, 10402}| == 12;
    assert 9648 !in {28, 12, 16, 35, 80, 99, 18, 10751, 14, 36, 27, 10402};
    assert |{28, 12, 16, 35, 80, 99, 18, 10751, 14, 36, 27, 10402, 9648}| == 13;
    assert 10749 !in {28, 12, 16, 35, 80, 99, 18, 10751, 14, 36, 27, 10402, 9648};
    assert |{28, 12, 16, 35, 80, 99, 18, 10751, 14, 36, 27, 10402, 9648, 10749}| == 14;
    assert 878 !in {28, 12, 16, 35, 80, 99, 18, 10751, 14, 36, 27, 10402, 9648, 10749};
    assert |{28, 12, 16, 35, 80, 99, 18, 10751, 14, 36, 27, 10402, 9648, 10749, 878}| == 15;
    assert 10770 !in {28, 12, 16, 35, 80, 99, 18, 10751, 14, 36, 27, 10402, 9648, 10749, 878};
    assert |{28, 12, 16, 35, 80, 99, 18, 10751, 14, 36, 27, 10402, 9648, 10749, 878, 10770}| == 16;
    assert 53 !in {28, 12, 16, 35, 80, 99, 18, 10751, 14, 36, 27, 10402, 9648, 10749, 878, 10770};
    assert |{28, 12, 16, 35, 80, 99, 18, 10751, 14, 36, 27, 10402, 9648, 10749, 878, 10770, 53}| == 17;
    assert 10752 !in {28, 12, 16, 35, 80, 99, 18, 10751, 14, 36, 27, 10402, 9648, 10749, 878, 10770, 53};
    assert |{28, 12, 16, 35, 80, 99, 18, 10751, 14, 36, 27, 10402, 9648, 10749, 878, 10770, 53, 10752}| == 18;
    assert 37 !in {28, 12, 16, 35, 80, 99, 18, 10751, 14, 36, 27, 10402, 9648, 10749, 878, 10770, 53, 10752};
    assert |{28, 12, 16, 35, 80, 99, 18, 10751, 14, 36, 27, 10402, 9648, 10749, 878, 10770, 53, 10752, 37}| == 19;
  }

  // ----- Joining and splitting on a separator -----

  /** `parts.join(sep)`. */
  function Join(parts: seq<string>, sep: string): string {
    if parts == [] then ""
    else if |parts| == 1 then parts[0]
    else parts[0] + sep + Join(parts[1..], sep)
  }

  /** `sep` occurs in `s` starting at position `j`. */
  predicate OccursAt(s: string, sep: string, j: int) {
    0 <= j && j + |sep| <= |s| && s[j..j + |sep|] == sep
  }

  /** The first position at which `sep` occurs in `s`, or -1 (`s.indexOf(sep)`). */
  function IndexOf(s: string, sep: string): (k: int)
    requires sep != ""
    ensures k == -1 || OccursAt(s, sep, k)
    ensures k == -1 ==> forall j :: !OccursAt(s, sep, j)
    ensures k >= 0 ==> forall j :: j < k ==> !OccursAt(s, sep, j)
    decreases |s|
  {
    if |s| < |sep| then -1
    else if s[..|sep|] == sep then 0
    else
      var k := IndexOf(s[1..], sep);
      assert forall j :: 1 <= j ==> (OccursAt(s, sep, j) <==> OccursAt(s[1..], sep, j - 1));
      if k == -1 then -1 else k + 1
  }

  /** `s.split(sep)`: the pieces between the occurrences of `sep`. */
  function Split(s: string, sep: string): (r: seq<string>)
    requires sep != ""
    ensures |r| >= 1
    decreases |s|
  {
    var k := IndexOf(s, sep);
    if k == -1 then [s] else [s[..k]] + Split(s[k + |sep|..], sep)
  }

  /** Round trip: joining the pieces of a split with the same separator gives the text back. */
  lemma {:induction false} JoinSplit(s: string, sep: string)
    requires sep != ""
    ensures Join(Split(s, sep), sep) == s
    decreases |s|
  {
    var k := IndexOf(s, sep);
    if k != -1 {
      var rest := s[k + |sep|..];
      var pieces := Split(s, sep);
      JoinSplit(rest, sep);
      assert pieces[0] == s[..k] && pieces[1..] == Split(rest, sep);
      assert s == s[..k] + s[k..k + |sep|] + rest;
    }
  }

  /** Text free of the separator's first character, followed by the separator: found right after the text. */
  lemma {:induction false} IndexOfAfterFree(p: string, sep: string, rest: string)
    requires sep != "" && sep[0] !in p
    ensures IndexOf(p + sep + rest, sep) == |p|
    decreases |p|
  {
    var s := p + sep + rest;
    if p == [] {
      assert s[..|sep|] == sep;
    } else {
      assert s[0] == p[0] != sep[0];
      assert s[..|sep|][0] == s[0];
      assert s[1..] == p[1..] + sep + rest;
      IndexOfAfterFree(p[1..], sep, rest);
    }
  }

  /** Comma-free text contains no ", ". */
  lemma CommaFreeHasNoSeparator(p: string)
    requires ',' !in p
    ensures IndexOf(p, ", ") == -1
  {
    forall j ensures !OccursAt(p, ", ", j) {
      if 0 <= j && j + 2 <= |p| {
        assert p[j..j + 2][0] == p[j] != ',';
      }
    }
  }

  /** Round trip: splitting a ", "-join of comma-free parts gives the parts back. */
  lemma {:induction false} SplitJoin(parts: seq<string>)
    requires |parts| >= 1
    requires forall i :: 0 <= i < |parts| ==> ',' !in parts[i]
    ensures Split(Join(parts, ", "), ", ") == parts
  {
    if |parts| == 1 {
      CommaFreeHasNoSeparator(parts[0]);
    } else {
      var rest := Join(parts[1..], ", ");
      var s := parts[0] + ", " + rest;
      IndexOfAfterFree(parts[0], ", ", rest);
      assert s[..|parts[0]|] == parts[0];
      assert s[|parts[0]| + 2..] == rest;
      SplitJoin(parts[1..]);
    }
  }

  /** A join with a non-empty separator is empty only for no parts or the single part `''`. */
  lemma JoinIsEmpty(parts: seq<string>, sep: string)
    requires sep != ""
    ensures Join(parts, sep) == "" <==> parts == [] || parts == [""]
  {
    if |parts| >= 2 {
      assert |Join(parts, sep)| >= |sep|;
    }
  }

  // ----- Genre names of a movie -----

  predicate NonEmpty(s: string) {
    s != ""
  }

  /**
   * The names of the known ids, in input order:
   * `ids.map(getGenreName).filter(name => name)`. No kept name is empty or
   * holds a comma.
   */
  function KnownNames(ids: seq<int>): (r: seq<string>)
    ensures |r| <= |ids|
    ensures forall i :: 0 <= i < |r| ==> r[i] != "" && ',' !in r[i]
  {
    Filter(Map(ids, GenreName), NonEmpty)
  }

  /**
   * Each kept name is the table name of a known input id, and every known
   * input id contributes its name.
   */
  lemma KnownNamesMembership(ids: seq<int>)
    ensures forall name :: name in KnownNames(ids) ==>
              exists j :: 0 <= j < |ids| && ids[j] in GenreIds && GenreName(ids[j]) == name
    ensures forall j :: 0 <= j < |ids| && ids[j] in GenreIds ==> GenreName(ids[j]) in KnownNames(ids)
  {
    var names := Map(ids, GenreName);
    forall name | name in KnownNames(ids)
      ensures exists j :: 0 <= j < |ids| && ids[j] in GenreIds && GenreName(ids[j]) == name
    {
      var i :| 0 <= i < |KnownNames(ids)| && KnownNames(ids)[i] == name;
      var j :| 0 <= j < |names| && names[j] == name;
      assert GenreName(ids[j]) == name != "";
    }
    forall j | 0 <= j < |ids| && ids[j] in GenreIds ensures GenreName(ids[j]) in KnownNames(ids) {
      assert names[j] == GenreName(ids[j]) && NonEmpty(names[j]);
    }
  }

  /** No known name is left exactly when no id is in the table. */
  lemma KnownNamesEmpty(ids: seq<int>)
    ensures KnownNames(ids) == [] <==> forall i :: 0 <= i < |ids| ==> ids[i] !in GenreIds
  {
    KnownNamesMembership(ids);
    var r := KnownNames(ids);
    if r != [] {
      assert r[0] in r;
      var j :| 0 <= j < |ids| && ids[j] in GenreIds && GenreName(ids[j]) == r[0];
    }
  }

  /**
   * `getGenresFromIds(ids)`; `None` stands for a `null` or `undefined` argument.
   * The result is `''` exactly when the ids are missing or none is in the table.
   */
  function GenresFromIds(ids: Option<seq<int>>): (r: string)
    ensures r == "" <==> ids.None? || forall i :: 0 <= i < |ids.value| ==> ids.value[i] !in GenreIds
  {
    if ids.None? || ids.value == [] then ""
    else
      KnownNamesEmpty(ids.value);
      JoinIsEmpty(KnownNames(ids.value), ", ");
      Join(KnownNames(ids.value), ", ")
  }

  /** Known names are built id by id: unknown ids contribute nothing, known ones their name, in order. */
  lemma {:induction false} KnownNamesConcat(a: seq<int>, b: seq<int>)
    ensures KnownNames(a + b) == KnownNames(a) + KnownNames(b)
    ensures KnownNames([]) == []
  {
    MapConcat(a, b, GenreName);
    FilterConcat(Map(a, GenreName), Map(b, GenreName), NonEmpty);
  }

  lemma KnownNamesSingle(id: int)
    ensures id in GenreIds ==> KnownNames([id]) == [GenreName(id)]
    ensures id !in GenreIds ==> KnownNames([id]) == []
  {
    assert Map([id], GenreName) == [GenreName(id)];
  }

  /** The segments of the formatted genres are exactly the known names: none is empty. */
  lemma GenresFromIdsSegments(ids: seq<int>)
    requires KnownNames(ids) != []
    ensures Split(GenresFromIds(Some(ids)), ", ") == KnownNames(ids)
    ensures forall i :: 0 <= i < |Split(GenresFromIds(Some(ids)), ", ")| ==> Split(GenresFromIds(Some(ids)), ", ")[i] != ""
  {
    SplitJoin(KnownNames(ids));
  }

  /** The known names of a two-element list. */
  lemma KnownNamesPair(x: int, y: int)
    ensures KnownNames([x, y]) == KnownNames([x]) + KnownNames([y])
  {
    KnownNamesConcat([x], [y]);
    assert [x] + [y] == [x, y];
  }

  lemma KnownNamesOfKnownIds()
    ensures KnownNames([28, 12, 878]) == ["Ação", "Aventura", "Ficção Científica"]
  {
    KnownNamesSingle(28);
    KnownNamesSingle(12);
    KnownNamesSingle(878);
    KnownNamesPair(28, 12);
    KnownNamesConcat([28, 12], [878]);
    assert [28, 12] + [878] == [28, 12, 878];
  }

  lemma KnownNamesDropUnknown()
    ensures KnownNames([28, 99999, 12]) == ["Ação", "Aventura"]
  {
    KnownNamesSingle(28);
    KnownNamesSingle(99999);
    KnownNamesSingle(12);
    KnownNamesPair(28, 99999);
    KnownNamesConcat([28, 99999], [12]);
    assert [28, 99999] + [12] == [28, 99999, 12];
  }

  /** The formatting examples: known ids in order, unknown ids dropped silently. */
  lemma GenresFromIdsKnown()
    ensures GenresFromIds(Some([28, 12, 878])) == "Ação" + ", " + "Aventura" + ", " + "Ficção Científica"
  {
    KnownNamesOfKnownIds();
  }

  lemma GenresFromIdsUnknownDropped()
    ensures GenresFromIds(Some([28, 99999, 12])) == "Ação" + ", " + "Aventura"
    ensures GenresFromIds(Some([])) == "" && GenresFromIds(None) == ""
  {
    KnownNamesDropUnknown();
  }

  // ----- Release year -----

  /**
   * The first piece of `d.split('-')` is the leading field of `d`: it has no
   * '-', it is the whole of `d` when `d` has no '-', and otherwise it is
   * followed by '-' in `d`.
   */
  lemma SplitHeadIsLeadingField(d: string)
    ensures '-' !in Split(d, "-")[0]
    ensures '-' !in d ==> Split(d, "-")[0] == d
    ensures '-' in d ==> Split(d, "-")[0] + "-" <= d
  {
    var k := IndexOf(d, "-");
    if k == -1 {
      forall i | 0 <= i < |d| ensures d[i] != '-' {
        assert !OccursAt(d, "-", i);
        assert d[i..i + 1] == [d[i]];
      }
    } else {
      assert d[k..k + 1] == "-";
      assert d[k] == '-' && d[k] in d;
      forall i | 0 <= i < k ensures d[i] != '-' {
        assert !OccursAt(d, "-", i);
        assert d[i..i + 1] == [d[i]];
      }
      assert d[..k] + "-" == d[..k + 1];
    }
  }

  /**
   * `date ? date.split('-')[0] : ''`: the leading field of a present, non-empty
   * date, before its first '-'; `''` for a missing or empty date.
   */
  function Year(date: Option<string>): (y: string)
    ensures '-' !in y
    ensures !Truthy(date) ==> y == ""
    ensures Truthy(date) && '-' !in date.value ==> y == date.value
    ensures Truthy(date) && '-' in date.value ==> y + "-" <= date.value
  {
    if Truthy(date) then
      SplitHeadIsLeadingField(date.value);
      Split(date.value, "-")[0]
    else ""
  }

  /** A date of the form year-month-day yields its year. */
  lemma YearOfDashedDate(year: string, rest: string)
    requires year != "" && '-' !in year
    ensures Year(Some(year + "-" + rest)) == year
  {
    IndexOfAfterFree(year, "-", rest);
    assert (year + "-" + rest)[..|year|] == year;
  }

  lemma YearExample()
    ensures Year(Some("2010-07-15")) == "2010"
    ensures Year(Some("")) == "" && Year(None) == ""
  {
    assert "2010-07-15" == "2010" + "-" + "07-15";
    YearOfDashedDate("2010", "07-15");
  }

  // ----- The search guard -----

  /** The characters `String.prototype.trim` strips: white space and line terminators. */
  predicate IsSpace(c: char) {
    c == ' ' || c == '\t' || c == '\n' || c == '\r' || c == '\U{000B}' || c == '\U{000C}'
    || c == '\U{00A0}' || c == '\U{1680}' || ('\U{2000}' <= c <= '\U{200A}') || c == '\U{2028}'
    || c == '\U{2029}' || c == '\U{202F}' || c == '\U{205F}' || c == '\U{3000}' || c == '\U{FEFF}'
  }

  /** `s` without its leading white space: a suffix of `s`. */
  function TrimStart(s: string): (r: string)
    ensures |r| <= |s| && r == s[|s| - |r|..]
    ensures r == "" || !IsSpace(r[0])
    ensures forall i :: 0 <= i < |s| - |r| ==> IsSpace(s[i])
  {
    if s != "" && IsSpace(s[0]) then TrimStart(s[1..]) else s
  }

  /** `s` without its trailing white space: a prefix of `s`. */
  function TrimEnd(s: string): (r: string)
    ensures |r| <= |s| && r == s[..|r|]
    ensures r == "" || !IsSpace(r[|r| - 1])
    ensures forall i :: |r| <= i < |s| ==> IsSpace(s[i])
  {
    if s != "" && IsSpace(s[|s| - 1]) then TrimEnd(s[..|s| - 1]) else s
  }

  /** `s.trim()`: no longer than `s`, and neither starting nor ending with white space. */
  function Trim(s: string): (r: string)
    ensures |r| <= |s|
    ensures r == "" || (!IsSpace(r[0]) && !IsSpace(r[|r| - 1]))
  {
    var t := TrimStart(s);
    var r := TrimEnd(t);
    assert r != "" ==> r[0] == t[0];
    r
  }

  /** The trimmed text is a slice of the original with white space only around it. */
  lemma TrimIsSlice(s: string) returns (lo: int, hi: int)
    ensures 0 <= lo <= hi <= |s| && Trim(s) == s[lo..hi]
    ensures forall i :: 0 <= i < lo ==> IsSpace(s[i])
    ensures forall i :: hi <= i < |s| ==> IsSpace(s[i])
    ensures Trim(s) == "" || (!IsSpace(Trim(s)[0]) && !IsSpace(Trim(s)[|Trim(s)| - 1]))
  {
    var t := TrimStart(s);
    lo := |s| - |t|;
    hi := lo + |TrimEnd(t)|;
    assert TrimEnd(t) == t[..|TrimEnd(t)|] == s[lo..hi];
    forall i | hi <= i < |s| ensures IsSpace(s[i]) {
      assert s[i] == t[i - lo];
    }
    if Trim(s) != "" {
      assert Trim(s)[0] == t[0];
    }
  }

  /**
   * Whether `searchMovies` reaches its request: the key must be configured and the
   * query present with at least two UTF-16 code units once trimmed.
   */
  predicate SearchRequested(key: string, query: Option<string>) {
    ApiKeyConfigured(key) && Truthy(query) && Utf16Length(Trim(query.value)) >= 2
  }

  // ----- Records -----

  /** A movie as the movie database sends it (numeric rating fields left out). */
  datatype RawMovie = RawMovie(
    id: int,
    title: string,
    originalTitle: string,
    overview: Option<string>,
    releaseDate: Option<string>,
    posterPath: Option<string>,
    backdropPath: Option<string>,
    genreIds: Option<seq<int>>,
    runtime: Option<int>,
    genres: Option<seq<string>>,  // the `name` of each entry of `genres`
    budget: Option<int>,
    revenue: Option<int>,
    status: Option<string>,
    tagline: Option<string>)

  /** One result of `searchMovies`. */
  datatype SearchResult = SearchResult(
    id: int,
    tmdbId: int,
    title: string,
    originalTitle: string,
    description: string,
    year: string,
    releaseDate: Option<string>,
    posterPath: Option<string>,
    backdropPath: Option<string>,
    posterUrl: Option<string>,
    backdropUrl: Option<string>,
    genreIds: Option<seq<int>>)

  /** One result of `getPopularMovies`. */
  datatype PopularResult = PopularResult(
    id: int,
    tmdbId: int,
    title: string,
    originalTitle: string,
    description: string,
    year: string,
    releaseDate: Option<string>,
    posterPath: Option<string>,
    posterUrl: Option<string>)

  /** The result of `getMovieById`. */
  datatype MovieDetails = MovieDetails(
    id: int,
    tmdbId: int,
    title: string,
    originalTitle: string,
    description: string,
    year: string,
    releaseDate: Option<string>,
    posterPath: Option<string>,
    backdropPath: Option<string>,
    posterUrl: Option<string>,
    backdropUrl: Option<string>,
    runtime: Option<int>,
    genres: string,
    genresList: seq<string>,
    budget: Option<int>,
    revenue: Option<int>,
    status: Option<string>,
    tagline: Option<string>)

  /** What a request came back with: a transport or parse failure, a non-2xx status, or a body. */
  datatype Response<T> = Failed | NotOk(status: int) | Ok(body: T)

  /** The record literal of `searchMovies`. */
  function NormalizeSearch(m: RawMovie): (r: SearchResult)
    ensures r.id == m.id && r.tmdbId == m.id && r.genreIds == m.genreIds
    ensures r.title == m.title && r.originalTitle == m.originalTitle && r.releaseDate == m.releaseDate
    ensures r.posterPath == m.posterPath && r.backdropPath == m.backdropPath
    ensures r.description == "" <==> !Truthy(m.overview)
    ensures r.posterUrl.Some? <==> Truthy(m.posterPath)
    ensures r.backdropUrl.Some? <==> Truthy(m.backdropPath)
    ensures '-' !in r.year && (!Truthy(m.releaseDate) ==> r.year == "")
  {
    SearchResult(m.id, m.id, m.title, m.originalTitle, OrElse(m.overview, ""), Year(m.releaseDate),
                 m.releaseDate, m.posterPath, m.backdropPath,
                 ImageUrl(m.posterPath), ImageUrl(m.backdropPath, BackdropMedium), m.genreIds)
  }

  /** The record literal of `getPopularMovies`: no backdrop. */
  function NormalizePopular(m: RawMovie): (r: PopularResult)
    ensures r.id == m.id && r.tmdbId == m.id
    ensures r.title == m.title && r.originalTitle == m.originalTitle && r.releaseDate == m.releaseDate
    ensures r.posterPath == m.posterPath
    ensures r.description == "" <==> !Truthy(m.overview)
    ensures r.posterUrl.Some? <==> Truthy(m.posterPath)
    ensures '-' !in r.year && (!Truthy(m.releaseDate) ==> r.year == "")
  {
    PopularResult(m.id, m.id, m.title, m.originalTitle, OrElse(m.overview, ""), Year(m.releaseDate),
                  m.releaseDate, m.posterPath, ImageUrl(m.posterPath))
  }

  /** The record literal of `getMovieById`. */
  function NormalizeDetails(m: RawMovie): (r: MovieDetails)
    ensures r.id == m.id && r.tmdbId == m.id
    ensures r.title == m.title && r.originalTitle == m.originalTitle && r.releaseDate == m.releaseDate
    ensures r.posterPath == m.posterPath && r.backdropPath == m.backdropPath
    ensures r.runtime == m.runtime && r.budget == m.budget && r.revenue == m.revenue
    ensures r.status == m.status && r.tagline == m.tagline
    ensures m.genres.Some? ==> r.genresList == m.genres.value
    ensures m.genres.None? ==> r.genresList == []
    ensures r.description == "" <==> !Truthy(m.overview)
    ensures r.posterUrl.Some? <==> Truthy(m.posterPath)
    ensures r.backdropUrl.Some? <==> Truthy(m.backdropPath)
    ensures '-' !in r.year && (!Truthy(m.releaseDate) ==> r.year == "")
    ensures r.genres == "" <==> m.genres.None? || m.genres.value == [] || m.genres.value == [""]
  {
    var genres := if m.genres.Some? then Join(m.genres.value, ", ") else "";
    assert m.genres.Some? ==> (genres == "" <==> m.genres.value == [] || m.genres.value == [""]) by {
      if m.genres.Some? {
        JoinIsEmpty(m.genres.value, ", ");
      }
    }
    MovieDetails(m.id, m.id, m.title, m.originalTitle, OrElse(m.overview, ""), Year(m.releaseDate),
                 m.releaseDate, m.posterPath, m.backdropPath,
                 ImageUrl(m.posterPath), ImageUrl(m.backdropPath, BackdropMedium), m.runtime,
                 genres, m.genres.GetOr([]), m.budget, m.revenue, m.status, m.tagline)
  }

  /**
   * The normalised search record: the year of the release date, the description
   * defaulting to '', a w342 poster URL and a w780 backdrop URL, each present
   * exactly for a non-empty path.
   */
  lemma NormalizeSearchFields(m: RawMovie)
    ensures var r := NormalizeSearch(m);
      && r.year == Year(m.releaseDate)
      && (Truthy(m.overview) ==> r.description == m.overview.value)
      && (r.posterUrl.Some? ==> r.posterUrl.value == "https://image.tmdb.org/t/p/w342" + m.posterPath.value)
      && (r.backdropUrl.Some? ==> ImagePath(r.backdropUrl.value, "w780") == m.backdropPath)
  {
    if Truthy(m.posterPath) {
      DefaultSizeIsPosterMedium(m.posterPath);
    }
    if Truthy(m.backdropPath) {
      ImageUrlRoundTrip(m.backdropPath, BackdropMedium);
    }
  }

  /** The normalised popular record: the same year, description and poster rules. */
  lemma NormalizePopularFields(m: RawMovie)
    ensures var r := NormalizePopular(m);
      && r.year == Year(m.releaseDate)
      && (Truthy(m.overview) ==> r.description == m.overview.value)
      && (r.posterUrl.Some? ==> r.posterUrl.value == "https://image.tmdb.org/t/p/w342" + m.posterPath.value)
  {
    if Truthy(m.posterPath) {
      DefaultSizeIsPosterMedium(m.posterPath);
    }
  }

  /** The normalised details record: the same year, description, poster and backdrop rules. */
  lemma NormalizeDetailsFields(m: RawMovie)
    ensures var r := NormalizeDetails(m);
      && r.year == Year(m.releaseDate)
      && (Truthy(m.overview) ==> r.description == m.overview.value)
      && (r.posterUrl.Some? ==> r.posterUrl.value == "https://image.tmdb.org/t/p/w342" + m.posterPath.value)
      && (r.backdropUrl.Some? ==> ImagePath(r.backdropUrl.value, "w780") == m.backdropPath)
  {
    if Truthy(m.posterPath) {
      DefaultSizeIsPosterMedium(m.posterPath);
    }
    if Truthy(m.backdropPath) {
      ImageUrlRoundTrip(m.backdropPath, BackdropMedium);
    }
  }

  /** The formatted genres of the details record are the genre names joined with ", ". */
  lemma DetailsGenres(m: RawMovie)
    ensures m.genres.None? ==> NormalizeDetails(m).genres == "" && NormalizeDetails(m).genresList == []
    ensures m.genres.Some? && |m.genres.value| >= 1 && (forall i :: 0 <= i < |m.genres.value| ==> ',' !in m.genres.value[i])
      ==> Split(NormalizeDetails(m).genres, ", ") == m.genres.value
  {
    if m.genres.Some? && |m.genres.value| >= 1 && (forall i :: 0 <= i < |m.genres.value| ==> ',' !in m.genres.value[i]) {
      SplitJoin(m.genres.value);
    }
  }

  // ----- The three requests -----

  /**
   * `searchMovies(query)` against the key `key` and the response the request
   * would get: empty, without a request, unless the key is configured and the
   * query has two code units; empty on any failure; else the normalised results.
   */
  function SearchMovies(key: string, query: Option<string>, response: Response<seq<RawMovie>>): (r: seq<SearchResult>)
    ensures !SearchRequested(key, query) ==> r == []
    ensures !response.Ok? ==> r == []
    ensures SearchRequested(key, query) && response.Ok? ==>
      |r| == |response.body| && forall i :: 0 <= i < |r| ==> r[i] == NormalizeSearch(response.body[i])
  {
    if !ApiKeyConfigured(key) then []
    else if !Truthy(query) || Utf16Length(Trim(query.value)) < 2 then []
    else match response
      case Failed => []
      case NotOk(_) => []
      case Ok(results) => Map(results, NormalizeSearch)
  }

  /** With the shipped configuration every search is empty, whatever the query and response. */
  lemma ShippedSearchIsEmpty(query: Option<string>, response: Response<seq<RawMovie>>)
    ensures SearchMovies(ApiKey, query, response) == []
  {
    ShippedKeyNotConfigured();
  }

  /**
   * A query of one character up to U+FFFF, with any white space before and
   * after it, never reaches the request.
   */
  lemma ShortQueryIsEmpty(key: string, c: char, before: string, after: string, response: Response<seq<RawMovie>>)
    requires c <= '\U{FFFF}'
    requires forall i :: 0 <= i < |before| ==> IsSpace(before[i])
    requires forall i :: 0 <= i < |after| ==> IsSpace(after[i])
    ensures SearchMovies(key, Some(before + [c] + after), response) == []
  {
    var s := before + [c] + after;
    var lo, hi := TrimIsSlice(s);
    assert forall i :: 0 <= i < |s| && i != |before| ==> IsSpace(s[i]) by {
      forall i | 0 <= i < |s| && i != |before| ensures IsSpace(s[i]) {
        if i < |before| {
          assert s[i] == before[i];
        } else {
          assert s[i] == after[i - |before| - 1];
        }
      }
    }
    if Trim(s) != "" {
      assert s[lo] == Trim(s)[0] && !IsSpace(s[lo]);
      assert s[hi - 1] == Trim(s)[|Trim(s)| - 1] && !IsSpace(s[hi - 1]);
      assert Trim(s) == [c];
    }
  }

  /**
   * A lone character above U+FFFF is two code units, so it passes the length
   * test: with a configured key it is searched.
   */
  lemma AstralQueryIsSearched(key: string, c: char, results: seq<RawMovie>)
    requires ApiKeyConfigured(key) && c > '\U{FFFF}'
    ensures SearchRequested(key, Some([c]))
    ensures |SearchMovies(key, Some([c]), Ok(results))| == |results|
  {
    assert !IsSpace(c);
    assert [c][1..] == [] && [c][..0] == [];
    assert Trim([c]) == [c];
  }

  /** `getMovieById(id)` given its response: `null` exactly on a failure, else the details record. */
  function GetMovieById(response: Response<RawMovie>): (r: Option<MovieDetails>)
    ensures r.Some? <==> response.Ok?
    ensures r.Some? ==> r.value == NormalizeDetails(response.body)
  {
    match response
    case Ok(m) => Some(NormalizeDetails(m))
    case _ => None
  }

  /** `getPopularMovies(page)` given its response: empty on any failure, else the normalised results. */
  function GetPopularMovies(response: Response<seq<RawMovie>>): (r: seq<PopularResult>)
    ensures !response.Ok? ==> r == []
    ensures response.Ok? ==>
      |r| == |response.body| && forall i :: 0 <= i < |r| ==> r[i] == NormalizePopular(response.body[i])
  {
    match response
    case Ok(results) => Map(results, NormalizePopular)
    case _ => []
  }
}
