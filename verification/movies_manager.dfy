/**
 * The watchlist manager: one persisted list of movies, each pending, chosen or
 * rejected. Every mutator reads the whole list, transforms it and writes the
 * whole list back; the transforms are the functions below, the store is the
 * class `MovieStore` at the end.
 */
module MoviesManager {
  import opened Wrappers
  import opened Js
  import opened Seqs

  datatype Status = Pending | Chosen | Rejected

  /** A watchlist entry as stored. */
  datatype Movie = Movie(
    id: int,
    title: string,
    description: string,
    year: string,
    genre: string,
    platforms: seq<string>,
    posterUrl: Option<string>,
    backdropUrl: Option<string>,
    status: Status,
    addedAt: string)

  /** The `movieData` argument of `addMovie`; `None` stands for a missing field. */
  datatype MovieInput = MovieInput(
    title: string,
    description: Option<string>,
    year: Option<string>,
    genre: Option<string>,
    platforms: Option<seq<string>>,
    posterUrl: Option<string>,
    backdropUrl: Option<string>)

  /** The `movieData` argument of `updateMovie`: the fields it supplies. */
  datatype MoviePatch = MoviePatch(
    id: Option<int>,
    title: Option<string>,
    description: Option<string>,
    year: Option<string>,
    genre: Option<string>,
    platforms: Option<seq<string>>,
    posterUrl: Option<Option<string>>,
    backdropUrl: Option<Option<string>>,
    status: Option<Status>,
    addedAt: Option<string>)

  /** The `{success}` part of a mutator's result. */
  datatype Outcome = Success | Failure

  /** The result of `addMovie`: the created record, or the failure of the write. */
  datatype AddResult = Added(movie: Movie) | AddFailed

  // ----- Creating and patching one record -----

  /** The record `addMovie` creates; `id` and `addedAt` stand for `Date.now()` and the ISO timestamp. */
  function NewMovie(input: MovieInput, id: int, addedAt: string): (m: Movie)
    ensures m.status == Pending && m.id == id && m.addedAt == addedAt && m.title == input.title
    ensures Truthy(input.description) ==> m.description == input.description.value
    ensures !Truthy(input.description) ==> m.description == ""
    ensures Truthy(input.year) ==> m.year == input.year.value
    ensures !Truthy(input.year) ==> m.year == ""
    ensures Truthy(input.genre) ==> m.genre == input.genre.value
    ensures !Truthy(input.genre) ==> m.genre == ""
    ensures input.platforms.Some? ==> m.platforms == input.platforms.value
    ensures input.platforms.None? ==> m.platforms == []
    ensures Truthy(input.posterUrl) ==> m.posterUrl == input.posterUrl
    ensures !Truthy(input.posterUrl) ==> m.posterUrl == None
    ensures Truthy(input.backdropUrl) ==> m.backdropUrl == input.backdropUrl
    ensures !Truthy(input.backdropUrl) ==> m.backdropUrl == None
  {
    Movie(id, input.title, OrElse(input.description, ""), OrElse(input.year, ""), OrElse(input.genre, ""),
          input.platforms.GetOr([]), OrNull(input.posterUrl), OrNull(input.backdropUrl), Pending, addedAt)
  }

  /** Missing optional fields get their defaults: '' for text, [] for platforms, null for images. */
  lemma NewMovieDefaults(title: string, id: int, addedAt: string)
    ensures NewMovie(MovieInput(title, None, None, None, None, None, None), id, addedAt)
         == Movie(id, title, "", "", "", [], None, None, Pending, addedAt)
  {
  }

  /** `{ ...m, ...p }`: every supplied field overwrites, every omitted one is kept. */
  function ApplyPatch(p: MoviePatch, m: Movie): (r: Movie)
    ensures p == EmptyPatch ==> r == m
    ensures p.id.Some? ==> r.id == p.id.value
    ensures p.id.None? ==> r.id == m.id
    ensures p.title.Some? ==> r.title == p.title.value
    ensures p.title.None? ==> r.title == m.title
    ensures p.description.Some? ==> r.description == p.description.value
    ensures p.description.None? ==> r.description == m.description
    ensures p.year.Some? ==> r.year == p.year.value
    ensures p.year.None? ==> r.year == m.year
    ensures p.genre.Some? ==> r.genre == p.genre.value
    ensures p.genre.None? ==> r.genre == m.genre
    ensures p.platforms.Some? ==> r.platforms == p.platforms.value
    ensures p.platforms.None? ==> r.platforms == m.platforms
    ensures p.posterUrl.Some? ==> r.posterUrl == p.posterUrl.value
    ensures p.posterUrl.None? ==> r.posterUrl == m.posterUrl
    ensures p.backdropUrl.Some? ==> r.backdropUrl == p.backdropUrl.value
    ensures p.backdropUrl.None? ==> r.backdropUrl == m.backdropUrl
    ensures p.status.Some? ==> r.status == p.status.value
    ensures p.status.None? ==> r.status == m.status
    ensures p.addedAt.Some? ==> r.addedAt == p.addedAt.value
    ensures p.addedAt.None? ==> r.addedAt == m.addedAt
  {
    Movie(p.id.GetOr(m.id), p.title.GetOr(m.title), p.description.GetOr(m.description),
          p.year.GetOr(m.year), p.genre.GetOr(m.genre), p.platforms.GetOr(m.platforms),
          p.posterUrl.GetOr(m.posterUrl), p.backdropUrl.GetOr(m.backdropUrl),
          p.status.GetOr(m.status), p.addedAt.GetOr(m.addedAt))
  }

  const EmptyPatch: MoviePatch := MoviePatch(None, None, None, None, None, None, None, None, None, None)

  /** The patch that supplies only a status. */
  function StatusPatch(s: Status): MoviePatch {
    EmptyPatch.(status := Some(s))
  }

  /** Merging a patch twice is merging it once; a supplied id replaces the record's. */
  lemma ApplyPatchLaws(p: MoviePatch, m: Movie)
    ensures ApplyPatch(p, ApplyPatch(p, m)) == ApplyPatch(p, m)
    ensures p.id.Some? ==> ApplyPatch(p, m).id == p.id.value
    ensures ApplyPatch(StatusPatch(Pending), m) == m.(status := Pending)
  {
  }

  // ----- The list transforms -----

  function IdOf(m: Movie): int {
    m.id
  }

  function HasStatus(s: Status): Movie -> bool {
    (m: Movie) => m.status == s
  }

  function Restatus(id: int, s: Status): Movie -> Movie {
    (m: Movie) => if m.id == id then m.(status := s) else m
  }

  function PatchIfId(id: int, p: MoviePatch): Movie -> Movie {
    (m: Movie) => if m.id == id then ApplyPatch(p, m) else m
  }

  /** `movies.map(m => m.id === id ? { ...m, status } : m)`. */
  function WithStatus(ms: seq<Movie>, id: int, s: Status): (r: seq<Movie>)
    ensures |r| == |ms|
    ensures forall i :: 0 <= i < |ms| ==> r[i] == ms[i].(status := r[i].status)
    ensures forall i :: 0 <= i < |ms| ==> r[i].status == if ms[i].id == id then s else ms[i].status
  {
    Map(ms, Restatus(id, s))
  }

  /** `movies.map(m => m.id === id ? { ...m, ...patch } : m)`. */
  function Updated(ms: seq<Movie>, id: int, p: MoviePatch): (r: seq<Movie>)
    ensures |r| == |ms|
    ensures forall i :: 0 <= i < |ms| && ms[i].id != id ==> r[i] == ms[i]
    ensures forall i :: 0 <= i < |ms| && ms[i].id == id ==> r[i] == ApplyPatch(p, ms[i])
  {
    Map(ms, PatchIfId(id, p))
  }

  /** `movies.filter(m => m.status === s)`. */
  function ByStatus(ms: seq<Movie>, s: Status): (r: seq<Movie>)
    ensures forall i :: 0 <= i < |r| ==> r[i].status == s && r[i] in ms
    ensures forall i :: 0 <= i < |ms| && ms[i].status == s ==> ms[i] in r
  {
    Filter(ms, HasStatus(s))
  }

  // ----- Properties of updateMovieStatus and updateMovie -----

  /** Rewriting the status of an id nobody has leaves the list identical. */
  lemma WithStatusUnknownId(ms: seq<Movie>, id: int, s: Status)
    requires !HasKey(ms, IdOf, id)
    ensures WithStatus(ms, id, s) == ms
  {
    var r := WithStatus(ms, id, s);
    assert forall i :: 0 <= i < |ms| ==> r[i] == ms[i];
  }

  /** Rewriting the same status twice is rewriting it once; ids never change. */
  lemma WithStatusIdempotent(ms: seq<Movie>, id: int, s: Status)
    ensures WithStatus(WithStatus(ms, id, s), id, s) == WithStatus(ms, id, s)
    ensures Map(WithStatus(ms, id, s), IdOf) == Map(ms, IdOf)
  {
    var r := WithStatus(ms, id, s);
    assert forall i :: 0 <= i < |ms| ==> WithStatus(r, id, s)[i] == r[i];
    assert forall i :: 0 <= i < |ms| ==> Map(r, IdOf)[i] == Map(ms, IdOf)[i];
  }

  /** `updateMovieStatus` is `updateMovie` with a patch that supplies only the status. */
  lemma StatusUpdateIsPatch(ms: seq<Movie>, id: int, s: Status)
    ensures WithStatus(ms, id, s) == Updated(ms, id, StatusPatch(s))
  {
    var a, b := WithStatus(ms, id, s), Updated(ms, id, StatusPatch(s));
    forall i | 0 <= i < |ms| ensures a[i] == b[i] {
      if ms[i].id == id {
        assert a[i] == ms[i].(status := s);
      }
    }
  }

  /** A patch that supplies no id keeps every id, so unique ids stay unique. */
  lemma UpdatedKeepsIds(ms: seq<Movie>, id: int, p: MoviePatch)
    requires p.id.None?
    ensures Map(Updated(ms, id, p), IdOf) == Map(ms, IdOf)
    ensures DistinctKeys(ms, IdOf) ==> DistinctKeys(Updated(ms, id, p), IdOf)
  {
    var r := Updated(ms, id, p);
    assert forall i :: 0 <= i < |ms| ==> r[i].id == ms[i].id;
    assert forall i :: 0 <= i < |ms| ==> Map(r, IdOf)[i] == Map(ms, IdOf)[i];
  }

  /** Patching an id nobody has leaves the list identical. */
  lemma UpdatedUnknownId(ms: seq<Movie>, id: int, p: MoviePatch)
    requires !HasKey(ms, IdOf, id)
    ensures Updated(ms, id, p) == ms
  {
    var r := Updated(ms, id, p);
    assert forall i :: 0 <= i < |ms| ==> r[i] == ms[i];
  }

  // ----- Properties of getMoviesByStatus -----

  /** The status filter keeps the matching entries with their multiplicity, in their order. */
  lemma ByStatusCountAndOrder(ms: seq<Movie>, s: Status, m: Movie, a: seq<Movie>, b: seq<Movie>)
    ensures multiset(ByStatus(ms, s))[m] == if m.status == s then multiset(ms)[m] else 0
    ensures ByStatus(a + b, s) == ByStatus(a, s) + ByStatus(b, s)
  {
    FilterCount(ms, HasStatus(s), m);
    FilterConcat(a, b, HasStatus(s));
  }

  /** Every entry is in exactly one of the three status lists. */
  lemma {:induction false} StatusPartition(ms: seq<Movie>)
    ensures |ByStatus(ms, Pending)| + |ByStatus(ms, Chosen)| + |ByStatus(ms, Rejected)| == |ms|
  {
    if ms != [] {
      StatusPartition(ms[1..]);
      assert [ms[0]] + ms[1..] == ms;
      FilterConcat([ms[0]], ms[1..], HasStatus(Pending));
      FilterConcat([ms[0]], ms[1..], HasStatus(Chosen));
      FilterConcat([ms[0]], ms[1..], HasStatus(Rejected));
    }
  }

  /**
   * Accepting a movie of a list with unique ids puts its id exactly once in the
   * chosen list and takes it out of the pending list.
   */
  lemma AcceptedMovieIsChosen(ms: seq<Movie>, id: int)
    requires DistinctKeys(ms, IdOf) && HasKey(ms, IdOf, id)
    ensures HasKey(ByStatus(WithStatus(ms, id, Chosen), Chosen), IdOf, id)
    ensures DistinctKeys(ByStatus(WithStatus(ms, id, Chosen), Chosen), IdOf)
    ensures !HasKey(ByStatus(WithStatus(ms, id, Chosen), Pending), IdOf, id)
  {
    var r := WithStatus(ms, id, Chosen);
    var k :| 0 <= k < |ms| && ms[k].id == id;
    assert r[k].status == Chosen && r[k].id == id;
    WithStatusIdempotent(ms, id, Chosen);
    assert DistinctKeys(r, IdOf) by {
      forall i, j | 0 <= i < j < |r| ensures IdOf(r[i]) != IdOf(r[j]) {
        assert Map(r, IdOf)[i] == Map(ms, IdOf)[i] && Map(r, IdOf)[j] == Map(ms, IdOf)[j];
      }
    }
    FilterKeepsDistinct(r, HasStatus(Chosen), IdOf);
    var chosen := ByStatus(r, Chosen);
    assert r[k] in chosen;
    var pending := ByStatus(r, Pending);
    forall i | 0 <= i < |pending| ensures pending[i].id != id {
      var j :| 0 <= j < |r| && r[j] == pending[i];
    }
  }

  // ----- The random draw -----

  /** `Math.floor(random * n)` for the `random` in [0, 1) that `Math.random()` returns. */
  function DrawIndex(random: real, n: nat): (k: int)
    requires 0.0 <= random < 1.0 && n > 0
    ensures 0 <= k < n
  {
    var x := random * n as real;
    assert x < n as real;
    x.Floor
  }

  /**
   * Each index of the chosen list is drawn for exactly the values of `random` in
   * an interval of width 1/n: a uniform `random` draws every chosen movie with
   * probability 1/n.
   */
  lemma DrawIndexUniform(random: real, n: nat, k: int)
    requires 0.0 <= random < 1.0 && n > 0 && 0 <= k < n
    ensures DrawIndex(random, n) == k <==> k as real / n as real <= random < (k + 1) as real / n as real
  {
    var x := random * n as real;
    assert k as real <= x <==> k as real / n as real <= random;
    assert x < (k + 1) as real <==> random < (k + 1) as real / n as real;
  }

  // ----- The store -----

  /** The list persisted under `@movies_list`. */
  class MovieStore {
    /** The stored value: `None` once removed or before the first write. */
    var stored: Option<seq<Movie>>

    /** What `getAllMovies` reads: the stored list, or [] when nothing is stored. */
    function Movies(): seq<Movie>
      reads this
    {
      stored.GetOr([])
    }

    constructor()
      ensures stored == None
    {
      stored := None;
    }

    /** `getAllMovies()`. */
    method GetAllMovies() returns (ms: seq<Movie>)
      ensures ms == Movies()
      ensures stored.None? ==> ms == []
    {
      ms := if stored.Some? then stored.value else [];
    }

    /**
     * `addMovie(input)`: appends the new pending record and writes the list back;
     * `writeOk` says whether the write succeeds.
     */
    method AddMovie(input: MovieInput, now: int, timestamp: string, writeOk: bool) returns (r: AddResult)
      modifies this
      ensures writeOk ==> r == Added(NewMovie(input, now, timestamp))
      ensures writeOk ==> stored == Some(old(Movies()) + [r.movie])
      ensures writeOk ==> |Movies()| == |old(Movies())| + 1 && Movies()[|Movies()| - 1] == r.movie
      ensures writeOk ==> Movies()[..|old(Movies())|] == old(Movies())
      ensures !writeOk ==> r == AddFailed && stored == old(stored)
    {
      var movies := GetAllMovies();
      var newMovie := NewMovie(input, now, timestamp);
      movies := movies + [newMovie];
      if writeOk {
        stored := Some(movies);
        r := Added(newMovie);
      } else {
        r := AddFailed;
      }
    }

    /** `updateMovieStatus(id, status)`. */
    method UpdateMovieStatus(id: int, status: Status, writeOk: bool) returns (r: Outcome)
      modifies this
      ensures r == if writeOk then Success else Failure
      ensures writeOk ==> stored == Some(WithStatus(old(Movies()), id, status))
      ensures !writeOk ==> stored == old(stored)
    {
      var movies := GetAllMovies();
      var updated := WithStatus(movies, id, status);
      if writeOk {
        stored := Some(updated);
        r := Success;
      } else {
        r := Failure;
      }
    }

    /** `updateMovie(id, movieData)`. */
    method UpdateMovie(id: int, patch: MoviePatch, writeOk: bool) returns (r: Outcome)
      modifies this
      ensures r == if writeOk then Success else Failure
      ensures writeOk ==> stored == Some(Updated(old(Movies()), id, patch))
      ensures !writeOk ==> stored == old(stored)
    {
      var movies := GetAllMovies();
      var updated := Updated(movies, id, patch);
      if writeOk {
        stored := Some(updated);
        r := Success;
      } else {
        r := Failure;
      }
    }

    /** `removeMovie(id)`: success also for an absent id. */
    method RemoveMovie(id: int, writeOk: bool) returns (r: Outcome)
      modifies this
      ensures r == if writeOk then Success else Failure
      ensures writeOk ==> stored == Some(WithoutKey(old(Movies()), IdOf, id))
      ensures !writeOk ==> stored == old(stored)
    {
      var movies := GetAllMovies();
      var filtered := WithoutKey(movies, IdOf, id);
      if writeOk {
        stored := Some(filtered);
        r := Success;
      } else {
        r := Failure;
      }
    }

    /** `getMoviesByStatus(s)`: reads, never writes. */
    method GetMoviesByStatus(s: Status) returns (ms: seq<Movie>)
      ensures ms == ByStatus(Movies(), s)
    {
      var movies := GetAllMovies();
      ms := ByStatus(movies, s);
    }

    /**
     * `drawRandomChosen()`, with `random` the value `Math.random()` returned:
     * `null` exactly when no movie is chosen, else the chosen movie at index
     * `floor(random * n)` of the chosen list. The status is left as it was.
     */
    method DrawRandomChosen(random: real) returns (r: Option<Movie>)
      requires 0.0 <= random < 1.0
      ensures r.None? <==> ByStatus(Movies(), Chosen) == []
      ensures r.Some? ==> r.value.status == Chosen && r.value in Movies()
      ensures r.Some? ==> r.value == ByStatus(Movies(), Chosen)[DrawIndex(random, |ByStatus(Movies(), Chosen)|)]
    {
      var chosen := GetMoviesByStatus(Chosen);
      if |chosen| == 0 {
        return None;
      }
      var k := DrawIndex(random, |chosen|);
      r := Some(chosen[k]);
    }

    /** `clearAll()`: removes the stored list, so a later `getAllMovies` returns []. */
    method ClearAll(writeOk: bool) returns (r: Outcome)
      modifies this
      ensures r == if writeOk then Success else Failure
      ensures writeOk ==> stored == None && Movies() == []
      ensures !writeOk ==> stored == old(stored)
    {
      if writeOk {
        stored := None;
        r := Success;
      } else {
        r := Failure;
      }
    }
  }
}
