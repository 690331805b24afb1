/**
 * The hybrid favorites store: a favorites list kept on the device, the same
 * list kept on the server, the auth token in secure storage and the user's
 * preferences. The device and server stores are fields of `HybridStorage`;
 * the outcome of each network call is a parameter.
 */
module StorageManager {
  import opened Wrappers
  import opened Js
  import opened Seqs

  /** A favorite movie: the id the lists are keyed by, and the rest of the record. */
  datatype Favorite = Favorite(id: int, details: string)

  /**
   * What the server's login answers: a token with the user record (an opaque
   * string, like a favorite's `details`), or an error message.
   */
  datatype LoginResult = LoginOk(token: string, user: string) | LoginFailed(error: Option<string>)

  /** The result of `addFavorite` and `removeFavorite`. */
  datatype FavoritesResult = Saved(favorites: seq<Favorite>) | Refused(message: string)

  datatype Outcome = Success | Failure

  datatype Preferences = Preferences(theme: string, notifications: bool, language: string)

  const AlreadyFavoriteMessage := "Filme já está nos favoritos"

  /** What `getPreferences` returns while nothing is stored. */
  const DefaultPreferences := Preferences("dark", true, "pt-BR")

  // ----- Ids of a favorites list -----

  function FavoriteId(f: Favorite): int {
    f.id
  }

  function IdSet(fs: seq<Favorite>): (ids: set<int>)
    ensures forall id :: id in ids <==> HasKey(fs, FavoriteId, id)
  {
    set i | 0 <= i < |fs| :: fs[i].id
  }

  lemma IdSetAppend(fs: seq<Favorite>, f: Favorite)
    ensures IdSet(fs + [f]) == IdSet(fs) + {f.id}
  {
    assert forall id :: HasKey(fs + [f], FavoriteId, id) <==> HasKey(fs, FavoriteId, id) || id == f.id by {
      forall id ensures HasKey(fs + [f], FavoriteId, id) <==> HasKey(fs, FavoriteId, id) || id == f.id {
        if HasKey(fs, FavoriteId, id) {
          var i :| 0 <= i < |fs| && fs[i].id == id;
          assert (fs + [f])[i] == fs[i];
        }
        if id == f.id {
          assert (fs + [f])[|fs|] == f;
        }
      }
    }
  }

  // ----- addFavorite on lists -----

  /** Appending a favorite whose id is new keeps the ids unique. */
  lemma AppendNewKeepsUnique(fs: seq<Favorite>, f: Favorite)
    requires DistinctKeys(fs, FavoriteId) && !HasKey(fs, FavoriteId, f.id)
    ensures DistinctKeys(fs + [f], FavoriteId)
  {
    var r := fs + [f];
    forall i, j | 0 <= i < j < |r| ensures FavoriteId(r[i]) != FavoriteId(r[j]) {
      if j == |fs| {
        assert r[i] == fs[i];
      } else {
        assert r[i] == fs[i] && r[j] == fs[j];
      }
    }
  }

  // ----- The login merge -----

  /**
   * The `forEach` of `login` continued from the list `merged` built so far over
   * the local entries still to visit: an entry is pushed when no entry of the
   * growing list has its id.
   */
  function MergeFrom(merged: seq<Favorite>, pending: seq<Favorite>): (r: seq<Favorite>)
    ensures |merged| <= |r| <= |merged| + |pending|
    ensures r[..|merged|] == merged
    decreases |pending|
  {
    if pending == [] then merged
    else if HasKey(merged, FavoriteId, pending[0].id) then MergeFrom(merged, pending[1..])
    else MergeFrom(merged + [pending[0]], pending[1..])
  }

  /**
   * The reference definition of what the merge appends: the entries of `l`
   * whose id is neither in `seen` nor carried by an earlier entry of `l`.
   */
  function NewLocals(seen: set<int>, l: seq<Favorite>): (r: seq<Favorite>)
    ensures |r| <= |l|
    ensures forall i :: 0 <= i < |r| ==> r[i].id !in seen && r[i] in l
    decreases |l|
  {
    if l == [] then []
    else if l[0].id in seen then NewLocals(seen, l[1..])
    else [l[0]] + NewLocals(seen + {l[0].id}, l[1..])
  }

  /** The merge is the list so far followed by the new local entries. */
  lemma {:induction false} MergeFromIsAppend(merged: seq<Favorite>, l: seq<Favorite>)
    ensures MergeFrom(merged, l) == merged + NewLocals(IdSet(merged), l)
    decreases |l|
  {
    if l != [] {
      if HasKey(merged, FavoriteId, l[0].id) {
        MergeFromIsAppend(merged, l[1..]);
      } else {
        MergeFromIsAppend(merged + [l[0]], l[1..]);
        IdSetAppend(merged, l[0]);
        assert merged + [l[0]] + NewLocals(IdSet(merged) + {l[0].id}, l[1..])
            == merged + ([l[0]] + NewLocals(IdSet(merged) + {l[0].id}, l[1..]));
      }
    }
  }

  /** Every id of `l` is in `seen` or carried by an entry that `NewLocals` keeps. */
  lemma {:induction false} NewLocalsCover(seen: set<int>, l: seq<Favorite>)
    ensures forall i :: 0 <= i < |l| ==> l[i].id in seen || HasKey(NewLocals(seen, l), FavoriteId, l[i].id)
    decreases |l|
  {
    if l != [] {
      var rest := l[1..];
      NewLocalsCover(seen + {l[0].id}, rest);
      NewLocalsCover(seen, rest);
      var r := NewLocals(seen, l);
      forall i | 0 <= i < |l| ensures l[i].id in seen || HasKey(r, FavoriteId, l[i].id) {
        if l[0].id !in seen {
          assert r[0] == l[0];
          if i > 0 && l[i].id != l[0].id && l[i].id !in seen {
            assert l[i] == rest[i - 1];
            var t := NewLocals(seen + {l[0].id}, rest);
            var j :| 0 <= j < |t| && t[j].id == l[i].id;
            assert r[j + 1] == t[j];
          }
        } else if i > 0 {
          assert l[i] == rest[i - 1];
        }
      }
    }
  }

  /** The entries `NewLocals` keeps carry pairwise distinct ids. */
  lemma {:induction false} NewLocalsUnique(seen: set<int>, l: seq<Favorite>)
    ensures DistinctKeys(NewLocals(seen, l), FavoriteId)
    decreases |l|
  {
    if l != [] {
      NewLocalsUnique(seen, l[1..]);
      NewLocalsUnique(seen + {l[0].id}, l[1..]);
      var r := NewLocals(seen, l);
      if l[0].id !in seen {
        var t := NewLocals(seen + {l[0].id}, l[1..]);
        forall i, j | 0 <= i < j < |r| ensures FavoriteId(r[i]) != FavoriteId(r[j]) {
          assert r[j] == t[j - 1];
          if i > 0 {
            assert r[i] == t[i - 1];
          }
        }
      }
    }
  }

  /** What `login` saves: the cloud list followed by the local entries with new ids. */
  function Merged(cloud: seq<Favorite>, local: seq<Favorite>): (r: seq<Favorite>)
    ensures r == cloud + NewLocals(IdSet(cloud), local)
  {
    MergeFromIsAppend(cloud, local);
    MergeFrom(cloud, local)
  }

  /**
   * The cloud list is a prefix of the merge, every local id is in it, it is no
   * longer than both lists together, and every entry after the prefix is a
   * local entry whose id the cloud list does not have.
   */
  lemma MergedShape(cloud: seq<Favorite>, local: seq<Favorite>)
    ensures |cloud| <= |Merged(cloud, local)| <= |cloud| + |local|
    ensures Merged(cloud, local)[..|cloud|] == cloud
    ensures forall i :: 0 <= i < |local| ==> HasKey(Merged(cloud, local), FavoriteId, local[i].id)
    ensures forall i :: |cloud| <= i < |Merged(cloud, local)| ==>
              Merged(cloud, local)[i] in local && !HasKey(cloud, FavoriteId, Merged(cloud, local)[i].id)
  {
    MergeFromIsAppend(cloud, local);
    var extra := NewLocals(IdSet(cloud), local);
    var m := Merged(cloud, local);
    assert m == cloud + extra;
    NewLocalsCover(IdSet(cloud), local);
    forall i | 0 <= i < |local| ensures HasKey(m, FavoriteId, local[i].id) {
      if local[i].id in IdSet(cloud) {
        var j :| 0 <= j < |cloud| && cloud[j].id == local[i].id;
        assert m[j] == cloud[j];
      } else {
        var j :| 0 <= j < |extra| && extra[j].id == local[i].id;
        assert m[|cloud| + j] == extra[j];
      }
    }
    forall i | |cloud| <= i < |m| ensures m[i] in local && !HasKey(cloud, FavoriteId, m[i].id) {
      assert m[i] == extra[i - |cloud|];
    }
  }

  /** A cloud list with unique ids gives a merge with unique ids. */
  lemma MergedKeepsUnique(cloud: seq<Favorite>, local: seq<Favorite>)
    requires DistinctKeys(cloud, FavoriteId)
    ensures DistinctKeys(Merged(cloud, local), FavoriteId)
  {
    MergeFromIsAppend(cloud, local);
    var extra := NewLocals(IdSet(cloud), local);
    NewLocalsUnique(IdSet(cloud), local);
    var m := cloud + extra;
    forall i, j | 0 <= i < j < |m| ensures FavoriteId(m[i]) != FavoriteId(m[j]) {
      if j < |cloud| {
        assert m[i] == cloud[i] && m[j] == cloud[j];
      } else if i < |cloud| {
        assert m[i] == cloud[i] && m[j] == extra[j - |cloud|];
        assert m[j].id !in IdSet(cloud);
      } else {
        assert m[i] == extra[i - |cloud|] && m[j] == extra[j - |cloud|];
      }
    }
  }

  /** `NewLocals` adds nothing when every id of `l` is already seen. */
  lemma {:induction false} NewLocalsOfSeen(seen: set<int>, l: seq<Favorite>)
    requires forall i :: 0 <= i < |l| ==> l[i].id in seen
    ensures NewLocals(seen, l) == []
    decreases |l|
  {
    if l != [] {
      assert forall i :: 0 <= i < |l[1..]| ==> l[1..][i] == l[i + 1];
      NewLocalsOfSeen(seen, l[1..]);
    }
  }

  /** Merging the same local list again adds nothing: a second login changes no list. */
  lemma MergedIdempotent(cloud: seq<Favorite>, local: seq<Favorite>)
    ensures Merged(Merged(cloud, local), local) == Merged(cloud, local)
  {
    var m := Merged(cloud, local);
    MergedShape(cloud, local);
    MergeFromIsAppend(m, local);
    NewLocalsOfSeen(IdSet(m), local);
  }

  /** Cloud `[1, 2]` and local `[2, 3]` merge to `[1, 2, 3]`; the cloud copy of 2 wins. */
  lemma MergedExample(a: string, b: string, b2: string, c: string)
    ensures Merged([Favorite(1, a), Favorite(2, b)], [Favorite(2, b2), Favorite(3, c)])
         == [Favorite(1, a), Favorite(2, b), Favorite(3, c)]
  {
    var cloud := [Favorite(1, a), Favorite(2, b)];
    var local := [Favorite(2, b2), Favorite(3, c)];
    assert HasKey(cloud, FavoriteId, 2) by { assert cloud[1].id == 2; }
    var last := [Favorite(3, c)];
    assert local[1..] == last && last[1..] == [];
    assert MergeFrom(cloud, local) == MergeFrom(cloud, last);
    assert !HasKey(cloud, FavoriteId, 3);
    assert MergeFrom(cloud, last) == MergeFrom(cloud + last, []);
    assert cloud + last == [Favorite(1, a), Favorite(2, b), Favorite(3, c)];
  }

  /** A local entry repeating an earlier local id is dropped. */
  lemma MergedDropsLocalDuplicates(x: Favorite, y: Favorite)
    requires x.id == y.id
    ensures Merged([], [x, y]) == [x]
  {
    var xs: seq<Favorite> := [x];
    assert [x, y][1..] == [y] && [y][1..] == [];
    var none: seq<Favorite> := [];
    assert !HasKey(none, FavoriteId, x.id) && none + [x] == xs;
    assert MergeFrom(none, [x, y]) == MergeFrom(xs, [y]);
    assert HasKey(xs, FavoriteId, y.id) by { assert xs[0] == x; }
    assert MergeFrom(xs, [y]) == MergeFrom(xs, []);
  }

  /** Duplicates inside the cloud list are kept. */
  lemma MergedKeepsCloudDuplicates(x: Favorite, y: Favorite)
    requires x.id == y.id
    ensures Merged([x, y], []) == [x, y]
  {
  }

  /** The `forEach` loop of `login`, pushing into the growing merged list. */
  method MergeFavorites(cloud: seq<Favorite>, local: seq<Favorite>) returns (merged: seq<Favorite>)
    ensures merged == Merged(cloud, local)
    ensures merged == cloud + NewLocals(IdSet(cloud), local)
  {
    merged := cloud;
    var i := 0;
    while i < |local|
      invariant 0 <= i <= |local|
      invariant MergeFrom(merged, local[i..]) == MergeFrom(cloud, local)
    {
      assert local[i..][0] == local[i] && local[i..][1..] == local[i + 1..];
      if !HasKey(merged, FavoriteId, local[i].id) {
        merged := merged + [local[i]];
      }
      i := i + 1;
    }
    assert local[i..] == [];
    MergeFromIsAppend(cloud, local);
  }

  // ----- The store -----

  class HybridStorage {
    /** The device's favorites (`LocalStorage`): [] while nothing is saved. */
    var local: seq<Favorite>
    /** The server's favorites for the logged-in user (`CloudStorage`). */
    var cloud: seq<Favorite>
    /** The token in secure storage: `None` once deleted. */
    var authToken: Option<string>
    /** The saved preferences: `None` while nothing is saved. */
    var preferences: Option<Preferences>

    constructor(cloudFavorites: seq<Favorite>)
      ensures local == [] && cloud == cloudFavorites && authToken == None && preferences == None
    {
      local := [];
      cloud := cloudFavorites;
      authToken := None;
      preferences := None;
    }

    /** `syncFavorites(token, fs)`: the server takes the list when `syncOk`; a failure is swallowed. */
    method Sync(fs: seq<Favorite>, syncOk: bool)
      modifies this
      ensures cloud == (if syncOk then fs else old(cloud))
      ensures local == old(local) && authToken == old(authToken) && preferences == old(preferences)
    {
      if syncOk {
        cloud := fs;
      }
    }

    /** `getFavoritesFromCloud(token)`: the server's list, or [] when the request fails. */
    method FetchCloud(fetchOk: bool) returns (fs: seq<Favorite>)
      ensures fs == if fetchOk then cloud else []
    {
      fs := if fetchOk then cloud else [];
    }

    /**
     * `addFavorite(movie, token)`: refuses an id already saved on the device;
     * otherwise appends the movie, saves the list locally and, only when a
     * token is given, pushes that same list to the server.
     */
    method AddFavorite(movie: Favorite, token: Option<string>, syncOk: bool) returns (r: FavoritesResult)
      modifies this
      ensures HasKey(old(local), FavoriteId, movie.id) ==>
                r == Refused(AlreadyFavoriteMessage) && local == old(local) && cloud == old(cloud)
      ensures !HasKey(old(local), FavoriteId, movie.id) ==>
                r == Saved(old(local) + [movie]) && local == r.favorites
                && cloud == (if Truthy(token) && syncOk then local else old(cloud))
      ensures authToken == old(authToken) && preferences == old(preferences)
    {
      var favorites := local;
      if HasKey(favorites, FavoriteId, movie.id) {
        return Refused(AlreadyFavoriteMessage);
      }
      var newFavorites := favorites + [movie];
      local := newFavorites;
      if Truthy(token) {
        Sync(newFavorites, syncOk);
      }
      r := Saved(newFavorites);
    }

    /**
     * `removeFavorite(movieId, token)`: saves the list without that id locally
     * and, only when a token is given, pushes it to the server; success also
     * for an absent id.
     */
    method RemoveFavorite(movieId: int, token: Option<string>, syncOk: bool) returns (r: FavoritesResult)
      modifies this
      ensures r == Saved(WithoutKey(old(local), FavoriteId, movieId)) && local == r.favorites
      ensures cloud == (if Truthy(token) && syncOk then local else old(cloud))
      ensures authToken == old(authToken) && preferences == old(preferences)
    {
      var favorites := local;
      var newFavorites := WithoutKey(favorites, FavoriteId, movieId);
      local := newFavorites;
      if Truthy(token) {
        Sync(newFavorites, syncOk);
      }
      r := Saved(newFavorites);
    }

    /**
     * `getFavorites(token)`: with a token and a non-empty server answer, that
     * answer replaces the device list and is returned; otherwise the device
     * list is returned as it is.
     */
    method GetFavorites(token: Option<string>, fetchOk: bool) returns (fs: seq<Favorite>)
      modifies this
      ensures Truthy(token) && fetchOk && old(cloud) != [] ==> fs == old(cloud) && local == old(cloud)
      ensures !(Truthy(token) && fetchOk && old(cloud) != []) ==> fs == old(local) && local == old(local)
      ensures cloud == old(cloud) && authToken == old(authToken) && preferences == old(preferences)
    {
      if Truthy(token) {
        var cloudFavorites := FetchCloud(fetchOk);
        if |cloudFavorites| > 0 {
          local := cloudFavorites;
          return cloudFavorites;
        }
      }
      fs := local;
    }

    /**
     * `login(email, password)` given the server's answer `auth`: on success the
     * token is stored and the merge of the server list (or [] when that request
     * fails) with the device list is saved on the device and pushed to the
     * server; the answer is returned as it came. A refused login writes nothing.
     */
    method Login(auth: LoginResult, fetchOk: bool, syncOk: bool) returns (r: LoginResult)
      requires auth.LoginOk? ==> auth.token != ""
      modifies this
      ensures r == auth
      ensures auth.LoginOk? ==> Truthy(authToken)
      ensures auth.LoginOk? ==>
                authToken == Some(auth.token)
                && local == Merged(if fetchOk then old(cloud) else [], old(local))
                && cloud == (if syncOk then local else old(cloud))
      ensures auth.LoginFailed? ==> local == old(local) && cloud == old(cloud) && authToken == old(authToken)
      ensures preferences == old(preferences)
    {
      if auth.LoginOk? {
        authToken := Some(auth.token);
        var cloudFavorites := FetchCloud(fetchOk);
        var localFavorites := local;
        var mergedFavorites := MergeFavorites(cloudFavorites, localFavorites);
        local := mergedFavorites;
        Sync(mergedFavorites, syncOk);
      }
      r := auth;
    }

    /** `logout()`: deletes the auth data only; the device favorites stay. */
    method Logout() returns (r: Outcome)
      modifies this
      ensures r == Success && authToken == None
      ensures local == old(local) && cloud == old(cloud) && preferences == old(preferences)
    {
      authToken := None;
      r := Success;
    }

    /** `isLoggedIn()`: `!!token`. */
    method IsLoggedIn() returns (b: bool)
      ensures b <==> Truthy(authToken)
    {
      b := authToken.Some? && authToken.value != "";
    }

    /** `savePreferences(p)`: preferences stay on the device. */
    method SavePreferences(p: Preferences)
      modifies this
      ensures preferences == Some(p)
      ensures local == old(local) && cloud == old(cloud) && authToken == old(authToken)
    {
      preferences := Some(p);
    }

    /** `getPreferences()`: the saved preferences, or the defaults while none are saved. */
    method GetPreferences() returns (p: Preferences)
      ensures preferences.Some? ==> p == preferences.value
      ensures preferences.None? ==> p == DefaultPreferences
    {
      p := if preferences.Some? then preferences.value else DefaultPreferences;
    }
  }
}
