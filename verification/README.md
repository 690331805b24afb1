# AppFilmes watchlist and favorites core, in Dafny

This project models the logic core of AppFilmes, a React Native app for a personal
movie watchlist. The user adds movies, optionally pre-filled from a search on The
Movie Database (TMDb). Each movie starts *pending*, is swiped into *chosen* or
*rejected*, and one chosen movie can be drawn at random. A second layer keeps
favorite movies on the device and on a server, and merges the two lists at login.

The model has six modules, one file each:

- `wrappers.dfy`:
  - `Wrappers` holds `Option`, which stands for a JavaScript value that may be `null` or `undefined`.
  - `Js` holds the JavaScript idioms the source relies on: string truthiness, the defaults to `''` and to `null`, and `.length` as a count of UTF-16 code units.
- `seqs.dfy` (`Seqs`): `Array.prototype.filter` and `map` as recursive functions, with the order, count and concatenation laws the other modules use, and the removal of the elements with a given key (`list.filter(x => x.id !== id)`), which both managers use.
- `tmdb.dfy` (`Tmdb`): the fixed `TMDB_CONFIG` constants, `isApiKeyConfigured` and `getImageUrl`.
- `movie_service.dfy` (`MovieService`):
  - the 19-entry genre table and the `", "`-joined genre names;
  - the year taken from a release date;
  - the query guard of `searchMovies`;
  - the normalisation of the records the three requests return.

  Each HTTP response is a parameter, `Response<T>`, which is a failure, a non-OK status or a body.
- `movies_manager.dfy` (`MoviesManager`):
  - the class `MovieStore` holds the list persisted under `@movies_list`, and each mutator is a method that reads, transforms and writes back the whole list;
  - the transforms are functions: status rewrite, shallow-merge patch, removal, status filter and the random index.
- `storage_manager.dfy` (`StorageManager`):
  - the class `HybridStorage` holds the device favorites, the server favorites, the auth token and the preferences;
  - the login merge is the method `MergeFavorites`, a loop proved against the function `MergeFrom` and against the independent reference definition `NewLocals`.

Clocks, randomness and the network are parameters:
- `Date.now()` is the `now` passed to `AddMovie`, and `toISOString()` is its `timestamp`.
- `Math.random()` is a `random: real` in [0, 1).
- Whether a network call succeeds is a boolean: `writeOk` for a store write, `fetchOk` for a server read, `syncOk` for a server write.
- The server's login answer is a `LoginResult`.

The login merge tests each local entry against the *growing* merged list (`src/services/storageManager.js:104-109`). So a later local entry that repeats an earlier local id is dropped, while duplicates inside the cloud list are kept. `StorageManager.MergedDropsLocalDuplicates` and `StorageManager.MergedKeepsCloudDuplicates` state both.

## Model

| member | source | states |
|---|---|---|
| Js.Utf16Length | src/config/tmdb.js:37 | `.length` counts UTF-16 code units: at least the number of characters and at most twice it, exactly it when every character is up to U+FFFF, and twice it when every character is above |
| Js.Utf16LengthConcat | src/services/movieService.js:16 | code units add up over concatenation, so with one unit per character up to U+FFFF and two per character above, the count of any string is fixed |
| Seqs.WithoutKey | src/services/moviesManager.js:86 | no element with that key remains; every element with another key is kept; nothing new appears |
| Seqs.WithoutKeyLaws | src/services/storageManager.js:49-58 | removal keeps the other elements in order (it distributes over concatenation), removing twice equals removing once, an absent key changes nothing, and distinct keys stay distinct |
| Seqs.WithoutPresentDistinctKey | src/services/moviesManager.js:85-89 | with distinct keys, removing a present key shortens the list by exactly one |
| Tmdb.ApiKeyConfigured | src/config/tmdb.js:34-38 | a configured key is not the placeholder and has at least six characters; every non-placeholder key of more than ten characters is configured |
| Tmdb.ShippedKeyNotConfigured | src/config/tmdb.js:18-37 | the shipped key is the placeholder, so `isApiKeyConfigured()` is false |
| Tmdb.ConfiguredBmpKey | src/config/tmdb.js:34-38 | for a key of characters up to U+FFFF, configured exactly when it has more than ten characters and is not the placeholder |
| Tmdb.AstralKeyConfigured | src/config/tmdb.js:37 | six characters above U+FFFF are twelve UTF-16 code units, so such a key passes the length test |
| Tmdb.ImageUrl | src/config/tmdb.js:41-44 | no URL exactly for a missing or empty path; otherwise the URL starts with base, '/' and size, and the rest of it is the path |
| Tmdb.ImagePath | src/config/tmdb.js:43 | a path read back from a URL, prefixed with base, '/' and size, gives that URL again |
| Tmdb.ImageUrlRoundTrip | src/config/tmdb.js:41-44 | the path is recovered from the URL built for it |
| Tmdb.ImageUrlInjective | src/config/tmdb.js:43 | different paths give different URLs at the same size |
| Tmdb.DefaultSizeIsPosterMedium | src/config/tmdb.js:20-43 | with no size given, the URL is `https://image.tmdb.org/t/p/w342` followed by the path |
| MovieService.GenreName | src/services/movieService.js:144-169 | the name is non-empty exactly for the 19 ids of the table; no name contains a comma |
| MovieService.GenreTableSize | src/services/movieService.js:144-164 | the table has 19 distinct ids |
| MovieService.SplitJoin | src/services/movieService.js:177 | splitting the `", "`-join of comma-free parts gives the parts back |
| MovieService.JoinSplit | src/services/movieService.js:52 | joining the pieces of `split(sep)` with the same separator gives the text back, so splitting drops no text |
| MovieService.JoinIsEmpty | src/services/movieService.js:177 | a `", "`-join is empty exactly when there are no parts or the single part `''` |
| MovieService.KnownNames | src/services/movieService.js:174-176 | no more names than ids; every kept name is non-empty and comma-free |
| MovieService.KnownNamesMembership | src/services/movieService.js:175-176 | every kept name is the table name of a known input id, and every known input id contributes its name |
| MovieService.KnownNamesEmpty | src/services/movieService.js:175-176 | no name is kept exactly when no id is in the table |
| MovieService.GenresFromIds | src/services/movieService.js:172-178 | the result is `''` exactly when the ids are missing, empty or all unknown |
| MovieService.KnownNamesConcat | src/services/movieService.js:174-176 | map-then-filter of the ids distributes over concatenation, so it keeps input order |
| MovieService.KnownNamesSingle | src/services/movieService.js:175-176 | one known id gives its table name; one unknown id gives nothing |
| MovieService.GenresFromIdsSegments | src/services/movieService.js:174-177 | the `", "`-segments of the result are exactly the known names, and none is empty |
| MovieService.KnownNamesOfKnownIds | TMDB_API_EXAMPLES.js:60-62 | ids 28, 12 and 878 give Ação, Aventura and Ficção Científica, in that order |
| MovieService.KnownNamesDropUnknown | src/services/movieService.js:175-176 | an unknown id between two known ids is dropped |
| MovieService.GenresFromIdsKnown | TMDB_API_EXAMPLES.js:60-62 | `[28, 12, 878]` formats as "Ação, Aventura, Ficção Científica" |
| MovieService.GenresFromIdsUnknownDropped | src/services/movieService.js:172-177 | an unknown id leaves no empty segment; an empty or null list gives `''` |
| MovieService.SplitHeadIsLeadingField | src/services/movieService.js:52 | the first piece of `split('-')` has no '-', is the whole text when it has no '-', and is followed by '-' in the text otherwise |
| MovieService.Year | src/services/movieService.js:52 | the year has no '-', is `''` for a missing or empty date, is the whole date when it has no '-', and is followed by '-' in the date otherwise |
| MovieService.YearOfDashedDate | src/services/movieService.js:88 | a date `year-rest` with a dash-free, non-empty year yields that year |
| MovieService.YearExample | src/services/movieService.js:130 | "2010-07-15" yields "2010"; an empty or missing date yields `''` |
| MovieService.TrimStart | src/services/movieService.js:16 | the result is a suffix of the text, starts with a non-space character, and only white space was removed |
| MovieService.TrimEnd | src/services/movieService.js:16 | the result is a prefix of the text, ends with a non-space character, and only white space was removed |
| MovieService.Trim | src/services/movieService.js:16 | `trim()` is no longer than the text and neither starts nor ends with white space |
| MovieService.TrimIsSlice | src/services/movieService.js:16 | `trim()` is a slice of the text with white space only outside it, and no white space at either end |
| MovieService.NormalizeSearch | src/services/movieService.js:46-62 | `id` and `tmdbId` are the movie's id; title, original title, release date, both image paths and the genre ids are copied; the description is `''` exactly for a missing or empty overview; the poster and backdrop URLs are present exactly for a non-empty path; the year has no '-' and is `''` without a date |
| MovieService.NormalizePopular | src/services/movieService.js:124-136 | `id` and `tmdbId` are the movie's id; title, original title, release date and poster path are copied; the description is `''` exactly for a missing or empty overview; the poster URL is present exactly for a non-empty path; the year has no '-' and is `''` without a date |
| MovieService.NormalizeDetails | src/services/movieService.js:82-104 | as for a search record; runtime, budget, revenue, status and tagline are copied; `genresList` is the genres, or `[]` without them; `genres` is `''` exactly when there are no genres or only one unnamed genre |
| MovieService.NormalizeSearchFields | src/services/movieService.js:46-62 | the year is the one taken from the release date; a non-empty overview is the description; the poster URL is `https://image.tmdb.org/t/p/w342` followed by the path; the path is read back from the backdrop URL at size `w780` |
| MovieService.NormalizePopularFields | src/services/movieService.js:124-136 | the year is the one taken from the release date; a non-empty overview is the description; the poster URL is `https://image.tmdb.org/t/p/w342` followed by the path |
| MovieService.NormalizeDetailsFields | src/services/movieService.js:82-104 | the same year, description, poster and `w780` backdrop rules as for a search record |
| MovieService.DetailsGenres | src/services/movieService.js:98-99 | with no genres, `genres` is `''` and `genresList` is `[]`; with at least one genre and comma-free names, splitting `genres` on `", "` gives the names back |
| MovieService.SearchMovies | src/services/movieService.js:6-67 | `[]` without a request unless the key is configured and the trimmed query has at least two UTF-16 code units; `[]` on any failure; otherwise one normalised record per result, in order |
| MovieService.ShippedSearchIsEmpty | src/services/movieService.js:9-14 | with the shipped key every search is empty |
| MovieService.ShortQueryIsEmpty | src/services/movieService.js:16-18 | a query of one character up to U+FFFF, with any white space before and after it, is refused |
| MovieService.AstralQueryIsSearched | src/services/movieService.js:16 | a lone character above U+FFFF is two code units, so with a configured key it is searched and every result is returned |
| MovieService.GetMovieById | src/services/movieService.js:70-109 | `null` exactly on a failure; otherwise the details record of the response body |
| MovieService.GetPopularMovies | src/services/movieService.js:112-141 | `[]` on any failure; otherwise one normalised record per result, in order |
| MoviesManager.NewMovie | src/services/moviesManager.js:27-38 | a new record is pending and carries the given id, timestamp and title; description, year and genre are the given text when it is non-empty, `''` otherwise; platforms are the given list or `[]`; each image URL is the given one when non-empty, `null` otherwise |
| MoviesManager.NewMovieDefaults | src/services/moviesManager.js:30-35 | missing fields default to `''` for text, `[]` for platforms and `null` for images |
| MoviesManager.ApplyPatch | src/services/moviesManager.js:71 | each of the ten fields takes the patch's value when the patch supplies it and keeps the record's value otherwise; the empty patch changes nothing |
| MoviesManager.ApplyPatchLaws | src/services/moviesManager.js:71 | applying a patch twice equals applying it once; a supplied id replaces the record's; a status-only patch changes only the status |
| MoviesManager.WithStatus | src/services/moviesManager.js:54-56 | same length; each entry keeps every field but the status; the status is the new one exactly on entries with that id |
| MoviesManager.Updated | src/services/moviesManager.js:70-72 | same length; entries with other ids are unchanged; entries with that id get the patch merged in |
| MoviesManager.ByStatus | src/services/moviesManager.js:99 | exactly the entries with that status |
| MoviesManager.WithStatusUnknownId | src/services/moviesManager.js:54-56 | an unknown id leaves the list identical |
| MoviesManager.WithStatusIdempotent | src/services/moviesManager.js:54-58 | setting the same status twice equals setting it once, and ids never change |
| MoviesManager.StatusUpdateIsPatch | src/services/moviesManager.js:51-75 | a status update equals an update whose patch supplies only the status |
| MoviesManager.UpdatedKeepsIds | src/services/moviesManager.js:70-72 | a patch without an id keeps every id, so unique ids stay unique |
| MoviesManager.UpdatedUnknownId | src/services/moviesManager.js:70-72 | an unknown id leaves the list identical |
| MoviesManager.ByStatusCountAndOrder | src/services/moviesManager.js:99 | the filter keeps each matching entry with its multiplicity, drops the others, and distributes over concatenation |
| MoviesManager.StatusPartition | src/services/moviesManager.js:97-100 | the pending, chosen and rejected lists together have exactly as many entries as the whole list |
| MoviesManager.AcceptedMovieIsChosen | src/services/moviesManager.js:53-58 | after accepting a present id of a list with unique ids, the chosen list holds it exactly once and the pending list does not hold it |
| MoviesManager.DrawIndex | src/services/moviesManager.js:110 | `floor(random * n)` is an index in [0, n) |
| MoviesManager.DrawIndexUniform | src/services/moviesManager.js:110 | each index is drawn for exactly the values of `random` in an interval of width 1/n |
| MoviesManager.MovieStore.GetAllMovies | src/services/moviesManager.js:12-20 | the stored list, or `[]` when nothing is stored |
| MoviesManager.MovieStore.AddMovie | src/services/moviesManager.js:23-48 | on a successful write, exactly one new pending record is appended, earlier entries are unchanged, and the record is returned as the last element; on failure nothing changes |
| MoviesManager.MovieStore.UpdateMovieStatus | src/services/moviesManager.js:51-64 | on a successful write, the stored list becomes its status rewrite; on failure nothing changes |
| MoviesManager.MovieStore.UpdateMovie | src/services/moviesManager.js:67-80 | on a successful write, the stored list becomes its patched version; on failure nothing changes |
| MoviesManager.MovieStore.RemoveMovie | src/services/moviesManager.js:83-94 | on a successful write, the stored list becomes its filter by other ids, with success even for an absent id; on failure nothing changes |
| MoviesManager.MovieStore.GetMoviesByStatus | src/services/moviesManager.js:97-100 | the entries with that status, read without writing |
| MoviesManager.MovieStore.DrawRandomChosen | src/services/moviesManager.js:103-112 | `null` exactly when no entry is chosen; otherwise a chosen movie of the store, at index `floor(random * n)` of the chosen list |
| MoviesManager.MovieStore.ClearAll | src/services/moviesManager.js:115-123 | on a successful removal nothing is stored, and the list reads as `[]` |
| StorageManager.AppendNewKeepsUnique | src/services/storageManager.js:19-26 | appending a favorite whose id is new keeps ids unique |
| StorageManager.MergeFrom | src/services/storageManager.js:104-109 | the push loop continued from a list keeps that list as a prefix and adds at most one entry per remaining local entry |
| StorageManager.NewLocals | src/services/storageManager.js:104-109 | the new local entries are no more than the local list, each comes from it, and none has an already-seen id |
| StorageManager.MergeFromIsAppend | src/services/storageManager.js:104-109 | the push loop continued from a list equals that list followed by the reference definition of the new local entries |
| StorageManager.NewLocalsCover | src/services/storageManager.js:104-109 | every local id is already seen or is carried by a new entry |
| StorageManager.NewLocalsUnique | src/services/storageManager.js:104-109 | the new local entries have pairwise distinct ids |
| StorageManager.Merged | src/services/storageManager.js:104-109 | the merge is the cloud list followed by the reference definition of the new local entries |
| StorageManager.MergedShape | src/services/storageManager.js:104-109 | the cloud list is a prefix of the merge; every local id is in it; its length is at most the sum; each entry after the prefix is a local entry with an id the cloud list lacks |
| StorageManager.MergedKeepsUnique | src/services/storageManager.js:104-109 | a cloud list with unique ids gives a merge with unique ids |
| StorageManager.MergedIdempotent | src/services/storageManager.js:104-109 | merging the same local list again changes nothing |
| StorageManager.MergedExample | src/services/storageManager.js:103-109 | cloud `[1, 2]` and local `[2, 3]` give `[1, 2, 3]`, and the cloud copy of 2 is kept |
| StorageManager.MergedDropsLocalDuplicates | src/services/storageManager.js:105-108 | a local entry that repeats an earlier local id is dropped |
| StorageManager.MergedKeepsCloudDuplicates | src/services/storageManager.js:104 | duplicates inside the cloud list are kept |
| StorageManager.MergeFavorites | src/services/storageManager.js:104-109 | the `forEach` push loop computes the merge, which is the cloud list followed by the new local entries |
| StorageManager.HybridStorage.Sync | src/services/cloudStorage.js:55-73 | the server takes the list when the request succeeds; a failure is swallowed and leaves it as it was |
| StorageManager.HybridStorage.FetchCloud | src/services/cloudStorage.js:75-89 | the server's list, or `[]` when the request fails |
| StorageManager.HybridStorage.AddFavorite | src/services/storageManager.js:13-44 | a saved id is refused with the message and nothing changes; otherwise the device list becomes old plus the movie, that list is returned, and it is pushed to the server only when a token is given |
| StorageManager.HybridStorage.RemoveFavorite | src/services/storageManager.js:47-63 | the device list becomes its filter by other ids and is returned with success; it is pushed to the server only when a token is given |
| StorageManager.HybridStorage.GetFavorites | src/services/storageManager.js:66-86 | with a token and a non-empty server answer, that answer replaces the device list and is returned; otherwise the device list is returned unchanged |
| StorageManager.HybridStorage.Login | src/services/storageManager.js:90-124 | a successful answer carries a non-empty token, as `CloudStorage.login` guarantees; on success the token is stored, so the user is logged in, and the merge of the server list with the device list is saved on the device and pushed to the server; a refused login changes nothing; the answer is returned as it came |
| StorageManager.HybridStorage.Logout | src/services/storageManager.js:126-140 | only the token is deleted; the favorites stay |
| StorageManager.HybridStorage.IsLoggedIn | src/services/storageManager.js:143-146 | true exactly when the stored token is truthy |
| StorageManager.HybridStorage.SavePreferences | src/services/storageManager.js:150-153 | the preferences are stored on the device only |
| StorageManager.HybridStorage.GetPreferences | src/services/localStorage.js:44-51 | the stored preferences, or dark theme, notifications on and pt-BR while none are stored |

## Left out

- Screens, components and navigation, including the debounce timer, are UI rendering and timing, and are not part of this model.
- JSON encoding, `async`/`await` and console logging are not modelled. Records are Dafny values, and a stored list is read back exactly as written.
- Read failures of the device store are not modelled: the `catch` of `getAllMovies`, `LocalStorage.getFavorites`, `LocalStorage.getPreferences` and `SecureStorage.getAuthToken` (`src/services/localStorage.js:83-90`). The stored value is always readable; in particular the source's `isLoggedIn` reports false when reading a stored token fails, while `StorageManager.HybridStorage.IsLoggedIn` reads the token directly.
- Write failures of the device favorites store are not modelled. `LocalStorage.saveFavorites` logs them and returns, and the model treats every device write of favorites and preferences as successful.
- The request URLs are not modelled: the query string, `encodeURIComponent`, the page number of `getPopularMovies` and the logging on a 401 status. The response is a parameter, and its failure cases are the ones the code distinguishes.
- The floating-point fields `vote_average`, `vote_count` and `popularity` are not modelled. They are copied unchanged and nothing depends on them.
- `CloudStorage.register`, `updateProfile` and `getProfile` are not modelled; the core does not call them.
- `Math.random()` is the real parameter `random` in [0, 1). The model states which index each value draws, not a probability distribution.
- Statuses: the source stores any string as the status. The model has the three values the app writes, so an unknown status string is not modelled.
- MoviesManager.MovieStore.AddMovie: the id is the `now` given. That two adds in the same millisecond share an id is not excluded, which is why the uniqueness lemmas take unique ids as a hypothesis.
- MoviesManager.MovieStore.UpdateMovieStatus: the `error` object of a failed write is not carried. A failure is `Failure`, and so for every mutator.
- Favorites: a favorite is its id plus an opaque `details` string standing for the rest of the movie record.
- StorageManager.HybridStorage.Login: the `catch` returning "Erro de conexão" is not modelled. The calls inside the `try` catch their own errors, so it is reached only when the server's favorites are not a list of records (the spread, `forEach` and `some` of `src/services/storageManager.js:104-106` then throw), which the typed model excludes. In that case the source has already stored the token (line 97) and still reports failure.
- StorageManager.HybridStorage.Logout: deleting the saved e-mail and password along with the token is not modelled, because no core operation saves credentials.
- StorageManager.HybridStorage.GetFavorites: the `catch` that falls back to the device list is not modelled, because the server read and the device write inside the `try` already catch their own errors.
- The server keeps one favorites list, whatever token is passed. Per-user server state is not modelled.
- Concurrent read-modify-write races between two in-flight actions are not modelled. The app runs one action at a time.
- MovieService.NormalizeDetails: `genresList` keeps only the genre names, not the `{id, name}` objects of `src/services/movieService.js:99`; a raw genre is its name.
- StorageManager.HybridStorage.Login: failures of `saveAuthToken` (`src/services/localStorage.js:73-80`) are logged and swallowed by the source; the model treats storing the token as always successful.
- StorageManager.HybridStorage.Logout: failures of `deleteAuthData` (`src/services/localStorage.js:104-113`) are logged and swallowed by the source; the model treats deleting the token as always successful.
