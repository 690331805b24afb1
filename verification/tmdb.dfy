/**
 * Configuration of the movie-database client: the fixed `TMDB_CONFIG` record,
 * the API-key check and the image URL builder.
 */
module Tmdb {
  import opened Wrappers
  import opened Js

  /** The key shipped in the configuration: the placeholder itself. */
  const ApiKey: string := "SUA_API_KEY_AQUI"
  /** The placeholder a real key must differ from. */
  const Placeholder: string := "SUA_API_KEY_AQUI"
  const BaseUrl: string := "https://api.themoviedb.org/3"
  const ImageBaseUrl: string := "https://image.tmdb.org/t/p"

  // IMAGE_SIZES
  const PosterSmall: string := "w185"
  const PosterMedium: string := "w342"
  const PosterLarge: string := "w500"
  const BackdropSmall: string := "w300"
  const BackdropMedium: string := "w780"
  const BackdropLarge: string := "w1280"

  /**
   * `isApiKeyConfigured` evaluated against an arbitrary key; `.length` counts
   * UTF-16 code units.
   */
  predicate ApiKeyConfigured(key: string)
    ensures ApiKeyConfigured(key) ==> key != Placeholder && |key| >= 6
    ensures key != Placeholder && |key| > 10 ==> ApiKeyConfigured(key)
  {
    key != "" && key != Placeholder && Utf16Length(key) > 10
  }

  /** `isApiKeyConfigured()` against the shipped configuration. */
  predicate IsApiKeyConfigured() {
    ApiKeyConfigured(ApiKey)
  }

  /** The shipped configuration holds the placeholder, so no request is ever configured. */
  lemma ShippedKeyNotConfigured()
    ensures !IsApiKeyConfigured()
  {
  }

  /**
   * For a key made of characters up to U+FFFF, as the database's keys are, the
   * length test is a character count: such a key is configured exactly when it
   * has more than ten characters and is not the placeholder.
   */
  lemma ConfiguredBmpKey(key: string)
    requires forall i :: 0 <= i < |key| ==> key[i] <= '\U{FFFF}'
    ensures ApiKeyConfigured(key) <==> |key| > 10 && key != Placeholder
  {
  }

  /** Six characters above U+FFFF are twelve code units: such a key passes the length test. */
  lemma AstralKeyConfigured(c: char)
    requires c > '\U{FFFF}'
    ensures ApiKeyConfigured([c, c, c, c, c, c])
  {
    var key := [c, c, c, c, c, c];
    assert key != Placeholder by { assert key[0] != Placeholder[0]; }
  }

  /** The prefix every image URL of the given size starts with. */
  function ImagePrefix(size: string): string {
    ImageBaseUrl + "/" + size
  }

  /** `getImageUrl(path, size)`: `null` for a missing or empty path, else base, size and path. */
  function ImageUrl(path: Option<string>, size: string := PosterMedium): (url: Option<string>)
    ensures url.None? <==> !Truthy(path)
    ensures url.Some? ==> ImagePrefix(size) <= url.value
    ensures url.Some? ==> |url.value| == |ImagePrefix(size)| + |path.value|
    ensures url.Some? ==> url.value[|ImagePrefix(size)|..] == path.value
  {
    if !Truthy(path) then None else Some(ImageBaseUrl + "/" + size + path.value)
  }

  /** Reading the path back out of an image URL of a known size. */
  function ImagePath(url: string, size: string): (path: Option<string>)
    ensures path.Some? ==> ImagePrefix(size) + path.value == url
  {
    var prefix := ImagePrefix(size);
    if prefix <= url && |url| > |prefix| then Some(url[|prefix|..]) else None
  }

  /** Round trip: the path is recovered from the URL built for it. */
  lemma ImageUrlRoundTrip(path: Option<string>, size: string)
    requires Truthy(path)
    ensures ImageUrl(path, size).Some?
    ensures ImagePath(ImageUrl(path, size).value, size) == path
  {
  }

  /** Different paths give different URLs at the same size. */
  lemma ImageUrlInjective(p: Option<string>, q: Option<string>, size: string)
    requires Truthy(p) && Truthy(q)
    requires ImageUrl(p, size) == ImageUrl(q, size)
    ensures p == q
  {
    ImageUrlRoundTrip(p, size);
    ImageUrlRoundTrip(q, size);
  }

  /** With no size given, posters come in the medium size `w342`. */
  lemma DefaultSizeIsPosterMedium(path: Option<string>)
    requires Truthy(path)
    ensures ImageUrl(path) == Some("https://image.tmdb.org/t/p/w342" + path.value)
  {
    assert ImageBaseUrl + "/" + PosterMedium == "https://image.tmdb.org/t/p/w342";
  }
}
