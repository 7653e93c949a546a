/** The URL normalisation at the start of `fetch_content`. */
module UrlScheme {

  predicate StartsWith(s: string, prefix: string)
  {
    |prefix| <= |s| && s[..|prefix|] == prefix
  }

  predicate EndsWith(s: string, suffix: string)
  {
    |suffix| <= |s| && s[|s| - |suffix|..] == suffix
  }

  /**
   * Prefixes "https://" unless the URL already starts with "http" (a
   * case-sensitive test on the first four characters, nothing more). The
   * result starts with "http", keeps the whole URL at its end, and adds
   * at most the eight characters of "https://".
   */
  function WithScheme(url: string): (r: string)
    ensures StartsWith(r, "http")
    ensures EndsWith(r, url)
    ensures |r| == |url| || r == "https://" + url
  {
    if StartsWith(url, "http") then url else "https://" + url
  }

  /** A URL that already starts with "http" is left exactly as it is. */
  lemma WithSchemeKeepsHttp(url: string)
    requires StartsWith(url, "http")
    ensures WithScheme(url) == url
  {
  }

  /** A URL that does not start with "http" gets exactly "https://" in front. */
  lemma WithSchemeAddsHttps(url: string)
    requires !StartsWith(url, "http")
    ensures WithScheme(url) == "https://" + url
  {
  }

  /** Normalising twice changes nothing more. */
  lemma WithSchemeIdempotent(url: string)
    ensures WithScheme(WithScheme(url)) == WithScheme(url)
  {
    WithSchemeKeepsHttp(WithScheme(url));
  }
}
