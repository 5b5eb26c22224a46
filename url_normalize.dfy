/** `normalizeURL` of the policy-from-URL service: a scheme is added when
    the input has none. */
module UrlNormalize {
  import opened Text

  const Http := "http://"
  const Https := "https://"

  predicate HasScheme(url: string) {
    IsPrefix(Http, url) || IsPrefix(Https, url)
  }

  /** Input that already starts with a scheme is returned as it is;
      anything else gets "https://" in front. */
  function NormalizeURL(url: string): (r: string)
    ensures HasScheme(url) ==> r == url
    ensures !HasScheme(url) ==> r == Https + url
    ensures HasScheme(r)
  {
    if !IsPrefix(Http, url) && !IsPrefix(Https, url) then
      assert IsPrefix(Https, Https + url) by {
        assert (Https + url)[..|Https|] == Https;
      }
      Https + url
    else url
  }

  /** Normalising twice gives the same as normalising once. */
  lemma NormalizeIdempotent(url: string)
    ensures NormalizeURL(NormalizeURL(url)) == NormalizeURL(url)
  {
  }
}
