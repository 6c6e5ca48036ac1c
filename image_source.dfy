/**
 * The two string rewrites applied to image sources: normalising what the unlock
 * service returns into a displayable `data:` URL, and stripping a `data:` URL back
 * to its payload when the sheets are handed to the next page.
 */
module ImageSource {
  import opened Wrappers
  import opened JsString

  const DataScheme := "data:"
  const PngBase64Prefix := "data:image/png;base64,"

  /** A server image string: kept when already a `data:` URL, otherwise taken as raw base64 PNG data. */
  function NormaliseImage(b64: string): (src: string)
    ensures StartsWith(src, DataScheme)
  {
    if StartsWith(b64, DataScheme) then b64 else PngBase64Prefix + b64
  }

  /** An image source on export: a `data:` URL becomes `src.split(",")[1]`, anything else is kept. */
  function StripImage(src: string): (r: Option<string>)
    ensures r.None? <==> StartsWith(src, DataScheme) && ',' !in src
    ensures r.Some? && !StartsWith(src, DataScheme) ==> r.value == src
    ensures r.Some? && StartsWith(src, DataScheme) ==> ',' !in r.value && |r.value| < |src|
  {
    if StartsWith(src, DataScheme) then SecondCommaField(src) else Some(src)
  }

  /** A string that is already a `data:` URL passes normalisation unchanged. */
  lemma NormaliseKeepsDataUrl(s: string)
    requires StartsWith(s, DataScheme)
    ensures NormaliseImage(s) == s
  {
  }

  /** Sources that are not `data:` URLs (object URLs of a local parse) pass export unchanged. */
  lemma StripKeepsOtherSources(s: string)
    requires !StartsWith(s, DataScheme)
    ensures StripImage(s) == Some(s)
  {
  }

  /** Raw base64 data normalised for display and then exported comes back unchanged. */
  lemma StripAfterNormalise(b: string)
    requires ',' !in b && !StartsWith(b, DataScheme)
    ensures NormaliseImage(b) == PngBase64Prefix + b
    ensures StripImage(NormaliseImage(b)) == Some(b)
  {
    assert PngBase64Prefix == "data:image/png;base64" + ",";
    assert ',' !in "data:image/png;base64";
    SecondCommaFieldOfJoin("data:image/png;base64", b);
    assert StartsWith(PngBase64Prefix + b, DataScheme) by {
      assert (PngBase64Prefix + b)[..5] == DataScheme;
    }
  }

  /** A `data:` URL without a comma has no payload to export: `split(",")[1]` is undefined. */
  lemma StripWithoutComma(s: string)
    requires StartsWith(s, DataScheme) && ',' !in s
    ensures StripImage(s) == None
  {
  }
}
