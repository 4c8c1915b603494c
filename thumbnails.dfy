/** Choice of a video's thumbnail URL from the sizes the listing reports. */
module Thumbnails {
  import opened Optional

  /** The `url` of each thumbnail size; `None` when the size or its url is absent. */
  datatype Thumbnails = Thumbnails(high: Option<string>, medium: Option<string>, default: Option<string>)

  /** Python's `x or y` on two optional strings: `x` when it is truthy, else `y`. */
  function Or(x: Option<string>, y: Option<string>): Option<string> {
    if Truthy(x) then x else y
  }

  /** `high or medium or default or ""`: the first truthy url in preference order. */
  function SelectThumbnail(t: Thumbnails): (url: string)
    ensures Truthy(t.high) ==> url == t.high.value
    ensures !Truthy(t.high) && Truthy(t.medium) ==> url == t.medium.value
    ensures !Truthy(t.high) && !Truthy(t.medium) && Truthy(t.default) ==> url == t.default.value
    ensures url == "" <==> !Truthy(t.high) && !Truthy(t.medium) && !Truthy(t.default)
    ensures url == "" || Some(url) == t.high || Some(url) == t.medium || Some(url) == t.default
  {
    var chosen := Or(Or(t.high, t.medium), t.default);
    if Truthy(chosen) then chosen.value else ""
  }

  /** Examples: default only, default and medium, all three, none. */
  lemma SelectThumbnailExamples(d: string, m: string, h: string)
    requires d != "" && m != "" && h != ""
    ensures SelectThumbnail(Thumbnails(None, None, Some(d))) == d
    ensures SelectThumbnail(Thumbnails(None, Some(m), Some(d))) == m
    ensures SelectThumbnail(Thumbnails(Some(h), Some(m), Some(d))) == h
    ensures SelectThumbnail(Thumbnails(None, None, None)) == ""
  {
  }

  /** An empty `high` url is treated as absent and falls through to `medium`. */
  lemma EmptyHighFallsThrough(m: Option<string>, d: Option<string>)
    ensures SelectThumbnail(Thumbnails(Some(""), m, d)) == SelectThumbnail(Thumbnails(None, m, d))
  {
  }
}
