/** The paginated collection of a playlist's items. The listing API is replaced by
    the sequence of outcomes it gives to successive requests: the k-th request
    receives `pages[k]`; a request past the end of `pages` is treated as one that
    raised. */
module Fetcher {
  import opened Optional
  import opened Records

  /** The loop asks for another page only while fewer items than this were fetched. */
  const FetchLimit: nat := 100
  /** The `maxResults` of every request. */
  const PageSize: nat := 50

  /** The query parameters of one request. */
  datatype Request = Request(playlistId: string, maxResults: nat, key: string, pageToken: Option<string>)

  /** What one request produced: a response with its status code, its `items` and its
      `nextPageToken`, or an exception raised by the call or by decoding the body. */
  datatype PageOutcome =
    | Response(status: int, items: seq<RawItem>, nextPageToken: Option<string>)
    | Raised

  predicate Succeeded(o: PageOutcome) {
    o.Response? && o.status == 200
  }

  predicate AllReadable(items: seq<RawItem>) {
    forall t :: 0 <= t < |items| ==> items[t].Item?
  }

  /** The records appended while walking `items`, up to the first item that raises. */
  function ReadablePrefix(items: seq<RawItem>): (vs: seq<Video>)
    ensures |vs| <= |items|
    ensures AllReadable(items) ==> |vs| == |items|
  {
    if items == [] then []
    else match items[0]
      case Malformed => []
      case Item(s) => [ToVideo(s)] + ReadablePrefix(items[1..])
  }

  /** The records a page contributes, whether or not the loop goes on after it. */
  function PageVideos(o: PageOutcome): seq<Video> {
    if Succeeded(o) then ReadablePrefix(o.items) else []
  }

  /** A page after which the loop asks for the next one (if below the limit). */
  predicate Continues(o: PageOutcome) {
    Succeeded(o) && AllReadable(o.items) && Truthy(o.nextPageToken)
  }

  /** `total_fetched` after the given pages: the sum of their item counts. */
  function ItemCount(ps: seq<PageOutcome>): nat {
    if ps == [] then 0
    else ItemCount(ps[..|ps| - 1]) + (if ps[|ps| - 1].Response? then |ps[|ps| - 1].items| else 0)
  }

  /** The records of the given pages, concatenated in page order. */
  function Flatten(ps: seq<PageOutcome>): seq<Video> {
    if ps == [] then [] else Flatten(ps[..|ps| - 1]) + PageVideos(ps[|ps| - 1])
  }

  /** The outcome of request `k`. */
  function Outcome(pages: seq<PageOutcome>, k: nat): PageOutcome {
    if k < |pages| then pages[k] else Raised
  }

  /** The token carried by the response to request `k`, if any. */
  function TokenAfter(pages: seq<PageOutcome>, k: nat): Option<string> {
    if k < |pages| && pages[k].Response? then pages[k].nextPageToken else None
  }

  /** Request `k` is the last one: it failed, raised, had no next token, or
      brought the count to the limit. */
  predicate Stops(pages: seq<PageOutcome>, k: nat) {
    k >= |pages| || !Continues(pages[k]) || ItemCount(pages[..k + 1]) >= FetchLimit
  }

  /** The first request from `k` on that is the last one. */
  function FirstStop(pages: seq<PageOutcome>, k: nat): (n: nat)
    requires k <= |pages|
    ensures k <= n <= |pages|
    ensures Stops(pages, n)
    ensures forall j :: k <= j < n ==> !Stops(pages, j)
    decreases |pages| - k
  {
    if Stops(pages, k) then k else FirstStop(pages, k + 1)
  }

  /** The index of the last request the loop issues. */
  function LastRequest(pages: seq<PageOutcome>): nat {
    FirstStop(pages, 0)
  }

  /** The records the loop returns: every record of the pages before the last
      request, then what the last request's page contributed before the loop left. */
  function Collected(pages: seq<PageOutcome>): seq<Video> {
    var n := LastRequest(pages);
    Flatten(pages[..n]) + PageVideos(Outcome(pages, n))
  }

  /** Every page the API returns holds at most `PageSize` items. */
  predicate PagesWithin(pages: seq<PageOutcome>) {
    forall k :: 0 <= k < |pages| && pages[k].Response? ==> |pages[k].items| <= PageSize
  }

  lemma {:induction false} FlattenAppend(ps: seq<PageOutcome>, k: nat)
    requires k < |ps|
    ensures Flatten(ps[..k + 1]) == Flatten(ps[..k]) + PageVideos(ps[k])
    ensures ItemCount(ps[..k + 1]) == ItemCount(ps[..k]) + (if ps[k].Response? then |ps[k].items| else 0)
  {
    assert ps[..k + 1][..k] == ps[..k];
  }

  /** Over pages that all continue, the number of records equals `total_fetched`. */
  lemma {:induction false} FlattenLength(ps: seq<PageOutcome>)
    requires forall j :: 0 <= j < |ps| ==> Continues(ps[j])
    ensures |Flatten(ps)| == ItemCount(ps)
  {
    if ps != [] {
      FlattenLength(ps[..|ps| - 1]);
    }
  }

  /** A last request is unique: if `n` stops and nothing before it does, `n` is it. */
  lemma {:induction false} FirstStopIs(pages: seq<PageOutcome>, k: nat, n: nat)
    requires k <= n <= |pages|
    requires Stops(pages, n)
    requires forall j :: k <= j < n ==> !Stops(pages, j)
    ensures FirstStop(pages, k) == n
    decreases n - k
  {
    if k < n {
      FirstStopIs(pages, k + 1, n);
    }
  }

  /** A new page is requested only while fewer than `FetchLimit` items were fetched,
      and `total_fetched` then equals the number of records kept; with pages of at
      most `PageSize` items the result stays below `FetchLimit + PageSize`. */
  lemma CollectedBound(pages: seq<PageOutcome>)
    ensures ItemCount(pages[..LastRequest(pages)]) < FetchLimit
    ensures |Flatten(pages[..LastRequest(pages)])| == ItemCount(pages[..LastRequest(pages)])
    ensures PagesWithin(pages) ==> |Collected(pages)| < FetchLimit + PageSize
  {
    var n := LastRequest(pages);
    if n > 0 {
      assert !Stops(pages, n - 1);
    }
    forall j | 0 <= j < n
      ensures Continues(pages[..n][j])
    {
      assert !Stops(pages, j);
    }
    FlattenLength(pages[..n]);
  }

  /** Partial results survive a failure: when every request before `k` went on and
      request `k` got an error status or raised, the result is exactly the records
      of the pages before it. */
  lemma PartialResultsKept(pages: seq<PageOutcome>, k: nat)
    requires forall j :: 0 <= j < k ==> !Stops(pages, j)
    requires k <= |pages|
    requires k == |pages| || !Succeeded(pages[k])
    ensures Collected(pages) == Flatten(pages[..k])
  {
    FirstStopIs(pages, 0, k);
  }

  /** An item that raises ends the loop, keeping the records appended before it. */
  lemma MalformedItemKeepsEarlier(pages: seq<PageOutcome>, k: nat, t: nat)
    requires forall j :: 0 <= j < k ==> !Stops(pages, j)
    requires k < |pages| && Succeeded(pages[k])
    requires t < |pages[k].items| && pages[k].items[t].Malformed?
    requires forall u :: 0 <= u < t ==> pages[k].items[u].Item?
    ensures Collected(pages) ==
              Flatten(pages[..k]) + seq(t, u requires 0 <= u < t => ToVideo(pages[k].items[u].snippet))
  {
    FirstStopIs(pages, 0, k);
    ReadablePrefixUpTo(pages[k].items, t);
  }

  lemma {:induction false} ReadablePrefixUpTo(items: seq<RawItem>, t: nat)
    requires t < |items| && items[t].Malformed?
    requires forall u :: 0 <= u < t ==> items[u].Item?
    ensures ReadablePrefix(items) == seq(t, u requires 0 <= u < t => ToVideo(items[u].snippet))
  {
    if t > 0 {
      ReadablePrefixUpTo(items[1..], t - 1);
    }
  }

  /** The `pageToken` of request `k`: none on the first request, otherwise the
      token of the response before it. */
  function TokenFor(pages: seq<PageOutcome>, k: nat): Option<string> {
    if k == 0 then None else TokenAfter(pages, k - 1)
  }

  /** Every request carries the fixed parameters and the token of the response
      before it, and that token is truthy on every request after the first. */
  ghost predicate RequestsIssued(requests: seq<Request>, playlistId: string, apiKey: string,
                                 pages: seq<PageOutcome>)
  {
    && (forall k :: 0 <= k < |requests| ==>
          requests[k] == Request(playlistId, PageSize, apiKey, TokenFor(pages, k)))
    && (forall k :: 0 < k < |requests| ==> Truthy(TokenFor(pages, k)))
  }

  /** Requests `0 .. i - 1` all went on to a next request. */
  ghost predicate WentOn(pages: seq<PageOutcome>, i: nat) {
    && i <= |pages|
    && (forall j :: 0 <= j < i ==> Continues(pages[j]))
    && (forall j :: 0 <= j < i - 1 ==> !Stops(pages, j))
  }

  lemma WentOnNext(pages: seq<PageOutcome>, i: nat)
    requires WentOn(pages, i) && ItemCount(pages[..i]) < FetchLimit
    requires i < |pages| && Continues(pages[i])
    ensures WentOn(pages, i + 1)
  {
    if i > 0 {
      assert !Stops(pages, i - 1);
    }
  }

  lemma IssuedNext(requests: seq<Request>, playlistId: string, apiKey: string,
                   pages: seq<PageOutcome>)
    requires RequestsIssued(requests, playlistId, apiKey, pages)
    requires WentOn(pages, |requests|)
    ensures |requests| > 0 ==> Truthy(TokenFor(pages, |requests|))
    ensures RequestsIssued(requests + [Request(playlistId, PageSize, apiKey, TokenFor(pages, |requests|))],
                           playlistId, apiKey, pages)
  {
    if |requests| > 0 {
      assert Continues(pages[|requests| - 1]);
    }
  }

  /** Request `i` stops the loop after all earlier ones went on below the limit. */
  lemma StopAt(pages: seq<PageOutcome>, i: nat)
    requires WentOn(pages, i) && ItemCount(pages[..i]) < FetchLimit
    requires i == |pages| || !Continues(pages[i]) || ItemCount(pages[..i + 1]) >= FetchLimit
    ensures LastRequest(pages) == i
    ensures Collected(pages) == Flatten(pages[..i]) + PageVideos(Outcome(pages, i))
  {
    if i > 0 {
      assert !Stops(pages, i - 1);
    }
    FirstStopIs(pages, 0, i);
  }

  /** The loop condition fails once `total_fetched` reaches the limit after request `i - 1`. */
  lemma StopAtLimit(pages: seq<PageOutcome>, i: nat)
    requires WentOn(pages, i) && ItemCount(pages[..i]) >= FetchLimit
    ensures i > 0 && LastRequest(pages) == i - 1
    ensures Collected(pages) == Flatten(pages[..i])
  {
    assert ItemCount(pages[..0]) == 0;
    var n := i - 1;
    FlattenAppend(pages, n);
    if n > 0 {
      assert !Stops(pages, n - 1);
    }
    assert WentOn(pages, n);
    StopAt(pages, n);
  }

  /** The loop over one page's items: append a record per item, until an item raises. */
  method AppendItems(videos: seq<Video>, items: seq<RawItem>) returns (appended: seq<Video>, raised: bool)
    ensures appended == videos + ReadablePrefix(items)
    ensures raised <==> !AllReadable(items)
  {
    appended, raised := videos, false;
    var t := 0;
    while t < |items|
      invariant t <= |items|
      invariant forall u :: 0 <= u < t ==> items[u].Item?
      invariant appended + ReadablePrefix(items[t..]) == videos + ReadablePrefix(items)
    {
      if items[t].Malformed? {
        assert ReadablePrefix(items[t..]) == [];
        raised := true;
        return;
      }
      assert items[t..][1..] == items[t + 1..];
      ghost var rest := ReadablePrefix(items[t + 1..]);
      assert ReadablePrefix(items[t..]) == [ToVideo(items[t].snippet)] + rest;
      assert appended + ([ToVideo(items[t].snippet)] + rest)
          == (appended + [ToVideo(items[t].snippet)]) + rest;
      appended := appended + [ToVideo(items[t].snippet)];
      t := t + 1;
    }
    assert items[t..] == [];
  }

  /** The loop of the fetcher: request pages while fewer than `FetchLimit` items were
      fetched, append one record per item, and leave on an error status, an
      exception, or a missing next-page token. It returns the records and, for the
      model, the requests it issued. */
  method FetchVideosFromPlaylist(playlistId: string, apiKey: string, pages: seq<PageOutcome>)
    returns (videos: seq<Video>, requests: seq<Request>)
    ensures |requests| == LastRequest(pages) + 1
    ensures videos == Collected(pages)
    ensures PagesWithin(pages) ==> |videos| < FetchLimit + PageSize
    ensures RequestsIssued(requests, playlistId, apiKey, pages)
    ensures requests[0].pageToken == None
  {
    videos, requests := [], [];
    var totalFetched := 0;
    var nextPageToken: Option<string> := None;
    var i := 0;
    while totalFetched < FetchLimit
      invariant WentOn(pages, i)
      invariant |requests| == i
      invariant totalFetched == ItemCount(pages[..i])
      invariant videos == Flatten(pages[..i])
      invariant nextPageToken == TokenFor(pages, i)
      invariant RequestsIssued(requests, playlistId, apiKey, pages)
      decreases |pages| - i
    {
      var pageToken := if Truthy(nextPageToken) then nextPageToken else None;
      IssuedNext(requests, playlistId, apiKey, pages);
      requests := requests + [Request(playlistId, PageSize, apiKey, pageToken)];
      var outcome := Outcome(pages, i);
      if outcome.Raised? || outcome.status != 200 {
        StopAt(pages, i);
        break;
      }
      var raised;
      videos, raised := AppendItems(videos, outcome.items);
      FlattenAppend(pages, i);
      if raised {
        StopAt(pages, i);
        break;
      }
      totalFetched := totalFetched + |outcome.items|;
      nextPageToken := outcome.nextPageToken;
      if !Truthy(nextPageToken) {
        StopAt(pages, i);
        break;
      }
      WentOnNext(pages, i);
      i := i + 1;
    }
    if |requests| == i {
      StopAtLimit(pages, i);
    }
    CollectedBound(pages);
  }
}
