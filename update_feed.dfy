/** The update job: load the prior feed into the id-keyed index, fetch each
    channel's uploads and write them over it, then keep the newest records.
    The prior feed, the channel registry and the listing API's answers are inputs;
    the feed that would be written is the output. */
module UpdateFeed {
  import opened Optional
  import opened Records
  import opened StringOrder
  import opened Playlist
  import opened Fetcher
  import opened FeedIndex
  import opened Sorting

  /** The number of records the feed keeps. */
  const FeedLimit: nat := 1000

  function Min(a: nat, b: nat): nat {
    if a < b then a else b
  }

  /** The records fetched for each channel, in registry order; `responses[i]` is
      what the listing API answers for channel `i`. */
  function FreshVideos(responses: seq<seq<PageOutcome>>): seq<Video> {
    if responses == [] then []
    else FreshVideos(responses[..|responses| - 1]) + Collected(responses[|responses| - 1])
  }

  /** The index after the prior feed and then every fetched record were written. */
  function MergedIndex(prior: seq<Video>, responses: seq<seq<PageOutcome>>): Index {
    PutAll(PutAll(Empty, prior), FreshVideos(responses))
  }

  /** `feed` is what the job keeps of `entries`: newest first, at most `FeedLimit`
      records (fewer only when there are fewer ids), no id twice, each record the
      one stored under its id, and no record left out is newer than the oldest kept. */
  ghost predicate IsRetainedFeed(feed: seq<Video>, entries: map<string, Video>) {
    && NewestFirst(feed)
    && |feed| == Min(|entries|, FeedLimit)
    && (forall p, q :: 0 <= p < q < |feed| ==> feed[p].id != feed[q].id)
    && (forall p :: 0 <= p < |feed| ==> feed[p].id in entries && entries[feed[p].id] == feed[p])
    && (forall k :: k in entries && k !in Ids(feed) ==>
          0 < |feed| && Leq(entries[k].published, feed[|feed| - 1].published))
  }

  lemma FreshVideosAppend(responses: seq<seq<PageOutcome>>, i: nat)
    requires i < |responses|
    ensures FreshVideos(responses[..i + 1]) == FreshVideos(responses[..i]) + Collected(responses[i])
  {
    assert responses[..i + 1][..i] == responses[..i];
  }

  /** The ids of the merged index are those of the prior feed and of the fresh records. */
  lemma MergedKeys(prior: seq<Video>, responses: seq<seq<PageOutcome>>)
    ensures Valid(MergedIndex(prior, responses))
    ensures MergedIndex(prior, responses).entries.Keys == Ids(prior) + Ids(FreshVideos(responses))
  {
    PutAllShape(Empty, prior);
    PutAllShape(PutAll(Empty, prior), FreshVideos(responses));
  }

  /** Fresh data overwrites the prior feed: an id that was fetched maps to the last
      record fetched for it. */
  lemma FreshRecordWins(prior: seq<Video>, responses: seq<seq<PageOutcome>>, i: nat)
    requires i < |FreshVideos(responses)| && LastWithId(FreshVideos(responses), i)
    ensures FreshVideos(responses)[i].id in MergedIndex(prior, responses).entries
    ensures MergedIndex(prior, responses).entries[FreshVideos(responses)[i].id] == FreshVideos(responses)[i]
  {
    PutAllLastWins(PutAll(Empty, prior), FreshVideos(responses), i);
  }

  /** An id only the prior feed holds keeps its prior record (the last one the prior
      feed lists for it). */
  lemma PriorOnlyKept(prior: seq<Video>, responses: seq<seq<PageOutcome>>, i: nat)
    requires i < |prior| && LastWithId(prior, i)
    requires prior[i].id !in Ids(FreshVideos(responses))
    ensures prior[i].id in MergedIndex(prior, responses).entries
    ensures MergedIndex(prior, responses).entries[prior[i].id] == prior[i]
  {
    PutAllLastWins(Empty, prior, i);
    PutAllKeepsOthers(PutAll(Empty, prior), FreshVideos(responses), prior[i].id);
  }

  lemma {:induction false} DistinctMultiplicity(t: seq<Video>, x: Video)
    requires forall p, q :: 0 <= p < q < |t| ==> t[p] != t[q]
    ensures multiset(t)[x] <= 1
  {
    if t != [] {
      var rest := t[1..];
      assert t == [t[0]] + rest;
      DistinctMultiplicity(rest, x);
      if t[0] == x {
        assert x !in rest;
      }
    }
  }

  /** A rearrangement of a list without repeated records has none either. */
  lemma DistinctPermutation(s: seq<Video>, t: seq<Video>)
    requires multiset(s) == multiset(t)
    requires forall p, q :: 0 <= p < q < |t| ==> t[p] != t[q]
    ensures forall p, q :: 0 <= p < q < |s| ==> s[p] != s[q]
  {
    forall p, q | 0 <= p < q < |s|
      ensures s[p] != s[q]
    {
      if s[p] == s[q] {
        var x := s[p];
        assert s == s[..q] + s[q..];
        assert x in s[..q] && x in s[q..];
        assert multiset(s)[x] == multiset(s[..q])[x] + multiset(s[q..])[x];
        DistinctMultiplicity(t, x);
      }
    }
  }

  /** Any rearrangement of the index's values holds each stored record once. */
  lemma RearrangedValues(d: Index, sorted: seq<Video>)
    requires Valid(d)
    requires multiset(sorted) == multiset(Values(d))
    ensures |sorted| == |d.entries|
    ensures forall p :: 0 <= p < |sorted| ==>
              sorted[p].id in d.entries && d.entries[sorted[p].id] == sorted[p]
    ensures forall p, q :: 0 <= p < q < |sorted| ==> sorted[p].id != sorted[q].id
    ensures forall k :: k in d.entries ==> d.entries[k] in sorted
  {
    var vs := Values(d);
    ValuesAreEntries(d);
    assert |sorted| == |multiset(sorted)| == |vs|;
    SameElements(sorted, vs);
    DistinctPermutation(sorted, vs);
    forall p | 0 <= p < |sorted|
      ensures sorted[p].id in d.entries && d.entries[sorted[p].id] == sorted[p]
    {
      assert sorted[p] in vs;
    }
  }

  lemma SameElements(s: seq<Video>, t: seq<Video>)
    requires multiset(s) == multiset(t)
    ensures forall x :: x in s <==> x in t
  {
    forall x
      ensures x in s <==> x in t
    {
      assert x in s <==> x in multiset(s);
      assert x in t <==> x in multiset(t);
    }
  }

  /** No record outside the first `n` of a newest-first list is newer than the
      `n`-th. */
  lemma LeftOutNotNewer(d: Index, sorted: seq<Video>, n: nat)
    requires Valid(d)
    requires NewestFirst(sorted)
    requires n <= |sorted| && (|sorted| > 0 ==> n > 0)
    requires forall k :: k in d.entries ==> d.entries[k] in sorted
    ensures forall k :: k in d.entries && k !in Ids(sorted[..n]) ==>
              0 < n && Leq(d.entries[k].published, sorted[n - 1].published)
  {
    var feed := sorted[..n];
    assert forall p :: 0 <= p < n ==> feed[p] == sorted[p] && sorted[p].id in Ids(feed);
    forall k | k in d.entries && k !in Ids(feed)
      ensures 0 < n && Leq(d.entries[k].published, sorted[n - 1].published)
    {
      var x := d.entries[k];
      assert x.id == k;
      var m :| 0 <= m < |sorted| && sorted[m] == x;
      assert m >= n;
      if m != n - 1 {
        assert Leq(sorted[m].published, sorted[n - 1].published);
      } else {
        LeqReflexive(x.published);
      }
    }
  }

  /** Sorting the index's values newest first and taking the first `FeedLimit`
      records gives the retained feed of the index. */
  lemma RetainNewest(d: Index, sorted: seq<Video>)
    requires Valid(d)
    requires NewestFirst(sorted)
    requires multiset(sorted) == multiset(Values(d))
    ensures IsRetainedFeed(sorted[..Min(|sorted|, FeedLimit)], d.entries)
  {
    RearrangedValues(d, sorted);
    var n := Min(|sorted|, FeedLimit);
    LeftOutNotNewer(d, sorted, n);
    PrefixKeeps(d.entries, sorted, n);
  }

  /** A prefix of a newest-first list of distinct stored records is one too. */
  lemma PrefixKeeps(entries: map<string, Video>, sorted: seq<Video>, n: nat)
    requires n <= |sorted|
    requires NewestFirst(sorted)
    requires forall p :: 0 <= p < |sorted| ==>
               sorted[p].id in entries && entries[sorted[p].id] == sorted[p]
    requires forall p, q :: 0 <= p < q < |sorted| ==> sorted[p].id != sorted[q].id
    ensures NewestFirst(sorted[..n])
    ensures forall p, q :: 0 <= p < q < n ==> sorted[..n][p].id != sorted[..n][q].id
    ensures forall p :: 0 <= p < n ==>
              sorted[..n][p].id in entries && entries[sorted[..n][p].id] == sorted[..n][p]
  {
    assert forall p :: 0 <= p < n ==> sorted[..n][p] == sorted[p];
  }

  /** `for v in vs: all_videos[v['id']] = v`. */
  method StoreAll(d: Index, vs: seq<Video>) returns (r: Index)
    ensures r == PutAll(d, vs)
  {
    r := d;
    var i := 0;
    while i < |vs|
      invariant i <= |vs|
      invariant r == PutAll(d, vs[..i])
    {
      assert vs[..i + 1][..i] == vs[..i];
      r := Put(r, vs[i]);
      i := i + 1;
    }
    assert vs[..i] == vs;
  }

  /** The job's `main`: nothing is written without an API key; otherwise the feed
      written is the retained feed of the prior feed overwritten by every channel's
      fetched records. `prior` is the prior feed's records, empty when the file is
      absent or does not parse; `responses[i]` answers the requests for `channels[i]`.
      `issued[i]` lists the requests made for `channels[i]`: all of them ask for that
      channel's uploads playlist. */
  method Run(apiKey: Option<string>, channels: seq<Channel>, prior: seq<Video>,
             responses: seq<seq<PageOutcome>>)
    returns (written: Option<seq<Video>>, ghost issued: seq<seq<Request>>)
    requires |responses| == |channels|
    ensures written.None? <==> !Truthy(apiKey)
    ensures written.None? ==> issued == []
    ensures written.Some? ==> Valid(MergedIndex(prior, responses)) &&
                              written.value == NewestFeed(MergedIndex(prior, responses))
    ensures written.Some? ==> IsRetainedFeed(written.value, MergedIndex(prior, responses).entries)
    ensures written.Some? ==> |issued| == |channels|
    ensures written.Some? ==> forall i :: 0 <= i < |channels| ==>
              ChannelRequests(issued[i], channels[i], apiKey.value, responses[i])
  {
    issued := [];
    if !Truthy(apiKey) {
      return None, issued;
    }
    var allVideos := StoreAll(Empty, prior);
    allVideos, issued := FetchChannels(apiKey.value, channels, responses, allVideos);
    MergedKeys(prior, responses);
    var feed := SortAndTruncate(allVideos);
    written := Some(feed);
  }

  /** The requests made for channel `c`: one per page up to the last request, each
      on `c`'s uploads playlist with the key, 50 results and the page tokens the
      fetch loop sends. */
  ghost predicate ChannelRequests(requests: seq<Request>, c: Channel, apiKey: string,
                                  pages: seq<PageOutcome>)
  {
    && |requests| == LastRequest(pages) + 1
    && RequestsIssued(requests, UploadsPlaylistId(c.id), apiKey, pages)
  }

  /** Adding the requests of the next channel keeps every channel's requests on
      that channel's uploads playlist. */
  lemma IssuedAppend(issued: seq<seq<Request>>, requests: seq<Request>, channels: seq<Channel>,
                     apiKey: string, responses: seq<seq<PageOutcome>>)
    requires |issued| < |channels| && |issued| < |responses|
    requires forall j :: 0 <= j < |issued| ==>
               ChannelRequests(issued[j], channels[j], apiKey, responses[j])
    requires ChannelRequests(requests, channels[|issued|], apiKey, responses[|issued|])
    ensures forall j :: 0 <= j < |issued| + 1 ==>
              ChannelRequests((issued + [requests])[j], channels[j], apiKey, responses[j])
  {
    forall j | 0 <= j < |issued| + 1
      ensures ChannelRequests((issued + [requests])[j], channels[j], apiKey, responses[j])
    {
      if j < |issued| {
        assert (issued + [requests])[j] == issued[j];
      } else {
        assert (issued + [requests])[j] == requests;
      }
    }
  }

  /** The channel loop of `main`: each channel's uploads are fetched and written
      over the index in turn; `issued[i]` lists the requests made for `channels[i]`. */
  method FetchChannels(apiKey: string, channels: seq<Channel>, responses: seq<seq<PageOutcome>>,
                       start: Index)
    returns (allVideos: Index, ghost issued: seq<seq<Request>>)
    requires |responses| == |channels|
    ensures allVideos == PutAll(start, FreshVideos(responses))
    ensures |issued| == |channels|
    ensures forall i :: 0 <= i < |channels| ==>
              ChannelRequests(issued[i], channels[i], apiKey, responses[i])
  {
    allVideos, issued := start, [];
    var i := 0;
    while i < |channels|
      invariant i <= |channels|
      invariant allVideos == PutAll(start, FreshVideos(responses[..i]))
      invariant |issued| == i
      invariant forall j :: 0 <= j < i ==>
                  ChannelRequests(issued[j], channels[j], apiKey, responses[j])
    {
      var playlistId := UploadsPlaylistId(channels[i].id);
      var newVideos, requests := FetchVideosFromPlaylist(playlistId, apiKey, responses[i]);
      IssuedAppend(issued, requests, channels, apiKey, responses);
      issued := issued + [requests];
      FreshVideosAppend(responses, i);
      PutAllAppend(start, FreshVideos(responses[..i]), newVideos);
      allVideos := StoreAll(allVideos, newVideos);
      i := i + 1;
    }
    assert responses[..i] == responses;
  }

  /** The feed `main` writes for the index `d`: its values in insertion order,
      stably sorted newest first, cut to `FeedLimit` records. */
  function NewestFeed(d: Index): seq<Video>
    requires Valid(d)
  {
    var sorted := StableSort(Values(d));
    sorted[..Min(|sorted|, FeedLimit)]
  }

  /** The feed written is the retained feed of the index, and among records with
      the same timestamp it holds the earliest inserted ones, in insertion order. */
  lemma NewestFeedRetained(d: Index)
    requires Valid(d)
    ensures IsRetainedFeed(NewestFeed(d), d.entries)
    ensures forall k :: WithPublished(NewestFeed(d), k) <= WithPublished(Values(d), k)
  {
    var sorted := StableSort(Values(d));
    StableSortNewestFirst(Values(d));
    RetainNewest(d, sorted);
    forall k
      ensures WithPublished(NewestFeed(d), k) <= WithPublished(Values(d), k)
    {
      StableSortTies(Values(d), k);
      WithPublishedPrefix(sorted, Min(|sorted|, FeedLimit), k);
    }
  }

  /** The tail of `main`: the merged records sorted newest first, the first 1000 kept. */
  method SortAndTruncate(allVideos: Index) returns (feed: seq<Video>)
    requires Valid(allVideos)
    ensures feed == NewestFeed(allVideos)
    ensures IsRetainedFeed(feed, allVideos.entries)
  {
    var values := Values(allVideos);
    var finalList := new Video[|values|](k requires 0 <= k < |values| => values[k]);
    assert finalList[..] == values;
    SortByPublishedDescending(finalList);
    var sorted := finalList[..];
    feed := sorted[..Min(|sorted|, FeedLimit)];
    NewestFeedRetained(allVideos);
  }

  /** A page with two readable items and no next token. */
  function TwoItemPage(s1: Snippet, s2: Snippet): PageOutcome {
    Response(200, [Item(s1), Item(s2)], None)
  }

  lemma ExampleFetched(s1: Snippet, s2: Snippet)
    ensures FreshVideos([[TwoItemPage(s1, s2)]]) == [ToVideo(s1), ToVideo(s2)]
  {
    var page := TwoItemPage(s1, s2);
    var items := [Item(s1), Item(s2)];
    assert items[1..] == [Item(s2)];
    assert ReadablePrefix(items) == [ToVideo(s1), ToVideo(s2)];
    assert Stops([page], 0);
    assert LastRequest([page]) == 0;
    assert [page][..0] == [];
    assert [[page]][..0] == [];
  }

  lemma ExampleMerged(old1: Video, s1: Snippet, s2: Snippet)
    requires old1.id == s1.videoId && s1.videoId != s2.videoId
    ensures MergedIndex([old1], [[TwoItemPage(s1, s2)]]).entries.Keys == {s1.videoId, s2.videoId}
    ensures MergedIndex([old1], [[TwoItemPage(s1, s2)]]).entries[s1.videoId] == ToVideo(s1)
    ensures MergedIndex([old1], [[TwoItemPage(s1, s2)]]).entries[s2.videoId] == ToVideo(s2)
  {
    var responses := [[TwoItemPage(s1, s2)]];
    var batch := [ToVideo(s1), ToVideo(s2)];
    ExampleFetched(s1, s2);
    assert FreshVideos(responses) == batch;
    assert Ids(batch) == {s1.videoId, s2.videoId} by {
      assert batch[0].id == s1.videoId && batch[1].id == s2.videoId;
    }
    assert Ids([old1]) == {s1.videoId} by {
      assert [old1][0].id == s1.videoId;
    }
    MergedKeys([old1], responses);
    assert LastWithId(batch, 0) by {
      assert batch[1].id != s1.videoId;
    }
    FreshRecordWins([old1], responses, 0);
    assert LastWithId(batch, 1);
    FreshRecordWins([old1], responses, 1);
  }

  lemma ExampleRetained(v1: Video, v2: Video, entries: map<string, Video>, feed: seq<Video>)
    requires v1.id != v2.id && !Leq(v2.published, v1.published)
    requires entries.Keys == {v1.id, v2.id} && entries[v1.id] == v1 && entries[v2.id] == v2
    requires IsRetainedFeed(feed, entries)
    ensures feed == [v2, v1]
  {
    assert |entries| == |entries.Keys| == 2;
    assert |feed| == 2;
    assert feed[0] in {v1, v2};
    assert feed[1] in {v1, v2};
    assert Leq(feed[1].published, feed[0].published);
    if feed[0] == v1 {
      LeqReflexive(v1.published);
    }
  }

  /** For any records: one channel whose only page lists `v1`
      and then the newer `v2`, with no next token, over a prior feed holding another
      record for `v1`. Every retained feed is `v2` and then the freshly fetched `v1`. */
  lemma EndToEndExample(old1: Video, s1: Snippet, s2: Snippet, feed: seq<Video>)
    requires old1.id == s1.videoId && s1.videoId != s2.videoId
    requires !Leq(s2.publishedAt, s1.publishedAt)
    requires IsRetainedFeed(feed, MergedIndex([old1], [[TwoItemPage(s1, s2)]]).entries)
    ensures feed == [ToVideo(s2), ToVideo(s1)]
  {
    ExampleMerged(old1, s1, s2);
    ExampleRetained(ToVideo(s1), ToVideo(s2), MergedIndex([old1], [[TwoItemPage(s1, s2)]]).entries, feed);
  }

  /** Example timestamps: "2024-02-01T00:00:00Z" is newer than "2024-01-01T00:00:00Z". */
  lemma ExampleOrder()
    ensures !Leq("2024-02-01T00:00:00Z", "2024-01-01T00:00:00Z")
  {
    LeqFirstDifference("2024-02-01T00:00:00Z", "2024-01-01T00:00:00Z", 6);
  }
}
