# Feed update job, modelled in Dafny

`Backend/scripts/update_feed.py` is a batch job. It reads the tracked channels, lists each
channel's uploads through the video platform's listing API, merges the new records over
the previously written feed (keyed by video id), sorts the result newest first, keeps at most
1000 records and writes them back. This project models the logic of that job and proves
what it guarantees. Network, file system and environment are replaced by inputs and outputs.

- `Playlist`: the uploads-playlist id derived from a channel id (`UC…` becomes `UU…`).
- `Thumbnails`: the thumbnail URL preference `high or medium or default or ""`, with
  Python's truthiness (an empty URL counts as absent).
- `Records`: the channel, the raw listing item, and the feed record built from it.
- `Fetcher`: the paging loop of `fetch_videos_from_playlist`, as a method with a `while`
  loop. The listing API is a sequence of page outcomes: the k-th request gets the k-th
  outcome. An outcome is a response (status code, items, optional next-page token) or an
  exception. A request past the end of the sequence is treated as an exception. An item
  whose processing raises is `Malformed`. The method also returns the requests it issued,
  so that the query parameters (`maxResults`, `pageToken`) can be stated.
- `FeedIndex`: the id-keyed dict `all_videos`. It is a map plus the keys in first-insertion
  order, which is what `list(all_videos.values())` follows; `Values` is the definition of
  that list. `PutAll` is the sequence of writes `all_videos[v['id']] = v`.
- `Sorting`: `sort(key=published, reverse=True)` as an in-place insertion sort on an array.
  It is proved equal to `StableSort`, a functional insertion sort, which is newest first
  (Python's string order), a permutation, and stable: records with equal timestamps keep
  their order, as they do in Python's sort.
- `UpdateFeed`: `main` as the method `Run`. It applies the API-key guard, loads the prior
  records, fetches and writes channel by channel, sorts, and truncates to 1000.
  `NewestFeed` is the feed written; `IsRetainedFeed` states what it guarantees.

Two behaviours of the code are easy to miss:

- The fetch ceiling of 100 is checked only before each request. The last page can therefore
  overshoot it (up to 149 records with 50-item pages).
- When an item raises part-way through a page, the records appended before it are kept as
  well.

## Model

| member | source | states |
|---|---|---|
| `StringOrder.LeqTotal` | Backend/scripts/update_feed.py:133 | any two timestamps are comparable under Python's string order, so sorting by `published` is well defined |
| `StringOrder.LeqTransitive` | Backend/scripts/update_feed.py:133 | Python's string order is transitive |
| `StringOrder.LeqReflexive` | Backend/scripts/update_feed.py:133 | every timestamp is `<=` itself |
| `StringOrder.LeqAntisymmetric` | Backend/scripts/update_feed.py:133 | two timestamps each `<=` the other are equal, so only equal timestamps can tie |
| `StringOrder.LeqFirstDifference` | Backend/scripts/update_feed.py:133 | strings that agree up to a position are ordered by their first differing character |
| `Playlist.UploadsPlaylistId` | Backend/scripts/update_feed.py:22-26 | an id starting with "UC" becomes "UU" followed by the same suffix; any other id is returned unchanged; the length never changes |
| `Playlist.UploadsPlaylistIdIdempotent` | Backend/scripts/update_feed.py:22-26 | the derived id never starts with "UC", so deriving again returns it unchanged |
| `Playlist.UploadsPlaylistIdCollision` | Backend/scripts/update_feed.py:22-26 | two channel ids give the same playlist id if and only if they are equal or differ only by a "UC"/"UU" prefix |
| `Playlist.UploadsPlaylistIdExamples` | Backend/scripts/update_feed.py:22-26 | "UCxyz123" gives "UUxyz123"; "XYZ999" is kept |
| `Thumbnails.SelectThumbnail` | Backend/scripts/update_feed.py:65-68 | the result is `high` if truthy, else `medium` if truthy, else `default` if truthy, else ""; it is "" exactly when none is truthy, and always one of the three URLs or "" |
| `Thumbnails.SelectThumbnailExamples` | Backend/scripts/update_feed.py:65-68 | default only gives default; default and medium give medium; all three give high; none gives "" |
| `Thumbnails.EmptyHighFallsThrough` | Backend/scripts/update_feed.py:66-67 | an empty `high` URL is treated like a missing one |
| `Fetcher.ReadablePrefix` | Backend/scripts/update_feed.py:60-79 | walking a page's items yields at most one record per item, and exactly one per item when none raises |
| `Fetcher.FirstStop` | Backend/scripts/update_feed.py:41-89 | the last request is the first one that gets an error status, raises, lacks a next token, or brings the count to 100; every request before it went on |
| `Fetcher.FlattenLength` | Backend/scripts/update_feed.py:79-81 | over pages that all went on, `total_fetched` equals the number of records appended |
| `Fetcher.CollectedBound` | Backend/scripts/update_feed.py:38-45 | the last page is requested while fewer than 100 items were fetched; with at most 50 items per page, fewer than 150 records are returned |
| `Fetcher.PartialResultsKept` | Backend/scripts/update_feed.py:53-55 | after a non-200 status or an exception, the result is exactly the records of the earlier pages |
| `Fetcher.MalformedItemKeepsEarlier` | Backend/scripts/update_feed.py:60-89 | when an item raises, the result is the earlier pages' records followed by that page's records before the item |
| `Fetcher.AppendItems` | Backend/scripts/update_feed.py:60-79 | the item loop appends the records of the items up to the first one that raises, and reports whether one raised |
| `Fetcher.FetchVideosFromPlaylist` | Backend/scripts/update_feed.py:28-91 | the loop returns the concatenated records of the pages up to its last request, in page order, and fewer than 150 of them for 50-item pages; it issues one request more than the pages that went on; every request carries the playlist id, `maxResults` 50 and the key; the first has no page token and each later one carries the previous response's (truthy) token |
| `FeedIndex.PutAllShape` | Backend/scripts/update_feed.py:111-128 | after the writes, the ids are the earlier ids plus the written ids; every record is stored under its own id; ids already present keep their insertion position |
| `FeedIndex.PutAllLastWins` | Backend/scripts/update_feed.py:111-128 | an id that is written maps to the last record written for it |
| `FeedIndex.PutAllKeepsOthers` | Backend/scripts/update_feed.py:111-128 | an id that is not written keeps its earlier record |
| `FeedIndex.PutAllAppend` | Backend/scripts/update_feed.py:117-128 | writing two runs of records in turn is the same as writing their concatenation |
| `FeedIndex.ValuesPut` | Backend/scripts/update_feed.py:111-131 | after one write the values list stays in insertion order: overwriting an id replaces its record in place, a new id appends its record at the end |
| `FeedIndex.EntryCount` | Backend/scripts/update_feed.py:111-131 | a dict holds as many records as its insertion order lists ids |
| `FeedIndex.ValuesAreEntries` | Backend/scripts/update_feed.py:131 | the values list has as many records as there are ids, no id twice, each the record stored under its id, and every stored record appears in it |
| `Sorting.Insert` | Backend/scripts/update_feed.py:133 | placing one record into a list keeps every record and adds that one: the result is a permutation of the list plus the record |
| `Sorting.StableSort` | Backend/scripts/update_feed.py:133 | the stable newest-first sort is a permutation of its input |
| `Sorting.InsertNewestFirst` | Backend/scripts/update_feed.py:133 | placing a record into a newest-first list leaves it newest first |
| `Sorting.InsertTies` | Backend/scripts/update_feed.py:133 | placing a record moves it only past records with other timestamps: among its own timestamp it comes last, and every timestamp's records keep their order |
| `Sorting.StableSortNewestFirst` | Backend/scripts/update_feed.py:133 | the sort's result is newest first |
| `Sorting.StableSortTies` | Backend/scripts/update_feed.py:133 | the sort is stable, as Python's is with `reverse=True`: for every timestamp, the records with it come out in the order they went in |
| `Sorting.WithPublishedPrefix` | Backend/scripts/update_feed.py:136 | cutting a list keeps, for each timestamp, a prefix of that timestamp's records |
| `Sorting.InsertAt` | Backend/scripts/update_feed.py:133 | a record newer than every record from position j on, and not newer than the one before j, is placed at j |
| `Sorting.SiftLeft` | Backend/scripts/update_feed.py:133 | one pass of the in-place insertion sort leaves the first i+1 cells holding the sorted first i records with the next one placed, and the cells after them untouched |
| `Sorting.SortByPublishedDescending` | Backend/scripts/update_feed.py:133 | the array afterwards holds `StableSort` of its old contents, which is newest first, a permutation and stable |
| `UpdateFeed.StoreAll` | Backend/scripts/update_feed.py:111-112 | the loop `all_videos[v['id']] = v` leaves the index that the writes `PutAll` describe |
| `UpdateFeed.MergedKeys` | Backend/scripts/update_feed.py:104-128 | the merged index's ids are exactly the prior ids and the fetched ids |
| `UpdateFeed.FreshRecordWins` | Backend/scripts/update_feed.py:127-128 | every fetched id maps to the last record fetched for it, whatever the prior feed held |
| `UpdateFeed.PriorOnlyKept` | Backend/scripts/update_feed.py:107-112 | an id found only in the prior feed keeps its prior record |
| `UpdateFeed.RearrangedValues` | Backend/scripts/update_feed.py:131-133 | any permutation of the values holds every stored record once: no id twice, each record the one stored under its id, as many records as ids |
| `UpdateFeed.LeftOutNotNewer` | Backend/scripts/update_feed.py:133-136 | no record cut off by the truncation is newer than the last record kept |
| `UpdateFeed.PrefixKeeps` | Backend/scripts/update_feed.py:136 | the first n records of a newest-first list of distinct stored records are again newest first, distinct and stored |
| `UpdateFeed.RetainNewest` | Backend/scripts/update_feed.py:131-136 | sorting the values newest first and keeping the first 1000 gives the retained feed: newest first, min(ids, 1000) records, no id twice, each the merged record for its id, nothing left out newer than the oldest kept |
| `UpdateFeed.NewestFeedRetained` | Backend/scripts/update_feed.py:131-136 | the values stably sorted newest first and cut to 1000 form the retained feed, and for each timestamp they keep the earliest inserted records of that timestamp, in insertion order |
| `UpdateFeed.SortAndTruncate` | Backend/scripts/update_feed.py:131-136 | the values list copied, sorted newest first in place and cut to 1000 is the stably sorted, truncated values list, and so the retained feed of the merged index |
| `UpdateFeed.IssuedAppend` | Backend/scripts/update_feed.py:117-122 | adding the next channel's requests keeps, for every channel, the request count and every request on that channel's uploads playlist |
| `UpdateFeed.FetchChannels` | Backend/scripts/update_feed.py:117-128 | the channel loop leaves the index that writing every channel's fetched records in turn describes; each channel gets one request per page up to its last request, and every request made for a channel asks for `UploadsPlaylistId` of its id, with `maxResults` 50 and the key, and carries the page tokens the fetch contract states |
| `UpdateFeed.Run` | Backend/scripts/update_feed.py:93-139 | nothing is written, and nothing requested, exactly when the API key is missing or empty; otherwise the written feed is the merged index's values stably sorted newest first and cut to 1000, which is the retained feed of the prior feed overwritten, channel by channel, by the fetched records, and each channel gets one request per page up to its last request, every one asking for its uploads playlist |
| `UpdateFeed.ExampleFetched` | Backend/scripts/update_feed.py:41-91 | for any two items, a single 200 page holding them and no next token yields their two records, in page order |
| `UpdateFeed.ExampleMerged` | Backend/scripts/update_feed.py:107-128 | for any prior record sharing its id with the first fetched item, the merged index holds exactly the two fetched ids, each mapped to its fetched record: the prior record is replaced, the second is added |
| `UpdateFeed.ExampleOrder` | Backend/scripts/update_feed.py:133 | "2024-02-01T00:00:00Z" compares greater than, that is, is newer than, "2024-01-01T00:00:00Z" |
| `UpdateFeed.ExampleRetained` | Backend/scripts/update_feed.py:131-136 | for any two records with distinct ids, the second strictly newer, the only retained feed of the index holding just them is the second followed by the first |
| `UpdateFeed.EndToEndExample` | Backend/scripts/update_feed.py:104-136 | one channel whose single page returns two items, the second strictly newer, over a prior feed holding a record with the first item's id: the retained feed is the second fetched record and then the first, with the prior record gone |

## Left out

- HTTP calls, `response.json()`, the 10-second timeout and the listing API's JSON schema: foreign calls and network I/O. They become the `PageOutcome` sequence per channel. Outcomes are indexed by request number; the token sent does not choose the answer.
- File I/O: `os.makedirs`, `load_channels` reading `channels.json`, reading and writing `feed.json`. The channel registry is the `channels` input; a missing file is the empty sequence. The prior feed is the `prior` input. The written feed is `Run`'s result.
- The silent `except: pass` around loading the prior feed: a file that does not parse is the empty `prior`. If a record raises part-way through the load, the caller passes the records loaded before it.
- The environment lookup of the API key. It is the `apiKey` input, and the early return is the `None` result.
- All `print` logging.
- Missing fields (`None` values from `.get`), in particular a missing `videoId` or `publishedAt`: every field is a string. In Python a `None` timestamp would make the sort raise.
- Prior-feed records are modelled as the same record type as fetched ones. The source keeps whatever JSON object it read, extra fields included.
- A thumbnail `url` that is not a string: URLs are optional strings.
- Termination of the paging loop against a live API: Python keeps asking while pages come back empty with a next token. Here the loop is bounded by the finite outcome sequence.
- Timsort, the algorithm behind Python's `list.sort`: the model sorts by insertion. Both are stable sorts by the same key, so they produce the same list; only the comparisons made differ.
- The caption fetcher and the caption-enabled variant of the script are not part of this model.
