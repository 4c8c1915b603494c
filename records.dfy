/** The records the feed job reads and writes. */
module Records {
  import opened Thumbnails

  /** A tracked channel, as listed in the channel registry. */
  datatype Channel = Channel(id: string, name: string)

  /** One record of the feed. `published` is the ISO-8601 `publishedAt` string. */
  datatype Video = Video(
    id: string,
    title: string,
    published: string,
    thumbnail: string,
    description: string,
    channelId: string,
    channelTitle: string)

  /** The `snippet` of one playlist item of the listing API. */
  datatype Snippet = Snippet(
    videoId: string,
    title: string,
    publishedAt: string,
    thumbnails: Thumbnails,
    description: string,
    channelId: string,
    channelTitle: string)

  /** One entry of a page's `items`: either readable, or one whose processing
      raises (for instance a value that is not a JSON object). */
  datatype RawItem = Item(snippet: Snippet) | Malformed

  /** The record built for one item, with the preferred thumbnail. */
  function ToVideo(s: Snippet): Video {
    Video(s.videoId, s.title, s.publishedAt, SelectThumbnail(s.thumbnails),
          s.description, s.channelId, s.channelTitle)
  }
}
