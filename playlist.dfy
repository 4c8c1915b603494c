/** Derivation of a channel's "uploads" playlist id from the channel id. */
module Playlist {

  /** The prefix of a channel id, and the prefix that replaces it. */
  const ChannelPrefix: string := "UC"
  const UploadsPrefix: string := "UU"

  /** Python's `s.startswith(p)`. */
  predicate StartsWith(s: string, p: string) {
    |p| <= |s| && s[..|p|] == p
  }

  /** A leading "UC" becomes "UU"; any other id is returned unchanged. */
  function UploadsPlaylistId(channelId: string): (playlistId: string)
    ensures |playlistId| == |channelId|
    ensures StartsWith(channelId, ChannelPrefix) ==>
              StartsWith(playlistId, UploadsPrefix) && playlistId[2..] == channelId[2..]
    ensures !StartsWith(channelId, ChannelPrefix) ==> playlistId == channelId
  {
    if StartsWith(channelId, ChannelPrefix) then UploadsPrefix + channelId[2..] else channelId
  }

  /** The derived id never carries the channel prefix, so deriving twice changes nothing. */
  lemma UploadsPlaylistIdIdempotent(channelId: string)
    ensures !StartsWith(UploadsPlaylistId(channelId), ChannelPrefix)
    ensures UploadsPlaylistId(UploadsPlaylistId(channelId)) == UploadsPlaylistId(channelId)
  {
    var p := UploadsPlaylistId(channelId);
    if StartsWith(channelId, ChannelPrefix) {
      assert p[..2] == UploadsPrefix;
    }
  }

  /** Two channel ids yield the same playlist id exactly when they are equal or
      differ only in that one starts with "UC" and the other with "UU". */
  lemma UploadsPlaylistIdCollision(a: string, b: string)
    ensures UploadsPlaylistId(a) == UploadsPlaylistId(b) <==>
              a == b ||
              (|a| >= 2 && |b| >= 2 && a[2..] == b[2..] &&
               ((a[..2] == ChannelPrefix && b[..2] == UploadsPrefix) ||
                (a[..2] == UploadsPrefix && b[..2] == ChannelPrefix)))
  {
    var pa, pb := UploadsPlaylistId(a), UploadsPlaylistId(b);
    if |a| >= 2 && |b| >= 2 && a[2..] == b[2..] {
      assert a == a[..2] + a[2..] && b == b[..2] + b[2..];
      if a[..2] == ChannelPrefix && b[..2] == UploadsPrefix {
        assert pa == UploadsPrefix + a[2..] && pb == b;
      }
      if a[..2] == UploadsPrefix && b[..2] == ChannelPrefix {
        assert pb == UploadsPrefix + b[2..] && pa == a;
      }
    }
    if pa == pb && a != b {
      assert |a| == |b|;
      if StartsWith(a, ChannelPrefix) && !StartsWith(b, ChannelPrefix) {
        assert pb == b;
        assert b[..2] == pb[..2] == pa[..2] == UploadsPrefix;
        assert b[2..] == pb[2..] == pa[2..] == a[2..];
      } else if !StartsWith(a, ChannelPrefix) && StartsWith(b, ChannelPrefix) {
        assert pa == a;
        assert a[..2] == pa[..2] == pb[..2] == UploadsPrefix;
        assert a[2..] == pa[2..] == pb[2..] == b[2..];
      }
    }
  }

  /** Examples: "UCxyz123" becomes "UUxyz123"; "XYZ999" is kept. */
  lemma UploadsPlaylistIdExamples()
    ensures UploadsPlaylistId("UCxyz123") == "UUxyz123"
    ensures UploadsPlaylistId("XYZ999") == "XYZ999"
  {
    assert StartsWith("UCxyz123", ChannelPrefix);
    assert "XYZ999"[0] != ChannelPrefix[0];
  }
}
