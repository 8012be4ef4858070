/**
 * Source routing, shared by `musicProvider.play` and the `/play` command: a query that is
 * not an `https://` URL is a YouTube search; an `https://` URL goes to the first of
 * YouTube, Spotify and SoundCloud whose host name appears anywhere in it.
 */
module Routing {
  import opened Common
  import opened Strings

  datatype Source = YouTubeSearch | YouTubeUrl | SpotifyUrl | SoundCloudUrl | InvalidUrl

  /** The if/else chain on `startsWith('https://')` and `includes(host)`, in the source's order. */
  function Route(query: string): Source {
    if StartsWith(query, "https://") then
      if Includes(query, "youtube.com") then YouTubeUrl
      else if Includes(query, "spotify.com") then SpotifyUrl
      else if Includes(query, "soundcloud.com") then SoundCloudUrl
      else InvalidUrl
    else YouTubeSearch
  }

  /** The routing rule stated with occurrences of the host names, in both directions. */
  lemma RouteByOccurrence(q: string)
    ensures Route(q) == YouTubeSearch <==> !StartsWith(q, "https://")
    ensures Route(q) == YouTubeUrl <==>
              StartsWith(q, "https://") && exists i :: OccursAt(q, "youtube.com", i)
    ensures Route(q) == SpotifyUrl <==>
              && StartsWith(q, "https://")
              && (forall i :: !OccursAt(q, "youtube.com", i))
              && (exists i :: OccursAt(q, "spotify.com", i))
    ensures Route(q) == SoundCloudUrl <==>
              && StartsWith(q, "https://")
              && (forall i :: !OccursAt(q, "youtube.com", i))
              && (forall i :: !OccursAt(q, "spotify.com", i))
              && (exists i :: OccursAt(q, "soundcloud.com", i))
    ensures Route(q) == InvalidUrl <==>
              && StartsWith(q, "https://")
              && (forall i :: !OccursAt(q, "youtube.com", i))
              && (forall i :: !OccursAt(q, "spotify.com", i))
              && (forall i :: !OccursAt(q, "soundcloud.com", i))
  {
  }

  /** A plain `http://` URL is not an `https://` URL, so it is searched for on YouTube as text. */
  lemma HttpUrlIsSearched(q: string)
    requires StartsWith(q, "http://")
    ensures Route(q) == YouTubeSearch
  {
    assert q[..7][4] == ':';
    if |q| >= 8 {
      assert q[..8][4] == q[..7][4] != "https://"[4];
    }
  }

  /** The host names are found anywhere: an `https://` URL naming several hosts goes to the earliest in the check order. */
  lemma FirstHostInCheckOrderWins(a: string, b: string)
    ensures Route("https://" + a + "youtube.com" + b) == YouTubeUrl
  {
    var q := "https://" + a + "youtube.com" + b;
    var i := |"https://" + a|;
    assert q[..8] == "https://";
    assert q[i..i + |"youtube.com"|] == "youtube.com";
    assert OccursAt(q, "youtube.com", i);
  }

  /**
   * The resolvers the routing dispatches to, as functions from the query to what the
   * awaited call produced: `youtube.searchVideo`, `youtube.getVideoInfo`,
   * `spotify.getTrackInfo` and `soundcloud.getTrackInfo`.
   */
  datatype Resolvers = Resolvers(
    searchVideo: string -> Lookup,
    getVideoInfo: string -> Lookup,
    spotifyTrack: string -> Lookup,
    soundcloudTrack: string -> Lookup)

  /** The resolver call the routing makes, and its result; None for an unsupported URL, where no resolver is called. */
  function Resolve(rs: Resolvers, query: string): (r: Option<Lookup>)
    ensures r.None? <==> Route(query) == InvalidUrl
  {
    match Route(query)
    case YouTubeSearch => Some(rs.searchVideo(query))
    case YouTubeUrl => Some(rs.getVideoInfo(query))
    case SpotifyUrl => Some(rs.spotifyTrack(query))
    case SoundCloudUrl => Some(rs.soundcloudTrack(query))
    case InvalidUrl => None
  }

  /** The song a query queues: the resolver's song, copied field by field, when the routing found one. */
  function SongToQueue(rs: Resolvers, query: string): (r: Option<Song>)
    ensures r.Some? <==> Resolve(rs, query).Some? && Resolve(rs, query).value.Found?
    ensures r.Some? ==> r.value == Resolve(rs, query).value.song
  {
    match Resolve(rs, query)
    case Some(Found(info)) => Some(Song(info.title, info.url, info.duration, info.thumbnail))
    case _ => None
  }
}
