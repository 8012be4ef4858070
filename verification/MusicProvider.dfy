/**
 * `musicProvider.play`: route the query to a resolver, queue the song it finds and start
 * the guild's player when it is not already playing.
 */
module MusicProvider {
  import opened Common
  import opened Strings
  import opened Database
  import opened Player
  import opened Routing
  import YouTube
  import Spotify

  /**
   * `play(guildId, songQuery)`: true exactly when a song was queued. An unsupported URL,
   * a resolver finding nothing and a resolver rejecting (the catch block) all give false
   * and leave the queue and the players alone. On success the song is added, and
   * `player.play` runs only when `isPlaying` is false at that moment. Its promise is not
   * awaited: `playOutcome` is how it settles (None when it is not called), and a rejection
   * there is unhandled, since no caller sees it. `streamOk`, `connected` and `subscribed`
   * are handed on to `player.play`.
   */
  method Play(g: GuildId, songQuery: string, rs: Resolvers, store: QueueStore, registry: PlayerRegistry,
              streamOk: bool, connected: bool, subscribed: bool)
    returns (queued: bool, playOutcome: Option<Completion>)
    requires registry.Valid()
    modifies store, registry.PlayerOf(g)
    ensures queued <==> SongToQueue(rs, songQuery).Some?
    ensures SongToQueue(rs, songQuery).None? ==>
              && store.rows == old(store.rows)
              && playOutcome.None?
              && forall h :: h in registry.players ==> registry.players[h].calls == old(registry.players[h].calls)
    ensures SongToQueue(rs, songQuery).Some? && old(g in registry.players && registry.players[g].status == Playing) ==>
              && store.rows == AddRow(old(store.rows), g, SongToQueue(rs, songQuery).value)
              && playOutcome.None?
              && forall h :: h in registry.players ==> registry.players[h].calls == old(registry.players[h].calls)
    ensures SongToQueue(rs, songQuery).Some? && !old(g in registry.players && registry.players[g].status == Playing) ==>
              && store.rows == ShiftRow(AddRow(old(store.rows), g, SongToQueue(rs, songQuery).value), g)
              && playOutcome == Some(PlayCompletionAsWritten(g in registry.players,
                                       QueueOf(AddRow(old(store.rows), g, SongToQueue(rs, songQuery).value), g),
                                       streamOk, connected, subscribed))
              && (g in registry.players ==>
                    registry.players[g].calls == old(registry.players[g].calls) +
                      PlayCallsAsWritten(QueueOf(AddRow(old(store.rows), g, SongToQueue(rs, songQuery).value), g), streamOk, connected))
              && forall h :: h in registry.players && h != g ==> registry.players[h].calls == old(registry.players[h].calls)
  {
    playOutcome := None;
    var songInfo: Lookup;
    if StartsWith(songQuery, "https://") {
      if Includes(songQuery, "youtube.com") {
        songInfo := rs.getVideoInfo(songQuery);
      } else if Includes(songQuery, "spotify.com") {
        songInfo := rs.spotifyTrack(songQuery);
      } else if Includes(songQuery, "soundcloud.com") {
        songInfo := rs.soundcloudTrack(songQuery);
      } else {
        queued := false;
        return;
      }
    } else {
      songInfo := rs.searchVideo(songQuery);
    }
    if songInfo.Threw? {
      queued := false;
      return;
    }
    if songInfo.Found? {
      var info := songInfo.song;
      var song := Song(info.title, info.url, info.duration, info.thumbnail);
      assert SongToQueue(rs, songQuery) == Some(song);
      store.Add(g, song);
      var playing := registry.IsPlaying(g);
      if !playing {
        var completion := registry.Play(g, store, streamOk, connected, subscribed);
        playOutcome := Some(completion);
      }
      queued := true;
    } else {
      queued := false;
    }
  }

  /**
   * A song queued on a guild with an empty queue that was not playing is taken by the player
   * at once, leaving the queue empty. As written, the player receives its resource only on a
   * working stream and a voice connection, and the unawaited `play` rejects on a failing
   * stream or a connection without a subscription.
   */
  lemma QueuedSongStartsOnEmptyQueue(rows: Table, g: GuildId, song: Song, streamOk: bool, connected: bool, subscribed: bool)
    requires QueueOf(rows, g) == []
    ensures QueueOf(ShiftRow(AddRow(rows, g, song), g), g) == []
    ensures PlayCallsAsWritten(QueueOf(AddRow(rows, g, song), g), streamOk, connected) ==
              if streamOk && connected then [PlayResource(song.url)] else []
    ensures PlayCompletionAsWritten(true, QueueOf(AddRow(rows, g, song), g), streamOk, connected, subscribed) ==
              if !streamOk || (connected && !subscribed) then Rejected else Returned(true)
  {
    AddThenShift(rows, g, song);
    AddAppends(rows, g, song);
  }

  /** The resolvers the bot wires in: the YouTube and Spotify models, with SoundCloud as given. */
  function BotResolvers(search: (string, nat) -> YouTube.SearchResponse, youtubeKey: Option<string>,
                        videosApi: string -> YouTube.VideosResponse,
                        clientId: Option<string>, clientSecret: Option<string>,
                        tokenApi: Spotify.Request -> Spotify.TokenResponse,
                        trackApi: Spotify.Request -> Spotify.TrackResponse,
                        soundcloudTrack: string -> Lookup): Resolvers {
    Resolvers(
      query => YouTube.SearchVideo(query, search),
      query => YouTube.GetVideoInfo(query, youtubeKey, videosApi),
      query => Spotify.GetTrackInfo(query, clientId, clientSecret, tokenApi, trackApi).0,
      soundcloudTrack)
  }

  /**
   * The YouTube and Spotify resolvers catch every error and resolve with null, so a
   * rejection reaching the caller can only come from a SoundCloud URL.
   */
  lemma OnlySoundCloudCanReject(search: (string, nat) -> YouTube.SearchResponse, youtubeKey: Option<string>,
                                videosApi: string -> YouTube.VideosResponse,
                                clientId: Option<string>, clientSecret: Option<string>,
                                tokenApi: Spotify.Request -> Spotify.TokenResponse,
                                trackApi: Spotify.Request -> Spotify.TrackResponse,
                                soundcloudTrack: string -> Lookup, query: string)
    ensures var rs := BotResolvers(search, youtubeKey, videosApi, clientId, clientSecret, tokenApi, trackApi, soundcloudTrack);
            Resolve(rs, query) == Some(Threw) ==> Route(query) == SoundCloudUrl
  {
    var rs := BotResolvers(search, youtubeKey, videosApi, clientId, clientSecret, tokenApi, trackApi, soundcloudTrack);
    match Route(query)
    case YouTubeSearch =>
      assert rs.searchVideo(query) == YouTube.SearchVideo(query, search);
    case YouTubeUrl =>
      assert rs.getVideoInfo(query) == YouTube.GetVideoInfo(query, youtubeKey, videosApi);
    case SpotifyUrl =>
      assert rs.spotifyTrack(query) == Spotify.GetTrackInfo(query, clientId, clientSecret, tokenApi, trackApi).0;
    case _ =>
  }
}
