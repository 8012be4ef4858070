/**
 * The `/play` slash command: the same routing as `musicProvider.play`, followed by
 * queueing, a conditional player start and a reply.
 */
module PlayCommand {
  import opened Common
  import opened Strings
  import opened Database
  import opened Player
  import opened Routing

  /** How `execute` ends: with a reply, or with the resolver's rejection propagating to the caller. */
  datatype Outcome = Replied(reply: Reply) | Raised

  const InvalidUrlReply := Reply("Invalid song URL.", true)
  const NotFoundReply := Reply("Could not find a song matching your query.", true)

  /** The public reply for a queued song. */
  function QueuedReply(title: string): Reply {
    Reply("Queued **" + title + "**", false)
  }

  /** The outcome the routing and the resolver's result lead to. */
  function OutcomeFor(rs: Resolvers, query: string): Outcome {
    match Resolve(rs, query)
    case None => Replied(InvalidUrlReply)
    case Some(Threw) => Raised
    case Some(NotFound) => Replied(NotFoundReply)
    case Some(Found(info)) => Replied(QueuedReply(info.title))
  }

  /**
   * The reply tells the user what happened: the public "Queued" reply exactly when a song
   * is queued, naming that song; ephemeral replies for an unsupported URL and for a query
   * that found nothing; no reply when the resolver rejected.
   */
  lemma OutcomeMatchesQueueing(rs: Resolvers, query: string)
    ensures SongToQueue(rs, query).Some? <==> OutcomeFor(rs, query).Replied? && !OutcomeFor(rs, query).reply.ephemeral
    ensures SongToQueue(rs, query).Some? ==> OutcomeFor(rs, query) == Replied(QueuedReply(SongToQueue(rs, query).value.title))
    ensures Route(query) == InvalidUrl <==> OutcomeFor(rs, query) == Replied(InvalidUrlReply)
    ensures OutcomeFor(rs, query) == Raised <==> Resolve(rs, query) == Some(Threw)
  {
  }

  /**
   * `execute(interaction)`: the command's state change is that of `musicProvider.play` on
   * the same query, and its reply is `OutcomeFor`. As there, `player.play` is not awaited:
   * `playOutcome` is how its promise settles (None when it is not called). `streamOk`,
   * `connected` and `subscribed` are handed on to `player.play`.
   */
  method Execute(g: GuildId, songQuery: string, rs: Resolvers, store: QueueStore, registry: PlayerRegistry,
                 streamOk: bool, connected: bool, subscribed: bool)
    returns (outcome: Outcome, playOutcome: Option<Completion>)
    requires registry.Valid()
    modifies store, registry.PlayerOf(g)
    ensures outcome == OutcomeFor(rs, songQuery)
    ensures SongToQueue(rs, songQuery).None? ==>
              && store.rows == old(store.rows)
              && playOutcome.None?
              && forall h :: h in registry.players ==> registry.players[h].calls == old(registry.players[h].calls)
    ensures SongToQueue(rs, songQuery).Some? && old(g in registry.players && registry.players[g].status == Playing) ==>
              && store.rows == AddRow(old(store.rows), g, SongToQueue(rs, songQuery).value)
              && playOutcome.None?
              && forall h :: h in registry.players ==> registry.players[h].calls == old(registry.players[h].calls)
    ensures SongToQueue(rs, songQuery).Some? && !old(g in registry.players && registry.players[g].status == Playing) ==>
              && store.rows == ShiftRow(AddRow(old(store.rows), g, SongToQueue(rs, songQuery).value), g)
              && playOutcome == Some(PlayCompletionAsWritten(g in registry.players,
                                       QueueOf(AddRow(old(store.rows), g, SongToQueue(rs, songQuery).value), g),
                                       streamOk, connected, subscribed))
              && (g in registry.players ==>
                    registry.players[g].calls == old(registry.players[g].calls) +
                      PlayCallsAsWritten(QueueOf(AddRow(old(store.rows), g, SongToQueue(rs, songQuery).value), g), streamOk, connected))
              && forall h :: h in registry.players && h != g ==> registry.players[h].calls == old(registry.players[h].calls)
  {
    playOutcome := None;
    var songInfo: Lookup;
    if StartsWith(songQuery, "https://") {
      if Includes(songQuery, "youtube.com") {
        songInfo := rs.getVideoInfo(songQuery);
      } else if Includes(songQuery, "spotify.com") {
        songInfo := rs.spotifyTrack(songQuery);
      } else if Includes(songQuery, "soundcloud.com") {
        songInfo := rs.soundcloudTrack(songQuery);
      } else {
        outcome := Replied(InvalidUrlReply);
        return;
      }
    } else {
      songInfo := rs.searchVideo(songQuery);
    }
    if songInfo.Threw? {
      outcome := Raised;
      return;
    }
    if songInfo.Found? {
      var info := songInfo.song;
      var song := Song(info.title, info.url, info.duration, info.thumbnail);
      assert SongToQueue(rs, songQuery) == Some(song);
      store.Add(g, song);
      var playing := registry.IsPlaying(g);
      if !playing {
        var completion := registry.Play(g, store, streamOk, connected, subscribed);
        playOutcome := Some(completion);
      }
      outcome := Replied(QueuedReply(info.title));
    } else {
      outcome := Replied(NotFoundReply);
    }
  }
}
