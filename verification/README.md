# A verified model of a Discord music bot's core

This project models the core of a Discord music bot written in JavaScript, and proves
properties of the model.

- **Queue store.** The SQLite `music_queue` table holds one row per guild, and each row holds that guild's song list.
- **Player registry.** A map from guild to an audio player. Every `play` call pops the head of the stored queue and writes the rest back, whether or not the guild has a player.
- **Rate limiter.** Tracks commands per guild and per user.
- **Source routing.** Shared by `musicProvider.play` and the `/play` command, it sends a query to YouTube search, or to the YouTube, Spotify or SoundCloud resolver.
- **Prefix-command parser.** The `messageCreate` handler.
- **`/volume` command.**
- **YouTube and Spotify resolvers.** This includes the video-id and track-id extraction and the Spotify client-credentials token request.

Each source file becomes one module. Code that updates state in place becomes a class with `modifies` clauses:
- the queue store (`Database.QueueStore`);
- the player registry and its players (`Player.PlayerRegistry`, `Player.AudioPlayer`);
- the limiter (`RateLimiter.Limiter`).

Each of these methods is proved against pure specification functions: `AddRow`, `ShiftRow`, `Step` and so on. The lemmas about those functions carry the properties. Code that only computes values stays pure:
- the routing;
- the parsing;
- the id extraction;
- the response-to-song mappings;
- the Basic credentials.

The JavaScript string operations it relies on are modelled exactly: `startsWith`, `includes`, `split` with a string separator (its search step is a first-occurrence search, `Strings.IndexOf`), `split(/ +/)`, `trim` and `pop`. Their round trips are proved: `split` inverts joining with a border-free separator, `split(/ +/)` inverts putting space-free tokens back together with runs of spaces of any length, and `trim` removes exactly the whitespace around a text. The Spotify `Authorization` header is modelled down to the bytes: UTF-8 (what `Buffer.from` does to a string), then the base 64 encoding of section 4 of RFC 4648. It is proved to decode back to the client id and secret, as section 2 of RFC 7617 requires.

Audio players, HTTP endpoints and the search library are opaque. Their results are inputs:
- `streamOk`, `connected` and `subscribed` stand for stream creation, the voice-connection lookup and whether that connection has a subscription (`connection.state.subscription`, which no file sets up);
- the responses are functions from the request to the response;
- the rate limiter's clock reading is a parameter.

## Model

| member | source | states |
|---|---|---|
| Strings.IndexOf | project-root/src/utils/youtube.js:45 | the search step of `split`: the result is an occurrence of the pattern with none before it; None exactly when there is no occurrence |
| Strings.Split | project-root/src/utils/youtube.js:45 | `split` with a string separator gives at least one piece, and exactly one when the separator is absent; joining the pieces with the separator gives back the text; no piece contains the separator |
| Strings.SplitJoin | project-root/src/utils/youtube.js:45 | splitting the join of separator-free pieces on a border-free separator gives back exactly those pieces |
| Strings.LastPieceAfterSeparator | project-root/src/utils/spotify.js:52 | `split(sep).pop()` contains no separator; it is the whole text when there is no separator, and otherwise the text after a separator that ends the text |
| Strings.LastPieceOfJoin | project-root/src/utils/spotify.js:52 | the last piece of a join of separator-free pieces is the last of those pieces |
| Database.AddAppends | project-root/src/utils/database.js:76-125 | `add` appends the song to the guild's queue, creates a row `[song]` for a guild without one, and adds no other key |
| Database.UpdateNeverInserts | project-root/src/utils/database.js:134-153 | `updateQueue` replaces an existing row's queue and creates no row for an unknown guild (an UPDATE matches nothing) |
| Database.ClearEmpties | project-root/src/utils/database.js:161-180 | `clear` deletes the guild's row, so its queue reads back as empty |
| Database.OtherGuildsUnchanged | project-root/src/utils/database.js:76-180 | add, updateQueue and clear leave every other guild's row and queue unchanged |
| Database.AddAllInOrder | project-root/src/utils/database.js:76-125 | songs added one after another are read back by `getQueue` after the old queue, in the order they were added |
| Database.ClearThenAddAll | project-root/src/utils/database.js:76-180 | after `clear`, successive adds build a queue of exactly those songs |
| Database.QueueStore.constructor | project-root/src/utils/database.js:11-37 | a fresh database has no rows |
| Database.QueueStore.GetQueue | project-root/src/utils/database.js:45-67 | `getQueue` yields the stored queue, or `[]` for a guild without a row; nothing changes |
| Database.QueueStore.Add | project-root/src/utils/database.js:76-125 | the new table is `AddRow` of the old one; the guild's queue gains the song at the end |
| Database.QueueStore.UpdateQueue | project-root/src/utils/database.js:134-153 | the new table is `UpdateRow` of the old one; the set of guilds with a row is unchanged |
| Database.QueueStore.Clear | project-root/src/utils/database.js:161-180 | the new table is the old one without the guild's row |
| Player.AudioPlayer.constructor | project-root/src/utils/player.js:233-236 | `createAudioPlayer()` gives an idle player on which nothing has been called |
| Player.Shift | project-root/src/utils/player.js:66 | `shift()` on an empty array yields undefined and leaves `[]`; otherwise it yields the head, and the head followed by what is left is the original array |
| Player.ShiftRowDropsHead | project-root/src/utils/player.js:61-67 | `play` removes the head of the stored queue (nothing for an empty queue), adds no row and leaves other guilds alone |
| Player.AddThenShift | project-root/src/utils/musicProvider.js:39-49 | queueing a song and then starting the player takes the old head, or the new song when the queue was empty, and the new song stays queued otherwise |
| Player.CatchBlockSkipMissesPlayer | project-root/src/utils/player.js:121-127 | as written, a registered guild with an empty queue makes `play` reject without any call on the player, where the intended catch block stops it |
| Player.UnsubscribedConnectionRejects | project-root/src/utils/player.js:86-96 | on a connected guild with a song and a working stream, the player is handed the resource and `play` then rejects, since the connection has no subscription to register listeners on |
| Player.CorrectedPlayStopsWhereAsWrittenRejects | project-root/src/utils/player.js:121-127 | for every input, the corrected `play` makes the as-written calls followed by `stop` exactly when the as-written one rejects, and the same calls otherwise |
| Player.PlayerRegistry.constructor | project-root/src/utils/player.js:14 | the registry starts empty |
| Player.PlayerRegistry.InitPlayer | project-root/src/utils/player.js:233-236 | a new idle player is registered for the guild, replacing any previous one; other entries are kept |
| Player.PlayerRegistry.Stop | project-root/src/utils/player.js:139-146 | with a player: `stop` is called on it, it is unregistered and the guild's row is deleted; without one nothing changes; no other player is touched |
| Player.PlayerRegistry.Pause | project-root/src/utils/player.js:154-159 | `pause` is forwarded to the guild's player when there is one, and to no other player |
| Player.PlayerRegistry.Resume | project-root/src/utils/player.js:167-172 | `unpause` is forwarded to the guild's player when there is one, and to no other player |
| Player.PlayerRegistry.Skip | project-root/src/utils/player.js:180-187 | true exactly when the guild has a player, which then receives `stop` and stays registered |
| Player.PlayerRegistry.SetVolume | project-root/src/utils/player.js:196-201 | as written, throws exactly when the guild has a player (an audio player has no `volume` property), and changes no player either way |
| Player.PlayerRegistry.IsPlaying | project-root/src/utils/player.js:209-215 | false without a player, otherwise whether the player's status is Playing |
| Player.PlayerRegistry.Play | project-root/src/utils/player.js:60-131 | as written: the stored queue loses its head even without a player; without one the result is false; with one, an empty queue or a failing stream rejects with no player call; a connection gets the head played and then rejects when it has no subscription (line 94); otherwise the result is true |
| Player.PlayerRegistry.PlayCorrected | project-root/src/utils/player.js:60-131 | the same shift; true exactly when a player, a head and a stream exist and any connection is subscribed; where the as-written `play` rejects, the player receives `stop` and the result is false |
| RateLimiter.StepFrame | project-root/src/utils/rateLimiter.js:6-31 | one call creates the guild's entry and the user's entry, and can change only that user's recorded time: to `now` when allowed, to nothing when limited |
| RateLimiter.WindowIsStrict | project-root/src/utils/rateLimiter.js:19-24 | the comparison is strict: exactly `RATE_LIMIT` ms after the recorded time is allowed, one ms earlier is limited |
| RateLimiter.FirstCommandAllowed | project-root/src/utils/rateLimiter.js:17-28 | a user with no recorded time in the guild is allowed, and `now` is recorded |
| RateLimiter.RunFollowsHistory | project-root/src/utils/rateLimiter.js:6-31 | over any sequence of calls, the limiter's answers are the history rule's (limited exactly when the last allowed attempt of the same user in the same guild was less than 3000 ms before), and the table holds the time of each user's last allowed attempt |
| RateLimiter.WindowFromLastAllowed | project-root/src/utils/rateLimiter.js:16-28 | the window runs from the last allowed command: attempts at 0, 2000 and 4000 ms are allowed, limited, allowed |
| RateLimiter.Limiter.constructor | project-root/src/utils/rateLimiter.js:4 | the table starts empty |
| RateLimiter.Limiter.IsRateLimited | project-root/src/utils/rateLimiter.js:6-31 | the answer is `Limited` of the old table; the new table is `Step` of the old one: unchanged when limited, else `now` recorded for the user; guild entries are never removed |
| Routing.Route | project-root/src/utils/musicProvider.js:21-35 | the routing if-chain; characterised by `Routing.RouteByOccurrence` |
| Routing.RouteByOccurrence | project-root/src/utils/musicProvider.js:21-35 | each source is chosen exactly under its condition: no `https://` prefix means YouTube search; otherwise the first of youtube.com, spotify.com, soundcloud.com occurring anywhere in the query wins; none means an invalid URL |
| Routing.HttpUrlIsSearched | project-root/src/utils/musicProvider.js:21 | a plain `http://` URL is not recognised as a URL and is searched for as text |
| Routing.FirstHostInCheckOrderWins | project-root/src/utils/musicProvider.js:22-28 | an `https://` URL that mentions youtube.com anywhere goes to YouTube, whatever other host it names |
| Routing.Resolve | project-root/src/commands/music/play.js:24-40 | no resolver is called exactly for an unsupported URL |
| Routing.SongToQueue | project-root/src/utils/musicProvider.js:37-44 | a song is queued exactly when the routed resolver found one, and it is that song's four fields |
| MusicProvider.Play | project-root/src/utils/musicProvider.js:16-61 | true exactly when a song is queued; otherwise the queue and the players are untouched and `player.play` is not called; on success the song is added, and when the guild was not playing the as-written `player.play` runs on the new queue, with its calls and its settlement (possibly an unhandled rejection) stated |
| MusicProvider.QueuedSongStartsOnEmptyQueue | project-root/src/utils/musicProvider.js:39-49 | a song queued on a guild with an empty queue that was not playing is taken by the player at once, leaving the queue empty; the player receives it only on a working stream and a connection, and `play` rejects on a failing stream or an unsubscribed connection |
| MusicProvider.OnlySoundCloudCanReject | project-root/src/utils/musicProvider.js:57-60 | with the YouTube and Spotify resolvers the bot uses, a rejected resolver call can only come from a SoundCloud URL |
| PlayCommand.OutcomeFor | project-root/src/commands/music/play.js:31-61 | the reply or raise of `/play`; characterised by `PlayCommand.OutcomeMatchesQueueing` |
| PlayCommand.OutcomeMatchesQueueing | project-root/src/commands/music/play.js:24-61 | the public "Queued **title**" reply is given exactly when a song is queued, and names it; an unsupported URL gets the ephemeral invalid-URL reply; the command raises exactly when the resolver rejected |
| PlayCommand.Execute | project-root/src/commands/music/play.js:16-62 | the outcome is `OutcomeFor`; the queue and player changes, and the settlement of the unawaited `player.play`, are those of `musicProvider.play` on the same query |
| VolumeCommand.Decide | project-root/src/commands/music/volume.js:14-23 | accepted exactly for 0..100 inclusive, with a gain in [0, 1] that is the volume divided by 100 |
| VolumeCommand.DecimalRoundTrip | project-root/src/commands/music/volume.js:25 | the number echoed in "Volume set to v%" reads back as v |
| VolumeCommand.Execute | project-root/src/commands/music/volume.js:13-26 | an out-of-range volume gets the ephemeral refusal; an accepted one reaches `player.setVolume`, which throws for a guild with a player, so the command rejects without replying there, and only a guild without a player is confirmed with the same integer |
| MessageCreate.Trim | project-root/src/events/messageCreate.js:19 | the trimmed text is the middle of the text with only ECMAScript whitespace before and after it, and it neither starts nor ends with whitespace |
| MessageCreate.TrimKeepsTrimmed | project-root/src/events/messageCreate.js:19 | text that starts and ends with non-whitespace is unchanged by `trim` |
| MessageCreate.TrimAllWhitespace | project-root/src/events/messageCreate.js:19 | whitespace-only text trims to the empty string |
| MessageCreate.SplitSpaces | project-root/src/events/messageCreate.js:19 | `split(/ +/)` gives at least one piece, no piece contains a space, and the first piece is non-empty when the text does not start with a space |
| MessageCreate.SplitSpacesNoEmptyPiece | project-root/src/events/messageCreate.js:19 | a non-empty text that neither starts nor ends with a space splits into non-empty pieces |
| MessageCreate.SplitSpacesRebuilds | project-root/src/events/messageCreate.js:19 | the pieces of `split(/ +/)`, put back together with a run of one or more spaces between each two, give the text |
| MessageCreate.SplitSpacesOfInterleave | project-root/src/events/messageCreate.js:19 | space-free pieces joined by runs of one or more spaces, with only the first and last piece possibly empty, split back into exactly those pieces |
| MessageCreate.TrimSurrounded | project-root/src/events/messageCreate.js:19 | `trim` of a text that starts and ends with non-whitespace, surrounded by any whitespace, is that text |
| MessageCreate.ToLower | project-root/src/events/messageCreate.js:20 | each ASCII capital becomes its small letter, every other character is kept, and the length is unchanged |
| MessageCreate.ParseCommand | project-root/src/events/messageCreate.js:18-20 | the prefix test, trim, split and lowercasing; characterised by `MessageCreate.ParseCommandOfTokens` and `MessageCreate.ParsedTokens` |
| MessageCreate.ParseCommandOfTokens | project-root/src/events/messageCreate.js:18-20 | `!`, any whitespace, whitespace-free tokens separated by runs of spaces of any length, and any whitespace parse into the lowercased first token and the other tokens in order |
| MessageCreate.ParsedTokens | project-root/src/events/messageCreate.js:18-20 | a text starting with `!` always parses; a bare `!` (or `!` and whitespace) gives the name `""` and no arguments; otherwise the name and every argument are non-empty; no argument contains a space |
| MessageCreate.Decide | project-root/src/events/messageCreate.js:13-29 | the handler's decision after the limiter; characterised by `MessageCreate.DecideRunsOnlyRegistered` |
| MessageCreate.DecideRunsOnlyRegistered | project-root/src/events/messageCreate.js:13-29 | a command runs or fails exactly when the author is not limited, the text starts with `!` and the parsed name is registered, and either way it is the parsed command; it fails (its error going to `errorHandler`) exactly when it also throws; nothing is run for text without `!` |
| MessageCreate.Execute | project-root/src/events/messageCreate.js:9-30 | bots are ignored before the limiter; every other message goes through the limiter first, with or without the prefix; the outcome is `Decide` of the limiter's answer |
| Encoding.Utf8RoundTrip | project-root/src/utils/spotify.js:16 | decoding the UTF-8 bytes of any text gives the text back |
| Encoding.Utf8OfAscii | project-root/src/utils/spotify.js:16 | ASCII text encodes to one byte per character, equal to its code |
| Encoding.Base64Encode | project-root/src/utils/spotify.js:16-18 | the encoding has 4 characters for every started group of 3 bytes |
| Encoding.Base64EncodeAlphabet | project-root/src/utils/spotify.js:16-18 | every character of an encoding is in the base 64 alphabet, except `=` padding in the last two positions |
| Encoding.Base64RoundTrip | project-root/src/utils/spotify.js:16-18 | decoding the base 64 encoding of any bytes gives the bytes back |
| YouTube.VideoId | project-root/src/utils/youtube.js:45 | the video-id expression; characterised by `YouTube.VideoIdToEnd`, `YouTube.VideoIdToNextMarker`, `YouTube.VideoIdOfShortUrl`, `YouTube.VideoIdWithoutMarkers` and `YouTube.EmptyAfterVFallsBack` |
| YouTube.VideoIdToEnd | project-root/src/utils/youtube.js:45 | for `pre + "v=" + id`, with no `v=` elsewhere and a non-empty id, the video id is everything after the marker, query parameters included |
| YouTube.VideoIdToNextMarker | project-root/src/utils/youtube.js:45 | the video id stops at the next `v=` |
| YouTube.VideoIdOfShortUrl | project-root/src/utils/youtube.js:45 | without any `v=`, the video id is the text after `be/` |
| YouTube.VideoIdWithoutMarkers | project-root/src/utils/youtube.js:45 | with neither `v=` nor `be/` the id is undefined |
| YouTube.EmptyAfterVFallsBack | project-root/src/utils/youtube.js:45 | an empty text after a final `v=` is falsy, so the `be/` piece is used |
| YouTube.MarkerlessUrlAsksForUndefined | project-root/src/utils/youtube.js:45-48 | a URL with neither marker asks the Data API for the id `undefined` |
| YouTube.GetVideoInfo | project-root/src/utils/youtube.js:43-71 | never rejects; a song is found exactly when the API reply is ok with items; it is the first item's title, its video id as the url, its duration text and its default thumbnail |
| YouTube.GetVideoInfoStoresTheId | project-root/src/utils/youtube.js:59 | for `https://youtu.be/abc` the queued url is the bare id `abc`, not the URL given |
| YouTube.SearchVideo | project-root/src/utils/youtube.js:16-35 | never rejects; searches with limit 1; a song is found exactly when there is a result, and it is the first result's four fields |
| Spotify.TrackId | project-root/src/utils/spotify.js:52 | the track id contains no `/`; it is the whole URL when there is no `/`, else the text after a `/` that ends the URL |
| Spotify.TrackIdOfPath | project-root/src/utils/spotify.js:52 | a path of `/`-free segments yields its last segment, query string included |
| Spotify.BasicCredentialsRoundTrip | project-root/src/utils/spotify.js:14-18 | a server reading the Basic credentials (decode base 64, decode UTF-8, split at the first colon) recovers the client id and secret when the id has no colon |
| Spotify.TokenRequestCarriesCredentials | project-root/src/utils/spotify.js:10-21 | the token request is a form-encoded POST to the token endpoint with body `grant_type=client_credentials`, and its Authorization header reads back as the client id and secret |
| Spotify.UnsetClientIdIsSentAsUndefined | project-root/src/utils/spotify.js:4-5 | with the client id unset, the user id sent is the text `undefined` |
| Spotify.GetAccessToken | project-root/src/utils/spotify.js:8-35 | a token is returned only from an ok reply, and an ok reply's `access_token` is always the token returned; a failed request or a non-ok reply gives null |
| Spotify.GetTrackInfo | project-root/src/utils/spotify.js:44-77 | never rejects; the token request always comes first; the track request (for the URL's last segment, with a Bearer header) is made exactly when the token is truthy; a song is found exactly when that reply is ok with an album image, and maps name, external URL, duration in ms and first image |
| Spotify.NoTokenNoTrackRequest | project-root/src/utils/spotify.js:46-49 | a failed token request, or a missing or empty token, means null and no track request |

## Left out

- Voice connections, audio streams, audio resources (and the 0.5 default volume set on each resource), and the player's `Playing`/`error`/`Idle` listeners with the 2-second replay (player.js:72-119) are left out. They are audio-library and timer behaviour; `streamOk`, `connected` and `subscribed` stand in for them.
- `joinVoiceChannel`, `leaveVoiceChannel` and `getCurrentSong` in player.js are left out. They only forward to the voice library or to the database. The `/nowplaying` command, which reads the current song, is left out with them.
- `setCurrentSong`, `getCurrentSong` and `updateNowPlaying` in database.js are left out. They write the `currentSong` and `nowPlaying` columns, which the `CREATE TABLE` does not create. Only the player listeners, `player.getCurrentSong` (player.js:223-225) and the `/nowplaying` command (nowplaying.js:11) read them, and none of those is modelled.
- SQLite errors and the JSON encoding of a queue are left out. A database call is taken to succeed, and JSON to round-trip a song list exactly.
- Player.PlayerRegistry.Play: the `if (!queueData)` branch (player.js:62-64) is dead, because the queue is always an array and arrays are truthy. It has no counterpart.
- Player.PlayerRegistry.Play: player.js uses a `queue` module (utils/queue.js) that is not part of this model. Its calls are taken to be the database operations, completed in program order.
- Interleaving of concurrent commands and of the unawaited promises (`queue.add` and `player.play` in musicProvider.js and play.js) is left out. Each operation runs to completion before the next starts.
- The destructured imports (`{ player }`, `{ queue }`, `{ youtube }`, `{ spotify }`, `{ rateLimiter }`) name exports the modules do not have. The model calls the operations those names evidently refer to. Bootstrap (index.js, ready.js, interactionCreate.js) and errorHandler.js are left out.
- Player.PlayerRegistry.SetVolume: player.js:199 calls `player.volume.setVolume`, but an audio player has no `volume` property, so as written the call throws a TypeError; the model returns that throw and changes nothing. What the line evidently means, changing the volume of the playing resource, is not modelled, because audio resources are left out.
- VolumeCommand.Execute: the TypeError it rejects with goes to the slash-command dispatcher (interactionCreate.js), which is left out.
- Player.PlayerRegistry.Play: the listener registration at player.js:94-118 is modelled only by the rejection it causes on an unsubscribed connection. The listeners themselves are left out, as above.
- MusicProvider.Play: an unhandled rejection of the unawaited `player.play` ends the Node.js process by default (Node 15 and later). The model reports the rejection in `playOutcome` and does not model the process exit.
- RateLimiter.Limiter.IsRateLimited: rateLimiter.js reads `Date.now()` twice. The model takes one clock reading `now` for both.
- VolumeCommand.Decide: the gain `v / 100` is an exact `real`. JavaScript computes it in floating point.
- MessageCreate.ToLower: only ASCII letters are lowercased. The Unicode case mapping of `toLowerCase` for other characters is not modelled.
- MessageCreate.Execute: the effects of running a command and the reply sent by `errorHandler` are left out. The outcome only names the command run or failed.
- SoundCloud (soundcloud.js), Last.fm and lyrics lookups are not part of this model. The SoundCloud resolver is any function from the query to a result.
- HTTP requests and the search library are left out. Responses are functions of the request, and any network, JSON or missing-field error is one "failed" response. The API key and client credentials are parameters.
- YouTube.SearchVideo: the search library's result items are taken to have the `title`, `url`, `duration` and `thumbnail` fields the code reads.
- Encoding.Utf8Encode: JavaScript strings are UTF-16, and `Buffer.from` replaces a lone surrogate with U+FFFD. The model's text is a sequence of Unicode scalar values, so a lone surrogate cannot occur.

## Findings

| source | as written | input that shows it | evidently intended | confidence | as-written member | corrected member |
|---|---|---|---|---|---|---|
| project-root/src/utils/player.js:121-127 | the catch block of the arrow function `play` calls `this.skip(guildId)`, but `this` there is the module's original `exports` object, which has no `skip` (the exported object replaced `module.exports`), so the call throws and `play` rejects with the player left running; the `error` listener at line 102 has the same defect | a guild with a registered player and an empty stored queue (`currentSong.url` throws), or a failing stream | stop the guild's player through the exported `skip` and resolve with false | not executed; high | Player.CatchBlockSkipMissesPlayer | Player.PlayerRegistry.PlayCorrected |

The same catch block is reached when the listener registration at player.js:94 throws on a connection without a subscription (`Player.UnsubscribedConnectionRejects`). `musicProvider.play` and the `/play` command do not await `player.play`, so each of these rejections goes unhandled; `MusicProvider.Play` and `PlayCommand.Execute` model the code as written and report it. `Player.CorrectedPlayStopsWhereAsWrittenRejects` relates the corrected `play` to the as-written one for every input.
