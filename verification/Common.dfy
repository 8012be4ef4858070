/** Value types shared by every part of the bot's core. */
module Common {

  /** Discord snowflake ids are handled as opaque strings throughout the bot. */
  type GuildId = string
  type UserId = string

  datatype Option<T> = None | Some(value: T)

  /** A song's duration: YouTube (search and API) reports text, Spotify a number of milliseconds. */
  datatype Duration = Text(text: string) | Millis(ms: int)

  /** The record stored in a guild's queue: the four fields every resolver fills in. */
  datatype Song = Song(title: string, url: string, duration: Duration, thumbnail: string)

  /** A chat reply; `ephemeral` replies are shown only to the user who issued the command. */
  datatype Reply = Reply(content: string, ephemeral: bool)

  /** What an awaited resolver call produced: a song, `null`, or a rejected promise. */
  datatype Lookup = Found(song: Song) | NotFound | Threw

  /** The text `+` or a template literal makes of a string that may be `undefined` (an unset environment variable, a missing element). */
  function Stringify(v: Option<string>): string {
    if v.Some? then v.value else "undefined"
  }
}
