/**
 * The player registry: a module-level map from guild id to that guild's audio player.
 * An audio player is an opaque handle; its status belongs to the audio library and is
 * only read here, and every call the bot makes on it is recorded in its call log.
 */
module Player {
  import opened Common
  import opened Database

  /** The statuses an audio player reports. */
  datatype Status = Idle | Buffering | Playing | AutoPaused | Paused

  /** A call the bot makes on an audio player. */
  datatype Call = Stop | Pause | Unpause | PlayResource(url: string)

  class AudioPlayer {
    /** Maintained by the audio library; the bot only reads it. */
    var status: Status
    /** The calls the bot has made on this player, oldest first. */
    var calls: seq<Call>

    /** `createAudioPlayer()`: a new player starts idle. */
    constructor ()
      ensures status == Idle && calls == []
    {
      status := Idle;
      calls := [];
    }

    /** The bot calls `c` on this player; what the library then does with its status is not modelled. */
    method Receive(c: Call)
      modifies this
      ensures calls == old(calls) + [c]
      ensures status == old(status)
    {
      calls := calls + [c];
    }
  }

  /** `queueData.shift()`: the head (undefined for an empty array) and the array left behind. */
  function Shift(q: seq<Song>): (r: (Option<Song>, seq<Song>))
    ensures q == [] ==> r.0 == None && r.1 == []
    ensures q != [] ==> r.0 == Some(q[0]) && [q[0]] + r.1 == q
  {
    if q == [] then (None, []) else (Some(q[0]), q[1..])
  }

  /** The table after `play` shifts the head off the guild's queue and writes the rest back with `updateQueue`. */
  function ShiftRow(rows: Table, g: GuildId): Table {
    UpdateRow(rows, g, Shift(QueueOf(rows, g)).1)
  }

  /** How an async call ends: its promise resolves with a value, or it rejects. */
  datatype Completion = Returned(value: bool) | Rejected

  /**
   * As written, the calls `play` makes on a registered guild's player. An empty queue makes
   * `currentSong.url` throw, and a failing stream throws too; no call reaches the player
   * then, because the catch block's `this.skip` throws in turn (inside the arrow function
   * `this` is the module's original `exports` object, not the object assigned to
   * `module.exports`). Otherwise the resource is played when the guild has a voice connection.
   */
  function PlayCallsAsWritten(q: seq<Song>, streamOk: bool, connected: bool): seq<Call> {
    if q == [] || !streamOk then []
    else if connected then [PlayResource(q[0].url)]
    else []
  }

  /**
   * As written, how `play` ends: false without a player; a rejection from the catch block
   * when the head is missing, the stream fails, or the voice connection has no subscription
   * (`connection.state.subscription.player` throws after the resource has been played);
   * true otherwise. `subscribed` says whether the connection has a subscribed player.
   */
  function PlayCompletionAsWritten(registered: bool, q: seq<Song>, streamOk: bool, connected: bool, subscribed: bool)
    : Completion
  {
    if !registered then Returned(false)
    else if q == [] || !streamOk then Rejected
    else if connected && !subscribed then Rejected
    else Returned(true)
  }

  /**
   * The calls `play` makes when the catch block's skip reaches the exported `skip`, as
   * evidently intended: every throw inside the `try` ends with the player stopped.
   */
  function PlayCalls(q: seq<Song>, streamOk: bool, connected: bool, subscribed: bool): seq<Call> {
    if q == [] || !streamOk then [Stop]
    else if connected then (if subscribed then [PlayResource(q[0].url)] else [PlayResource(q[0].url), Stop])
    else []
  }

  /**
   * On a registered guild with an empty queue the code as written rejects and leaves the
   * player running, where the catch block means to stop it and return false.
   */
  lemma CatchBlockSkipMissesPlayer(streamOk: bool, connected: bool, subscribed: bool)
    ensures PlayCompletionAsWritten(true, [], streamOk, connected, subscribed) == Rejected
    ensures PlayCallsAsWritten([], streamOk, connected) == []
    ensures PlayCalls([], streamOk, connected, subscribed) == [Stop]
  {
  }

  /**
   * No file subscribes a player to a voice connection, so on a connected guild the listener
   * registration throws: the resource has been handed to the player, and `play` rejects.
   */
  lemma UnsubscribedConnectionRejects(q: seq<Song>)
    requires q != []
    ensures PlayCompletionAsWritten(true, q, true, true, false) == Rejected
    ensures PlayCallsAsWritten(q, true, true) == [PlayResource(q[0].url)]
  {
  }

  /**
   * Whatever the inputs, the evidently intended `play` makes the as-written calls followed
   * by a stop exactly when the as-written one rejects, and the same calls otherwise.
   */
  lemma CorrectedPlayStopsWhereAsWrittenRejects(q: seq<Song>, streamOk: bool, connected: bool, subscribed: bool)
    ensures PlayCompletionAsWritten(true, q, streamOk, connected, subscribed) == Rejected <==>
              PlayCalls(q, streamOk, connected, subscribed) == PlayCallsAsWritten(q, streamOk, connected) + [Stop]
    ensures PlayCompletionAsWritten(true, q, streamOk, connected, subscribed) != Rejected ==>
              PlayCalls(q, streamOk, connected, subscribed) == PlayCallsAsWritten(q, streamOk, connected)
  {
  }

  /** `play` shifts the queue head off and writes the rest back, whether or not the guild has a player. */
  lemma ShiftRowDropsHead(rows: Table, g: GuildId, h: GuildId)
    ensures QueueOf(ShiftRow(rows, g), g) == if QueueOf(rows, g) == [] then [] else QueueOf(rows, g)[1..]
    ensures ShiftRow(rows, g).Keys == rows.Keys
    ensures h != g ==> QueueOf(ShiftRow(rows, g), h) == QueueOf(rows, h)
  {
  }

  /**
   * Queueing a song and then starting the player: the head that `play` takes is the old
   * head, or the new song when the queue was empty, and the new song stays queued otherwise.
   */
  lemma AddThenShift(rows: Table, g: GuildId, song: Song)
    ensures Shift(QueueOf(AddRow(rows, g, song), g)).0 ==
              Some(if QueueOf(rows, g) == [] then song else QueueOf(rows, g)[0])
    ensures QueueOf(ShiftRow(AddRow(rows, g, song), g), g) ==
              if QueueOf(rows, g) == [] then [] else QueueOf(rows, g)[1..] + [song]
  {
    AddAppends(rows, g, song);
    var q := QueueOf(rows, g);
    if q != [] {
      assert (q + [song])[1..] == q[1..] + [song];
    }
  }

  /** The module-level `players` map. */
  class PlayerRegistry {
    var players: map<GuildId, AudioPlayer>

    /** Every guild has its own player object: `initPlayer` always creates a new one. */
    ghost predicate Valid()
      reads this
    {
      forall g, h :: g in players && h in players && g != h ==> players[g] != players[h]
    }

    /** The player object registered for `g`, if any: what an operation on `g` may change. */
    function PlayerOf(g: GuildId): set<AudioPlayer>
      reads this
    {
      if g in players then {players[g]} else {}
    }

    constructor ()
      ensures Valid() && players == map[]
    {
      players := map[];
    }

    /** `initPlayer(guildId)`: register a new idle player, replacing any existing entry. */
    method InitPlayer(g: GuildId)
      requires Valid()
      modifies this
      ensures Valid()
      ensures g in players && fresh(players[g])
      ensures players[g].status == Idle && players[g].calls == []
      ensures players == old(players)[g := players[g]]
    {
      var player := new AudioPlayer();
      players := players[g := player];
    }

    /** `stop(guildId)`: stop the player, unregister it and clear the guild's queue; nothing for an unregistered guild. */
    method Stop(g: GuildId, store: QueueStore)
      requires Valid()
      modifies this, store, PlayerOf(g)
      ensures Valid()
      ensures g in old(players) ==>
                && old(players[g]).calls == old(players[g].calls) + [Call.Stop]
                && players == old(players) - {g}
                && store.rows == DeleteRow(old(store.rows), g)
      ensures g !in old(players) ==> players == old(players) && store.rows == old(store.rows)
      ensures forall h :: h in players ==> h in old(players) && players[h] == old(players[h])
      ensures forall h :: h in players ==> players[h].calls == old(players[h].calls)
    {
      if g in players {
        var player := players[g];
        player.Receive(Call.Stop);
        players := players - {g};
        store.Clear(g);
      }
    }

    /** `pause(guildId)`: forwarded to the player when there is one. */
    method Pause(g: GuildId)
      requires Valid()
      modifies PlayerOf(g)
      ensures g in players ==> players[g].calls == old(players[g].calls) + [Call.Pause]
      ensures forall h :: h in players && h != g ==> players[h].calls == old(players[h].calls)
    {
      if g in players {
        players[g].Receive(Call.Pause);
      }
    }

    /** `resume(guildId)`: `unpause` forwarded to the player when there is one. */
    method Resume(g: GuildId)
      requires Valid()
      modifies PlayerOf(g)
      ensures g in players ==> players[g].calls == old(players[g].calls) + [Unpause]
      ensures forall h :: h in players && h != g ==> players[h].calls == old(players[h].calls)
    {
      if g in players {
        players[g].Receive(Unpause);
      }
    }

    /** `skip(guildId)`: stop the player but keep it registered; true exactly when there is one. */
    method Skip(g: GuildId) returns (skipped: bool)
      requires Valid()
      modifies PlayerOf(g)
      ensures skipped == (g in players)
      ensures g in players ==> players[g].calls == old(players[g].calls) + [Call.Stop]
      ensures forall h :: h in players && h != g ==> players[h].calls == old(players[h].calls)
    {
      if g in players {
        players[g].Receive(Call.Stop);
        skipped := true;
      } else {
        skipped := false;
      }
    }

    /**
     * `setVolume(guildId, volume)`. An audio player has no `volume` property, so with a
     * player registered `player.volume.setVolume(volume)` calls a method of `undefined` and
     * throws a TypeError; without one nothing happens. Either way no player changes.
     */
    method SetVolume(g: GuildId, volume: real) returns (threw: bool)
      ensures threw <==> g in players
    {
      threw := g in players;
    }

    /** `isPlaying(guildId)`: false without a player, else whether its status is Playing. */
    method IsPlaying(g: GuildId) returns (playing: bool)
      ensures !(g in players) ==> !playing
      ensures g in players ==> (playing <==> players[g].status == Playing)
    {
      if g in players {
        playing := players[g].status == Playing;
      } else {
        playing := false;
      }
    }

    /**
     * `play(guildId)` as written: shift the head off the stored queue and write the rest back,
     * then look the player up. Without a player the head is lost and the result is false.
     * With one, a missing head or a failing stream ends in the catch block, whose `this.skip`
     * call throws, so the promise rejects and the player is left alone. Otherwise the head's
     * resource is played on the guild's voice connection, when there is one, and the result is
     * true, unless the connection has no subscription: reading its subscribed player then
     * throws into the same catch block. `streamOk`, `connected` and `subscribed` stand for the
     * audio library's stream creation, voice connection lookup and connection subscription.
     */
    method Play(g: GuildId, store: QueueStore, streamOk: bool, connected: bool, subscribed: bool)
      returns (result: Completion)
      requires Valid()
      modifies store, PlayerOf(g)
      ensures store.rows == ShiftRow(old(store.rows), g)
      ensures result == PlayCompletionAsWritten(g in players, QueueOf(old(store.rows), g), streamOk, connected, subscribed)
      ensures g in players ==>
                players[g].calls == old(players[g].calls) + PlayCallsAsWritten(QueueOf(old(store.rows), g), streamOk, connected)
      ensures forall h :: h in players && h != g ==> players[h].calls == old(players[h].calls)
    {
      var queueData := store.GetQueue(g);
      // `if (!queueData)` never fires: the queue is always an array, and arrays are truthy.
      var shifted := Shift(queueData);
      var currentSong := shifted.0;
      queueData := shifted.1;
      store.UpdateQueue(g, queueData);
      if g in players {
        var player := players[g];
        if currentSong.None? || !streamOk {
          result := Rejected;
        } else if connected {
          player.Receive(PlayResource(currentSong.value.url));
          result := if subscribed then Returned(true) else Rejected;
        } else {
          result := Returned(true);
        }
      } else {
        result := Returned(false);
      }
    }

    /**
     * `play(guildId)` with the catch block reaching the exported `skip`: the same as `Play`,
     * except that wherever `Play` rejects the player is stopped and the result is false.
     */
    method PlayCorrected(g: GuildId, store: QueueStore, streamOk: bool, connected: bool, subscribed: bool)
      returns (started: bool)
      requires Valid()
      modifies store, PlayerOf(g)
      ensures store.rows == ShiftRow(old(store.rows), g)
      ensures started <==> g in players && QueueOf(old(store.rows), g) != [] && streamOk && (connected ==> subscribed)
      ensures g in players ==>
                players[g].calls == old(players[g].calls) + PlayCalls(QueueOf(old(store.rows), g), streamOk, connected, subscribed)
      ensures forall h :: h in players && h != g ==> players[h].calls == old(players[h].calls)
    {
      var queueData := store.GetQueue(g);
      var shifted := Shift(queueData);
      var currentSong := shifted.0;
      queueData := shifted.1;
      store.UpdateQueue(g, queueData);
      if g in players {
        var player := players[g];
        if currentSong.None? || !streamOk {
          var _ := Skip(g);
          started := false;
        } else if connected {
          player.Receive(PlayResource(currentSong.value.url));
          if subscribed {
            started := true;
          } else {
            var _ := Skip(g);
            started := false;
          }
        } else {
          started := true;
        }
      } else {
        started := false;
      }
    }
  }
}
