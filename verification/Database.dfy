/**
 * The `music_queue` table: one row per guild (guildId is the primary key) holding that
 * guild's song list. The table is a map from guild id to the decoded song list; the JSON
 * encoding of the list is taken to be lossless and is not modelled.
 */
module Database {
  import opened Common

  type Table = map<GuildId, seq<Song>>

  /** What `getQueue` resolves with: the stored list, or `[]` when the guild has no row. */
  function QueueOf(rows: Table, g: GuildId): seq<Song> {
    if g in rows then rows[g] else []
  }

  /** The table after `add(g, song)`: append to an existing row, or insert the row `[song]`. */
  function AddRow(rows: Table, g: GuildId, song: Song): Table {
    if g in rows then rows[g := rows[g] + [song]] else rows[g := [song]]
  }

  /** The table after `updateQueue(g, q)`: an UPDATE, so a guild without a row stays without one. */
  function UpdateRow(rows: Table, g: GuildId, q: seq<Song>): Table {
    if g in rows then rows[g := q] else rows
  }

  /** The table after `clear(g)`: the guild's row is deleted. */
  function DeleteRow(rows: Table, g: GuildId): Table {
    rows - {g}
  }

  /** The table after several `add` calls for one guild, in order. */
  function AddAll(rows: Table, g: GuildId, songs: seq<Song>): Table
    decreases |songs|
  {
    if songs == [] then rows else AddAll(AddRow(rows, g, songs[0]), g, songs[1..])
  }

  lemma AddAppends(rows: Table, g: GuildId, song: Song)
    ensures g in AddRow(rows, g, song)
    ensures QueueOf(AddRow(rows, g, song), g) == QueueOf(rows, g) + [song]
    ensures g !in rows ==> AddRow(rows, g, song)[g] == [song]
    ensures AddRow(rows, g, song).Keys == rows.Keys + {g}
  {
  }

  lemma UpdateNeverInserts(rows: Table, g: GuildId, q: seq<Song>)
    ensures UpdateRow(rows, g, q).Keys == rows.Keys
    ensures g in rows ==> QueueOf(UpdateRow(rows, g, q), g) == q
    ensures g !in rows ==> UpdateRow(rows, g, q) == rows
  {
  }

  lemma ClearEmpties(rows: Table, g: GuildId)
    ensures g !in DeleteRow(rows, g)
    ensures QueueOf(DeleteRow(rows, g), g) == []
    ensures DeleteRow(rows, g).Keys == rows.Keys - {g}
  {
  }

  /** Every operation touches only the row of its own guild. */
  lemma OtherGuildsUnchanged(rows: Table, g: GuildId, h: GuildId, song: Song, q: seq<Song>)
    requires g != h
    ensures (h in AddRow(rows, g, song)) == (h in rows)
    ensures (h in UpdateRow(rows, g, q)) == (h in rows)
    ensures (h in DeleteRow(rows, g)) == (h in rows)
    ensures QueueOf(AddRow(rows, g, song), h) == QueueOf(rows, h)
    ensures QueueOf(UpdateRow(rows, g, q), h) == QueueOf(rows, h)
    ensures QueueOf(DeleteRow(rows, g), h) == QueueOf(rows, h)
  {
  }

  /** Songs added one after another come back from `getQueue` in the order they were added. */
  lemma {:induction false} AddAllInOrder(rows: Table, g: GuildId, songs: seq<Song>)
    ensures QueueOf(AddAll(rows, g, songs), g) == QueueOf(rows, g) + songs
    decreases |songs|
  {
    if songs != [] {
      AddAppends(rows, g, songs[0]);
      AddAllInOrder(AddRow(rows, g, songs[0]), g, songs[1..]);
      assert QueueOf(rows, g) + [songs[0]] + songs[1..] == QueueOf(rows, g) + songs;
    }
  }

  /** After a `clear`, adding songs builds a fresh row holding exactly those songs. */
  lemma {:induction false} ClearThenAddAll(rows: Table, g: GuildId, songs: seq<Song>)
    ensures QueueOf(AddAll(DeleteRow(rows, g), g, songs), g) == songs
  {
    ClearEmpties(rows, g);
    AddAllInOrder(DeleteRow(rows, g), g, songs);
  }

  /** The store behind the module-level `db` handle. */
  class QueueStore {
    var rows: Table

    /** A fresh database: `CREATE TABLE IF NOT EXISTS` on an empty file. */
    constructor ()
      ensures rows == map[]
    {
      rows := map[];
    }

    /** `getQueue(guildId)`: SELECT the row's queue, or `[]` when there is none. */
    method GetQueue(g: GuildId) returns (q: seq<Song>)
      ensures g in rows ==> q == rows[g]
      ensures g !in rows ==> q == []
    {
      if g in rows {
        q := rows[g];
      } else {
        q := [];
      }
    }

    /** `add(guildId, song)`: read the row, push, write it back; INSERT `[song]` when there is no row. */
    method Add(g: GuildId, song: Song)
      modifies this
      ensures rows == AddRow(old(rows), g, song)
      ensures QueueOf(rows, g) == QueueOf(old(rows), g) + [song]
    {
      if g in rows {
        var queueData := rows[g];
        queueData := queueData + [song];
        rows := rows[g := queueData];
      } else {
        rows := rows[g := [song]];
      }
      AddAppends(old(rows), g, song);
    }

    /** `updateQueue(guildId, queueData)`: UPDATE ... WHERE guildId = ?, which matches no row for an unknown guild. */
    method UpdateQueue(g: GuildId, queueData: seq<Song>)
      modifies this
      ensures rows == UpdateRow(old(rows), g, queueData)
      ensures rows.Keys == old(rows).Keys
    {
      if g in rows {
        rows := rows[g := queueData];
      }
    }

    /** `clear(guildId)`: DELETE the guild's row. */
    method Clear(g: GuildId)
      modifies this
      ensures rows == DeleteRow(old(rows), g)
      ensures QueueOf(rows, g) == []
    {
      rows := rows - {g};
    }
  }
}
