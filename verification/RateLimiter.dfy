/**
 * The command rate limiter: a table guild -> user -> time of that user's last allowed
 * command. A command is limited when it comes less than `RATE_LIMIT` ms after the last
 * allowed one; limited commands do not move the window.
 */
module RateLimiter {
  import opened Common

  /** `rateLimit` in config.js: 3000 ms. */
  const RATE_LIMIT: int := 3000

  type Times = map<GuildId, map<UserId, int>>

  /** The recorded time of `u` in `g`, if there is one. */
  function Recorded(t: Times, g: GuildId, u: UserId): Option<int> {
    if g in t && u in t[g] then Some(t[g][u]) else None
  }

  /** The limiter's answer: a recorded time less than `RATE_LIMIT` ms before `now` (a strict `<`). */
  predicate Limited(t: Times, g: GuildId, u: UserId, now: int) {
    Recorded(t, g, u).Some? && now - Recorded(t, g, u).value < RATE_LIMIT
  }

  /** The table after one call: unchanged when limited, else `now` recorded for the user (creating the guild's entry if needed). */
  function Step(t: Times, g: GuildId, u: UserId, now: int): Times {
    if Limited(t, g, u, now) then t
    else t[g := (if g in t then t[g] else map[])[u := now]]
  }

  /** What one call does to the table: the guild has an entry afterwards, and only `(g, u)` can change. */
  lemma StepFrame(t: Times, g: GuildId, u: UserId, now: int, h: GuildId, v: UserId)
    ensures g in Step(t, g, u, now) && u in Step(t, g, u, now)[g]
    ensures t.Keys <= Step(t, g, u, now).Keys
    ensures h in t ==> t[h].Keys <= Step(t, g, u, now)[h].Keys
    ensures (h, v) != (g, u) ==> Recorded(Step(t, g, u, now), h, v) == Recorded(t, h, v)
    ensures Recorded(Step(t, g, u, now), g, u) == if Limited(t, g, u, now) then Recorded(t, g, u) else Some(now)
  {
  }

  /** The window boundary: exactly `RATE_LIMIT` ms after the recorded time is allowed, one ms less is not. */
  lemma WindowIsStrict(t: Times, g: GuildId, u: UserId, last: int)
    requires Recorded(t, g, u) == Some(last)
    ensures !Limited(t, g, u, last + RATE_LIMIT)
    ensures Limited(t, g, u, last + RATE_LIMIT - 1)
  {
  }

  /** A user's first command in a guild is never limited. */
  lemma FirstCommandAllowed(t: Times, g: GuildId, u: UserId, now: int)
    requires g !in t || u !in t[g]
    ensures !Limited(t, g, u, now)
    ensures Recorded(Step(t, g, u, now), g, u) == Some(now)
  {
  }

  /** One message reaching the limiter: its guild, its author and the clock reading. */
  datatype Attempt = Attempt(guild: GuildId, user: UserId, now: int)

  /** The table after a sequence of calls, starting from the empty table, with each call's answer. */
  function Run(attempts: seq<Attempt>): (r: (Times, seq<bool>))
    ensures |r.1| == |attempts|
    decreases |attempts|
  {
    if attempts == [] then (map[], [])
    else
      var prev := Run(attempts[..|attempts| - 1]);
      var a := attempts[|attempts| - 1];
      (Step(prev.0, a.guild, a.user, a.now), prev.1 + [Limited(prev.0, a.guild, a.user, a.now)])
  }

  /**
   * The rule stated on the history alone: an attempt is limited exactly when the same user
   * in the same guild had an earlier allowed attempt less than `RATE_LIMIT` ms before it.
   */
  function Decisions(attempts: seq<Attempt>): (r: seq<bool>)
    ensures |r| == |attempts|
    decreases |attempts|, 0
  {
    if attempts == [] then []
    else
      var prefix := attempts[..|attempts| - 1];
      var a := attempts[|attempts| - 1];
      var last := LastAllowed(prefix, a.guild, a.user);
      Decisions(prefix) + [last.Some? && a.now - last.value < RATE_LIMIT]
  }

  /** The time of the most recent allowed attempt of `u` in `g`, by the history rule. */
  function LastAllowed(attempts: seq<Attempt>, g: GuildId, u: UserId): Option<int>
    decreases |attempts|, 1
  {
    if attempts == [] then None
    else
      var a := attempts[|attempts| - 1];
      if a.guild == g && a.user == u && !Decisions(attempts)[|attempts| - 1] then Some(a.now)
      else LastAllowed(attempts[..|attempts| - 1], g, u)
  }

  /**
   * The table-based limiter implements the history rule: its answers are the rule's
   * decisions, and the table holds, for every user, the time of the last allowed attempt.
   */
  lemma {:induction false} RunFollowsHistory(attempts: seq<Attempt>)
    ensures Run(attempts).1 == Decisions(attempts)
    ensures forall g, u :: Recorded(Run(attempts).0, g, u) == LastAllowed(attempts, g, u)
    decreases |attempts|
  {
    if attempts != [] {
      var prefix := attempts[..|attempts| - 1];
      var a := attempts[|attempts| - 1];
      RunFollowsHistory(prefix);
      var t := Run(prefix).0;
      assert Run(attempts).1 == Decisions(attempts);
      forall g, u ensures Recorded(Run(attempts).0, g, u) == LastAllowed(attempts, g, u) {
        StepFrame(t, a.guild, a.user, a.now, g, u);
      }
    }
  }

  /**
   * The window runs from the last allowed command, not the last attempt: attempts at 0,
   * 2000 and 4000 ms are allowed, limited, allowed.
   */
  lemma WindowFromLastAllowed(g: GuildId, u: UserId)
    ensures Decisions([Attempt(g, u, 0), Attempt(g, u, 2000), Attempt(g, u, 4000)]) == [false, true, false]
  {
    var a := [Attempt(g, u, 0), Attempt(g, u, 2000), Attempt(g, u, 4000)];
    assert a[..1] == [Attempt(g, u, 0)];
    assert a[..2] == [Attempt(g, u, 0), Attempt(g, u, 2000)];
    assert a[..2][..1] == [Attempt(g, u, 0)];
    assert [Attempt(g, u, 0)][..0] == [];
    assert LastAllowed(a[..1], g, u) == Some(0);
    assert LastAllowed(a[..2], g, u) == Some(0);
  }

  /** The module-level `rateLimits` collection. */
  class Limiter {
    var rateLimits: Times

    constructor ()
      ensures rateLimits == map[]
    {
      rateLimits := map[];
    }

    /**
     * The exported limiter function: true when the message's author is limited in its guild.
     * `now` is the clock reading (`Date.now()`).
     */
    method IsRateLimited(g: GuildId, u: UserId, now: int) returns (limited: bool)
      modifies this
      ensures limited == Limited(old(rateLimits), g, u, now)
      ensures rateLimits == Step(old(rateLimits), g, u, now)
      ensures limited ==> rateLimits == old(rateLimits)
      ensures !limited ==> Recorded(rateLimits, g, u) == Some(now)
      ensures g in rateLimits && old(rateLimits).Keys <= rateLimits.Keys
    {
      if g !in rateLimits {
        rateLimits := rateLimits[g := map[]];
      }
      var guildRateLimits := rateLimits[g];
      if u in guildRateLimits {
        var lastCommandTime := guildRateLimits[u];
        var timeSinceLastCommand := now - lastCommandTime;
        if timeSinceLastCommand < RATE_LIMIT {
          return true;
        }
      }
      rateLimits := rateLimits[g := guildRateLimits[u := now]];
      return false;
    }
  }
}
