/**
 * The `/volume` slash command: an integer from 0 to 100, both included, becomes the gain
 * `volume / 100` handed to the player; anything else is refused with an ephemeral reply.
 * The gain is an exact `real` here, where JavaScript divides in floating point.
 */
module VolumeCommand {
  import opened Common
  import opened Player

  datatype Decision = Refused | Accepted(gain: real)

  /** The range check and the mapping to a gain. */
  function Decide(volume: int): (d: Decision)
    ensures d.Accepted? <==> 0 <= volume <= 100
    ensures d.Accepted? ==> 0.0 <= d.gain <= 1.0 && d.gain * 100.0 == volume as real
  {
    if volume < 0 || volume > 100 then Refused else Accepted(volume as real / 100.0)
  }

  const InvalidVolumeReply := Reply("Please enter a valid volume between 0 and 100.", true)

  function DigitChar(d: nat): char
    requires d < 10
  {
    ('0' as int + d) as char
  }

  predicate IsDigit(c: char) {
    '0' <= c <= '9'
  }

  /** The decimal text of a natural number, as a template literal prints it. */
  function DecimalString(n: nat): (s: string)
    ensures |s| >= 1 && (forall i :: 0 <= i < |s| ==> IsDigit(s[i]))
    ensures s[0] == '0' ==> n == 0
  {
    if n < 10 then [DigitChar(n)] else DecimalString(n / 10) + [DigitChar(n % 10)]
  }

  /** The number a string of decimal digits denotes. */
  function DecimalValue(s: string): int
    requires forall i :: 0 <= i < |s| ==> IsDigit(s[i])
  {
    if s == [] then 0 else DecimalValue(s[..|s| - 1]) * 10 + (s[|s| - 1] as int - '0' as int)
  }

  /** The echoed number reads back as the volume the user gave. */
  lemma {:induction false} DecimalRoundTrip(n: nat)
    ensures DecimalValue(DecimalString(n)) == n
  {
    if n >= 10 {
      var s := DecimalString(n);
      assert s[..|s| - 1] == DecimalString(n / 10);
      DecimalRoundTrip(n / 10);
    }
  }

  /** The confirmation echoes the user's integer, not the gain. */
  function ConfirmReply(volume: nat): Reply {
    Reply("Volume set to " + DecimalString(volume) + "%", false)
  }

  /**
   * `execute(interaction)`: a refused volume gets the ephemeral reply and no player call.
   * An accepted one is passed to `player.setVolume` as `volume / 100`; that call throws when
   * the guild has a player, so the command rejects before replying (`None`, the error going
   * to the command's caller), and only a guild without a player gets the confirmation.
   */
  method Execute(g: GuildId, volume: int, registry: PlayerRegistry) returns (reply: Option<Reply>)
    ensures Decide(volume).Refused? ==> reply == Some(InvalidVolumeReply)
    ensures Decide(volume).Accepted? ==> 0 <= volume && (reply.None? <==> g in registry.players)
    ensures Decide(volume).Accepted? && g !in registry.players ==> reply == Some(ConfirmReply(volume))
  {
    if volume < 0 || volume > 100 {
      return Some(InvalidVolumeReply);
    }
    var threw := registry.SetVolume(g, volume as real / 100.0);
    if threw {
      return None;
    }
    reply := Some(ConfirmReply(volume));
  }
}
