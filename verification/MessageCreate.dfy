/**
 * The `messageCreate` event: ignore bots, consult the rate limiter, then parse a `!`
 * prefix command (strip the `!`, trim, split on runs of spaces, lowercase the name) and
 * dispatch it to the registered command of that name.
 */
module MessageCreate {
  import opened Common
  import opened Strings
  import opened RateLimiter

  /** The characters `String.prototype.trim` removes: ECMAScript WhiteSpace and LineTerminator. */
  predicate IsJsWhitespace(c: char) {
    || c == '\t' || c == '\n' || c == '\U{B}' || c == '\U{C}' || c == '\r' || c == ' '
    || c == '\U{A0}' || c == '\U{1680}' || ('\U{2000}' <= c <= '\U{200A}')
    || c == '\U{2028}' || c == '\U{2029}' || c == '\U{202F}' || c == '\U{205F}'
    || c == '\U{3000}' || c == '\U{FEFF}'
  }

  predicate AllWhitespace(s: string) {
    forall i :: 0 <= i < |s| ==> IsJsWhitespace(s[i])
  }

  /** Leading whitespace removed: what is left is a suffix of `s` that does not start with whitespace. */
  function TrimStart(s: string): (r: string)
    ensures |r| <= |s| && r == s[|s| - |r|..] && AllWhitespace(s[..|s| - |r|])
    ensures r == [] || !IsJsWhitespace(r[0])
  {
    if s != [] && IsJsWhitespace(s[0]) then
      var r := TrimStart(s[1..]);
      assert s[..|s| - |r|] == [s[0]] + s[1..][..|s| - 1 - |r|];
      r
    else s
  }

  /** Trailing whitespace removed: what is left is a prefix of `s` that does not end with whitespace. */
  function TrimEnd(s: string): (r: string)
    ensures |r| <= |s| && r == s[..|r|] && AllWhitespace(s[|r|..])
    ensures r == [] || !IsJsWhitespace(r[|r| - 1])
  {
    if s != [] && IsJsWhitespace(s[|s| - 1]) then
      var r := TrimEnd(s[..|s| - 1]);
      assert s[|r|..] == s[..|s| - 1][|r|..] + [s[|s| - 1]];
      r
    else s
  }

  /**
   * `s.trim()`: the text with its leading and trailing whitespace removed. The result sits
   * inside `s` with only whitespace before and after it, and neither starts nor ends with
   * whitespace, which leaves one possible result.
   */
  function Trim(s: string): (r: string)
    ensures var i := |s| - |TrimStart(s)|;
            && i + |r| <= |s| && s == s[..i] + r + s[i + |r|..]
            && AllWhitespace(s[..i]) && AllWhitespace(s[i + |r|..])
    ensures r == [] || (!IsJsWhitespace(r[0]) && !IsJsWhitespace(r[|r| - 1]))
  {
    TrimFrames(s);
    TrimEnd(TrimStart(s))
  }

  /** `trimEnd` after `trimStart` keeps a middle part of `s` with only whitespace around it. */
  lemma TrimFrames(s: string)
    ensures var i := |s| - |TrimStart(s)|;
            var r := TrimEnd(TrimStart(s));
            && i + |r| <= |s| && s == s[..i] + r + s[i + |r|..]
            && AllWhitespace(s[..i]) && AllWhitespace(s[i + |r|..])
  {
    var a := TrimStart(s);
    var r := TrimEnd(a);
    var i := |s| - |a|;
    MiddleOfSuffix(s, a, r);
    assert AllWhitespace(s[..i]);
    assert AllWhitespace(a[|r|..]);
    assert s[i + |r|..] == a[|r|..];
  }

  /** A prefix `r` of a suffix `a` of `s` splits `s` into what precedes `a`, `r`, and the rest of `a`. */
  lemma MiddleOfSuffix<T>(s: seq<T>, a: seq<T>, r: seq<T>)
    requires |a| <= |s| && a == s[|s| - |a|..] && |r| <= |a| && r == a[..|r|]
    ensures var i := |s| - |a|;
            && s == s[..i] + r + s[i + |r|..]
            && s[i + |r|..] == a[|r|..]
  {
    var i := |s| - |a|;
    assert s == s[..i] + a;
    assert a == r + a[|r|..];
  }

  /** Whitespace in front of a text that does not start with whitespace is what `trimStart` removes. */
  lemma {:induction false} TrimStartSkips(w: string, x: string)
    requires AllWhitespace(w) && (x == [] || !IsJsWhitespace(x[0]))
    ensures TrimStart(w + x) == x
    decreases |w|
  {
    if w == [] {
      assert w + x == x;
    } else {
      assert (w + x)[1..] == w[1..] + x;
      TrimStartSkips(w[1..], x);
    }
  }

  /** Whitespace after a text that does not end with whitespace is what `trimEnd` removes. */
  lemma {:induction false} TrimEndSkips(x: string, w: string)
    requires AllWhitespace(w) && (x == [] || !IsJsWhitespace(x[|x| - 1]))
    ensures TrimEnd(x + w) == x
    decreases |w|
  {
    if w == [] {
      assert x + w == x;
    } else {
      assert (x + w)[..|x + w| - 1] == x + w[..|w| - 1];
      TrimEndSkips(x, w[..|w| - 1]);
    }
  }

  /** `trim` removes exactly the whitespace around a text that starts and ends with non-whitespace. */
  lemma TrimSurrounded(lead: string, t: string, trail: string)
    requires AllWhitespace(lead) && AllWhitespace(trail)
    requires t != [] && !IsJsWhitespace(t[0]) && !IsJsWhitespace(t[|t| - 1])
    ensures Trim(lead + t + trail) == t
  {
    assert lead + t + trail == lead + (t + trail);
    TrimStartSkips(lead, t + trail);
    TrimEndSkips(t, trail);
  }

  /** Text that starts and ends with a non-whitespace character is left alone by `trim`. */
  lemma TrimKeepsTrimmed(s: string)
    requires s == [] || (!IsJsWhitespace(s[0]) && !IsJsWhitespace(s[|s| - 1]))
    ensures Trim(s) == s
  {
  }

  /** Text made of whitespace only trims to the empty string. */
  lemma {:induction false} TrimAllWhitespace(s: string)
    requires AllWhitespace(s)
    ensures TrimStart(s) == [] && Trim(s) == []
    decreases |s|
  {
    if s != [] {
      TrimAllWhitespace(s[1..]);
    }
  }

  /** The end of the run of spaces starting at `i`. */
  function SpaceRunEnd(s: string, i: nat): (e: nat)
    requires i <= |s|
    ensures i <= e <= |s| && (e == |s| || s[e] != ' ')
    ensures forall k :: i <= k < e ==> s[k] == ' '
    decreases |s| - i
  {
    if i < |s| && s[i] == ' ' then SpaceRunEnd(s, i + 1) else i
  }

  /** A run of one or more spaces: what `/ +/` matches. */
  predicate SpaceRun(run: string) {
    run != [] && forall k :: 0 <= k < |run| ==> run[k] == ' '
  }

  /** Every separator is a run of spaces. */
  predicate SpaceRuns(runs: seq<string>) {
    forall k :: 0 <= k < |runs| ==> SpaceRun(runs[k])
  }

  /** Pieces with separators between them: `pieces[0] + runs[0] + pieces[1] + … + pieces[|runs|]`. */
  function Interleave(pieces: seq<string>, runs: seq<string>): string
    requires |pieces| == |runs| + 1
    decreases |runs|
  {
    if runs == [] then pieces[0] else pieces[0] + runs[0] + Interleave(pieces[1..], runs[1..])
  }

  /**
   * `s.split(/ +/)`: the pieces between maximal runs of spaces, including an empty piece
   * before a leading run and after a trailing one; `""` splits into `[""]`. The pieces hold
   * no space and, put back together with runs of spaces between them, give `s`.
   */
  function SplitSpaces(s: string): (r: seq<string>)
    ensures |r| >= 1
    ensures forall k :: 0 <= k < |r| ==> ' ' !in r[k]
    ensures s != [] && s[0] != ' ' ==> r[0] != []
    decreases |s|
  {
    match IndexOf(s, " ")
    case None =>
      assert ' ' !in s by {
        forall k | 0 <= k < |s| ensures s[k] != ' ' {
          assert !OccursAt(s, " ", k);
          assert s[k..k + 1] == [s[k]];
        }
      }
      [s]
    case Some(i) =>
      var e := SpaceRunEnd(s, i);
      var rest := SplitSpaces(s[e..]);
      assert ' ' !in s[..i] by {
        forall k | 0 <= k < i ensures s[k] != ' ' {
          assert !OccursAt(s, " ", k);
          assert s[k..k + 1] == [s[k]];
        }
      }
      assert s[i..i + 1] == " ";
      [s[..i]] + rest
  }

  /** The pieces of `split(/ +/)`, put back together with runs of spaces between them, give the text again. */
  lemma {:induction false} SplitSpacesRebuilds(s: string)
    ensures exists runs :: |runs| + 1 == |SplitSpaces(s)| && SpaceRuns(runs) && Interleave(SplitSpaces(s), runs) == s
    decreases |s|
  {
    match IndexOf(s, " ")
    case None =>
      OnePieceRebuilds(s);
    case Some(i) =>
      var e := SpaceRunEnd(s, i);
      assert s[i..i + 1] == " ";
      SplitSpacesRebuilds(s[e..]);
      RebuildStep(s, i, e, SplitSpaces(s[e..]));
  }

  /** A text with no separator is its own single piece. */
  lemma OnePieceRebuilds(s: string)
    ensures exists runs :: |runs| + 1 == |[s]| && SpaceRuns(runs) && Interleave([s], runs) == s
  {
    assert Interleave([s], []) == s;
  }

  /** The positions a space run covers make a `SpaceRun`. */
  lemma SpaceRunOfSlice(s: string, i: nat, e: nat)
    requires i < e <= |s| && forall k :: i <= k < e ==> s[k] == ' '
    ensures SpaceRun(s[i..e])
  {
  }

  /** The piece before a space run, the run and the rebuilt rest of the text rebuild the whole text. */
  lemma RebuildStep(s: string, i: nat, e: nat, rest: seq<string>)
    requires i < e <= |s| && forall k :: i <= k < e ==> s[k] == ' '
    requires exists runs :: |runs| + 1 == |rest| && SpaceRuns(runs) && Interleave(rest, runs) == s[e..]
    ensures exists runs :: |runs| + 1 == |[s[..i]] + rest| && SpaceRuns(runs)
                           && Interleave([s[..i]] + rest, runs) == s
  {
    var runs' :| |runs'| + 1 == |rest| && SpaceRuns(runs') && Interleave(rest, runs') == s[e..];
    SpaceRunOfSlice(s, i, e);
    var runs := [s[i..e]] + runs';
    var r := [s[..i]] + rest;
    assert r[1..] == rest && runs[1..] == runs';
    assert Interleave(r, runs) == s[..i] + s[i..e] + s[e..];
    assert s == s[..i] + s[i..e] + s[e..];
  }

  /** No piece is empty when the text is non-empty and neither starts nor ends with a space. */
  lemma {:induction false} SplitSpacesNoEmptyPiece(s: string)
    requires s != [] && s[0] != ' ' && s[|s| - 1] != ' '
    ensures forall k :: 0 <= k < |SplitSpaces(s)| ==> SplitSpaces(s)[k] != []
    decreases |s|
  {
    match IndexOf(s, " ")
    case None =>
    case Some(i) =>
      var e := SpaceRunEnd(s, i);
      assert s[i] == ' ' by { assert s[i..i + 1] == " "; }
      assert e < |s|;
      SplitSpacesNoEmptyPiece(s[e..]);
      var r := SplitSpaces(s);
      assert r == [s[..i]] + SplitSpaces(s[e..]);
  }

  /** A text with no space is a single piece. */
  lemma NoSpaceSplitsToItself(s: string)
    requires ' ' !in s
    ensures SplitSpaces(s) == [s]
  {
    forall k ensures !OccursAt(s, " ", k) {
      if 0 <= k < |s| {
        assert s[k] in s;
        assert s[k..k + 1] == [s[k]];
      }
    }
  }

  /** The first space of a text is where `indexOf(" ")` stops. */
  lemma FirstSpace(s: string, n: nat)
    requires n < |s| && s[n] == ' ' && forall k :: 0 <= k < n ==> s[k] != ' '
    ensures IndexOf(s, " ") == Some(n)
  {
    forall k | 0 <= k < n ensures !OccursAt(s, " ", k) {
      assert s[k..k + 1] == [s[k]];
    }
    assert s[n..n + 1] == " ";
    IndexOfIsFirstOccurrence(s, " ", n);
  }

  /** A space-free first piece, a run of spaces and a text that does not start with a space split into that piece and the text's pieces. */
  lemma SplitSpacesRunStep(first: string, run: string, rest: string)
    requires ' ' !in first && SpaceRun(run)
    requires rest == [] || rest[0] != ' '
    ensures SplitSpaces(first + run + rest) == [first] + SplitSpaces(rest)
  {
    var s := first + run + rest;
    var n := |first|;
    var m := n + |run|;
    forall k | 0 <= k < n ensures s[k] != ' ' {
      assert s[k] == first[k];
    }
    assert s[n] == run[0];
    FirstSpace(s, n);
    forall k | n <= k < m ensures s[k] == ' ' {
      assert s[k] == run[k - n];
    }
    assert m == |s| || s[m] == rest[0];
    assert SpaceRunEnd(s, n) == m;
    assert s[m..] == rest;
    assert s[..n] == first;
  }

  /** A text built from space-free pieces, of which only the last may be empty, does not start with a space. */
  lemma RestStartsWithPiece(pieces: seq<string>, runs: seq<string>)
    requires |pieces| == |runs| + 1 && ' ' !in pieces[0]
    requires runs != [] ==> pieces[0] != []
    ensures Interleave(pieces, runs) == [] || Interleave(pieces, runs)[0] != ' '
  {
    if pieces[0] != [] {
      assert Interleave(pieces, runs)[0] == pieces[0][0];
      assert pieces[0][0] in pieces[0];
    }
  }

  /** One more leading piece and space run: the pieces of the shorter text gain that piece. */
  lemma SplitSpacesOfInterleaveStep(pieces: seq<string>, runs: seq<string>)
    requires |pieces| == |runs| + 1 && runs != [] && SpaceRun(runs[0]) && ' ' !in pieces[0] && ' ' !in pieces[1]
    requires |runs| > 1 ==> pieces[1] != []
    requires SplitSpaces(Interleave(pieces[1..], runs[1..])) == pieces[1..]
    ensures SplitSpaces(Interleave(pieces, runs)) == pieces
  {
    var tail, tailRuns := pieces[1..], runs[1..];
    RestStartsWithPiece(tail, tailRuns);
    SplitSpacesRunStep(pieces[0], runs[0], Interleave(tail, tailRuns));
    assert pieces == [pieces[0]] + tail;
  }

  /**
   * `split(/ +/)` recovers the pieces of any text built from space-free pieces and runs of
   * spaces of any length, when only the first and the last piece may be empty.
   */
  lemma {:induction false} SplitSpacesOfInterleave(pieces: seq<string>, runs: seq<string>)
    requires |pieces| == |runs| + 1 && SpaceRuns(runs)
    requires forall k :: 0 <= k < |pieces| ==> ' ' !in pieces[k]
    requires forall k :: 0 < k < |pieces| - 1 ==> pieces[k] != []
    ensures SplitSpaces(Interleave(pieces, runs)) == pieces
    decreases |runs|
  {
    if runs == [] {
      NoSpaceSplitsToItself(pieces[0]);
    } else {
      var tail, tailRuns := pieces[1..], runs[1..];
      assert forall k :: 0 <= k < |tail| ==> tail[k] == pieces[k + 1];
      SplitSpacesOfInterleave(tail, tailRuns);
      SplitSpacesOfInterleaveStep(pieces, runs);
    }
  }

  /** `toLowerCase` on ASCII letters; other characters are kept. */
  function ToLower(s: string): (r: string)
    ensures |r| == |s|
    ensures forall i :: 0 <= i < |s| ==> r[i] == if 'A' <= s[i] <= 'Z' then (s[i] as int + 32) as char else s[i]
  {
    if s == [] then [] else ToLower(s[..|s| - 1]) + [LowerChar(s[|s| - 1])]
  }

  function LowerChar(c: char): char {
    if 'A' <= c <= 'Z' then (c as int + 32) as char else c
  }

  /** A parsed prefix command: the lowercased name and the remaining tokens in order. */
  datatype Command = Command(name: string, args: seq<string>)

  /**
   * Lines 18-20: no command unless the text starts with `!`; otherwise the text after it is
   * trimmed and split on runs of spaces, and the first token, lowercased, is the name.
   */
  function ParseCommand(content: string): Option<Command> {
    if !StartsWith(content, "!") then None
    else
      var args := SplitSpaces(Trim(content[1..]));
      Some(Command(ToLower(args[0]), args[1..]))
  }

  /**
   * A command written as `!`, optional whitespace, whitespace-free tokens separated by runs
   * of spaces of any length, and optional whitespace parses into the lowercased first token
   * and the other tokens in order.
   */
  lemma ParseCommandOfTokens(lead: string, name: string, args: seq<string>, runs: seq<string>, trail: string)
    requires AllWhitespace(lead) && AllWhitespace(trail)
    requires name != [] && forall c :: c in name ==> !IsJsWhitespace(c)
    requires forall k :: 0 <= k < |args| ==> args[k] != [] && forall c :: c in args[k] ==> !IsJsWhitespace(c)
    requires |runs| == |args| && SpaceRuns(runs)
    ensures ParseCommand("!" + lead + Interleave([name] + args, runs) + trail) == Some(Command(ToLower(name), args))
  {
    var text := Interleave([name] + args, runs);
    TokenText(name, args, runs);
    TrimSurrounded(lead, text, trail);
    AfterBang(lead, text, trail);
  }

  /** The text after the leading `!`. */
  lemma AfterBang(lead: string, text: string, trail: string)
    ensures StartsWith("!" + lead + text + trail, "!")
    ensures ("!" + lead + text + trail)[1..] == lead + text + trail
  {
    var content := "!" + lead + text + trail;
    assert content == "!" + (lead + text + trail);
    assert content[..1] == "!";
  }

  /** Whitespace-free tokens separated by space runs: the text starts and ends with a token character and splits back into the tokens. */
  lemma TokenText(name: string, args: seq<string>, runs: seq<string>)
    requires name != [] && forall c :: c in name ==> !IsJsWhitespace(c)
    requires forall k :: 0 <= k < |args| ==> args[k] != [] && forall c :: c in args[k] ==> !IsJsWhitespace(c)
    requires |runs| == |args| && SpaceRuns(runs)
    ensures var text := Interleave([name] + args, runs);
            && text != [] && !IsJsWhitespace(text[0]) && !IsJsWhitespace(text[|text| - 1])
            && SplitSpaces(text) == [name] + args
  {
    var tokens := [name] + args;
    var last := tokens[|tokens| - 1];
    assert IsJsWhitespace(' ');
    forall k | 0 <= k < |tokens| ensures tokens[k] != [] && ' ' !in tokens[k] {
      if k > 0 {
        assert tokens[k] == args[k - 1];
      }
    }
    InterleaveEnds(tokens, runs);
    assert name[0] in name;
    assert last[|last| - 1] in last by {
      if |args| > 0 {
        assert last == args[|args| - 1];
      }
    }
    SplitSpacesOfInterleave(tokens, runs);
  }

  /** A text built from non-empty pieces starts with its first piece's first character and ends with its last piece's last. */
  lemma {:induction false} InterleaveEnds(pieces: seq<string>, runs: seq<string>)
    requires |pieces| == |runs| + 1 && forall k :: 0 <= k < |pieces| ==> pieces[k] != []
    ensures Interleave(pieces, runs) != []
    ensures Interleave(pieces, runs)[0] == pieces[0][0]
    ensures Interleave(pieces, runs)[|Interleave(pieces, runs)| - 1] == pieces[|pieces| - 1][|pieces[|pieces| - 1]| - 1]
    decreases |runs|
  {
    if runs != [] {
      InterleaveEnds(pieces[1..], runs[1..]);
    }
  }

  /** Every token is non-empty and space-free, except that a bare `!` (or `!` and whitespace) yields the name `""`. */
  lemma ParsedTokens(content: string)
    requires StartsWith(content, "!")
    ensures ParseCommand(content).Some?
    ensures AllWhitespace(content[1..]) ==> ParseCommand(content) == Some(Command("", []))
    ensures !AllWhitespace(content[1..]) ==>
              && ParseCommand(content).value.name != []
              && forall k :: 0 <= k < |ParseCommand(content).value.args| ==> ParseCommand(content).value.args[k] != []
    ensures forall k :: 0 <= k < |ParseCommand(content).value.args| ==> ' ' !in ParseCommand(content).value.args[k]
  {
    var t := Trim(content[1..]);
    var parts := SplitSpaces(t);
    assert ParseCommand(content) == Some(Command(ToLower(parts[0]), parts[1..]));
    forall k | 0 <= k < |parts[1..]| ensures ' ' !in parts[1..][k] {
      assert parts[1..][k] == parts[k + 1];
    }
    if AllWhitespace(content[1..]) {
      TrimAllWhitespace(content[1..]);
      NoSpaceSplitsToItself(t);
    } else {
      assert t != [] by {
        if t == [] {
          TrimEmptyOnlyForWhitespace(content[1..]);
        }
      }
      assert IsJsWhitespace(' ');
      assert t[0] != ' ' && t[|t| - 1] != ' ';
      SplitSpacesNoEmptyPiece(t);
      forall k | 0 <= k < |parts[1..]| ensures parts[1..][k] != [] {
        assert parts[1..][k] == parts[k + 1];
      }
    }
  }

  /** Trimming leaves something whenever the text has a non-whitespace character. */
  lemma TrimEmptyOnlyForWhitespace(s: string)
    requires Trim(s) == []
    ensures AllWhitespace(s)
  {
    var a := TrimStart(s);
    var b := TrimEnd(a);
    assert a == a[|b|..];
    assert s == s[..|s| - |a|] + a;
  }

  /** A chat message as the handler sees it. */
  datatype Message = Message(guild: GuildId, author: UserId, authorIsBot: bool, content: string)

  const WaitText := "Please wait a few seconds before using this command again."

  /** How the handler ends. `Failed` is a command that threw, whose error went to `errorHandler`. */
  datatype Outcome =
    | IgnoredBot
    | RateLimited(reply: string)
    | NotACommand
    | UnknownCommand(name: string)
    | Ran(command: Command)
    | Failed(command: Command)

  /**
   * The handler's decision for a non-bot message once the limiter has answered: the wait
   * reply when limited, whatever the text; otherwise the prefix test, the lookup and the run.
   */
  function Decide(limited: bool, content: string, commands: set<string>, commandThrows: bool): Outcome {
    if limited then RateLimited(WaitText)
    else match ParseCommand(content)
      case None => NotACommand
      case Some(c) =>
        if c.name !in commands then UnknownCommand(c.name)
        else if commandThrows then Failed(c)
        else Ran(c)
  }

  /**
   * Only a registered name runs, only when the message was not limited and starts with `!`;
   * it gets the parsed command, and it fails (its error going to `errorHandler`) exactly when it throws.
   */
  lemma DecideRunsOnlyRegistered(limited: bool, content: string, commands: set<string>, commandThrows: bool)
    ensures Decide(limited, content, commands, commandThrows).Ran? || Decide(limited, content, commands, commandThrows).Failed? <==>
              && !limited
              && ParseCommand(content).Some?
              && ParseCommand(content).value.name in commands
    ensures var d := Decide(limited, content, commands, commandThrows);
            (d.Ran? || d.Failed?) ==> d.command == ParseCommand(content).value
    ensures Decide(limited, content, commands, commandThrows).Failed? <==>
              && !limited
              && ParseCommand(content).Some?
              && ParseCommand(content).value.name in commands
              && commandThrows
    ensures Decide(limited, content, commands, commandThrows) == NotACommand <==> !limited && !StartsWith(content, "!")
  {
  }

  /**
   * `execute(message, client)`. `commands` are the names in `client.commands`,
   * `commandThrows` is whether the command's `execute` rejects, and `now` is the clock
   * reading the limiter takes. Bots change nothing; every other message, with or without
   * the `!` prefix, goes through the limiter first.
   */
  method Execute(limiter: Limiter, message: Message, now: int, commands: set<string>, commandThrows: bool)
    returns (outcome: Outcome)
    modifies limiter
    ensures message.authorIsBot ==> outcome == IgnoredBot && limiter.rateLimits == old(limiter.rateLimits)
    ensures !message.authorIsBot ==>
              && limiter.rateLimits == Step(old(limiter.rateLimits), message.guild, message.author, now)
              && outcome == Decide(Limited(old(limiter.rateLimits), message.guild, message.author, now),
                                   message.content, commands, commandThrows)
  {
    if message.authorIsBot {
      return IgnoredBot;
    }
    var limited := limiter.IsRateLimited(message.guild, message.author, now);
    if limited {
      return RateLimited(WaitText);
    }
    if !StartsWith(message.content, "!") {
      return NotACommand;
    }
    var args := SplitSpaces(Trim(message.content[1..]));
    var commandName := ToLower(args[0]);
    args := args[1..];
    if commandName !in commands {
      return UnknownCommand(commandName);
    }
    if commandThrows {
      outcome := Failed(Command(commandName, args));
    } else {
      outcome := Ran(Command(commandName, args));
    }
  }
}
