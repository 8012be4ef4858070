/**
 * The JavaScript string operations the bot's routing, parsing and id extraction rely on:
 * `startsWith`, `includes` and `split` with a non-empty string separator, together with the
 * first-occurrence search (`indexOf`) that `split` performs at each step.
 */
module Strings {
  import opened Common

  /** `s.startsWith(prefix)` */
  predicate StartsWith(s: string, prefix: string) {
    |prefix| <= |s| && s[..|prefix|] == prefix
  }

  /** `p` occurs in `s` starting at index `i`. */
  predicate OccursAt(s: string, p: string, i: int) {
    0 <= i && i + |p| <= |s| && s[i..i + |p|] == p
  }

  /** `s.indexOf(p, from)` for a non-empty `p`, with -1 written as None: the first occurrence at or after `from`. */
  function IndexOfFrom(s: string, p: string, from: nat): (r: Option<nat>)
    requires |p| > 0
    ensures r.Some? ==> from <= r.value && OccursAt(s, p, r.value)
    ensures r.Some? ==> forall k :: from <= k < r.value ==> !OccursAt(s, p, k)
    ensures r.None? ==> forall k :: from <= k ==> !OccursAt(s, p, k)
    decreases |s| - from
  {
    if |s| < from + |p| then None
    else if OccursAt(s, p, from) then Some(from)
    else IndexOfFrom(s, p, from + 1)
  }

  /** `s.indexOf(p)` */
  function IndexOf(s: string, p: string): (r: Option<nat>)
    requires |p| > 0
    ensures r.Some? ==> OccursAt(s, p, r.value) && forall k :: 0 <= k < r.value ==> !OccursAt(s, p, k)
    ensures r.None? <==> forall k :: !OccursAt(s, p, k)
  {
    IndexOfFrom(s, p, 0)
  }

  /** `s.includes(p)`: `p` occurs somewhere in `s` (exactly when `indexOf` does not give -1). */
  predicate Includes(s: string, p: string)
    requires |p| > 0
  {
    exists i :: 0 <= i <= |s| && OccursAt(s, p, i)
  }

  /** An occurrence at `i` with none before it is what `indexOf` finds. */
  lemma IndexOfIsFirstOccurrence(s: string, p: string, i: nat)
    requires |p| > 0 && OccursAt(s, p, i)
    requires forall k :: 0 <= k < i ==> !OccursAt(s, p, k)
    ensures IndexOf(s, p) == Some(i)
  {
  }

  /** The pieces joined back with the separator between them. */
  function Join(pieces: seq<string>, sep: string): string
    requires |pieces| >= 1
  {
    if |pieces| == 1 then pieces[0] else pieces[0] + sep + Join(pieces[1..], sep)
  }

  /**
   * `s.split(sep)` for a non-empty string separator: the text before the first occurrence,
   * then the split of the text after it (the search resumes after each match).
   * Joining the pieces with `sep` gives back `s`, and no piece contains `sep`.
   */
  function Split(s: string, sep: string): (r: seq<string>)
    requires |sep| > 0
    ensures |r| >= 1
    ensures |r| == 1 <==> !Includes(s, sep)
    ensures Join(r, sep) == s
    ensures forall k :: 0 <= k < |r| ==> !Includes(r[k], sep)
    decreases |s|
  {
    match IndexOf(s, sep)
    case None => [s]
    case Some(j) =>
      var rest := Split(s[j + |sep|..], sep);
      SplitStep(s, sep, j, rest);
      [s[..j]] + rest
  }

  /** One step of `Split`: the text before the first occurrence, then the pieces of the text after it. */
  lemma SplitStep(s: string, sep: string, j: nat, rest: seq<string>)
    requires |sep| > 0 && OccursAt(s, sep, j)
    requires forall k :: 0 <= k < j ==> !OccursAt(s, sep, k)
    requires |rest| >= 1 && Join(rest, sep) == s[j + |sep|..]
    requires forall k :: 0 <= k < |rest| ==> !Includes(rest[k], sep)
    ensures |[s[..j]] + rest| >= 2 && Join([s[..j]] + rest, sep) == s
    ensures forall k :: 0 <= k < |[s[..j]] + rest| ==> !Includes(([s[..j]] + rest)[k], sep)
  {
    var r := [s[..j]] + rest;
    JoinCons(s[..j], rest, sep);
    SplitAround(s, sep, j);
    NoOccurrenceBefore(s, sep, j);
    forall k | 0 <= k < |r| ensures !Includes(r[k], sep) {
      if k > 0 {
        assert r[k] == rest[k - 1];
      }
    }
  }

  /** Joining a piece in front of at least one other piece puts one separator after it. */
  lemma JoinCons(first: string, rest: seq<string>, sep: string)
    requires |rest| >= 1
    ensures Join([first] + rest, sep) == first + sep + Join(rest, sep)
  {
    assert ([first] + rest)[1..] == rest;
  }

  /** A text is the part before an occurrence, the occurrence, and the part after it. */
  lemma SplitAround(s: string, sep: string, j: nat)
    requires OccursAt(s, sep, j)
    ensures s == s[..j] + sep + s[j + |sep|..]
  {
    assert s[j..j + |sep|] == sep;
    assert s == s[..j] + s[j..j + |sep|] + s[j + |sep|..];
  }

  /** The text before the first occurrence of `sep` does not contain `sep`. */
  lemma NoOccurrenceBefore(s: string, sep: string, j: nat)
    requires |sep| > 0 && j <= |s|
    requires forall k :: 0 <= k < j ==> !OccursAt(s, sep, k)
    ensures !Includes(s[..j], sep)
  {
    forall i ensures !OccursAt(s[..j], sep, i) {
      if 0 <= i && i + |sep| <= j {
        assert s[..j][i..i + |sep|] == s[i..i + |sep|];
        assert !OccursAt(s, sep, i);
      }
    }
  }

  /** The last piece of a split: `s.split(sep).pop()`. */
  function LastPiece(s: string, sep: string): string
    requires |sep| > 0
  {
    var ps := Split(s, sep);
    ps[|ps| - 1]
  }

  /**
   * What `pop()` returns: a piece without the separator, which is the whole text when the
   * separator is absent and otherwise follows an occurrence of it that ends the text.
   */
  lemma LastPieceAfterSeparator(s: string, sep: string)
    requires |sep| > 0
    ensures !Includes(LastPiece(s, sep), sep)
    ensures Includes(s, sep) ==> exists i :: OccursAt(s, sep, i) && s == s[..i] + sep + LastPiece(s, sep)
    ensures !Includes(s, sep) ==> LastPiece(s, sep) == s
  {
    var ps := Split(s, sep);
    if |ps| > 1 {
      JoinLast(ps, sep);
      Around(Join(ps[..|ps| - 1], sep), sep, ps[|ps| - 1], s);
    }
  }

  /** In `a + sep + b` the separator occurs right after `a`. */
  lemma Around(a: string, sep: string, b: string, s: string)
    requires s == a + sep + b
    ensures OccursAt(s, sep, |a|) && s == s[..|a|] + sep + b
  {
    assert s[..|a|] == a;
    assert s[|a|..|a| + |sep|] == sep;
  }

  /** The last piece of a join of separator-free pieces is the last of those pieces. */
  lemma LastPieceOfJoin(ps: seq<string>, sep: string)
    requires |sep| > 0 && BorderFree(sep) && |ps| >= 1
    requires forall k :: 0 <= k < |ps| ==> !Includes(ps[k], sep)
    ensures LastPiece(Join(ps, sep), sep) == ps[|ps| - 1]
  {
    SplitJoin(ps, sep);
    LastOfSplit(Join(ps, sep), sep, ps);
  }

  /** `pop()` takes the last of the split's pieces. */
  lemma LastOfSplit(s: string, sep: string, ps: seq<string>)
    requires |sep| > 0 && Split(s, sep) == ps
    ensures LastPiece(s, sep) == ps[|ps| - 1]
  {
  }

  /** Joining splits off the last piece after the last separator. */
  lemma {:induction false} JoinLast(ps: seq<string>, sep: string)
    requires |ps| >= 2
    ensures Join(ps, sep) == Join(ps[..|ps| - 1], sep) + sep + ps[|ps| - 1]
  {
    if |ps| > 2 {
      JoinLast(ps[1..], sep);
      assert ps[1..][..|ps[1..]| - 1] == ps[..|ps| - 1][1..];
    }
  }

  /** No non-empty proper prefix of `sep` is also a suffix of it, so two occurrences cannot overlap. */
  predicate BorderFree(sep: string) {
    forall k :: 0 < k < |sep| ==> sep[..k] != sep[|sep| - k..]
  }

  /**
   * `split` inverts joining: pieces that do not contain a border-free separator
   * are recovered exactly from their join.
   */
  lemma {:induction false} SplitJoin(ps: seq<string>, sep: string)
    requires |sep| > 0 && BorderFree(sep) && |ps| >= 1
    requires forall k :: 0 <= k < |ps| ==> !Includes(ps[k], sep)
    ensures Split(Join(ps, sep), sep) == ps
  {
    if |ps| == 1 {
    } else {
      var s := Join(ps, sep);
      var n := |ps[0]|;
      FirstSeparatorOfJoin(ps, sep);
      assert s[..n] == ps[0];
      assert s[n + |sep|..] == Join(ps[1..], sep);
      SplitJoin(ps[1..], sep);
      assert ps == [ps[0]] + ps[1..];
    }
  }

  /** In a join of two or more separator-free pieces, the first separator follows the first piece. */
  lemma FirstSeparatorOfJoin(ps: seq<string>, sep: string)
    requires |sep| > 0 && BorderFree(sep) && |ps| >= 2
    requires !Includes(ps[0], sep)
    ensures Join(ps, sep) == ps[0] + sep + Join(ps[1..], sep)
    ensures IndexOf(Join(ps, sep), sep) == Some(|ps[0]|)
  {
    var s := Join(ps, sep);
    var n := |ps[0]|;
    assert s[n..n + |sep|] == sep;
    forall k | 0 <= k < n ensures !OccursAt(s, sep, k) {
      if k + |sep| <= n {
        assert !OccursAt(ps[0], sep, k);
        assert ps[0][k..k + |sep|] == s[k..k + |sep|];
      } else {
        NoStraddle(s, sep, n, k);
      }
    }
    IndexOfIsFirstOccurrence(s, sep, n);
  }

  /** An occurrence of a border-free separator at `n` rules out one starting shortly before it. */
  lemma NoStraddle(s: string, sep: string, n: int, k: int)
    requires BorderFree(sep) && OccursAt(s, sep, n) && 0 <= k < n < k + |sep|
    ensures !OccursAt(s, sep, k)
  {
    var b := k + |sep| - n;
    assert s[n..k + |sep|] == sep[..b];
    if k + |sep| <= |s| {
      assert s[k..k + |sep|][|sep| - b..] == s[n..k + |sep|];
      assert sep[..b] != sep[|sep| - b..];
    }
  }
}
