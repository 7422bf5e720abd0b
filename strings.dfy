/**
 * The string built-ins the core relies on, with the semantics of JavaScript's
 * `String.prototype` and Python's `str` for a non-empty separator:
 * `indexOf`/`find`, `includes`/`in`, `split`, `join`, `replace` with a string
 * pattern (first occurrence only) and prefix slicing (`substring(0, n)`, `s[:n]`).
 */
module Strings {
  import opened Wrappers

  /** `pat` occurs in `s` starting at position `i`. */
  predicate OccursAt(s: string, pat: string, i: nat)
  {
    i + |pat| <= |s| && s[i..i + |pat|] == pat
  }

  /** The first position at or after `from` where `pat` occurs. */
  function FindFrom(s: string, pat: string, from: nat): (r: Option<nat>)
    decreases |s| - from
    ensures r.Some? ==> from <= r.value && r.value + |pat| <= |s|
  {
    if from + |pat| > |s| then None
    else if s[from..from + |pat|] == pat then Some(from)
    else FindFrom(s, pat, from + 1)
  }

  /** `FindFrom` finds the first occurrence at or after `from`, and `None` means there is none. */
  lemma {:induction false} FindFromFirst(s: string, pat: string, from: nat)
    ensures FindFrom(s, pat, from).Some? ==> OccursAt(s, pat, FindFrom(s, pat, from).value)
    ensures FindFrom(s, pat, from).Some? ==>
      forall j: nat :: from <= j < FindFrom(s, pat, from).value ==> !OccursAt(s, pat, j)
    ensures FindFrom(s, pat, from).None? ==> forall j: nat :: from <= j ==> !OccursAt(s, pat, j)
    decreases |s| - from
  {
    if from + |pat| <= |s| && s[from..from + |pat|] != pat {
      FindFromFirst(s, pat, from + 1);
    }
  }

  /** `s.indexOf(pat)` / `s.find(pat)`, with `None` for -1. */
  function IndexOf(s: string, pat: string): (r: Option<nat>)
    ensures r.Some? ==> r.value + |pat| <= |s|
  {
    FindFrom(s, pat, 0)
  }

  /** The reported position is an occurrence. */
  lemma IndexOfOccurs(s: string, pat: string)
    ensures IndexOf(s, pat).Some? ==> OccursAt(s, pat, IndexOf(s, pat).value)
  {
    FindFromFirst(s, pat, 0);
  }

  /** `indexOf` reports the first occurrence, and -1 exactly when there is none. */
  lemma IndexOfFirst(s: string, pat: string)
    ensures IndexOf(s, pat).Some? ==> OccursAt(s, pat, IndexOf(s, pat).value)
    ensures IndexOf(s, pat).Some? ==> forall j: nat :: j < IndexOf(s, pat).value ==> !OccursAt(s, pat, j)
    ensures IndexOf(s, pat).None? <==> forall j: nat :: !OccursAt(s, pat, j)
  {
    FindFromFirst(s, pat, 0);
  }

  /** `s.includes(pat)` / `pat in s`. */
  predicate Contains(s: string, pat: string)
  {
    IndexOf(s, pat).Some?
  }

  /** For a one-character pattern, containment is membership of that character. */
  lemma ContainsChar(s: string, c: char)
    ensures Contains(s, [c]) <==> c in s
  {
    IndexOfFirst(s, [c]);
    if c in s {
      var i :| 0 <= i < |s| && s[i] == c;
      assert OccursAt(s, [c], i);
    }
    if Contains(s, [c]) {
      var i := IndexOf(s, [c]).value;
      assert s[i..i + 1] == [c];
      assert s[i] == c;
    }
  }

  /** `s.split(sep)` for a non-empty separator: the pieces between the occurrences of `sep`, left to right. */
  function Split(s: string, sep: string): (parts: seq<string>)
    requires sep != []
    ensures |parts| >= 1
    decreases |s|
  {
    match IndexOf(s, sep)
    case None => [s]
    case Some(i) => [s[..i]] + Split(s[i + |sep|..], sep)
  }

  /** A split has more than one piece exactly when the separator occurs. */
  lemma SplitCount(s: string, sep: string)
    requires sep != []
    ensures Contains(s, sep) <==> |Split(s, sep)| >= 2
  {
  }

  /** `parts.join(sep)` / `sep.join(parts)`. */
  function Join(parts: seq<string>, sep: string): string
  {
    if |parts| == 0 then ""
    else if |parts| == 1 then parts[0]
    else parts[0] + sep + Join(parts[1..], sep)
  }

  /** Joining the pieces of a split restores the string. */
  lemma {:induction false} JoinSplit(s: string, sep: string)
    requires sep != []
    ensures Join(Split(s, sep), sep) == s
    decreases |s|
  {
    match IndexOf(s, sep)
    case None =>
    case Some(i) =>
      var rest := s[i + |sep|..];
      var parts := Split(s, sep);
      assert Join(parts, sep) == s[..i] + sep + Join(Split(rest, sep), sep) by {
        assert parts == [s[..i]] + Split(rest, sep);
        assert |parts| >= 2 && parts[0] == s[..i] && parts[1..] == Split(rest, sep);
      }
      JoinSplit(rest, sep);
      assert s == s[..i] + sep + rest by {
        IndexOfOccurs(s, sep);
        assert s == s[..i] + s[i..i + |sep|] + rest;
      }
  }

  /** No piece of a split contains the separator. */
  lemma {:induction false} SplitPiecesFree(s: string, sep: string, k: nat)
    requires sep != []
    requires k < |Split(s, sep)|
    ensures !Contains(Split(s, sep)[k], sep)
    decreases |s|
  {
    IndexOfFirst(s, sep);
    match IndexOf(s, sep)
    case None =>
    case Some(i) =>
      if k == 0 {
        var p := s[..i];
        IndexOfFirst(p, sep);
        if Contains(p, sep) {
          var j := IndexOf(p, sep).value;
          PrefixOccurrence(s, i, sep, j);
        }
      } else {
        SplitPiecesFree(s[i + |sep|..], sep, k - 1);
      }
  }

  /** An occurrence inside a prefix of `s` is an occurrence in `s`. */
  lemma PrefixOccurrence(s: string, i: nat, pat: string, j: nat)
    requires i <= |s| && OccursAt(s[..i], pat, j)
    ensures OccursAt(s, pat, j) && j + |pat| <= i
  {
    assert s[..i][j..j + |pat|] == s[j..j + |pat|];
  }

  /** The first piece runs up to the first occurrence of the separator. */
  lemma SplitFirst(s: string, sep: string)
    requires sep != []
    ensures IndexOf(s, sep).None? ==> Split(s, sep)[0] == s
    ensures IndexOf(s, sep).Some? ==> Split(s, sep)[0] == s[..IndexOf(s, sep).value]
  {
  }

  /** Splitting a join on a one-character separator that no part contains gives back the parts. */
  lemma {:induction false} SplitJoinChar(parts: seq<string>, c: char)
    requires |parts| >= 1
    requires forall k :: 0 <= k < |parts| ==> c !in parts[k]
    ensures Split(Join(parts, [c]), [c]) == parts
    decreases |parts|
  {
    var s := Join(parts, [c]);
    ContainsChar(parts[0], c);
    if |parts| == 1 {
      assert !Contains(s, [c]);
    } else {
      var tail := Join(parts[1..], [c]);
      assert s == parts[0] + [c] + tail;
      var n := |parts[0]|;
      IndexOfFirst(s, [c]);
      assert OccursAt(s, [c], n);
      assert IndexOf(s, [c]) == Some(n) by {
        if IndexOf(s, [c]).value < n {
          assert false;
        }
      }
      assert s[n + 1..] == tail;
      SplitJoinChar(parts[1..], c);
      assert s[..n] == parts[0];
    }
  }

  /**
   * The replacement text `String.prototype.replace` inserts for a string
   * pattern (the GetSubstitution operation of ECMA-262, without capture
   * groups): "$$" stands for "$", "$&" for the matched text, "$`" for the text
   * before the match and "$'" for the text after it. Every other character,
   * including any other '$', is kept as it is.
   */
  function Substitute(rep: string, matched: string, before: string, after: string): (r: string)
    ensures '$' !in rep ==> r == rep
    decreases |rep|
  {
    if rep == [] then []
    else if rep[0] == '$' && |rep| >= 2 && rep[1] == '$' then "$" + Substitute(rep[2..], matched, before, after)
    else if rep[0] == '$' && |rep| >= 2 && rep[1] == '&' then matched + Substitute(rep[2..], matched, before, after)
    else if rep[0] == '$' && |rep| >= 2 && rep[1] == '`' then before + Substitute(rep[2..], matched, before, after)
    else if rep[0] == '$' && |rep| >= 2 && rep[1] == '\'' then after + Substitute(rep[2..], matched, before, after)
    else [rep[0]] + Substitute(rep[1..], matched, before, after)
  }

  /** `s.replace(pat, rep)` with a string pattern: only the first occurrence is replaced. */
  function ReplaceFirst(s: string, pat: string, rep: string): (r: string)
    ensures !Contains(s, pat) ==> r == s
    ensures Contains(s, pat) && '$' !in rep ==> |r| == |s| - |pat| + |rep|
  {
    match IndexOf(s, pat)
    case None => s
    case Some(i) => s[..i] + Substitute(rep, pat, s[..i], s[i + |pat|..]) + s[i + |pat|..]
  }

  /**
   * Only the first occurrence is replaced: the text before it and after it is
   * kept, and the expanded replacement stands in between.
   */
  lemma ReplaceFirstAt(s: string, pat: string, rep: string, i: nat)
    requires OccursAt(s, pat, i) && forall j: nat :: j < i ==> !OccursAt(s, pat, j)
    ensures ReplaceFirst(s, pat, rep) == s[..i] + Substitute(rep, pat, s[..i], s[i + |pat|..]) + s[i + |pat|..]
  {
    IndexOfFirst(s, pat);
  }

  /** "$&" puts the matched text back, so replacing a pattern by "$&" changes nothing. */
  lemma ReplaceByMatch(s: string, pat: string)
    ensures ReplaceFirst(s, pat, "$&") == s
  {
    match IndexOf(s, pat)
    case None =>
    case Some(i) =>
      IndexOfOccurs(s, pat);
      var before, after := s[..i], s[i + |pat|..];
      assert "$&"[2..] == [];
      assert Substitute("$&", pat, before, after) == pat + Substitute([], pat, before, after);
      assert s[i..i + |pat|] == pat;
      assert before + pat + after == s;
  }

  /** A replacement without '$' appears in the result where the first occurrence of the pattern was. */
  lemma ReplaceShowsReplacement(s: string, pat: string, rep: string)
    requires Contains(s, pat) && '$' !in rep
    ensures OccursAt(ReplaceFirst(s, pat, rep), rep, IndexOf(s, pat).value)
  {
    var i := IndexOf(s, pat).value;
    OccursBetween(s[..i], rep, s[i + |pat|..]);
  }

  /** A pattern occurs in `s` exactly when `s` contains it. */
  lemma OccursContains(s: string, pat: string, i: nat)
    requires OccursAt(s, pat, i)
    ensures Contains(s, pat)
  {
    IndexOfFirst(s, pat);
  }

  /** With a one-character pattern, only the first occurrence changes, and the length is kept. */
  lemma ReplaceFirstChar(s: string, c: char, d: char)
    ensures |ReplaceFirst(s, [c], [d])| == |s|
    ensures forall k :: 0 <= k < |s| ==>
      ReplaceFirst(s, [c], [d])[k] == (if IndexOf(s, [c]) == Some(k) then d else s[k])
  {
  }

  /** Joining a concatenation of two non-empty lists puts one separator between their joins. */
  lemma {:induction false} JoinAppend(a: seq<string>, b: seq<string>, sep: string)
    requires |a| >= 1 && |b| >= 1
    ensures Join(a + b, sep) == Join(a, sep) + sep + Join(b, sep)
    decreases |a|
  {
    if |a| == 1 {
      assert (a + b)[1..] == b;
    } else {
      assert (a + b)[1..] == a[1..] + b;
      JoinAppend(a[1..], b, sep);
      Associative(a[0] + sep, Join(a[1..], sep), sep + Join(b, sep));
      Associative(a[0] + sep + Join(a[1..], sep), sep, Join(b, sep));
      Associative(Join(a[1..], sep), sep, Join(b, sep));
    }
  }

  /** What a join holds before the part at `i`. */
  function JoinBefore(x: seq<string>, i: nat, sep: string): string
    requires i <= |x|
  {
    if i == 0 then "" else Join(x[..i], sep) + sep
  }

  /** What a join holds after the part at `i`. */
  function JoinAfter(x: seq<string>, i: nat, sep: string): string
    requires i < |x|
  {
    if i + 1 == |x| then "" else sep + Join(x[i + 1..], sep)
  }

  /** A join is the text before part `i`, part `i`, and the text after it. */
  lemma JoinAround(x: seq<string>, i: nat, sep: string)
    requires i < |x|
    ensures Join(x, sep) == JoinBefore(x, i, sep) + x[i] + JoinAfter(x, i, sep)
  {
    var rest := x[i..];
    assert rest[1..] == x[i + 1..];
    assert Join(rest, sep) == x[i] + JoinAfter(x, i, sep);
    if i > 0 {
      assert x == x[..i] + rest;
      JoinAppend(x[..i], rest, sep);
      Associative(Join(x[..i], sep) + sep, x[i], JoinAfter(x, i, sep));
    } else {
      assert x == rest;
    }
  }

  /** Replacing one part by a different one changes the join. */
  lemma JoinReplaceChanges(x: seq<string>, i: nat, v: string, sep: string)
    requires i < |x|
    ensures Join(x[i := v], sep) == Join(x, sep) ==> v == x[i]
  {
    var y := x[i := v];
    assert y[..i] == x[..i];
    assert i + 1 < |x| ==> y[i + 1..] == x[i + 1..];
    JoinAround(x, i, sep);
    JoinAround(y, i, sep);
    var pre, post := JoinBefore(x, i, sep), JoinAfter(x, i, sep);
    assert JoinBefore(y, i, sep) == pre && JoinAfter(y, i, sep) == post;
    if Join(y, sep) == Join(x, sep) {
      var n := |pre|;
      assert (pre + v + post)[n..n + |v|] == v;
      assert (pre + x[i] + post)[n..n + |x[i]|] == x[i];
    }
  }

  /** `b` occurs in `a + b + c` right after `a`. */
  lemma OccursBetween(a: string, b: string, c: string)
    ensures OccursAt(a + b + c, b, |a|)
  {
    assert (a + b + c)[|a|..|a| + |b|] == b;
  }

  /** Concatenation is associative (stated once, so that proofs can cite it instead of re-deriving it). */
  lemma Associative<T>(a: seq<T>, b: seq<T>, c: seq<T>)
    ensures (a + b) + c == a + (b + c)
  {
  }

  /** `s.substring(0, n)` / `s[:n]`: the longest prefix of `s` of length at most `n`. */
  function Take<T>(s: seq<T>, n: nat): (r: seq<T>)
    ensures |r| <= n && r <= s
    ensures |s| <= n ==> r == s
    ensures |s| > n ==> |r| == n
  {
    if |s| <= n then s else s[..n]
  }
}
