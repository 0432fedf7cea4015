/**
 * The Python `str` operations the core relies on: `startswith`, `endswith`,
 * `split(sep)`, `sep.join(xs)` and `replace(target, repl)`, on `seq<char>`.
 */
module Strings {

  predicate StartsWith(s: string, p: string) {
    |p| <= |s| && s[..|p|] == p
  }

  predicate EndsWith(s: string, p: string) {
    |p| <= |s| && s[|s| - |p|..] == p
  }

  /** `t` occurs in `s` at index `i`. */
  predicate OccursAt(s: string, t: string, i: int) {
    0 <= i && i + |t| <= |s| && s[i..i + |t|] == t
  }

  /** `t` occurs nowhere in `s` (Python: `t not in s`, for non-empty `t`). */
  predicate Free(s: string, t: string) {
    forall i :: 0 <= i < |s| ==> !OccursAt(s, t, i)
  }

  /** Python `s.split(sep)` for a non-empty separator: the pieces between the leftmost non-overlapping occurrences. */
  function SplitOn(s: string, sep: string): (r: seq<string>)
    requires sep != ""
    ensures |r| >= 1
    decreases |s|
  {
    if |s| < |sep| then [s]
    else if s[..|sep|] == sep then [""] + SplitOn(s[|sep|..], sep)
    else
      var rest := SplitOn(s[1..], sep);
      [[s[0]] + rest[0]] + rest[1..]
  }

  /** The first piece of a split is a prefix of the text. */
  lemma {:induction false} SplitOnFirst(s: string, sep: string)
    requires sep != ""
    ensures |SplitOn(s, sep)[0]| <= |s| && SplitOn(s, sep)[0] == s[..|SplitOn(s, sep)[0]|]
    decreases |s|
  {
    if |s| >= |sep| && s[..|sep|] != sep {
      SplitOnFirst(s[1..], sep);
      PrefixStep(s, SplitOn(s[1..], sep)[0]);
    }
  }

  /** A prefix of the tail, with the first character in front, is a prefix of the text. */
  lemma PrefixStep(s: string, p: string)
    requires 1 <= |s| && |p| <= |s| - 1 && p == s[1..][..|p|]
    ensures s[..1 + |p|] == [s[0]] + p
  {
  }

  /** Python `sep.join(xs)`. */
  function Join(sep: string, xs: seq<string>): string {
    if |xs| == 0 then ""
    else if |xs| == 1 then xs[0]
    else xs[0] + sep + Join(sep, xs[1..])
  }

  /** Python `s.replace(target, repl)` for a non-empty target: every leftmost non-overlapping occurrence is replaced. */
  function Replace(s: string, target: string, repl: string): string
    requires target != ""
    decreases |s|
  {
    if |s| < |target| then s
    else if s[..|target|] == target then repl + Replace(s[|target|..], target, repl)
    else [s[0]] + Replace(s[1..], target, repl)
  }

  lemma JoinConsChar(sep: string, c: char, x: string, ys: seq<string>)
    ensures Join(sep, [[c] + x] + ys) == [c] + Join(sep, [x] + ys)
  {
    if ys != [] {
      assert ([[c] + x] + ys)[1..] == ys;
      assert ([x] + ys)[1..] == ys;
    }
  }

  /** Joining the pieces of a split with the same separator gives the text back. */
  lemma {:induction false} SplitJoin(s: string, sep: string)
    requires sep != ""
    ensures Join(sep, SplitOn(s, sep)) == s
    decreases |s|
  {
    if |s| < |sep| {
    } else if s[..|sep|] == sep {
      var rest := SplitOn(s[|sep|..], sep);
      SplitJoin(s[|sep|..], sep);
      assert ([""] + rest)[1..] == rest;
      assert s == sep + s[|sep|..];
    } else {
      var rest := SplitOn(s[1..], sep);
      SplitJoin(s[1..], sep);
      JoinConsChar(sep, s[0], rest[0], rest[1..]);
      assert [rest[0]] + rest[1..] == rest;
      assert s == [s[0]] + s[1..];
    }
  }

  /** No piece of a split contains the separator. */
  lemma {:induction false} SplitPiecesFree(s: string, sep: string)
    requires sep != ""
    ensures forall k :: 0 <= k < |SplitOn(s, sep)| ==> Free(SplitOn(s, sep)[k], sep)
    decreases |s|
  {
    if |s| < |sep| {
      assert Free(s, sep);
    } else if s[..|sep|] == sep {
      SplitPiecesFree(s[|sep|..], sep);
      PiecesFreeEmpty(SplitOn(s[|sep|..], sep), sep);
    } else {
      var rest := SplitOn(s[1..], sep);
      SplitPiecesFree(s[1..], sep);
      SplitOnFirst(s[1..], sep);
      var p := [s[0]] + rest[0];
      assert !OccursAt(p, sep, 0) by {
        assert p == s[..|p|];
        if |sep| <= |p| {
          assert p[..|sep|] == s[..|sep|];
        }
      }
      PiecesFreeCons(s[0], rest, sep);
    }
  }

  /** An empty piece in front of pieces free of the separator keeps them all free of it. */
  lemma PiecesFreeEmpty(u: seq<string>, sep: string)
    requires forall k :: 0 <= k < |u| ==> Free(u[k], sep)
    ensures forall k :: 0 <= k < |[""] + u| ==> Free(([""] + u)[k], sep)
  {
    forall k | 1 <= k < |[""] + u| ensures Free(([""] + u)[k], sep) {
      assert ([""] + u)[k] == u[k - 1];
    }
  }

  /** A character put in front of the first of some separator-free pieces keeps them free, unless it starts an occurrence. */
  lemma PiecesFreeCons(x: char, u: seq<string>, sep: string)
    requires |u| >= 1 && forall k :: 0 <= k < |u| ==> Free(u[k], sep)
    requires !OccursAt([x] + u[0], sep, 0)
    ensures forall k :: 0 <= k < |[[x] + u[0]] + u[1..]| ==> Free(([[x] + u[0]] + u[1..])[k], sep)
  {
    var p := [x] + u[0];
    forall i | 0 <= i < |p| ensures !OccursAt(p, sep, i) {
      if i > 0 && OccursAt(p, sep, i) {
        assert p[i..i + |sep|] == u[0][i - 1..i - 1 + |sep|];
        assert OccursAt(u[0], sep, i - 1);
      }
    }
    forall k | 1 <= k < |[p] + u[1..]| ensures Free(([p] + u[1..])[k], sep) {
      assert ([p] + u[1..])[k] == u[k];
    }
  }

  /** `replace` is `split` followed by `join` with the replacement: every occurrence of the target goes. */
  lemma {:induction false} ReplaceIsSplitJoin(s: string, target: string, repl: string)
    requires target != ""
    ensures Replace(s, target, repl) == Join(repl, SplitOn(s, target))
    decreases |s|
  {
    if |s| < |target| {
    } else if s[..|target|] == target {
      ReplaceIsSplitJoin(s[|target|..], target, repl);
      JoinConsEmpty(repl, SplitOn(s[|target|..], target));
    } else {
      var rest := SplitOn(s[1..], target);
      ReplaceIsSplitJoin(s[1..], target, repl);
      JoinConsChar(repl, s[0], rest[0], rest[1..]);
      assert [rest[0]] + rest[1..] == rest;
    }
  }

  lemma JoinConsEmpty(sep: string, rest: seq<string>)
    requires |rest| >= 1
    ensures Join(sep, [""] + rest) == sep + Join(sep, rest)
  {
    assert ([""] + rest)[1..] == rest;
  }

  /** A text without the target is left as it is by `replace`. */
  lemma {:induction false} ReplaceAbsent(s: string, target: string, repl: string)
    requires target != "" && Free(s, target)
    ensures Replace(s, target, repl) == s
    decreases |s|
  {
    if |s| >= |target| {
      assert !OccursAt(s, target, 0);
      forall i | 0 <= i < |s[1..]| ensures !OccursAt(s[1..], target, i) {
        assert !OccursAt(s, target, i + 1);
      }
      ReplaceAbsent(s[1..], target, repl);
      assert s == [s[0]] + s[1..];
    }
  }

  /** Replacing one character by another maps the text character by character. */
  lemma {:induction false} ReplaceChar(s: string, a: char, b: char)
    ensures |Replace(s, [a], [b])| == |s|
    ensures forall k :: 0 <= k < |s| ==> Replace(s, [a], [b])[k] == if s[k] == a then b else s[k]
    decreases |s|
  {
    if |s| >= 1 {
      ReplaceChar(s[1..], a, b);
      var r := Replace(s, [a], [b]);
      var t := Replace(s[1..], [a], [b]);
      if s[..1] == [a] {
        assert s[0] == a;
        assert r == [b] + t;
      } else {
        assert s[0] != a;
        assert r == [s[0]] + t;
      }
      forall k | 1 <= k < |s| ensures r[k] == if s[k] == a then b else s[k] {
        assert r[k] == t[k - 1];
        assert s[1..][k - 1] == s[k];
      }
    }
  }

  /** For a one-character separator, a text without that character is a single piece. */
  lemma {:induction false} SplitOnNoSep(a: string, c: char)
    requires c !in a
    ensures SplitOn(a, [c]) == [a]
    decreases |a|
  {
    if |a| >= 1 {
      assert a[..1] != [c] by { assert a[0] != c; }
      SplitOnNoSep(a[1..], c);
      assert a == [a[0]] + a[1..];
    }
  }

  /** Splitting a text that starts with `x` on the character `c`: an empty first piece if `x` is `c`, else `x` moves to the first piece. */
  lemma SplitOnCons(x: char, t: string, c: char)
    ensures var rest := SplitOn(t, [c]);
      SplitOn([x] + t, [c]) == if x == c then [""] + rest else [[x] + rest[0]] + rest[1..]
  {
    var s := [x] + t;
    assert s[..1] == [x] && s[1..] == t;
  }

  /** Splitting on one character distributes over a concatenation at that character. */
  lemma {:induction false} SplitOnConcat(a: string, b: string, c: char)
    ensures SplitOn(a + [c] + b, [c]) == SplitOn(a, [c]) + SplitOn(b, [c])
    decreases |a|
  {
    if a == [] {
      assert a + [c] + b == [c] + b;
      SplitOnCons(c, b, c);
    } else {
      SplitOnConcat(a[1..], b, c);
      assert a == [a[0]] + a[1..];
      SplitOnConcatStep(a[0], a[1..], b, c);
    }
  }

  /** One more leading character keeps splitting distributive over a concatenation. */
  lemma SplitOnConcatStep(x: char, t: string, b: string, c: char)
    requires SplitOn(t + [c] + b, [c]) == SplitOn(t, [c]) + SplitOn(b, [c])
    ensures SplitOn([x] + t + [c] + b, [c]) == SplitOn([x] + t, [c]) + SplitOn(b, [c])
  {
    ConcatRegroup([x], t, [c], b);
    SplitOnCons(x, t + [c] + b, c);
    SplitOnCons(x, t, c);
    PiecesCons(x == c, x, SplitOn(t, [c]), SplitOn(b, [c]));
  }

  /** Concatenation is associative. */
  lemma ConcatAssoc<T>(p: seq<T>, q: seq<T>, r: seq<T>)
    ensures p + (q + r) == p + q + r
  {
  }

  /** A non-empty sequence followed by another is its head in front of the rest of both. */
  lemma ConcatCons<T>(a: seq<T>, b: seq<T>)
    requires a != []
    ensures a + b == [a[0]] + (a[1..] + b)
  {
    assert (a + b)[1..] == a[1..] + b;
  }

  /** Concatenation regrouped: four parts joined left to right, or the last three first. */
  lemma ConcatRegroup<T>(p: seq<T>, q: seq<T>, r: seq<T>, w: seq<T>)
    ensures p + q + r + w == p + (q + r + w)
  {
  }

  /** Adding a character in front of the pieces `u` commutes with appending the pieces `y`. */
  lemma PiecesCons(sep: bool, x: char, u: seq<string>, y: seq<string>)
    requires |u| >= 1
    ensures (if sep then [""] + (u + y) else [[x] + (u + y)[0]] + (u + y)[1..])
      == (if sep then [""] + u else [[x] + u[0]] + u[1..]) + y
  {
    if sep {
      assert [""] + (u + y) == [""] + u + y;
    } else {
      assert (u + y)[0] == u[0] && (u + y)[1..] == u[1..] + y;
      assert [[x] + u[0]] + (u[1..] + y) == [[x] + u[0]] + u[1..] + y;
    }
  }

  /** For a one-character separator, splitting undoes joining pieces that do not contain it. */
  lemma {:induction false} JoinSplitChar(xs: seq<string>, c: char)
    requires xs != []
    requires forall k :: 0 <= k < |xs| ==> c !in xs[k]
    ensures SplitOn(Join([c], xs), [c]) == xs
    decreases |xs|
  {
    if |xs| == 1 {
      SplitOnNoSep(xs[0], c);
    } else {
      JoinSplitChar(xs[1..], c);
      SplitOnConcat(xs[0], Join([c], xs[1..]), c);
      SplitOnNoSep(xs[0], c);
      assert [xs[0]] + xs[1..] == xs;
    }
  }

  /** For a one-character separator, no piece of a split contains that character. */
  lemma SplitPiecesFreeChar(s: string, c: char)
    ensures forall k :: 0 <= k < |SplitOn(s, [c])| ==> c !in SplitOn(s, [c])[k]
  {
    SplitPiecesFree(s, [c]);
    forall k | 0 <= k < |SplitOn(s, [c])| ensures c !in SplitOn(s, [c])[k] {
      var p := SplitOn(s, [c])[k];
      if c in p {
        var i :| 0 <= i < |p| && p[i] == c;
        assert OccursAt(p, [c], i);
      }
    }
  }

  /** Joining one more piece appends the separator and that piece. */
  lemma {:induction false} JoinSnoc(sep: string, xs: seq<string>, y: string)
    requires xs != []
    ensures Join(sep, xs + [y]) == Join(sep, xs) + sep + y
    decreases |xs|
  {
    if |xs| > 1 {
      JoinSnoc(sep, xs[1..], y);
      assert (xs + [y])[1..] == xs[1..] + [y];
    }
  }
}
