/**
 * dbgoat/admin.py, `MySQLDBAdmin.transformDump` and its inner `hasPattern`:
 * validating that a SQL dump creates exactly one database, extracting the
 * database name from its first `USE` statement, optionally renaming it
 * throughout, and dropping the database-lifecycle statements line by line.
 *
 * Each regular expression of the source is written out as a scanner over the
 * text; lines are separated by `\n` only.
 */
module Dump {
  import opened Wrappers
  import opened Values
  import opened Strings

  const MultipleDatabases := "The file is creating multiple databases"
  const NoCreateStatement := "The file does not contain the CREATE DATABASE statement"
  const NoUseStatement := "The file does not contain the USE statement"

  /** The first index at or after `j` that holds one of `stops`, or the end of the text. */
  function ScanUntil(s: string, j: nat, stops: set<char>): (k: nat)
    requires j <= |s|
    ensures j <= k <= |s|
    decreases |s| - j
  {
    if j == |s| || s[j] in stops then j else ScanUntil(s, j + 1, stops)
  }

  /** The scan passes only characters outside `stops`, and ends on one of them unless it reaches the end. */
  lemma {:induction false} ScanUntilSpec(s: string, j: nat, stops: set<char>)
    requires j <= |s|
    ensures forall m :: j <= m < ScanUntil(s, j, stops) ==> s[m] !in stops
    ensures ScanUntil(s, j, stops) < |s| ==> s[ScanUntil(s, j, stops)] in stops
    decreases |s| - j
  {
    if j < |s| && s[j] !in stops {
      ScanUntilSpec(s, j + 1, stops);
    }
  }

  /** The scan stops exactly at the first stop character. */
  lemma {:induction false} ScanUntilAt(s: string, j: nat, stops: set<char>, k: nat)
    requires j <= k < |s| && s[k] in stops
    requires forall m :: j <= m < k ==> s[m] !in stops
    ensures ScanUntil(s, j, stops) == k
    decreases k - j
  {
    if j < k {
      ScanUntilAt(s, j + 1, stops, k);
    }
  }

  // ---------------------------------------------------------------------------
  // CREATE (?:SCHEMA|DATABASE) [^;\n]+;\n

  const CreateSchema := "CREATE SCHEMA "
  const CreateDatabase := "CREATE DATABASE "
  const LineStops: set<char> := {';', '\n'}

  /** `t` is `prefix`, then a non-empty run without `;` or a line break, then `;\n`. */
  predicate Framed(t: string, prefix: string) {
    && |t| > |prefix| + 2
    && t[..|prefix|] == prefix
    && t[|t| - 2..] == ";\n"
    && forall m :: |prefix| <= m < |t| - 2 ==> t[m] !in LineStops
  }

  /** `t` is a whole match of the CREATE pattern the dump must contain once. */
  predicate IsCreateStatement(t: string) {
    Framed(t, CreateSchema) || Framed(t, CreateDatabase)
  }

  /** Where `prefix`, a non-empty run without `;` or a line break, and `;\n`, read from `i`, end, if they do. */
  function FramedMatchAt(s: string, i: nat, prefix: string): (r: Option<nat>)
    requires i <= |s|
    ensures r.Some? ==> i < r.value <= |s|
  {
    if !StartsWith(s[i..], prefix) then None
    else
      var k := ScanUntil(s, i + |prefix|, LineStops);
      if i + |prefix| < k && k + 1 < |s| && s[k] == ';' && s[k + 1] == '\n' then Some(k + 2) else None
  }

  /** Where a match of the CREATE pattern that starts at `i` ends, if one does. */
  function CreateMatchAt(s: string, i: nat): (r: Option<nat>)
    requires i <= |s|
    ensures r.Some? ==> i < r.value <= |s|
  {
    FramedMatchAt(s, i, CreatePrefixAt(s, i))
  }

  /** The alternative of the CREATE pattern the text at `i` can start with: `SCHEMA` if it can, `DATABASE` otherwise. */
  function CreatePrefixAt(s: string, i: nat): string
    requires i <= |s|
  {
    if StartsWith(s[i..], CreateSchema) then CreateSchema else CreateDatabase
  }

  /** A reported frame is one. */
  lemma FramedMatchSound(s: string, i: nat, prefix: string)
    requires i <= |s| && FramedMatchAt(s, i, prefix).Some?
    ensures Framed(s[i..FramedMatchAt(s, i, prefix).value], prefix)
  {
    var e := FramedMatchAt(s, i, prefix).value;
    ScanUntilSpec(s, i + |prefix|, LineStops);
    var t := s[i..e];
    assert t[..|prefix|] == s[i..][..|prefix|];
    assert t[|t| - 2..] == [s[e - 2], s[e - 1]];
    forall m | |prefix| <= m < |t| - 2 ensures t[m] !in LineStops {
      assert t[m] == s[i + m];
    }
  }

  /** A frame at `i` is reported, with its exact extent. */
  lemma FramedMatchComplete(s: string, i: nat, e: nat, prefix: string)
    requires i <= e <= |s| && Framed(s[i..e], prefix)
    ensures FramedMatchAt(s, i, prefix) == Some(e)
  {
    var t := s[i..e];
    assert s[i..][..|prefix|] == t[..|prefix|];
    forall m | i + |prefix| <= m < e - 2 ensures s[m] !in LineStops {
      assert s[m] == t[m - i];
    }
    assert s[e - 2] == t[|t| - 2..][0];
    assert s[e - 1] == t[|t| - 2..][1];
    ScanUntilAt(s, i + |prefix|, LineStops, e - 2);
  }

  /** What a reported frame says about the text, position by position. */
  lemma FramedMatchFacts(s: string, i: nat, prefix: string)
    requires i <= |s| && FramedMatchAt(s, i, prefix).Some?
    ensures var e := FramedMatchAt(s, i, prefix).value;
      && i + |prefix| + 3 <= e <= |s|
      && (forall m :: i <= m < i + |prefix| ==> s[m] == prefix[m - i])
      && s[e - 2] == ';' && s[e - 1] == '\n'
      && forall m :: i + |prefix| <= m < e - 2 ==> s[m] !in LineStops
  {
    ScanUntilSpec(s, i + |prefix|, LineStops);
    forall m | i <= m < i + |prefix| ensures s[m] == prefix[m - i] {
      assert s[m] == s[i..][..|prefix|][m - i];
    }
  }

  /** Neither CREATE alternative holds `;` or a line break. */
  lemma CreatePrefixesPlain()
    ensures forall k :: 0 <= k < |CreateSchema| ==> CreateSchema[k] != ';' && CreateSchema[k] != '\n'
    ensures forall k :: 0 <= k < |CreateDatabase| ==> CreateDatabase[k] != ';' && CreateDatabase[k] != '\n'
  {
  }

  /** Every match the scanner reports is a whole CREATE statement. */
  lemma CreateMatchSound(s: string, i: nat)
    requires i <= |s| && CreateMatchAt(s, i).Some?
    ensures IsCreateStatement(s[i..CreateMatchAt(s, i).value])
  {
    FramedMatchSound(s, i, CreatePrefixAt(s, i));
  }

  /** Every CREATE statement at `i` is found by the scanner, with its exact extent. */
  lemma CreateMatchComplete(s: string, i: nat, e: nat)
    requires i <= e <= |s| && IsCreateStatement(s[i..e])
    ensures CreateMatchAt(s, i) == Some(e)
  {
    var t := s[i..e];
    if Framed(t, CreateSchema) {
      assert s[i..][..|CreateSchema|] == t[..|CreateSchema|];
      FramedMatchComplete(s, i, e, CreateSchema);
    } else {
      assert Framed(t, CreateDatabase);
      assert CreatePrefixAt(s, i) == CreateDatabase by {
        assert s[i..][7] == t[..16][7] == CreateDatabase[7];
        assert CreateSchema[7] == 'S' && CreateDatabase[7] == 'D';
      }
      FramedMatchComplete(s, i, e, CreateDatabase);
    }
  }

  /** What a CREATE match at `i` ending at `e` says about the text, position by position. */
  lemma CreateMatchFacts(s: string, i: nat)
    requires i <= |s| && CreateMatchAt(s, i).Some?
    ensures var e := CreateMatchAt(s, i).value;
      && i + 3 <= e <= |s|
      && s[i] == 'C'
      && s[e - 2] == ';' && s[e - 1] == '\n'
      && forall m :: i <= m < e - 2 ==> s[m] !in LineStops
  {
    var p := CreatePrefixAt(s, i);
    FramedMatchFacts(s, i, p);
    CreatePrefixesPlain();
    assert p[0] == 'C';
    var e := CreateMatchAt(s, i).value;
    forall m | i <= m < e - 2 ensures s[m] !in LineStops {
      if m < i + |p| {
        assert s[m] == p[m - i];
      }
    }
  }

  /** The number of matches `re.findall` reports from position `i`: leftmost first, never overlapping. */
  function CountCreateFrom(s: string, i: nat): nat
    requires i <= |s|
    decreases |s| - i
  {
    match CreateMatchAt(s, i)
    case Some(e) => 1 + CountCreateFrom(s, e)
    case None => if i == |s| then 0 else CountCreateFrom(s, i + 1)
  }

  function CountCreate(s: string): nat {
    CountCreateFrom(s, 0)
  }

  predicate CreateAt(s: string, i: nat) {
    i <= |s| && CreateMatchAt(s, i).Some?
  }

  /** No match is counted exactly when no CREATE statement starts anywhere. */
  lemma {:induction false} CountCreateZero(s: string, i: nat)
    requires i <= |s|
    ensures CountCreateFrom(s, i) == 0 <==> forall m :: i <= m <= |s| ==> !CreateAt(s, m)
    decreases |s| - i
  {
    if CreateMatchAt(s, i).None? {
      if i < |s| {
        CountCreateZero(s, i + 1);
        assert CountCreateFrom(s, i) == CountCreateFrom(s, i + 1);
        assert (forall m :: i <= m <= |s| ==> !CreateAt(s, m)) <==> (forall m :: i + 1 <= m <= |s| ==> !CreateAt(s, m));
      }
    } else {
      assert CreateAt(s, i);
    }
  }

  /** A match that starts inside another one ends where that one ends. */
  lemma CreateOverlap(s: string, x: nat, y: nat)
    requires CreateAt(s, x) && CreateAt(s, y)
    requires x < y < CreateMatchAt(s, x).value
    ensures CreateMatchAt(s, y).value == CreateMatchAt(s, x).value
  {
    CreateMatchFacts(s, x);
    CreateMatchFacts(s, y);
    FramesOverlap(s, x, CreateMatchAt(s, x).value, y, CreateMatchAt(s, y).value);
  }

  /** Two runs free of `;` and line breaks, each ended by `;\n`, where the second starts with `C` inside the first, end together. */
  lemma FramesOverlap(s: string, x: nat, e: nat, y: nat, f: nat)
    requires x < y < e <= |s| && y + 3 <= f <= |s| && s[y] == 'C'
    requires s[e - 2] == ';' && s[e - 1] == '\n' && s[f - 2] == ';'
    requires forall m :: x <= m < e - 2 ==> s[m] !in LineStops
    requires forall m :: y <= m < f - 2 ==> s[m] !in LineStops
    ensures f == e
  {
    assert y < e - 2;
    assert e - 2 <= f - 2 by {
      assert s[f - 2] in LineStops;
    }
    assert f - 2 <= e - 2 by {
      assert s[e - 2] in LineStops;
    }
  }

  /** A CREATE statement at `a` is counted, together with everything counted after it. */
  lemma {:induction false} CountCreateAtLeast(s: string, i: nat, a: nat)
    requires i <= a && CreateAt(s, a)
    ensures CountCreateFrom(s, i) >= 1 + CountCreateFrom(s, CreateMatchAt(s, a).value)
    decreases a - i
  {
    if i < a {
      match CreateMatchAt(s, i)
      case Some(e) =>
        if e <= a {
          CountCreateAtLeast(s, e, a);
        } else {
          CreateOverlap(s, i, a);
        }
      case None =>
        CountCreateAtLeast(s, i + 1, a);
    }
  }

  /** A positive count from `i` comes from a first statement at or after `i`. */
  lemma {:induction false} CountCreateFirst(s: string, i: nat) returns (a: nat)
    requires i <= |s| && CountCreateFrom(s, i) >= 1
    ensures i <= a && CreateAt(s, a)
    ensures CountCreateFrom(s, i) == 1 + CountCreateFrom(s, CreateMatchAt(s, a).value)
    decreases |s| - i
  {
    if CreateAt(s, i) {
      a := i;
    } else {
      a := CountCreateFirst(s, i + 1);
    }
  }

  /** The text holds two CREATE statements, the second starting after the first ends. */
  ghost predicate TwoCreates(s: string) {
    exists a: nat, b: nat :: CreateAt(s, a) && CreateAt(s, b) && CreateMatchAt(s, a).value <= b
  }

  /** More than one match is counted exactly when two non-overlapping CREATE statements exist. */
  lemma CountCreateMultiple(s: string)
    ensures CountCreate(s) >= 2 <==> TwoCreates(s)
  {
    if CountCreate(s) >= 2 {
      var a := CountCreateFirst(s, 0);
      var b := CountCreateFirst(s, CreateMatchAt(s, a).value);
      assert CreateAt(s, a) && CreateAt(s, b) && CreateMatchAt(s, a).value <= b;
    }
    if exists a: nat, b: nat :: CreateAt(s, a) && CreateAt(s, b) && CreateMatchAt(s, a).value <= b {
      var a: nat, b: nat :| CreateAt(s, a) && CreateAt(s, b) && CreateMatchAt(s, a).value <= b;
      CountCreateAtLeast(s, 0, a);
      CountCreateAtLeast(s, CreateMatchAt(s, a).value, b);
    }
  }

  // ---------------------------------------------------------------------------
  // USE (?P<backtick>`?)([^`;\n]+)(?P=backtick);\n

  const NameStops: set<char> := {'`', ';', '\n'}

  /** A database name the USE pattern can capture: non-empty, without backticks, `;` or line breaks. */
  predicate IsName(n: string) {
    n != "" && forall m :: 0 <= m < |n| ==> n[m] !in NameStops
  }

  /** At `i` the text holds `USE name;\n` or `` USE `name`;\n ``. */
  predicate UseStatementAt(s: string, i: nat, n: string) {
    && i <= |s|
    && IsName(n)
    && (StartsWith(s[i..], "USE " + n + ";\n") || StartsWith(s[i..], "USE `" + n + "`;\n"))
  }

  /** The name the USE pattern captures at `i`, if it matches there. */
  function UseMatchAt(s: string, i: nat): (r: Option<string>)
    requires i <= |s|
  {
    if !StartsWith(s[i..], "USE ") then None
    else
      var j := i + 4;
      var quoted := j < |s| && s[j] == '`';
      var start := if quoted then j + 1 else j;
      var k := ScanUntil(s, start, NameStops);
      var close := if quoted then "`;\n" else ";\n";
      if start < k && StartsWith(s[k..], close) then Some(s[start..k]) else None
  }

  /** Every name the USE scanner captures comes from a USE statement for that name. */
  lemma UseMatchSound(s: string, i: nat)
    requires i <= |s| && UseMatchAt(s, i).Some?
    ensures UseStatementAt(s, i, UseMatchAt(s, i).value)
  {
    var n := UseMatchAt(s, i).value;
    var j := i + 4;
    var quoted := j < |s| && s[j] == '`';
    var start := if quoted then j + 1 else j;
    var k := ScanUntil(s, start, NameStops);
    ScanUntilSpec(s, start, NameStops);
    assert n == s[start..k];
    forall m | 0 <= m < |n| ensures n[m] !in NameStops {
      assert n[m] == s[start + m];
    }
    if quoted {
      UseQuotedShape(s, i, k);
    } else {
      UsePlainShape(s, i, k);
    }
  }

  lemma UsePlainShape(s: string, i: nat, k: nat)
    requires i + 4 <= k <= |s| && StartsWith(s[i..], "USE ") && StartsWith(s[k..], ";\n")
    ensures StartsWith(s[i..], "USE " + s[i + 4..k] + ";\n")
  {
    assert s[i..][..k + 2 - i] == s[i..i + 4] + s[i + 4..k] + s[k..][..2];
  }

  lemma UseQuotedShape(s: string, i: nat, k: nat)
    requires i + 5 <= k <= |s| && StartsWith(s[i..], "USE ") && s[i + 4] == '`' && StartsWith(s[k..], "`;\n")
    ensures StartsWith(s[i..], "USE `" + s[i + 5..k] + "`;\n")
  {
    assert s[i..][..k + 3 - i] == s[i..i + 4] + [s[i + 4]] + s[i + 5..k] + s[k..][..3];
  }

  /** A plain `USE name;\n` is captured with its name. */
  lemma UseMatchPlain(s: string, i: nat, n: string)
    requires i <= |s| && IsName(n) && StartsWith(s[i..], "USE " + n + ";\n")
    ensures UseMatchAt(s, i) == Some(n)
  {
    var t := "USE " + n + ";\n";
    var j := i + 4;
    var k := j + |n|;
    assert s[i..i + |t|] == t;
    assert s[i..][..4] == t[..4];
    assert s[j] == t[4] == n[0];
    forall m | j <= m < k ensures s[m] !in NameStops {
      assert s[m] == t[m - i] == n[m - j];
    }
    assert s[k] == t[k - i] == ';';
    ScanUntilAt(s, j, NameStops, k);
    assert s[j..k] == t[4..4 + |n|] == n;
    assert s[k..][..2] == t[k - i..] == ";\n";
  }

  /** A quoted `` USE `name`;\n `` is captured with its name, without the backticks. */
  lemma UseMatchQuoted(s: string, i: nat, n: string)
    requires i <= |s| && IsName(n) && StartsWith(s[i..], "USE `" + n + "`;\n")
    ensures UseMatchAt(s, i) == Some(n)
  {
    var j := i + 4;
    var k := j + 1 + |n|;
    assert "USE `" + n + "`;\n" == "USE " + ("`" + (n + "`;\n"));
    StartsWithSplit(s, i, "USE ", "`" + (n + "`;\n"));
    StartsWithSplit(s, j, "`", n + "`;\n");
    StartsWithSplit(s, j + 1, n, "`;\n");
    assert s[j] == s[j..][..1][0];
    assert s[j + 1..k] == s[j + 1..][..|n|] == n;
    forall m | j + 1 <= m < k ensures s[m] !in NameStops {
      assert s[m] == n[m - j - 1];
    }
    assert s[k] == s[k..][..3][0];
    ScanUntilAt(s, j + 1, NameStops, k);
  }

  /** Text starting with `a + b` starts with `a`, and continues with `b` right after it. */
  lemma StartsWithSplit(s: string, i: nat, a: string, b: string)
    requires i <= |s| && StartsWith(s[i..], a + b)
    ensures StartsWith(s[i..], a) && i + |a| <= |s| && StartsWith(s[i + |a|..], b)
  {
    assert s[i..][..|a|] == (a + b)[..|a|] == a;
    assert s[i + |a|..][..|b|] == s[i..][..|a| + |b|][|a|..] == (a + b)[|a|..] == b;
  }

  /** The USE scanner captures `n` at `i` exactly when a (balanced) USE statement for `n` is there. */
  lemma UseMatchIff(s: string, i: nat, n: string)
    requires i <= |s|
    ensures UseMatchAt(s, i) == Some(n) <==> UseStatementAt(s, i, n)
  {
    if UseMatchAt(s, i) == Some(n) {
      UseMatchSound(s, i);
    }
    if UseStatementAt(s, i, n) {
      if StartsWith(s[i..], "USE " + n + ";\n") {
        UseMatchPlain(s, i, n);
      } else {
        UseMatchQuoted(s, i, n);
      }
    }
  }

  /** The first USE match at or after `i`: its position and captured name (`matches[0][-1]`). */
  function FirstUse(s: string, i: nat): (r: Option<(nat, string)>)
    requires i <= |s|
    ensures r.Some? ==> i <= r.value.0 <= |s| && UseMatchAt(s, r.value.0) == Some(r.value.1)
    ensures r.Some? ==> forall m :: i <= m < r.value.0 ==> UseMatchAt(s, m).None?
    ensures r.None? ==> forall m :: i <= m <= |s| ==> UseMatchAt(s, m).None?
    decreases |s| - i
  {
    match UseMatchAt(s, i)
    case Some(n) => Some((i, n))
    case None => if i == |s| then None else FirstUse(s, i + 1)
  }

  // ---------------------------------------------------------------------------
  // hasPattern: the three patterns searched anywhere in a line

  const DropPrefixes := ["DROP DATABASE IF EXISTS ", "DROP SCHEMA IF EXISTS "]
  const CreatePrefixes := ["CREATE DATABASE ", "CREATE SCHEMA "]
  const UsePrefixes := ["USE "]

  /** At `i` the line holds one of `prefixes`, then a non-empty run without `;`, then `;` (`<prefix>[^;]+;`). */
  predicate TerminatedAt(line: string, i: nat, prefixes: seq<string>) {
    exists p :: p in prefixes && TerminatedAfter(line, i, p)
  }

  predicate TerminatedAfter(line: string, i: nat, p: string) {
    var j := i + |p|;
    j < |line| && line[i..j] == p && line[j] != ';' && ';' in line[j + 1..]
  }

  /** `re.search`: the leftmost position at or after `i` where the pattern matches. */
  function Search(line: string, i: nat, prefixes: seq<string>): Option<nat>
    requires i <= |line|
    decreases |line| - i
  {
    if TerminatedAt(line, i, prefixes) then Some(i)
    else if i == |line| then None
    else Search(line, i + 1, prefixes)
  }

  /** The search reports the leftmost match at or after `i`, and reports none only when no position matches. */
  lemma {:induction false} SearchSpec(line: string, i: nat, prefixes: seq<string>)
    requires i <= |line|
    ensures var r := Search(line, i, prefixes);
      r.Some? ==> i <= r.value <= |line| && TerminatedAt(line, r.value, prefixes)
    ensures var r := Search(line, i, prefixes);
      r.Some? ==> forall m :: i <= m < r.value ==> !TerminatedAt(line, m, prefixes)
    ensures Search(line, i, prefixes).None? ==> forall m :: i <= m <= |line| ==> !TerminatedAt(line, m, prefixes)
    decreases |line| - i
  {
    if !TerminatedAt(line, i, prefixes) && i < |line| {
      SearchSpec(line, i + 1, prefixes);
    }
  }

  /** `hasPattern(line)`: DROP ... IF EXISTS, CREATE DATABASE/SCHEMA or USE, each followed by `[^;]+;`. */
  predicate HasPattern(line: string) {
    Search(line, 0, DropPrefixes).Some? || Search(line, 0, CreatePrefixes).Some? || Search(line, 0, UsePrefixes).Some?
  }

  /** A lifecycle statement starts at `i` of the line. */
  predicate LifecycleAt(line: string, i: nat) {
    TerminatedAt(line, i, DropPrefixes) || TerminatedAt(line, i, CreatePrefixes) || TerminatedAt(line, i, UsePrefixes)
  }

  /** `hasPattern` holds exactly when a lifecycle statement starts somewhere in the line. */
  lemma HasPatternIff(line: string)
    ensures HasPattern(line) <==> exists i: nat :: i <= |line| && LifecycleAt(line, i)
  {
    var drop := Search(line, 0, DropPrefixes);
    var create := Search(line, 0, CreatePrefixes);
    var use := Search(line, 0, UsePrefixes);
    SearchSpec(line, 0, DropPrefixes);
    SearchSpec(line, 0, CreatePrefixes);
    SearchSpec(line, 0, UsePrefixes);
    if drop.Some? {
      assert LifecycleAt(line, drop.value);
    } else if create.Some? {
      assert LifecycleAt(line, create.value);
    } else if use.Some? {
      assert LifecycleAt(line, use.value);
    }
    if exists i: nat :: i <= |line| && LifecycleAt(line, i) {
      var i: nat :| i <= |line| && LifecycleAt(line, i);
      assert TerminatedAt(line, i, DropPrefixes) || TerminatedAt(line, i, CreatePrefixes) || TerminatedAt(line, i, UsePrefixes);
    }
  }

  // ---------------------------------------------------------------------------
  // Lines

  /** `splitlines()` for text whose only line break is `\n`: no piece after a final line break. */
  function SplitLines(t: string): seq<string> {
    var ps := SplitOn(t, "\n");
    if ps[|ps| - 1] == "" then ps[..|ps| - 1] else ps
  }

  /** `[line for line in lines if not hasPattern(line)]`. */
  function KeepLines(lines: seq<string>): seq<string>
    decreases |lines|
  {
    if lines == [] then []
    else (if HasPattern(lines[0]) then [] else [lines[0]]) + KeepLines(lines[1..])
  }

  /** `'\n'.join(...)` of the surviving lines. */
  function StripLifecycle(t: string): string {
    Join("\n", KeepLines(SplitLines(t)))
  }

  /** `splitlines()` and `'\n'.join` are inverse up to a final line break. */
  lemma SplitLinesJoin(t: string)
    ensures Join("\n", SplitLines(t)) + (if EndsWith(t, "\n") then "\n" else "") == t
  {
    var ps := SplitOn(t, "\n");
    var n := |ps|;
    SplitJoin(t, "\n");
    SplitPiecesFreeChar(t, '\n');
    if n > 1 {
      JoinSnoc("\n", ps[..n - 1], ps[n - 1]);
      assert ps[..n - 1] + [ps[n - 1]] == ps;
    }
  }

  /** No line contains a line break. */
  lemma SplitLinesFree(t: string)
    ensures forall k :: 0 <= k < |SplitLines(t)| ==> '\n' !in SplitLines(t)[k]
  {
    SplitPiecesFreeChar(t, '\n');
  }

  /** The filter keeps exactly the lines without a lifecycle statement. */
  lemma {:induction false} KeepLinesSpec(lines: seq<string>)
    ensures forall k :: 0 <= k < |KeepLines(lines)| ==> KeepLines(lines)[k] in lines && !HasPattern(KeepLines(lines)[k])
    ensures forall k :: 0 <= k < |lines| && !HasPattern(lines[k]) ==> lines[k] in KeepLines(lines)
    decreases |lines|
  {
    if lines != [] {
      KeepLinesSpec(lines[1..]);
      assert forall k :: 1 <= k < |lines| ==> lines[k] == lines[1..][k - 1];
    }
  }

  /** The filter distributes over concatenation, so it works line by line and keeps their order. */
  lemma {:induction false} KeepLinesConcat(a: seq<string>, b: seq<string>)
    ensures KeepLines(a + b) == KeepLines(a) + KeepLines(b)
    decreases |a|
  {
    if a == [] {
      assert a + b == b;
    } else {
      KeepLinesConcat(a[1..], b);
      var kept := if HasPattern(a[0]) then [] else [a[0]];
      assert (a + b)[0] == a[0] && (a + b)[1..] == a[1..] + b;
      assert KeepLines(a + b) == kept + KeepLines(a[1..] + b);
      assert KeepLines(a) == kept + KeepLines(a[1..]);
    }
  }

  /** Lines that are all clean pass the filter unchanged. */
  lemma {:induction false} KeepLinesClean(lines: seq<string>)
    requires forall k :: 0 <= k < |lines| ==> !HasPattern(lines[k])
    ensures KeepLines(lines) == lines
    decreases |lines|
  {
    if lines != [] {
      KeepLinesClean(lines[1..]);
    }
  }

  /** Filtering twice is filtering once. */
  lemma KeepLinesIdempotent(lines: seq<string>)
    ensures KeepLines(KeepLines(lines)) == KeepLines(lines)
  {
    KeepLinesSpec(lines);
    KeepLinesClean(KeepLines(lines));
  }

  /** A line without `;` never holds a lifecycle statement. */
  lemma NoSemicolonClean(line: string)
    requires ';' !in line
    ensures !HasPattern(line)
  {
    HasPatternIff(line);
  }

  /** Every line of the stripped text is clean, and they are the kept lines of the input. */
  lemma StripLifecycleLines(t: string)
    ensures KeepLines(SplitLines(t)) != [] ==> SplitOn(StripLifecycle(t), "\n") == KeepLines(SplitLines(t))
    ensures forall k :: 0 <= k < |SplitOn(StripLifecycle(t), "\n")| ==> !HasPattern(SplitOn(StripLifecycle(t), "\n")[k])
  {
    var kept := KeepLines(SplitLines(t));
    KeepLinesSpec(SplitLines(t));
    if kept == [] {
      assert SplitOn("", "\n") == [""];
      NoSemicolonClean("");
    } else {
      SplitLinesFree(t);
      forall k | 0 <= k < |kept| ensures '\n' !in kept[k] {
        var j :| 0 <= j < |SplitLines(t)| && SplitLines(t)[j] == kept[k];
      }
      JoinSplitChar(kept, '\n');
    }
  }

  /** Stripping again changes nothing when the last kept line is not empty. */
  lemma StripLifecycleIdempotent(t: string)
    requires var kept := KeepLines(SplitLines(t)); kept == [] || kept[|kept| - 1] != ""
    ensures StripLifecycle(StripLifecycle(t)) == StripLifecycle(t)
  {
    StripSplitLines(t);
    KeepLinesIdempotent(SplitLines(t));
  }

  /** The stripped text splits back into the kept lines when the last of them is not empty. */
  lemma StripSplitLines(t: string)
    requires var kept := KeepLines(SplitLines(t)); kept == [] || kept[|kept| - 1] != ""
    ensures SplitLines(StripLifecycle(t)) == KeepLines(SplitLines(t))
  {
    var kept := KeepLines(SplitLines(t));
    StripLifecycleLines(t);
    if kept == [] {
      assert StripLifecycle(t) == "";
      assert SplitOn("", "\n") == [""];
    } else {
      var ps := SplitOn(StripLifecycle(t), "\n");
      assert ps == kept;
      assert ps[|ps| - 1] != "";
    }
  }

  /** A trailing empty line survives one stripping but not the next. */
  lemma StripLifecycleNotIdempotent()
    ensures StripLifecycle("x\n\n") == "x\n"
    ensures StripLifecycle("x\n") == "x"
  {
    NoSemicolonClean("x");
    NoSemicolonClean("");
    SplitOnNoSep("x", '\n');
    SplitOnNoSep("", '\n');
    SplitOnConcat("", "", '\n');
    assert "" + "\n" + "" == "\n";
    SplitOnConcat("x", "", '\n');
    assert "x" + "\n" + "" == "x\n";
    SplitOnConcat("x", "\n", '\n');
    assert "x" + "\n" + "\n" == "x\n\n";
  }

  /** `MySQLDBAdmin.transformDump(db_name, sql_text)`: the resolved name and the cleaned dump. */
  function TransformDump(dbName: Option<string>, sqlText: string): (r: Result<(string, string), Error>)
    ensures r.Success? ==> IsName(r.value.0) || (dbName.Some? && r.value.0 == dbName.value != "")
  {
    var count := CountCreate(sqlText);
    if count > 1 then Failure(ValueError(MultipleDatabases))
    else if count < 1 then Failure(ValueError(NoCreateStatement))
    else
      match FirstUse(sqlText, 0)
      case None => Failure(ValueError(NoUseStatement))
      case Some((pos, extracted)) =>
        UseMatchIff(sqlText, pos, extracted);
        if dbName.Some? && dbName.value != "" && dbName.value != extracted then
          Success((dbName.value, StripLifecycle(Replace(sqlText, extracted, dbName.value))))
        else
          Success((extracted, StripLifecycle(sqlText)))
  }

  /** A USE statement appears somewhere in the text. */
  ghost predicate HasUse(s: string) {
    exists m: nat, n: string :: UseStatementAt(s, m, n)
  }

  /** The scan for the first USE match fails exactly when the text has no USE statement. */
  lemma FirstUseNone(s: string)
    ensures FirstUse(s, 0).None? <==> !HasUse(s)
  {
    if FirstUse(s, 0).None? {
      forall m: nat, n: string | UseStatementAt(s, m, n) ensures false {
        UseMatchIff(s, m, n);
      }
    } else {
      var (pos, n) := FirstUse(s, 0).value;
      UseMatchIff(s, pos, n);
    }
  }

  /** The three rejections of `transformDump`, each exactly when its condition on the text holds. */
  lemma TransformDumpErrors(dbName: Option<string>, sqlText: string)
    ensures TransformDump(dbName, sqlText) == Failure(ValueError(MultipleDatabases)) <==> TwoCreates(sqlText)
    ensures TransformDump(dbName, sqlText) == Failure(ValueError(NoCreateStatement)) <==>
      forall m: nat :: !CreateAt(sqlText, m)
    ensures TransformDump(dbName, sqlText) == Failure(ValueError(NoUseStatement)) <==>
      (exists m: nat :: CreateAt(sqlText, m)) && !TwoCreates(sqlText) && !HasUse(sqlText)
    ensures TransformDump(dbName, sqlText).Success? <==>
      (exists m: nat :: CreateAt(sqlText, m)) && !TwoCreates(sqlText) && HasUse(sqlText)
  {
    CountCreateMultiple(sqlText);
    CountCreateZero(sqlText, 0);
    FirstUseNone(sqlText);
    assert MultipleDatabases != NoCreateStatement && MultipleDatabases != NoUseStatement
      && NoCreateStatement != NoUseStatement;
  }

  /**
   * An accepted dump: the name comes from its first USE statement unless a different,
   * non-empty name is requested, in which case every occurrence of the extracted name
   * is replaced before the lifecycle lines are stripped.
   */
  lemma TransformDumpResult(dbName: Option<string>, sqlText: string) returns (pos: nat, extracted: string)
    requires TransformDump(dbName, sqlText).Success?
    ensures UseStatementAt(sqlText, pos, extracted)
    ensures forall m: nat, n: string :: m < pos ==> !UseStatementAt(sqlText, m, n)
    ensures var renamed := dbName.Some? && dbName.value != "" && dbName.value != extracted;
      && TransformDump(dbName, sqlText).value.0 == (if renamed then dbName.value else extracted)
      && TransformDump(dbName, sqlText).value.1 ==
           StripLifecycle(if renamed then Join(dbName.value, SplitOn(sqlText, extracted)) else sqlText)
  {
    pos := FirstUse(sqlText, 0).value.0;
    extracted := FirstUse(sqlText, 0).value.1;
    UseMatchIff(sqlText, pos, extracted);
    forall m: nat, n: string | m < pos ensures !UseStatementAt(sqlText, m, n) {
      UseMatchIff(sqlText, m, n);
    }
    ReplaceIsSplitJoin(sqlText, extracted, if dbName.Some? then dbName.value else "");
  }

  /** No line of an accepted dump's body holds a DROP, CREATE DATABASE/SCHEMA or USE statement. */
  lemma TransformDumpClean(dbName: Option<string>, sqlText: string)
    requires TransformDump(dbName, sqlText).Success?
    ensures var body := TransformDump(dbName, sqlText).value.1;
      forall k :: 0 <= k < |SplitOn(body, "\n")| ==> !HasPattern(SplitOn(body, "\n")[k])
  {
    var pos, extracted := TransformDumpResult(dbName, sqlText);
    var renamed := dbName.Some? && dbName.value != "" && dbName.value != extracted;
    StripLifecycleLines(if renamed then Join(dbName.value, SplitOn(sqlText, extracted)) else sqlText);
  }

  // ---------------------------------------------------------------------------
  // Worked examples

  /** A CREATE match starts on `C` and has `S` or `D` seven characters later. */
  lemma CreateNeedsLetters(s: string, m: nat)
    requires m <= |s|
    ensures CreateAt(s, m) ==> m + 8 <= |s| && s[m] == 'C' && (s[m + 7] == 'S' || s[m + 7] == 'D')
  {
    if CreateAt(s, m) {
      var p := CreatePrefixAt(s, m);
      FramedMatchFacts(s, m, p);
      assert s[m] == p[0] && s[m + 7] == p[7];
    }
  }

  /** A USE match starts on `U`. */
  lemma UseNeedsLetter(s: string, m: nat)
    requires m <= |s|
    ensures UseMatchAt(s, m).Some? ==> m < |s| && s[m] == 'U'
  {
    if UseMatchAt(s, m).Some? {
      assert s[m] == s[m..][..4][0];
    }
  }

  /** A statement with prefix `p` starts on the first letter of `p`, and agrees with it seven places later. */
  lemma TerminatedNeedsLetters(line: string, m: nat, p: string)
    requires p != ""
    ensures TerminatedAfter(line, m, p) ==> line[m] == p[0] && (|p| > 7 ==> line[m + 7] == p[7])
  {
    if TerminatedAfter(line, m, p) {
      assert line[m] == line[m..m + |p|][0];
      if |p| > 7 {
        assert line[m + 7] == line[m..m + |p|][7];
      }
    }
  }

  /** A line without `D` or `U`, whose every `C` is not followed seven places later by `S` or `D`, is clean. */
  lemma CleanByLetters(line: string)
    requires forall k :: 0 <= k < |line| ==> line[k] != 'D' && line[k] != 'U'
    requires forall k :: 0 <= k < |line| && line[k] == 'C' ==> k + 7 >= |line| || (line[k + 7] != 'S' && line[k + 7] != 'D')
    ensures !HasPattern(line)
  {
    forall m: nat | m <= |line| ensures !LifecycleAt(line, m) {
      TerminatedNeedsLetters(line, m, DropPrefixes[0]);
      TerminatedNeedsLetters(line, m, DropPrefixes[1]);
      TerminatedNeedsLetters(line, m, CreatePrefixes[0]);
      TerminatedNeedsLetters(line, m, CreatePrefixes[1]);
      TerminatedNeedsLetters(line, m, UsePrefixes[0]);
    }
    HasPatternIff(line);
  }

  const CreateLine := "CREATE DATABASE foo;"
  const UseLine := "USE foo;"
  const TableLine := "CREATE TABLE t (id INT);"
  const ExampleDump := (CreateLine + "\n") + (UseLine + "\n") + (TableLine + "\n")

  /** The characters of a concatenation of three texts, part by part. */
  lemma ThreeParts(a: string, b: string, c: string)
    ensures (a + b + c)[..|a|] == a && (a + b + c)[|a|..] == b + c
    ensures forall k :: 0 <= k < |a| ==> (a + b + c)[k] == a[k]
    ensures forall k :: |a| <= k < |a| + |b| ==> (a + b + c)[k] == b[k - |a|]
    ensures forall k :: |a| + |b| <= k < |a| + |b| + |c| ==> (a + b + c)[k] == c[k - |a| - |b|]
  {
  }

  /** Where each line of the example sits. */
  lemma ExampleLayout()
    ensures |ExampleDump| == 55
    ensures ExampleDump[..21] == CreateLine + "\n"
    ensures ExampleDump[21..] == UseLine + "\n" + TableLine + "\n"
    ensures forall k :: 0 <= k < 21 ==> ExampleDump[k] == (CreateLine + "\n")[k]
    ensures forall k :: 21 <= k < 30 ==> ExampleDump[k] == (UseLine + "\n")[k - 21]
    ensures forall k :: 30 <= k < 55 ==> ExampleDump[k] == (TableLine + "\n")[k - 30]
  {
    var a, b, c := CreateLine + "\n", UseLine + "\n", TableLine + "\n";
    assert |a| == 21 && |b| == 9 && |c| == 25;
    ThreeParts(a, b, c);
  }

  /** The example dump holds one CREATE statement, ending at its first line break. */
  lemma ExampleCreate()
    ensures CountCreate(ExampleDump) == 1
  {
    ExampleCreateFirst();
    ExampleNoLaterCreate();
    CountCreateZero(ExampleDump, 21);
  }

  /** The CREATE statement of the first line is matched with its line break. */
  lemma ExampleCreateFirst()
    ensures CreateMatchAt(ExampleDump, 0) == Some(21)
  {
    var a := CreateLine + "\n";
    ExampleLayout();
    assert Framed(a, CreateDatabase) by {
      assert a[..16] == CreateDatabase;
      assert a[19..] == ";\n";
    }
    CreateMatchComplete(ExampleDump, 0, 21);
  }

  /** No CREATE statement starts after the first line. */
  lemma ExampleNoLaterCreate()
    ensures forall m :: 21 <= m <= |ExampleDump| ==> !CreateAt(ExampleDump, m)
  {
    var s := ExampleDump;
    ExampleLayout();
    var u := UseLine + "\n";
    var t := TableLine + "\n";
    assert forall k :: 0 <= k < |u| ==> u[k] != 'C';
    assert forall k :: 1 <= k < |t| ==> t[k] != 'C';
    assert t[7] == 'T';
    forall k | 21 <= k < |s| ensures s[k] != 'C' || (k + 7 < |s| && s[k + 7] == 'T') {
      if k < 30 {
        assert s[k] == u[k - 21];
      } else if k == 30 {
        assert s[k + 7] == t[7];
      } else {
        assert s[k] == t[k - 30];
      }
    }
    NoCreateByLetters(s, 21);
  }

  /** Where every `C` is followed seven places later by `T`, no CREATE statement starts. */
  lemma NoCreateByLetters(s: string, lo: nat)
    requires lo <= |s|
    requires forall k :: lo <= k < |s| ==> s[k] != 'C' || (k + 7 < |s| && s[k + 7] == 'T')
    ensures forall m :: lo <= m <= |s| ==> !CreateAt(s, m)
  {
    forall m: nat | lo <= m <= |s| ensures !CreateAt(s, m) {
      CreateNeedsLetters(s, m);
    }
  }

  /** The first USE statement of the example names `foo`. */
  lemma ExampleUse()
    ensures FirstUse(ExampleDump, 0) == Some((21, "foo"))
  {
    var s := ExampleDump;
    ExampleLayout();
    assert StartsWith(s[21..], "USE foo;\n");
    UseMatchPlain(s, 21, "foo");
    assert forall k :: 0 <= k < 21 ==> (CreateLine + "\n")[k] != 'U';
    forall m: nat | m < 21 ensures UseMatchAt(s, m).None? {
      UseNeedsLetter(s, m);
    }
  }

  /** Three lines, each ended by a line break, split back into those three lines. */
  lemma SplitThreeLines(a: string, b: string, c: string)
    requires '\n' !in a && '\n' !in b && '\n' !in c
    ensures SplitLines(a + "\n" + b + "\n" + c + "\n") == [a, b, c]
  {
    var u := a + "\n" + b;
    var w := u + "\n" + c;
    SplitOnNoSep(a, '\n');
    SplitOnNoSep(b, '\n');
    SplitOnNoSep(c, '\n');
    SplitOnNoSep("", '\n');
    SplitOnConcat(a, b, '\n');
    SplitOnConcat(u, c, '\n');
    SplitOnConcat(w, "", '\n');
    assert w + "\n" + "" == w + "\n";
    var ps := SplitOn(w + "\n", "\n");
    assert ps == [a] + [b] + [c] + [""];
    assert ps[..3] == [a, b, c];
  }

  /** The CREATE and USE lines of the example each hold a lifecycle statement. */
  lemma ExampleHeaderDirty()
    ensures HasPattern(CreateLine) && HasPattern(UseLine)
  {
    CreateLineFound();
    UseLineFound();
  }

  lemma CreateLineFound()
    ensures Search(CreateLine, 0, CreatePrefixes) == Some(0)
  {
    FooStatement();
    assert CreateLine == CreatePrefixes[0] + "foo;";
    FoundAtStart(CreateLine, CreatePrefixes, 0, "foo;");
  }

  lemma UseLineFound()
    ensures Search(UseLine, 0, UsePrefixes) == Some(0)
  {
    FooStatement();
    assert UseLine == UsePrefixes[0] + "foo;";
    FoundAtStart(UseLine, UsePrefixes, 0, "foo;");
  }

  /** `foo;` is a non-empty run without `;` followed by `;`. */
  lemma FooStatement()
    ensures |"foo;"| >= 2 && "foo;"[0] != ';' && ';' in "foo;"[1..]
  {
    assert "foo;"[1..][2] == ';';
  }

  /** A line that starts with one of `prefixes` and goes on with a terminated run is found at its start. */
  lemma FoundAtStart(line: string, prefixes: seq<string>, k: nat, rest: string)
    requires k < |prefixes| && line == prefixes[k] + rest
    requires |rest| >= 2 && rest[0] != ';' && ';' in rest[1..]
    ensures Search(line, 0, prefixes) == Some(0)
  {
    var p := prefixes[k];
    assert line[0..|p|] == p;
    assert line[|p|] == rest[0];
    assert line[|p| + 1..] == rest[1..];
    assert TerminatedAfter(line, 0, p);
  }

  /** Two lifecycle lines followed by a clean one strip down to the clean line alone. */
  lemma StripHeader(a: string, b: string, c: string)
    requires '\n' !in a && '\n' !in b && '\n' !in c
    requires HasPattern(a) && HasPattern(b) && !HasPattern(c)
    ensures StripLifecycle((a + "\n") + (b + "\n") + (c + "\n")) == c
  {
    SplitThreeLines(a, b, c);
    assert (a + "\n") + (b + "\n") + (c + "\n") == a + "\n" + b + "\n" + c + "\n";
    var lines := [a, b, c];
    assert KeepLines(lines[2..]) == [c];
    assert KeepLines(lines[1..]) == [c];
  }

  /** Which lines of the example hold a lifecycle statement. */
  lemma ExamplePatterns()
    ensures HasPattern(CreateLine) && HasPattern(UseLine) && !HasPattern(TableLine)
  {
    CleanByLetters(TableLine);
    ExampleHeaderDirty();
  }

  /** The CREATE and USE lines go, the table definition stays. */
  lemma ExampleStrip()
    ensures StripLifecycle(ExampleDump) == TableLine
  {
    assert '\n' !in CreateLine && '\n' !in UseLine && '\n' !in TableLine;
    ExamplePatterns();
    StripHeader(CreateLine, UseLine, TableLine);
  }

  /** The whole example: name `foo`, body the table definition, with no final line break. */
  lemma TransformDumpExample()
    ensures TransformDump(None, ExampleDump) == Success(("foo", TableLine))
  {
    ExampleCreate();
    ExampleUse();
    ExampleStrip();
  }

  /** A dump without any line break contains no CREATE statement and is rejected. */
  lemma NoLineBreakNoCreate(s: string, dbName: Option<string>)
    requires '\n' !in s
    ensures CountCreate(s) == 0
    ensures TransformDump(dbName, s) == Failure(ValueError(NoCreateStatement))
  {
    forall m: nat | m <= |s| ensures !CreateAt(s, m) {
      if CreateAt(s, m) {
        CreateMatchFacts(s, m);
      }
    }
    CountCreateZero(s, 0);
  }

  /** A CREATE statement on a final line with no line break is not counted. */
  lemma UnterminatedCreateExample()
    ensures TransformDump(None, CreateLine) == Failure(ValueError(NoCreateStatement))
  {
    NoLineBreakNoCreate(CreateLine, None);
  }
}
