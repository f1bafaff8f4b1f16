/**
 * The JavaScript string operations the palette relies on, over `seq<char>`:
 * `toLowerCase`, `trim`, `startsWith`, `endsWith`, `includes`, `substring`,
 * `replace` with a string pattern, `split`/`join` on one character, and
 * `Number.prototype.toString`.
 *
 * Case folding and whitespace are restricted to ASCII.
 */
module Strings {
  import opened Wrappers

  /** The whitespace `trim` removes (its ASCII part). */
  predicate IsWhitespace(c: char)
  {
    c == ' ' || c == '\t' || c == '\n' || c == '\r' || c == '\U{000B}' || c == '\U{000C}'
  }

  function LowerChar(c: char): char
  {
    if 'A' <= c <= 'Z' then (c as int + 32) as char else c
  }

  /** `s.toLowerCase()`: the length is kept and every letter is folded. */
  function Lower(s: string): string
  {
    seq(|s|, i requires 0 <= i < |s| => LowerChar(s[i]))
  }

  /** True when `Lower` would leave `s` unchanged. */
  predicate IsLower(s: string)
  {
    forall i :: 0 <= i < |s| ==> !('A' <= s[i] <= 'Z')
  }

  /** Characters other than letters are exactly those of `s`. */
  lemma LowerKeepsOthers(s: string, c: char)
    requires !('A' <= c <= 'Z') && !('a' <= c <= 'z')
    ensures c in Lower(s) <==> c in s
  {
    if c in s {
      var i :| 0 <= i < |s| && s[i] == c;
      assert Lower(s)[i] == c;
    }
  }

  lemma LowerOfLower(s: string)
    requires IsLower(s)
    ensures Lower(s) == s
  {
  }

  /** `s.trimStart()`: drops the leading whitespace and nothing else. */
  function TrimStart(s: string): (r: string)
    ensures |r| <= |s| && r == s[|s| - |r|..]
    ensures r != [] ==> !IsWhitespace(r[0])
    ensures forall i :: 0 <= i < |s| - |r| ==> IsWhitespace(s[i])
  {
    if s != [] && IsWhitespace(s[0]) then TrimStart(s[1..]) else s
  }

  /** `s.trimEnd()`: drops the trailing whitespace and nothing else. */
  function TrimEnd(s: string): (r: string)
    ensures |r| <= |s| && r == s[..|r|]
    ensures r != [] ==> !IsWhitespace(r[|r| - 1])
    ensures forall i :: |r| <= i < |s| ==> IsWhitespace(s[i])
  {
    if s != [] && IsWhitespace(s[|s| - 1]) then TrimEnd(s[..|s| - 1]) else s
  }

  /** `s.trim()`: trims both ends (its properties are stated by `TrimSpec`). */
  function Trim(s: string): (r: string)
    ensures |r| <= |s|
  {
    TrimStart(TrimEnd(s))
  }

  /**
   * The trimmed string has no whitespace at either end, keeps every other
   * character of `s`, and is empty exactly when `s` is all whitespace.
   */
  lemma TrimSpec(s: string)
    ensures var r := Trim(s);
      && (r != [] ==> !IsWhitespace(r[0]) && !IsWhitespace(r[|r| - 1]))
      && (r == [] <==> forall i :: 0 <= i < |s| ==> IsWhitespace(s[i]))
      && (forall i :: 0 <= i < |s| && !IsWhitespace(s[i]) ==> s[i] in r)
  {
    var e := TrimEnd(s);
    var r := TrimStart(e);
    assert forall i :: 0 <= i < |s| && !IsWhitespace(s[i]) ==> s[i] == r[i - (|e| - |r|)];
  }

  /** Trimming the end of `a + b` touches only `b` when `b` is not all whitespace. */
  lemma {:induction false} TrimEndAppend(a: string, b: string)
    requires exists i :: 0 <= i < |b| && !IsWhitespace(b[i])
    ensures TrimEnd(a + b) == a + TrimEnd(b)
    decreases |b|
  {
    var i :| 0 <= i < |b| && !IsWhitespace(b[i]);
    assert (a + b)[|a + b| - 1] == b[|b| - 1];
    if IsWhitespace(b[|b| - 1]) {
      assert (a + b)[..|a + b| - 1] == a + b[..|b| - 1];
      assert b[..|b| - 1][i] == b[i];
      TrimEndAppend(a, b[..|b| - 1]);
    }
  }

  lemma LowerAppend(a: string, b: string)
    ensures Lower(a + b) == Lower(a) + Lower(b)
  {
  }

  /** A string with a non-whitespace character lower-cases to one with the same. */
  lemma LowerNotBlank(s: string)
    requires !IsBlank(s)
    ensures exists i :: 0 <= i < |Lower(s)| && !IsWhitespace(Lower(s)[i])
  {
    var i :| 0 <= i < |s| && !IsWhitespace(s[i]);
    assert !IsWhitespace(Lower(s)[i]);
  }

  /** Trimming twice is trimming once. */
  lemma TrimIdempotent(s: string)
    ensures Trim(Trim(s)) == Trim(s)
  {
    var r := Trim(s);
    TrimSpec(s);
    if r != [] {
      assert TrimEnd(r) == r;
      assert TrimStart(r) == r;
    }
  }

  /** Trimming keeps only characters of `s`. */
  lemma TrimSubset(s: string, c: char)
    requires c in Trim(s)
    ensures c in s
  {
    var e := TrimEnd(s);
    var r := TrimStart(e);
    var k :| 0 <= k < |r| && r[k] == c;
    assert e[k + (|e| - |r|)] == c;
    assert s[k + (|e| - |r|)] == c;
  }

  /** JavaScript truthiness of `s.trim()`. */
  predicate IsBlank(s: string)
  {
    Trim(s) == []
  }

  /** `s.startsWith(p)`. */
  predicate StartsWith(s: string, p: string)
  {
    |p| <= |s| && s[..|p|] == p
  }

  /** `s.endsWith(p)`. */
  predicate EndsWith(s: string, p: string)
  {
    |p| <= |s| && s[|s| - |p|..] == p
  }

  /** `p` occurs in `s` at position `i`. */
  predicate OccursAt(s: string, p: string, i: int)
  {
    0 <= i && i + |p| <= |s| && s[i..i + |p|] == p
  }

  /** `s.includes(p)`. */
  predicate Contains(s: string, p: string)
  {
    exists i :: 0 <= i <= |s| - |p| && OccursAt(s, p, i)
  }

  lemma ContainsEmpty(s: string)
    ensures Contains(s, [])
  {
    assert OccursAt(s, [], 0);
  }

  /** A string that differs from `p` at a position both have does not start with `p`. */
  lemma DiffersAt(s: string, p: string, k: nat)
    requires k < |s| && k < |p| && s[k] != p[k]
    ensures !StartsWith(s, p)
  {
    if |p| <= |s| {
      assert s[..|p|][k] == s[k];
    }
  }

  lemma StartsWithContains(s: string, p: string)
    requires StartsWith(s, p)
    ensures Contains(s, p)
  {
    assert OccursAt(s, p, 0);
  }

  /** `s.substring(n)` for `n >= 0`: an index past the end gives "". */
  function Drop(s: string, n: nat): (r: string)
    ensures n <= |s| ==> r == s[n..]
    ensures n >= |s| ==> r == []
  {
    if n >= |s| then [] else s[n..]
  }

  /** `s.indexOf(p)`: the first position where `p` occurs, if any. */
  function IndexOf(s: string, p: string): (r: Option<nat>)
    ensures r.Some? ==> OccursAt(s, p, r.value)
    ensures r.Some? ==> forall j :: 0 <= j < r.value ==> !OccursAt(s, p, j)
    ensures r.None? <==> !Contains(s, p)
    decreases |s|
  {
    if |s| < |p| then None
    else if s[..|p|] == p then assert OccursAt(s, p, 0); Some(0)
    else
      assert forall j {:trigger OccursAt(s, p, j)} :: 1 <= j ==> (OccursAt(s, p, j) <==> OccursAt(s[1..], p, j - 1));
      match IndexOf(s[1..], p)
      case None => None
      case Some(k) => Some(k + 1)
  }

  /** `s.replace(p, q)` with a string pattern: only the first occurrence. */
  function ReplaceFirst(s: string, p: string, q: string): (r: string)
    ensures !Contains(s, p) ==> r == s
  {
    match IndexOf(s, p)
    case None => s
    case Some(i) => s[..i] + q + s[i + |p|..]
  }

  /** The first position of character `c` in `s`. */
  function IndexOfChar(s: string, c: char): (r: Option<nat>)
    ensures r.Some? ==> r.value < |s| && s[r.value] == c && c !in s[..r.value]
    ensures r.None? <==> c !in s
  {
    if s == [] then None
    else if s[0] == c then Some(0)
    else match IndexOfChar(s[1..], c)
      case None => None
      case Some(k) => Some(k + 1)
  }

  /** `s.split(c)` for a one-character separator. */
  function Split(s: string, c: char): (parts: seq<string>)
    ensures |parts| >= 1
    ensures forall k :: 0 <= k < |parts| ==> c !in parts[k]
    decreases |s|
  {
    match IndexOfChar(s, c)
    case None => [s]
    case Some(i) => [s[..i]] + Split(s[i + 1..], c)
  }

  /** The first occurrence of `c` is the one with no `c` before it. */
  lemma IndexOfCharAt(s: string, c: char, i: nat)
    requires i < |s| && s[i] == c && c !in s[..i]
    ensures IndexOfChar(s, c) == Some(i)
  {
    assert c in s;
  }

  /** `parts.join(c)`. */
  function Join(parts: seq<string>, c: char): string
  {
    if parts == [] then []
    else if |parts| == 1 then parts[0]
    else parts[0] + [c] + Join(parts[1..], c)
  }

  /** Splitting and joining on the same character gives back the string. */
  lemma {:induction false} JoinSplit(s: string, c: char)
    ensures Join(Split(s, c), c) == s
    decreases |s|
  {
    match IndexOfChar(s, c)
    case None =>
    case Some(i) =>
      var rest := Split(s[i + 1..], c);
      assert Split(s, c) == [s[..i]] + rest;
      assert Join(Split(s, c), c) == s[..i] + [c] + Join(rest, c);
      JoinSplit(s[i + 1..], c);
      assert s == s[..i] + [c] + s[i + 1..];
  }

  /**
   * There is more than one part exactly when the separator occurs; the
   * first part is the text before its first occurrence, and the other parts
   * joined back are the text after it.
   */
  lemma SplitFirst(s: string, c: char)
    ensures |Split(s, c)| > 1 <==> c in s
    ensures IndexOfChar(s, c).None? ==> Split(s, c) == [s]
    ensures IndexOfChar(s, c).Some? ==>
      var i := IndexOfChar(s, c).value;
      Split(s, c)[0] == s[..i] && Join(Split(s, c)[1..], c) == s[i + 1..]
  {
    match IndexOfChar(s, c)
    case None =>
    case Some(i) =>
      JoinSplit(s[i + 1..], c);
      assert Split(s, c)[1..] == Split(s[i + 1..], c);
  }

  function DigitChar(d: nat): char
    requires d < 10
  {
    ('0' as int + d) as char
  }

  /** Decimal digits of `n`, most significant first, with no leading zero. */
  function NatToString(n: nat): (r: string)
    ensures r != []
    ensures forall i :: 0 <= i < |r| ==> '0' <= r[i] <= '9'
    ensures n > 0 ==> r[0] != '0'
  {
    if n < 10 then [DigitChar(n)] else NatToString(n / 10) + [DigitChar(n % 10)]
  }

  /** `n.toString()` for an integer `n`. */
  function IntToString(n: int): string
  {
    if n < 0 then "-" + NatToString(-n) else NatToString(n)
  }
}
