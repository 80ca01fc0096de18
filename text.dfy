/**
 * The JavaScript string operations the orchestration code relies on:
 * `String.prototype.trim`, `split` on a one-character separator,
 * `Array.prototype.join`, and `replace(/\n/g, " ")`.
 */
module Text {

  /** The characters ECMAScript's `trim` removes: WhiteSpace and LineTerminator. */
  predicate IsWhitespace(c: char)
  {
    || c == '\t' || c == '\n' || c == '\U{000B}' || c == '\U{000C}' || c == '\r' || c == ' '
    || c == '\U{00A0}' || c == '\U{1680}' || ('\U{2000}' <= c <= '\U{200A}')
    || c == '\U{2028}' || c == '\U{2029}' || c == '\U{202F}' || c == '\U{205F}'
    || c == '\U{3000}' || c == '\U{FEFF}'
  }

  ghost predicate AllWhitespace(s: string)
  {
    forall k :: 0 <= k < |s| ==> IsWhitespace(s[k])
  }

  /** Neither end of `s` is whitespace. */
  predicate IsTrimmed(s: string)
  {
    s == [] || (!IsWhitespace(s[0]) && !IsWhitespace(s[|s| - 1]))
  }

  /** Number of leading whitespace characters. */
  function LeadingWhitespace(s: string): (n: nat)
    ensures n <= |s|
    ensures AllWhitespace(s[..n])
    ensures n < |s| ==> !IsWhitespace(s[n])
  {
    if s != [] && IsWhitespace(s[0]) then
      var m := LeadingWhitespace(s[1..]);
      assert forall k :: 1 <= k < 1 + m ==> s[k] == s[1..][k - 1];
      1 + m
    else 0
  }

  /** Length of `s` once its trailing whitespace is removed. */
  function TrimmedEnd(s: string): (n: nat)
    ensures n <= |s|
    ensures AllWhitespace(s[n..])
    ensures n > 0 ==> !IsWhitespace(s[n - 1])
  {
    if s != [] && IsWhitespace(s[|s| - 1]) then
      var m := TrimmedEnd(s[..|s| - 1]);
      assert forall k :: m <= k < |s| - 1 ==> s[k] == s[..|s| - 1][k];
      m
    else |s|
  }

  function TrimStart(s: string): (r: string)
  {
    s[LeadingWhitespace(s)..]
  }

  function TrimEnd(s: string): (r: string)
  {
    s[..TrimmedEnd(s)]
  }

  /** `String.prototype.trim`: the slice of `s` between its leading and trailing whitespace. */
  function Trim(s: string): (r: string)
    ensures IsTrimmed(r)
    ensures |r| <= |s|
    ensures exists i :: 0 <= i <= |s| - |r| && r == s[i..i + |r|] && AllWhitespace(s[..i]) && AllWhitespace(s[i + |r|..])
  {
    var i := LeadingWhitespace(s);
    var t := s[i..];
    var j := TrimmedEnd(t);
    assert t[..j] == s[i..i + j];
    assert t[j..] == s[i + j..];
    assert j > 0 ==> t[0] == s[i];
    t[..j]
  }

  /** The end at which `TrimEnd` stops is determined: any `k` with only whitespace after it
      and a non-whitespace character just before it is that end. */
  lemma {:induction false} TrimEndAt(s: string, k: nat)
    requires k <= |s|
    requires AllWhitespace(s[k..])
    requires k == 0 || !IsWhitespace(s[k - 1])
    ensures TrimEnd(s) == s[..k]
  {
    if |s| > k {
      var s' := s[..|s| - 1];
      assert s[|s| - 1] == s[k..][|s| - 1 - k];
      assert forall j :: 0 <= j < |s'| - k ==> s'[k..][j] == s[k..][j];
      TrimEndAt(s', k);
      assert s'[..k] == s[..k];
    }
  }

  /** Likewise for the start at which `TrimStart` stops. */
  lemma {:induction false} TrimStartAt(s: string, k: nat)
    requires k <= |s|
    requires AllWhitespace(s[..k])
    requires k == |s| || !IsWhitespace(s[k])
    ensures TrimStart(s) == s[k..]
  {
    if k > 0 {
      assert s[0] == s[..k][0];
      var s' := s[1..];
      assert forall j :: 1 <= j < k ==> s'[..k - 1][j - 1] == s[..k][j];
      TrimStartAt(s', k - 1);
      assert s'[k - 1..] == s[k..];
    }
  }

  /** Trimming a string that is already trimmed changes nothing. */
  lemma TrimTrimmed(s: string)
    requires IsTrimmed(s)
    ensures Trim(s) == s
  {
    TrimStartAt(s, 0);
    TrimEndAt(s, |s|);
  }

  /** Trimming `a + w`, where `a` is non-empty, starts and ends with non-whitespace and `w`
      is whitespace only, yields `a`. */
  lemma TrimPadded(a: string, w: string)
    requires a != [] && IsTrimmed(a)
    requires AllWhitespace(w)
    ensures Trim(a + w) == a
  {
    var s := a + w;
    assert s[0] == a[0];
    TrimStartAt(s, 0);
    assert s[|a|..] == w;
    assert s[|a| - 1] == a[|a| - 1];
    TrimEndAt(s, |a|);
  }

  /** Trimming `w + a`, where `w` is whitespace only and `a` is non-empty and trimmed, yields `a`. */
  lemma TrimLeftPadded(w: string, a: string)
    requires a != [] && IsTrimmed(a)
    requires AllWhitespace(w)
    ensures Trim(w + a) == a
  {
    var s := w + a;
    assert s[..|w|] == w && s[|w|..] == a;
    TrimStartAt(s, |w|);
    TrimEndAt(a, |a|);
  }

  /** Trimming the end of `p + x`, where `p` ends with non-whitespace, only touches `x`. */
  lemma TrimEndAppend(p: string, x: string)
    requires p != [] && !IsWhitespace(p[|p| - 1])
    ensures TrimEnd(p + x) == p + TrimEnd(x)
  {
    var s := p + x;
    var n := TrimmedEnd(x);
    assert s[|p| + n..] == x[n..];
    assert n > 0 ==> s[|p| + n - 1] == x[n - 1];
    assert n == 0 ==> s[|p| - 1] == p[|p| - 1];
    TrimEndAt(s, |p| + n);
    assert s[..|p| + n] == p + x[..n];
  }

  /** A final newline makes no difference to where the trailing whitespace starts. */
  lemma TrimEndNewline(x: string)
    ensures TrimEnd(x + "\n") == TrimEnd(x)
  {
    var n := TrimmedEnd(x);
    assert (x + "\n")[n..] == x[n..] + "\n";
    assert n > 0 ==> (x + "\n")[n - 1] == x[n - 1];
    TrimEndAt(x + "\n", n);
    assert (x + "\n")[..n] == x[..n];
  }

  /** A string that starts with non-whitespace loses only its trailing whitespace. */
  lemma TrimFromStart(s: string)
    requires s != [] && !IsWhitespace(s[0])
    ensures Trim(s) == TrimEnd(s)
  {
    TrimStartAt(s, 0);
  }

  /** Trimming never introduces a character. */
  lemma TrimKeeps(s: string, c: char)
    requires c !in s
    ensures c !in Trim(s)
  {
    var i := LeadingWhitespace(s);
    var t := s[i..];
    var r := t[..TrimmedEnd(t)];
    assert Trim(s) == r;
    assert forall k :: 0 <= k < |r| ==> r[k] == s[i + k];
  }

  /** `text.replace(/\n/g, " ")`. */
  function ReplaceNewlines(s: string): (r: string)
    ensures |r| == |s|
    ensures forall i :: 0 <= i < |s| ==> r[i] == (if s[i] == '\n' then ' ' else s[i])
    ensures '\n' !in r
    ensures '\n' !in s ==> r == s
  {
    seq(|s|, i requires 0 <= i < |s| => if s[i] == '\n' then ' ' else s[i])
  }

  /** Number of occurrences of `c` in `s`. */
  function Count(s: string, c: char): nat
  {
    if s == [] then 0 else (if s[0] == c then 1 else 0) + Count(s[1..], c)
  }

  /** `parts.join(sep)`: an empty list joins to the empty string. */
  function Join(parts: seq<string>, sep: string): string
  {
    if |parts| == 0 then ""
    else if |parts| == 1 then parts[0]
    else parts[0] + sep + Join(parts[1..], sep)
  }

  /** `s.split(d)` for a one-character separator: the pieces between occurrences of `d`,
      empty pieces included, so that joining them back with `d` restores `s`. */
  function Split(s: string, d: char): (r: seq<string>)
    ensures |r| == Count(s, d) + 1
    ensures forall p <- r :: d !in p
    ensures Join(r, [d]) == s
  {
    if s == [] then [[]]
    else
      var rest := Split(s[1..], d);
      if s[0] == d then
        assert ([[]] + rest)[1..] == rest;
        [[]] + rest
      else
        var r := [[s[0]] + rest[0]] + rest[1..];
        assert forall p <- r :: d !in p by {
          forall p <- r ensures d !in p {
            if p != r[0] { assert p in rest[1..]; }
          }
        }
        assert |rest| > 1 ==> r[1..] == rest[1..];
        r
  }

  /** Splitting a piece free of the separator, followed by the separator, peels that piece off. */
  lemma {:induction false} SplitAfterPiece(a: string, rest: string, d: char)
    requires d !in a
    ensures Split(a + [d] + rest, d) == [a] + Split(rest, d)
  {
    var s := a + [d] + rest;
    if a == [] {
      assert s[0] == d && s[1..] == rest;
    } else {
      assert s[0] == a[0];
      assert s[1..] == a[1..] + [d] + rest;
      SplitAfterPiece(a[1..], rest, d);
      assert [a[0]] + a[1..] == a;
    }
  }

  /** `sub` occurs in `s` as a contiguous substring. */
  ghost predicate IsInfix(sub: string, s: string)
  {
    exists i, j :: 0 <= i <= j <= |s| && s[i..j] == sub
  }

  /** `s.includes(sub)`. */
  function Includes(s: string, sub: string): (b: bool)
    ensures b <==> IsInfix(sub, s)
    decreases |s|
  {
    if |sub| <= |s| && s[..|sub|] == sub then
      InfixAtStart(sub, s);
      true
    else if s == [] then
      false
    else
      var b := Includes(s[1..], sub);
      if b then
        InfixInTail(sub, s);
        true
      else
        InfixPastStart(sub, s);
        false
  }

  /** A prefix of `s` occurs in `s`. */
  lemma InfixAtStart(sub: string, s: string)
    requires |sub| <= |s| && s[..|sub|] == sub
    ensures IsInfix(sub, s)
  {
    assert s[0..|sub|] == sub;
  }

  /** What occurs in the tail of `s` occurs in `s`. */
  lemma InfixInTail(sub: string, s: string)
    requires s != [] && IsInfix(sub, s[1..])
    ensures IsInfix(sub, s)
  {
    var i, j :| 0 <= i <= j <= |s[1..]| && s[1..][i..j] == sub;
    assert s[i + 1..j + 1] == sub;
  }

  /** What occurs in `s` but not at its start occurs in its tail. */
  lemma InfixPastStart(sub: string, s: string)
    requires s != [] && !(|sub| <= |s| && s[..|sub|] == sub)
    ensures IsInfix(sub, s) ==> IsInfix(sub, s[1..])
  {
    if IsInfix(sub, s) {
      var i, j :| 0 <= i <= j <= |s| && s[i..j] == sub;
      assert i != 0;
      assert s[1..][i - 1..j - 1] == sub;
    }
  }

  /** A text occurs at the end of any text ending with it. */
  lemma InfixEnd(a: string, b: string)
    ensures IsInfix(b, a + b)
  {
    assert (a + b)[|a|..|a| + |b|] == b;
  }

  /** Every text occurs in itself. */
  lemma InfixSelf(b: string)
    ensures IsInfix(b, b)
  {
    assert b[0..|b|] == b;
  }

  /** A text occurring in `s` occurs in `s` with anything put in front. */
  lemma InfixAfter(b: string, p: string, s: string)
    requires IsInfix(b, s)
    ensures IsInfix(b, p + s)
  {
    var i, j :| 0 <= i <= j <= |s| && s[i..j] == b;
    assert (p + s)[|p| + i..|p| + j] == b;
  }

  /** A text occurring in `s` occurs in every extension of `s`. */
  lemma InfixGrow(b: string, s: string, t: string)
    requires IsInfix(b, s)
    ensures IsInfix(b, s + t)
  {
    var i, j :| 0 <= i <= j <= |s| && s[i..j] == b;
    assert (s + t)[i..j] == b;
  }
}
