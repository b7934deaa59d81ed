/** The few `System.String` operations the modelled code relies on:
    white-space test, `Trim`, `Split(char)` and `IsNullOrWhiteSpace`. */
module Text {
  import opened Wrappers

  /** `char.IsWhiteSpace`, restricted to the Latin-1 and common Unicode
      separators; the full Unicode table is not part of this model. */
  predicate IsWhiteSpace(c: char)
  {
    c == ' ' || c == '\t' || c == '\n' || c == '\r' || c == '\U{000B}' || c == '\U{000C}'
    || c == '\U{0085}' || c == '\U{00A0}' || c == '\U{2028}' || c == '\U{2029}' || c == '\U{3000}'
  }

  predicate AllWhiteSpace(s: string)
  {
    forall i :: 0 <= i < |s| ==> IsWhiteSpace(s[i])
  }

  /** `string.IsNullOrWhiteSpace`: null, empty, or white space only. */
  predicate IsNullOrWhiteSpace(s: Option<string>)
  {
    s.None? || AllWhiteSpace(s.value)
  }

  /** `TrimStart()`: drops the leading white space. */
  function TrimStart(s: string): string
  {
    if s != [] && IsWhiteSpace(s[0]) then TrimStart(s[1..]) else s
  }

  /** `TrimEnd()`: drops the trailing white space. */
  function TrimEnd(s: string): string
  {
    if s != [] && IsWhiteSpace(s[|s| - 1]) then TrimEnd(s[..|s| - 1]) else s
  }

  /** `Trim()`: drops white space at both ends. */
  function Trim(s: string): string
  {
    TrimEnd(TrimStart(s))
  }

  /** `TrimStart` keeps a suffix, drops only white space, and leaves no
      white space in front. */
  lemma {:induction false} TrimStartShape(s: string)
    ensures var r := TrimStart(s);
            |r| <= |s| && r == s[|s| - |r|..] && AllWhiteSpace(s[..|s| - |r|])
            && (r == [] || !IsWhiteSpace(r[0]))
  {
    if s != [] && IsWhiteSpace(s[0]) {
      TrimStartShape(s[1..]);
      var r := TrimStart(s);
      assert s[..|s| - |r|] == [s[0]] + s[1..][..|s| - 1 - |r|];
    }
  }

  /** `TrimEnd` keeps a prefix, drops only white space, and leaves no
      white space at the end. */
  lemma {:induction false} TrimEndShape(s: string)
    ensures var r := TrimEnd(s);
            |r| <= |s| && r == s[..|r|] && AllWhiteSpace(s[|r|..])
            && (r == [] || !IsWhiteSpace(r[|r| - 1]))
  {
    if s != [] && IsWhiteSpace(s[|s| - 1]) {
      var u := s[..|s| - 1];
      TrimEndShape(u);
      var r := TrimEnd(s);
      assert s[|r|..] == u[|r|..] + [s[|s| - 1]];
    }
  }

  /** The result of `Trim` is a contiguous piece of its input with only
      white space cut off on either side, and has no white space at
      either end. */
  lemma TrimIsInfix(s: string)
    ensures exists i, j :: 0 <= i <= j <= |s| && Trim(s) == s[i..j]
              && AllWhiteSpace(s[..i]) && AllWhiteSpace(s[j..])
    ensures Trim(s) == [] || (!IsWhiteSpace(Trim(s)[0]) && !IsWhiteSpace(Trim(s)[|Trim(s)| - 1]))
  {
    var t := TrimStart(s);
    TrimStartShape(s);
    var i := |s| - |t|;
    var r := TrimEnd(t);
    TrimEndShape(t);
    var j := i + |r|;
    assert r == s[i..j];
    assert s[j..] == t[|r|..];
    assert AllWhiteSpace(s[..i]) && AllWhiteSpace(s[j..]);
    assert 0 <= i <= j <= |s| && Trim(s) == s[i..j];
    if r != [] {
      assert r[0] == t[0];
    }
  }

  /** Trimming twice is trimming once. */
  lemma TrimIdempotent(s: string)
    ensures Trim(Trim(s)) == Trim(s)
  {
    var r := Trim(s);
    TrimIsInfix(s);
    assert TrimStart(r) == r;
    assert TrimEnd(r) == r;
  }

  /** A string is null-or-white-space exactly when trimming leaves nothing. */
  lemma {:induction false} WhiteSpaceIffTrimEmpty(s: string)
    ensures AllWhiteSpace(s) <==> Trim(s) == []
  {
    if AllWhiteSpace(s) {
      WhiteSpaceTrimStart(s);
    } else {
      TrimIsInfix(s);
    }
  }

  lemma {:induction false} WhiteSpaceTrimStart(s: string)
    requires AllWhiteSpace(s)
    ensures TrimStart(s) == []
  {
    if s != [] {
      WhiteSpaceTrimStart(s[1..]);
    }
  }

  /** The index of the first occurrence of `c`, or `|s|` when there is none. */
  function IndexOf(s: string, c: char): (i: nat)
    ensures i <= |s| && c !in s[..i]
    ensures i < |s| <==> c in s
    ensures i < |s| ==> s[i] == c
  {
    if s == [] then 0 else if s[0] == c then 0 else 1 + IndexOf(s[1..], c)
  }

  /** The number of occurrences of `c` in `s`. */
  function Count(s: string, c: char): nat
  {
    multiset(s)[c]
  }

  /** `Split(c)`: the pieces between the occurrences of `c`, empty pieces
      included. */
  function Split(s: string, c: char): (parts: seq<string>)
    ensures |parts| >= 1
    decreases |s|
  {
    var i := IndexOf(s, c);
    if i == |s| then [s] else [s[..i]] + Split(s[i + 1..], c)
  }

  /** An occurrence of `c` at `i` splits the count in three. */
  lemma CountAround(s: string, c: char, i: nat)
    requires i < |s| && s[i] == c
    ensures Count(s, c) == Count(s[..i], c) + 1 + Count(s[i + 1..], c)
  {
    assert s == s[..i] + [c] + s[i + 1..];
    assert multiset(s) == multiset(s[..i]) + multiset{c} + multiset(s[i + 1..]);
  }

  /** A string has no occurrence of `c` exactly when it counts none. */
  lemma CountZero(s: string, c: char)
    ensures Count(s, c) == 0 <==> c !in s
  {
    assert c in s <==> c in multiset(s);
  }

  /** `Split` yields one piece more than there are separators, and no piece
      contains the separator. */
  lemma SplitCount(s: string, c: char)
    ensures |Split(s, c)| == Count(s, c) + 1
    ensures forall k :: 0 <= k < |Split(s, c)| ==> c !in Split(s, c)[k]
  {
    SplitLength(s, c);
    SplitPiecesFree(s, c);
  }

  lemma {:induction false} SplitLength(s: string, c: char)
    ensures |Split(s, c)| == Count(s, c) + 1
    decreases |s|
  {
    var i := IndexOf(s, c);
    if i == |s| {
      CountZero(s, c);
    } else {
      var rest := s[i + 1..];
      SplitLength(rest, c);
      assert Split(s, c) == [s[..i]] + Split(rest, c);
      CountAround(s, c, i);
      CountZero(s[..i], c);
      assert Count(s, c) == 1 + Count(rest, c);
    }
  }

  lemma {:induction false} SplitPiecesFree(s: string, c: char)
    ensures forall k :: 0 <= k < |Split(s, c)| ==> c !in Split(s, c)[k]
    decreases |s|
  {
    var i := IndexOf(s, c);
    if i < |s| {
      var tail := Split(s[i + 1..], c);
      SplitPiecesFree(s[i + 1..], c);
      assert Split(s, c) == [s[..i]] + tail;
      forall k | 1 <= k < |Split(s, c)|
        ensures c !in Split(s, c)[k]
      {
        assert Split(s, c)[k] == tail[k - 1];
      }
    }
  }

  /** With exactly one separator, `Split` cuts the string at it. */
  lemma SplitOnce(s: string, c: char)
    requires Count(s, c) == 1
    ensures Split(s, c) == [s[..IndexOf(s, c)], s[IndexOf(s, c) + 1..]]
  {
    var i := IndexOf(s, c);
    CountZero(s, c);
    CountAround(s, c, i);
    CountZero(s[..i], c);
    var rest := s[i + 1..];
    CountZero(rest, c);
    assert IndexOf(rest, c) == |rest|;
  }
}
