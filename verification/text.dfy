/**
 The string operations the screens rely on: ASCII lower-casing (JavaScript's
 `toLowerCase`), substring search (`includes`) and whitespace trimming (`trim`).
 Lower-casing is restricted to the letters A-Z and trimming to a fixed set of
 whitespace characters.
 */
module Text {

  /** Lower-cases one ASCII letter; every other character is unchanged. */
  function LowerChar(c: char): (r: char)
    ensures 'A' <= c <= 'Z' ==> r as int == c as int + 32
    ensures !('A' <= c <= 'Z') ==> r == c
    ensures !('A' <= r <= 'Z')
  {
    if 'A' <= c <= 'Z' then (c as int + 32) as char else c
  }

  /** `s.toLowerCase()`, character by character. */
  function Lower(s: string): (r: string)
    ensures |r| == |s|
    ensures forall i :: 0 <= i < |s| ==> r[i] == LowerChar(s[i])
  {
    if s == [] then [] else [LowerChar(s[0])] + Lower(s[1..])
  }

  predicate StartsWith(s: string, p: string) {
    |p| <= |s| && s[..|p|] == p
  }

  /** `p` occurs in `s` starting at position `i`. */
  predicate OccursAt(s: string, p: string, i: int) {
    0 <= i && i + |p| <= |s| && s[i..i + |p|] == p
  }

  /** A pattern occurs in `s` exactly when `s` starts with it or it occurs in `s[1..]`. */
  lemma {:induction false} OccursShift(s: string, p: string)
    ensures (exists i :: OccursAt(s, p, i))
      <==> StartsWith(s, p) || (|s| > 0 && exists j :: OccursAt(s[1..], p, j))
  {
    if StartsWith(s, p) {
      assert OccursAt(s, p, 0);
    } else if |s| > 0 {
      if exists i :: OccursAt(s, p, i) {
        var i :| OccursAt(s, p, i);
        assert i != 0;
        assert s[1..][i - 1..i - 1 + |p|] == s[i..i + |p|];
        assert OccursAt(s[1..], p, i - 1);
      }
      if exists j :: OccursAt(s[1..], p, j) {
        var j :| OccursAt(s[1..], p, j);
        assert s[j + 1..j + 1 + |p|] == s[1..][j..j + |p|];
        assert OccursAt(s, p, j + 1);
      }
    }
  }

  /** `s.includes(p)`: the pattern occurs in `s` at some position. */
  predicate Contains(s: string, p: string)
    ensures Contains(s, p) <==> exists i :: OccursAt(s, p, i)
    decreases |s|
  {
    OccursShift(s, p);
    StartsWith(s, p) || (|s| > 0 && Contains(s[1..], p))
  }

  /** A pattern found at position `i` is found by the search. */
  lemma OccursContains(s: string, p: string, i: int)
    requires OccursAt(s, p, i)
    ensures Contains(s, p)
  {
  }

  /** A pattern with a character the text lacks does not occur in it. */
  lemma MissingCharNotContained(s: string, p: string, c: char)
    requires c in p && c !in s
    ensures !Contains(s, p)
  {
  }

  /** A letter absent from a text in both cases is absent from its lower-cased form. */
  lemma MissingFromLower(s: string, c: char)
    requires 'a' <= c <= 'z'
    requires c !in s && (c as int - 32) as char !in s
    ensures c !in Lower(s)
  {
  }

  /** Lower-casing distributes over concatenation. */
  lemma {:induction false} LowerAppend(a: string, b: string)
    ensures Lower(a + b) == Lower(a) + Lower(b)
  {
    assert |Lower(a + b)| == |Lower(a) + Lower(b)|;
    forall i | 0 <= i < |a + b|
      ensures Lower(a + b)[i] == (Lower(a) + Lower(b))[i]
    {
      if i < |a| {
      } else {
        assert (a + b)[i] == b[i - |a|];
      }
    }
  }

  /** Whatever a prefix contains, the whole string contains. */
  lemma ContainsInPrefix(a: string, b: string, p: string)
    requires Contains(a, p)
    ensures Contains(a + b, p)
  {
    var i :| OccursAt(a, p, i);
    assert (a + b)[i..i + |p|] == a[i..i + |p|];
    OccursContains(a + b, p, i);
  }

  /** Whatever a suffix contains, the whole string contains. */
  lemma ContainsInSuffix(a: string, b: string, p: string)
    requires Contains(b, p)
    ensures Contains(a + b, p)
  {
    var i :| OccursAt(b, p, i);
    assert (a + b)[|a| + i..|a| + i + |p|] == b[i..i + |p|];
    OccursContains(a + b, p, |a| + i);
  }

  /** A string contains its own prefix. */
  lemma StartsWithContains(a: string, b: string)
    ensures Contains(a + b, a)
  {
    assert (a + b)[..|a|] == a;
  }

  /**
   The whitespace set that `trim` removes in this model: space, tab, line feed,
   vertical tab, form feed, carriage return, no-break space and the byte-order mark.
   */
  predicate IsWhitespace(c: char) {
    c == ' ' || c == '\t' || c == '\n' || c == '\U{000B}' || c == '\U{000C}'
    || c == '\r' || c == '\U{00A0}' || c == '\U{FEFF}'
  }

  predicate AllWhitespace(s: string) {
    forall i :: 0 <= i < |s| ==> IsWhitespace(s[i])
  }

  /** `s.trimStart()`: the longest suffix of `s` not starting with whitespace. */
  function TrimStart(s: string): (r: string)
    ensures |r| <= |s| && r == s[|s| - |r|..]
    ensures AllWhitespace(s[..|s| - |r|])
    ensures |r| > 0 ==> !IsWhitespace(r[0])
  {
    if |s| > 0 && IsWhitespace(s[0]) then TrimStart(s[1..]) else s
  }

  /** `s.trimEnd()`: the longest prefix of `s` not ending with whitespace. */
  function TrimEnd(s: string): (r: string)
    ensures |r| <= |s| && r == s[..|r|]
    ensures AllWhitespace(s[|r|..])
    ensures |r| > 0 ==> !IsWhitespace(r[|r| - 1])
  {
    if |s| > 0 && IsWhitespace(s[|s| - 1]) then TrimEnd(s[..|s| - 1]) else s
  }

  lemma TrimEndEmpty(s: string)
    ensures TrimEnd(s) == [] <==> AllWhitespace(s)
  {
    var r := TrimEnd(s);
    if r != [] {
      assert s[|r| - 1] == r[|r| - 1];
    } else {
      assert s[0..] == s;
    }
  }

  /** Dropping leading whitespace does not change whether a string is all whitespace. */
  lemma AllWhitespaceAfterTrimStart(s: string)
    ensures AllWhitespace(TrimStart(s)) <==> AllWhitespace(s)
  {
    if |s| > 0 && IsWhitespace(s[0]) {
      AllWhitespaceAfterTrimStart(s[1..]);
      assert forall i :: 1 <= i < |s| ==> s[i] == s[1..][i - 1];
    }
  }

  /** `s.trim()`: empty exactly when `s` is all whitespace, otherwise `s` with exactly its leading and trailing whitespace removed. */
  function Trim(s: string): (r: string)
    ensures r == [] <==> AllWhitespace(s)
    ensures |r| > 0 ==> !IsWhitespace(r[0]) && !IsWhitespace(r[|r| - 1])
    ensures exists a :: TrimmedAt(s, r, a)
  {
    TrimIsBlankIff(s);
    TrimIsPiece(s);
    TrimEnd(TrimStart(s))
  }

  /** `r` occurs in `s` at `a`, and everything before and after it is whitespace. */
  predicate TrimmedAt(s: string, r: string, a: int) {
    OccursAt(s, r, a) && AllWhitespace(s[..a]) && AllWhitespace(s[a + |r|..])
  }

  lemma TrimIsBlankIff(s: string)
    ensures TrimEnd(TrimStart(s)) == [] <==> AllWhitespace(s)
  {
    AllWhitespaceAfterTrimStart(s);
    TrimEndEmpty(TrimStart(s));
  }

  lemma TrimIsPiece(s: string)
    ensures var t := TrimStart(s);
      var r := TrimEnd(t);
      var a := |s| - |t|;
      && (|r| > 0 ==> !IsWhitespace(r[0]) && !IsWhitespace(r[|r| - 1]))
      && TrimmedAt(s, r, a)
  {
    WhitespaceAround(s, TrimStart(s), TrimEnd(TrimStart(s)));
  }

  /** A prefix `r` of a suffix `t` of `s`, with whitespace dropped on both sides, sits in `s` between them. */
  lemma WhitespaceAround(s: string, t: string, r: string)
    requires |t| <= |s| && t == s[|s| - |t|..] && AllWhitespace(s[..|s| - |t|])
    requires |r| <= |t| && r == t[..|r|] && AllWhitespace(t[|r|..])
    ensures TrimmedAt(s, r, |s| - |t|)
  {
    var a := |s| - |t|;
    PrefixOfSuffix(s, a, |r|);
    SuffixOfSuffix(s, a, |r|);
  }

  lemma PrefixOfSuffix(s: string, k: nat, n: nat)
    requires k + n <= |s|
    ensures s[k..][..n] == s[k..k + n]
  {
  }

  lemma SuffixOfSuffix(s: string, k: nat, n: nat)
    requires k + n <= |s|
    ensures s[k..][n..] == s[k + n..]
  {
  }

  /** `!s.trim()`: the string is empty or made only of whitespace. */
  predicate IsBlank(s: string)
    ensures IsBlank(s) <==> AllWhitespace(s)
  {
    Trim(s) == []
  }
}
