/**
 * The two string helpers the JNDI source relies on: `StringUtils.trim`, which
 * is `String.trim()` (drop every leading and trailing character at or below
 * U+0020), and `StringUtils.split(value, " ,")`, which cuts a string into the
 * maximal runs of characters that are neither a space nor a comma.
 */
module StringUtils {

  // ---------------------------------------------------------------- trim

  /** The characters `String.trim()` removes: controls and the space. */
  predicate IsTrimmable(c: char) {
    c <= ' '
  }

  ghost predicate AllTrimmable(s: string) {
    forall i :: 0 <= i < |s| ==> IsTrimmable(s[i])
  }

  /** `s` without its leading trimmable characters: the longest suffix that does not start with one. */
  function StripLeading(s: string): (r: string)
    ensures |r| <= |s| && r == s[|s| - |r|..]
    ensures AllTrimmable(s[..|s| - |r|])
    ensures r != [] ==> !IsTrimmable(r[0])
    decreases |s|
  {
    if s != [] && IsTrimmable(s[0]) then
      var r := StripLeading(s[1..]);
      assert s[..|s| - |r|] == [s[0]] + s[1..][..|s| - 1 - |r|];
      r
    else s
  }

  /** `s` without its trailing trimmable characters: the longest prefix that does not end with one. */
  function StripTrailing(s: string): (r: string)
    ensures |r| <= |s| && r == s[..|r|]
    ensures AllTrimmable(s[|r|..])
    ensures r != [] ==> !IsTrimmable(r[|r| - 1])
    decreases |s|
  {
    if s != [] && IsTrimmable(s[|s| - 1]) then
      var r := StripTrailing(s[..|s| - 1]);
      assert s[|r|..] == s[..|s| - 1][|r|..] + [s[|s| - 1]];
      r
    else s
  }

  /** `r` is `s[lo..]` up to padding: everything of `s` before `lo` and after `r` is trimmable. */
  ghost predicate PaddedInfix(s: string, r: string, lo: int) {
    0 <= lo <= |s| - |r| && s[lo..lo + |r|] == r && AllTrimmable(s[..lo]) && AllTrimmable(s[lo + |r|..])
  }

  /**
   * `StringUtils.trim(s)`: the infix of `s` left once the trimmable padding on
   * both sides is dropped.
   */
  function Trim(s: string): (r: string)
    ensures exists lo :: PaddedInfix(s, r, lo)
    ensures r != [] ==> !IsTrimmable(r[0])
    ensures r != [] ==> !IsTrimmable(r[|r| - 1])
  {
    var t := StripLeading(s);
    var r := StripTrailing(t);
    InfixOfInfix(s, t, r);
    r
  }

  /**
   * An unpadded prefix of an unpadded suffix is an unpadded infix: the
   * composition `Trim` performs.
   */
  lemma InfixOfInfix(s: string, t: string, r: string)
    requires |t| <= |s| && t == s[|s| - |t|..] && AllTrimmable(s[..|s| - |t|])
    requires t != [] ==> !IsTrimmable(t[0])
    requires |r| <= |t| && r == t[..|r|] && AllTrimmable(t[|r|..])
    requires r != [] ==> !IsTrimmable(r[|r| - 1])
    ensures PaddedInfix(s, r, |s| - |t|)
    ensures r != [] ==> !IsTrimmable(r[0])
  {
    assert r != [] ==> r[0] == t[0];
    var lo := |s| - |t|;
    assert s[lo..lo + |r|] == r;
    assert s[lo + |r|..] == t[|r|..];
  }

  /** Trimming gives the empty string exactly when the input is all padding. */
  lemma TrimEmptyIffAllTrimmable(s: string)
    ensures Trim(s) == [] <==> AllTrimmable(s)
  {
    var r := Trim(s);
    var lo :| PaddedInfix(s, r, lo);
    if r == [] {
      forall i | 0 <= i < |s| ensures IsTrimmable(s[i]) {
        if i < lo {
          assert s[i] == s[..lo][i];
        } else {
          assert s[i] == s[lo..][i - lo];
        }
      }
    } else {
      assert r[0] == s[lo];
    }
  }

  /** Trimming leaves a string that has no padding on either side as it is. */
  lemma {:induction false} TrimUnpadded(s: string)
    requires s != [] && !IsTrimmable(s[0]) && !IsTrimmable(s[|s| - 1])
    ensures Trim(s) == s
  {
    assert StripLeading(s) == s;
    assert StripTrailing(s) == s;
  }

  // ---------------------------------------------------------------- split

  /** The separator characters of `StringUtils.split(value, " ,")`. */
  predicate IsSeparator(c: char) {
    c == ' ' || c == ','
  }

  /** A token of a split: non-empty and free of separators. */
  ghost predicate IsToken(t: string) {
    t != [] && forall i :: 0 <= i < |t| ==> !IsSeparator(t[i])
  }

  /** The length of the longest prefix of `s` that holds no separator. */
  function TokenLength(s: string): (n: nat)
    ensures n <= |s|
    ensures forall i :: 0 <= i < n ==> !IsSeparator(s[i])
    ensures n == |s| || IsSeparator(s[n])
  {
    if s == [] || IsSeparator(s[0]) then 0
    else
      var n := TokenLength(s[1..]);
      assert n < |s| - 1 ==> s[1..][n] == s[n + 1];
      1 + n
  }

  /**
   * `StringUtils.split(s, " ,")`: the maximal separator-free runs of `s`, in
   * order. Leading, trailing and repeated separators produce no empty token.
   */
  function Split(s: string): (r: seq<string>)
    ensures s == [] ==> r == []
    ensures forall k :: 0 <= k < |r| ==> IsToken(r[k])
    decreases |s|
  {
    if s == [] then []
    else if IsSeparator(s[0]) then Split(s[1..])
    else
      var n := TokenLength(s);
      [s[..n]] + Split(s[n..])
  }

  /** A lone token splits into itself. */
  lemma {:induction false} SplitToken(t: string)
    requires IsToken(t)
    ensures Split(t) == [t]
  {
    assert !IsSeparator(t[0]);
    assert TokenLength(t) == |t|;
    assert t[..|t|] == t && t[|t|..] == [];
  }

  /** The token length of `a + b` is that of `a`, unless `a` holds no separator at all. */
  lemma {:induction false} TokenLengthOfConcat(a: string, b: string)
    ensures TokenLength(a + b) == if TokenLength(a) < |a| then TokenLength(a) else |a| + TokenLength(b)
    decreases |a|
  {
    if a == [] {
      assert a + b == b;
    } else {
      assert (a + b)[0] == a[0];
      if !IsSeparator(a[0]) {
        assert (a + b)[1..] == a[1..] + b;
        TokenLengthOfConcat(a[1..], b);
      }
    }
  }

  /**
   * Splitting distributes over a separator: whatever stands left of one
   * separator and whatever stands right of it split independently. With
   * SplitToken and Split("") == [] this determines Split completely.
   */
  lemma {:induction false} SplitAtSeparator(a: string, c: char, b: string)
    requires IsSeparator(c)
    ensures Split(a + [c] + b) == Split(a) + Split(b)
    decreases |a|
  {
    var s := a + [c] + b;
    if a == [] {
      assert s[1..] == b;
    } else if IsSeparator(a[0]) {
      assert s[1..] == a[1..] + [c] + b;
      SplitAtSeparator(a[1..], c, b);
    } else {
      var m := TokenLength(a);
      TokenLengthOfConcat(a, [c] + b);
      assert s == a + ([c] + b);
      if m == |a| {
        assert ([c] + b)[0] == c && ([c] + b)[1..] == b;
        assert Split([c] + b) == Split(b);
        assert s[..m] == a && s[m..] == [c] + b;
        assert a[..m] == a && a[m..] == [];
      } else {
        assert s[..m] == a[..m];
        assert s[m..] == a[m..] + [c] + b;
        SplitAtSeparator(a[m..], c, b);
      }
    }
  }

  /** A run of two separators splits like a single one. */
  lemma {:induction false} SeparatorRunsCollapse(a: string, c: char, d: char, b: string)
    requires IsSeparator(c) && IsSeparator(d)
    ensures Split(a + [c, d] + b) == Split(a + [c] + b)
  {
    assert a + [c, d] + b == a + [c] + ([d] + b);
    SplitAtSeparator(a, c, [d] + b);
    SplitAtSeparator([], d, b);
    assert [] + [d] + b == [d] + b;
    SplitAtSeparator(a, c, b);
  }

  /** The concatenation of a sequence of strings. */
  function Concat(ts: seq<string>): string {
    if ts == [] then [] else ts[0] + Concat(ts[1..])
  }

  /** `s` with every separator removed and every other character kept in order. */
  function WithoutSeparators(s: string): string {
    if s == [] then []
    else (if IsSeparator(s[0]) then [] else [s[0]]) + WithoutSeparators(s[1..])
  }

  lemma {:induction false} WithoutSeparatorsKeepsRun(t: string, rest: string)
    requires forall i :: 0 <= i < |t| ==> !IsSeparator(t[i])
    ensures WithoutSeparators(t + rest) == t + WithoutSeparators(rest)
    decreases |t|
  {
    if t != [] {
      assert (t + rest)[1..] == t[1..] + rest;
      WithoutSeparatorsKeepsRun(t[1..], rest);
      assert t == [t[0]] + t[1..];
    } else {
      assert t + rest == rest;
    }
  }

  /**
   * The tokens of a split, put back together, are exactly the non-separator
   * characters of the input in their original order: nothing is dropped,
   * duplicated or reordered.
   */
  lemma {:induction false} SplitKeepsEveryOtherCharacter(s: string)
    ensures Concat(Split(s)) == WithoutSeparators(s)
    decreases |s|
  {
    if s == [] {
    } else if IsSeparator(s[0]) {
      SplitKeepsEveryOtherCharacter(s[1..]);
    } else {
      var n := TokenLength(s);
      var rest := Split(s[n..]);
      SplitKeepsEveryOtherCharacter(s[n..]);
      assert ([s[..n]] + rest)[1..] == rest;
      assert s == s[..n] + s[n..];
      WithoutSeparatorsKeepsRun(s[..n], s[n..]);
    }
  }

  /** A token followed by a separator is the first token of the split. */
  lemma LeadingToken(t: string, c: char, b: string)
    requires IsToken(t) && IsSeparator(c)
    ensures Split(t + [c] + b) == [t] + Split(b)
  {
    SplitAtSeparator(t, c, b);
    SplitToken(t);
  }

  /** A leading separator is skipped. */
  lemma LeadingSeparator(c: char, b: string)
    requires IsSeparator(c)
    ensures Split([c] + b) == Split(b)
  {
    SplitAtSeparator([], c, b);
    assert [] + [c] + b == [c] + b;
  }

  /**
   * The legacy rule's example, "a, b  c" gives a, b and c, stated for any
   * three non-separator characters in place of a, b and c.
   */
  lemma SplitExample(a: char, b: char, c: char)
    requires !IsSeparator(a) && !IsSeparator(b) && !IsSeparator(c)
    ensures Split([a, ',', ' ', b, ' ', ' ', c]) == [[a], [b], [c]]
  {
    var tailC := [' ', c];
    LeadingSeparator(' ', [c]);
    SplitToken([c]);
    assert Split(tailC) == [[c]];
    var tailB := [' ', b, ' ', ' ', c];
    assert tailB == [' '] + ([b] + [' '] + tailC);
    LeadingToken([b], ' ', tailC);
    LeadingSeparator(' ', [b] + [' '] + tailC);
    assert Split(tailB) == [[b], [c]];
    assert [a, ',', ' ', b, ' ', ' ', c] == [a] + [','] + tailB;
    LeadingToken([a], ',', tailB);
  }

  /** Mixed separators, as in "a,b, c": any three non-separator characters split apart. */
  lemma SplitHostsExample(a: char, b: char, c: char)
    requires !IsSeparator(a) && !IsSeparator(b) && !IsSeparator(c)
    ensures Split([a, ',', b, ',', ' ', c]) == [[a], [b], [c]]
  {
    assert [a, ',', b, ',', ' ', c] == [a] + [','] + [b, ',', ' ', c];
    assert [b, ',', ' ', c] == [b] + [','] + [' ', c];
    LeadingToken([a], ',', [b, ',', ' ', c]);
    LeadingToken([b], ',', [' ', c]);
    LeadingSeparator(' ', [c]);
    SplitToken([c]);
  }
}
