/** Small vocabulary for talking about text built by concatenation. */
module Strings {

  /** `x` occurs in `s` starting at position `i`. */
  predicate OccursAt(s: string, x: string, i: int) {
    0 <= i && i + |x| <= |s| && s[i..i + |x|] == x
  }

  /** `x` occurs in `s` as a contiguous block. */
  ghost predicate Contains(s: string, x: string) {
    exists i :: OccursAt(s, x, i)
  }

  /** `p` is a prefix of `s`. */
  predicate StartsWith(s: string, p: string) {
    |p| <= |s| && s[..|p|] == p
  }

  /** `x` wrapped in double quotes, as the templates write `"' + x + '"`. */
  function Quote(x: string): string {
    "\"" + x + "\""
  }

  /** Whatever is glued around a block, the block is still in there. */
  lemma ContainsInfix(a: string, x: string, b: string)
    ensures Contains(a + x + b, x)
  {
    var s := a + x + b;
    assert s[|a|..|a| + |x|] == x;
    assert OccursAt(s, x, |a|);
  }

  /** A block is in any text that ends with it. */
  lemma ContainsEnd(a: string, x: string)
    ensures Contains(a + x, x)
  {
    assert (a + x)[|a|..|a| + |x|] == x;
    assert OccursAt(a + x, x, |a|);
  }

  /** Two glued texts that agree, cut at the same place, agree piece by
      piece. */
  lemma SplitEqual(x1: string, b1: string, x2: string, b2: string)
    requires x1 + b1 == x2 + b2 && |x1| == |x2|
    ensures x1 == x2 && b1 == b2
  {
    assert x1 == (x1 + b1)[..|x1|];
    assert x2 == (x2 + b2)[..|x2|];
    assert b1 == (x1 + b1)[|x1|..];
    assert b2 == (x2 + b2)[|x2|..];
  }

  /** A text starts with whatever it was built from first. */
  lemma StartsWithPrefix(p: string, rest: string)
    ensures StartsWith(p + rest, p)
  {
    assert (p + rest)[..|p|] == p;
  }

  /** Quoting loses nothing. */
  lemma QuoteInjective(x: string, y: string)
    ensures Quote(x) == Quote(y) ==> x == y
  {
    if Quote(x) == Quote(y) {
      assert x == Quote(x)[1..|x| + 1];
      assert y == Quote(y)[1..|y| + 1];
    }
  }

  /** Text appended after an occurrence keeps it. */
  lemma ContainsAppend(s: string, x: string, t: string)
    requires Contains(s, x)
    ensures Contains(s + t, x)
  {
    var i :| OccursAt(s, x, i);
    assert (s + t)[i..i + |x|] == s[i..i + |x|];
    assert OccursAt(s + t, x, i);
  }

  /** The parts glued together in order. */
  function Concat(parts: seq<string>): string
    decreases |parts|
  {
    if |parts| == 0 then "" else parts[0] + Concat(parts[1..])
  }

  /** The glued text splits around any one of its parts. */
  lemma {:induction false} ConcatSplit(parts: seq<string>, k: nat)
    requires k < |parts|
    ensures Concat(parts) == Concat(parts[..k]) + parts[k] + Concat(parts[k + 1..])
    decreases k
  {
    if k > 0 {
      var head, m, z := Concat(parts[1..k]), parts[k], Concat(parts[k + 1..]);
      calc {
        Concat(parts);
        parts[0] + Concat(parts[1..]);
        { ConcatSplit(parts[1..], k - 1);
          assert parts[1..][..k - 1] == parts[1..k];
          assert parts[1..][k..] == parts[k + 1..]; }
        parts[0] + (head + m + z);
        (parts[0] + head) + m + z;
        { assert parts[..k][1..] == parts[1..k]; }
        Concat(parts[..k]) + m + z;
      }
    } else {
      assert parts[..0] == [];
    }
  }

  /** Every part occurs in the glued text. */
  lemma ConcatContainsPart(parts: seq<string>, k: nat)
    requires k < |parts|
    ensures Contains(Concat(parts), parts[k])
  {
    ConcatSplit(parts, k);
    ContainsInfix(Concat(parts[..k]), parts[k], Concat(parts[k + 1..]));
  }

  /** Whatever occurs in a part occurs in the glued text. */
  lemma ConcatContainsInPart(parts: seq<string>, k: nat, a: string, x: string, b: string)
    requires k < |parts| && parts[k] == a + x + b
    ensures Contains(Concat(parts), x)
  {
    ConcatSplit(parts, k);
    var pre, post := Concat(parts[..k]), Concat(parts[k + 1..]);
    assert pre + parts[k] + post == (pre + a) + x + (b + post);
    ContainsInfix(pre + a, x, b + post);
  }

  /** The glued text starts with the first part. */
  lemma ConcatStartsWithFirst(parts: seq<string>)
    requires |parts| > 0
    ensures StartsWith(Concat(parts), parts[0])
  {
    StartsWithPrefix(parts[0], Concat(parts[1..]));
  }

  /** The length of the glued text is the sum of the lengths of its parts;
      in particular, replacing one part by a longer or shorter one changes the
      result. */
  lemma ConcatReplaceLength(parts: seq<string>, k: nat, x: string)
    requires k < |parts|
    ensures |Concat(parts[k := x])| == |Concat(parts)| - |parts[k]| + |x|
  {
    var q := parts[k := x];
    ConcatSplit(parts, k);
    ConcatSplit(q, k);
    assert q[..k] == parts[..k];
    assert q[k + 1..] == parts[k + 1..];
  }

  /** Filling an empty part changes the glued text exactly when the filling
      is not empty. */
  lemma ConcatFillEmpty(parts: seq<string>, k: nat, x: string)
    requires k < |parts| && parts[k] == ""
    ensures Concat(parts[k := x]) == Concat(parts) <==> x == ""
  {
    ConcatReplaceLength(parts, k, x);
    if x == "" {
      assert parts[k := x] == parts;
    }
  }
}
