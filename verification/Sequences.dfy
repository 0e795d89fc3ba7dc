/** Finding the parts of a list that was put together from them. */
module Sequences {
  /** A stretch of the list around its token j. */
  lemma {:induction false} AroundToken<T>(ts: seq<T>, i: nat, j: nat, k: nat)
    requires i <= j < k <= |ts|
    ensures ts[i..k] == ts[i..j] + [ts[j]] + ts[j + 1..k]
  {
  }

  /** Finding a token and what stands on its two sides. */
  lemma {:induction false} SplitAtToken<T>(ts: seq<T>, pos: nat, k: nat, a: seq<T>, t: T, c: seq<T>)
    requires pos <= k <= |ts| && ts[pos..k] == a + [t] + c
    ensures var j := pos + |a|;
            && j < k == j + 1 + |c| && ts[pos..j] == a && ts[j] == t && ts[j + 1..k] == c
  {
    var j, w := pos + |a|, ts[pos..k];
    assert |w| == |a| + 1 + |c|;
    assert w[|a|] == t;
    AroundToken(ts, pos, j, k);
    SameParts(ts[pos..j], [ts[j]], ts[j + 1..k], a, [t], c);
  }

  lemma {:induction false} SameParts<T>(a: seq<T>, b: seq<T>, c: seq<T>, a': seq<T>, b': seq<T>, c': seq<T>)
    requires a + b + c == a' + b' + c' && |a| == |a'| && |b| == |b'|
    ensures a == a' && b == b' && c == c'
  {
    var w := a + b + c;
    assert a == w[..|a|] && b == w[|a|..|a| + |b|] && c == w[|a| + |b|..];
    assert a' == w[..|a|] && b' == w[|a|..|a| + |b|] && c' == w[|a| + |b|..];
  }

  lemma {:induction false} AroundTwoTokens<T>(ts: seq<T>, i: nat, j: nat, k: nat, n: nat)
    requires i <= j < k < n <= |ts|
    ensures ts[i..n] == ts[i..j] + [ts[j]] + ts[j + 1..k] + [ts[k]] + ts[k + 1..n]
  {
    AroundToken(ts, i, k, n);
    AroundToken(ts, i, j, k);
  }

  lemma {:induction false} SplitAtTokens<T>(ts: seq<T>, pos: nat, k: nat, a: seq<T>, t: T, b: seq<T>, u: T, c: seq<T>)
    requires pos <= k <= |ts| && ts[pos..k] == a + [t] + b + [u] + c
    ensures var i := pos + |a|;
            && i < k && ts[pos..i] == a && ts[i] == t
            && var j := i + 1 + |b|;
               && j < k == j + 1 + |c| && ts[i + 1..j] == b && ts[j] == u && ts[j + 1..k] == c
  {
    SplitAtToken(ts, pos, k, a + [t] + b, u, c);
    SplitAtToken(ts, pos, pos + |a| + 1 + |b|, a, t, b);
  }
}
