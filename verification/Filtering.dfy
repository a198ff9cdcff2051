/** The order-preserving filter that several loops compute. */
module Filtering {

  function Filter<T>(p: T -> bool, s: seq<T>): (r: seq<T>)
    ensures |r| <= |s|
  {
    if s == [] then []
    else Filter(p, s[..|s| - 1]) + if p(s[|s| - 1]) then [s[|s| - 1]] else []
  }

  lemma FilterNext<T>(p: T -> bool, s: seq<T>, k: nat)
    requires k < |s|
    ensures Filter(p, s[..k + 1]) == if p(s[k]) then Filter(p, s[..k]) + [s[k]] else Filter(p, s[..k])
  {
    assert s[..k + 1][..k] == s[..k];
  }

  /** Every element that satisfies p is kept as often as it occurs, and no other is. */
  lemma {:induction false} FilterKeeps<T>(p: T -> bool, s: seq<T>, x: T)
    ensures multiset(Filter(p, s))[x] == if p(x) then multiset(s)[x] else 0
  {
    if s != [] {
      FilterKeeps(p, s[..|s| - 1], x);
      assert s == s[..|s| - 1] + [s[|s| - 1]];
    }
  }

  /** The kept elements stay in order: filtering commutes with cutting anywhere. */
  lemma {:induction false} FilterConcat<T>(p: T -> bool, a: seq<T>, b: seq<T>)
    ensures Filter(p, a + b) == Filter(p, a) + Filter(p, b)
    decreases |b|
  {
    if b == [] {
      assert a + b == a;
    } else {
      FilterConcat(p, a, b[..|b| - 1]);
      assert (a + b)[..|a + b| - 1] == a + b[..|b| - 1] && (a + b)[|a + b| - 1] == b[|b| - 1];
    }
  }

  /** Filtering goes through a list from its first element on. */
  lemma FilterFirst<T>(p: T -> bool, x: T, rest: seq<T>)
    ensures Filter(p, [x] + rest) == if p(x) then [x] + Filter(p, rest) else Filter(p, rest)
  {
    FilterConcat(p, [x], rest);
    assert [x][..0] == [];
  }

  lemma {:induction false} FilterGrows<T>(p: T -> bool, s: seq<T>, k: nat)
    requires k <= |s|
    ensures |Filter(p, s[..k])| <= |Filter(p, s)|
  {
    FilterConcat(p, s[..k], s[k..]);
    assert s[..k] + s[k..] == s;
  }
}
