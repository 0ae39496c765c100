/** Account identifiers and the canonical pool key built from two of them.

    A NEAR account id never contains ':', which is what makes the key
    `lo + ":" + hi` unambiguous.  Rust's `String` ordering is lexicographic
    over code points; `LexLe` below is that ordering written out, since
    Dafny's own `<=` on sequences means "is a prefix of".
 */
module Accounts {

  /** An account or token-contract id (only the ':'-freedom of NEAR ids is modelled). */
  type AccountId = s: string | ':' !in s

  /** The canonical key under which a pool is stored. */
  type PoolKey = string

  /** Lexicographic "less than or equal" on strings. */
  predicate LexLe(a: string, b: string)
    decreases |a|
  {
    if |a| == 0 then true
    else if |b| == 0 then false
    else if a[0] != b[0] then a[0] < b[0]
    else LexLe(a[1..], b[1..])
  }

  /** Any two strings are comparable. */
  lemma {:induction false} LexLeTotal(a: string, b: string)
    ensures LexLe(a, b) || LexLe(b, a)
    decreases |a|
  {
    if |a| != 0 && |b| != 0 && a[0] == b[0] {
      LexLeTotal(a[1..], b[1..]);
    }
  }

  /** Two strings ordered both ways are equal. */
  lemma {:induction false} LexLeAntisymmetric(a: string, b: string)
    requires LexLe(a, b) && LexLe(b, a)
    ensures a == b
    decreases |a|
  {
    if |a| != 0 && |b| != 0 {
      LexLeAntisymmetric(a[1..], b[1..]);
      assert a == [a[0]] + a[1..];
      assert b == [b[0]] + b[1..];
    }
  }

  /** The pair key: both ids in ascending order, joined by ':'. */
  function GetPoolKey(tokenA: AccountId, tokenB: AccountId): (key: PoolKey)
    ensures |key| == |tokenA| + |tokenB| + 1
  {
    if LexLe(tokenA, tokenB) then tokenA + ":" + tokenB else tokenB + ":" + tokenA
  }

  /** The key does not depend on the order of its arguments. */
  lemma PoolKeySymmetric(tokenA: AccountId, tokenB: AccountId)
    ensures GetPoolKey(tokenA, tokenB) == GetPoolKey(tokenB, tokenA)
  {
    LexLeTotal(tokenA, tokenB);
    if LexLe(tokenA, tokenB) && LexLe(tokenB, tokenA) {
      LexLeAntisymmetric(tokenA, tokenB);
    }
  }

  /** Index of the first ':' in `s`, or `|s|` when there is none. */
  function FirstColon(s: string): (i: nat)
    ensures i <= |s|
  {
    if |s| == 0 || s[0] == ':' then 0 else 1 + FirstColon(s[1..])
  }

  /** In `x + ":" + y` the first ':' is the separator. */
  lemma {:induction false} FirstColonOfJoin(x: AccountId, y: string)
    ensures FirstColon(x + ":" + y) == |x|
    decreases |x|
  {
    if |x| != 0 {
      assert x[0] in x;
      var tail: AccountId := x[1..];
      assert (x + ":" + y)[1..] == tail + ":" + y;
      FirstColonOfJoin(tail, y);
    }
  }

  /** Splitting `x + ":" + y` at its first ':' recovers x and y. */
  lemma JoinInjective(x1: AccountId, y1: string, x2: AccountId, y2: string)
    requires x1 + ":" + y1 == x2 + ":" + y2
    ensures x1 == x2 && y1 == y2
  {
    var joined := x1 + ":" + y1;
    FirstColonOfJoin(x1, y1);
    FirstColonOfJoin(x2, y2);
    assert x1 == joined[..|x1|];
    assert x2 == (x2 + ":" + y2)[..|x2|];
    assert y1 == joined[|x1| + 1..];
    assert y2 == (x2 + ":" + y2)[|x2| + 1..];
  }

  /** Equal keys name the same unordered pair of tokens. */
  lemma PoolKeyInjective(a: AccountId, b: AccountId, c: AccountId, d: AccountId)
    requires GetPoolKey(a, b) == GetPoolKey(c, d)
    ensures (a == c && b == d) || (a == d && b == c)
  {
    if LexLe(a, b) {
      if LexLe(c, d) { JoinInjective(a, b, c, d); } else { JoinInjective(a, b, d, c); }
    } else {
      if LexLe(c, d) { JoinInjective(b, a, c, d); } else { JoinInjective(b, a, d, c); }
    }
  }
}
