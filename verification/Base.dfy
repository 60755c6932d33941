/** Shared vocabulary: optional values, bytes, and the widths of the unsigned integers of the sources. */
module Base {
  /** Rust's `Option`, and `undefined`/`null` on the server side. */
  datatype Option<+T> = None | Some(value: T)

  type Byte = x: int | 0 <= x < 256

  const U16: nat := 0x1_0000
  const U32: nat := 0x1_0000_0000
  const U64: nat := 0x1_0000_0000_0000_0000

  function Min(a: nat, b: nat): nat { if a <= b then a else b }

  lemma Assoc<T>(a: seq<T>, b: seq<T>, c: seq<T>)
    ensures a + (b + c) == a + b + c
  {
  }

  lemma MoveFront<T>(a: seq<T>, b: seq<T>)
    requires b != []
    ensures a + b == a + [b[0]] + b[1..]
  {
  }

  ghost predicate Distinct<T>(s: seq<T>) { forall j, k :: 0 <= j < k < |s| ==> s[j] != s[k] }

  /** `f` says where in `b` the elements of `a` are, in the same order. */
  ghost predicate Embeds<T>(a: seq<T>, b: seq<T>, f: seq<nat>) {
    && |f| == |a|
    && (forall k :: 0 <= k < |a| ==> f[k] < |b| && a[k] == b[f[k]])
    && forall j, k :: 0 <= j < k < |f| ==> f[j] < f[k]
  }

  /** `a` is `b` with some elements left out. */
  ghost predicate Subsequence<T>(a: seq<T>, b: seq<T>) { exists f: seq<nat> :: Embeds(a, b, f) }

  lemma SubsequenceSnoc<T>(a: seq<T>, b: seq<T>, x: T)
    requires Subsequence(a, b)
    ensures Subsequence(a, b + [x]) && Subsequence(a + [x], b + [x])
  {
    var f: seq<nat> :| Embeds(a, b, f);
    assert Embeds(a, b + [x], f);
    assert Embeds(a + [x], b + [x], f + [|b|]);
  }

  lemma MultipleBound(m: nat, d: int)
    ensures d >= 1 ==> m * d >= m
    ensures d <= -1 ==> m * d + m <= 0
  {
    if d >= 1 {
      assert m * d == m + m * (d - 1);
    } else if d <= -1 {
      assert m * d + m == -(m * (-d - 1));
    }
  }

  lemma DivisionIsUnique(x: nat, m: nat, q: nat, r: nat)
    requires m > 0 && x == m * q + r && r < m
    ensures x % m == r && x / m == q
  {
    var d := q - x / m;
    assert m * d == m * q - m * (x / m) == x % m - r;
    MultipleBound(m, d);
  }

  /** `wrapping_add(1)` commutes with taking a running count modulo the width. */
  lemma WrapNext(n: nat, m: nat)
    requires m > 0
    ensures (n % m + 1) % m == (n + 1) % m
  {
    var q, r := n / m, n % m;
    if r + 1 == m {
      assert n + 1 == m * (q + 1) + 0 by { assert m * (q + 1) == m * q + m; }
      DivisionIsUnique(n + 1, m, q + 1, 0);
      DivisionIsUnique(m, m, 1, 0);
    } else {
      DivisionIsUnique(n + 1, m, q, r + 1);
      DivisionIsUnique(r + 1, m, 0, r + 1);
    }
  }
}
