/** The fixed-width big-endian integers (`to_be_bytes`/`from_be_bytes`) of the wire formats. */
module Bytes {
  import opened Base

  /** The number of values that fit in `w` bytes. */
  function Range(w: nat): (r: nat)
    ensures r >= 1
  {
    if w == 0 then 1 else 256 * Range(w - 1)
  }

  /** The low `w` bytes of `x`, most significant first: `(x as uN).to_be_bytes()`. */
  function Be(x: nat, w: nat): (s: seq<Byte>)
    ensures |s| == w
  {
    if w == 0 then [] else Be(x / 256, w - 1) + [x % 256]
  }

  function FromBe(s: seq<Byte>): nat {
    if s == [] then 0 else 256 * FromBe(s[..|s| - 1]) + s[|s| - 1]
  }

  lemma RangeValues()
    ensures Range(2) == U16 && Range(4) == U32 && Range(8) == U64
  {
    assert Range(1) == 256 && Range(2) == 256 * 256 && Range(3) == 256 * Range(2) && Range(4) == 256 * Range(3);
    assert Range(5) == 256 * Range(4) && Range(6) == 256 * Range(5) && Range(7) == 256 * Range(6);
  }

  lemma {:induction false} FromBeBound(s: seq<Byte>)
    ensures FromBe(s) < Range(|s|)
  {
    if s != [] {
      FromBeBound(s[..|s| - 1]);
    }
  }

  /** A value that fits the width is read back as it was written. */
  lemma {:induction false} BeRoundTrip(x: nat, w: nat)
    requires x < Range(w)
    ensures FromBe(Be(x, w)) == x
  {
    if w > 0 {
      BeRoundTrip(x / 256, w - 1);
      assert Be(x, w)[..w - 1] == Be(x / 256, w - 1);
    }
  }

  /** Which byte is where: the most significant first. */
  lemma {:induction false} BeAt(x: nat, w: nat, k: nat)
    requires k < w
    ensures Be(x, w)[k] == x / Range(w - 1 - k) % 256
  {
    if k < w - 1 {
      BeAt(x / 256, w - 1, k);
      DivideTwice(x, Range(w - 2 - k));
    }
  }

  lemma Associates(a: nat, b: nat, q: nat)
    ensures a * (b * q) == (a * b) * q
  {
  }

  lemma DivideTwice(x: nat, b: nat)
    requires b > 0
    ensures x / 256 / b == x / (256 * b)
  {
    var y, s := x / 256, x % 256;
    var q, r := y / b, y % b;
    var pq := b * q;
    assert x == 256 * y + s && y == pq + r;
    Associates(256, b, q);
    DivisionIsUnique(x, 256 * b, q, 256 * r + s);
  }

  /** Distinct values that fit the width have distinct encodings. */
  lemma BeInjective(x: nat, y: nat, w: nat)
    requires x < Range(w) && y < Range(w)
    requires Be(x, w) == Be(y, w)
    ensures x == y
  {
    BeRoundTrip(x, w);
    BeRoundTrip(y, w);
  }

  lemma TwoByteValue(hi: Byte, lo: Byte)
    ensures FromBe([hi, lo]) == 256 * hi + lo
  {
    var s: seq<Byte> := [hi, lo];
    assert s[..1] == [hi];
    var one: seq<Byte> := [hi];
    var none: seq<Byte> := one[..0];
    assert |none| == 0 && FromBe(one) == 256 * FromBe(none) + hi;
  }
}
