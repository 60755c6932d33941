/** Directional stream encryption: a counter nonce in front of an AEAD ciphertext. */
module Crypto {
  import opened Base
  import opened Bytes

  /** The cipher under one derived stream key, as a pair of functions on (nonce, text). */
  datatype Aead = Aead(
    enc: (seq<Byte>, seq<Byte>) -> seq<Byte>,
    dec: (seq<Byte>, seq<Byte>) -> Option<seq<Byte>>)

  /** All that is assumed of the cipher: what was encrypted decrypts, and the tag takes 16 bytes. */
  ghost predicate Correct(a: Aead) {
    forall n, p :: a.dec(n, a.enc(n, p)) == Some(p) && |a.enc(n, p)| == |p| + 16
  }

  const NONCE: nat := 12

  function NonceOf(counter: nat): (n: seq<Byte>)
    ensures |n| == NONCE
  {
    Be(0, 4) + Be(counter, 8)
  }

  function Seal(a: Aead, counter: nat, plain: seq<Byte>): seq<Byte> {
    NonceOf(counter) + a.enc(NonceOf(counter), plain)
  }

  function Open(a: Aead, msg: seq<Byte>): Option<seq<Byte>> {
    if |msg| < NONCE then None else a.dec(msg[..NONCE], msg[NONCE..])
  }

  class StreamSealer {
    const aead: Aead
    var counter: nat

    constructor (aead: Aead)
      ensures this.aead == aead && counter == 0
    {
      this.aead := aead;
      counter := 0;
    }

    method SealNext(plain: seq<Byte>) returns (msg: seq<Byte>)
      requires counter < U64
      modifies this
      ensures counter == (old(counter) + 1) % U64
      ensures msg == Seal(aead, old(counter), plain)
      ensures Correct(aead) ==> Open(aead, msg) == Some(plain)
    {
      var nonce := Be(0, 4) + Be(counter, 8);
      counter := (counter + 1) % U64;
      var ct := aead.enc(nonce, plain);
      msg := nonce + ct;
      assert msg[..NONCE] == nonce && msg[NONCE..] == ct;
    }
  }

  lemma OpenSeal(a: Aead, counter: nat, plain: seq<Byte>)
    requires Correct(a)
    ensures Open(a, Seal(a, counter, plain)) == Some(plain)
    ensures |Seal(a, counter, plain)| == |plain| + 28
  {
    var n := NonceOf(counter);
    assert Seal(a, counter, plain)[..NONCE] == n && Seal(a, counter, plain)[NONCE..] == a.enc(n, plain);
  }

  /** The nonce in front of a message: four zero bytes and the counter, most significant byte first. */
  lemma NonceLayout(a: Aead, counter: nat, plain: seq<Byte>, k: nat)
    requires k < NONCE
    ensures Seal(a, counter, plain)[k] == if k < 4 then 0 else counter / Range(11 - k) % 256
  {
    if k < 4 {
      BeAt(0, 4, k);
    } else {
      BeAt(counter, 8, k - 4);
    }
  }

  /** The `i`-th and the `j`-th message of a stream share a nonce exactly when they lie a multiple of 2^64 apart. */
  lemma NonceReuseIff(i: nat, j: nat)
    ensures NonceOf(i % U64) == NonceOf(j % U64) <==> i % U64 == j % U64
  {
    if NonceOf(i % U64) == NonceOf(j % U64) {
      RangeValues();
      assert NonceOf(i % U64)[4..] == Be(i % U64, 8) && NonceOf(j % U64)[4..] == Be(j % U64, 8);
      BeInjective(i % U64, j % U64, 8);
    }
  }
}
