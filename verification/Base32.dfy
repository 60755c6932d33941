/**
 * Base32 without padding as in section 6 of RFC 4648, on the unmasked 32-bit accumulator the server uses. The
 * reference is the bit string: five bits per symbol, eight bits per byte, most significant first.
 */
module Base32 {
  import opened Base

  const B32: string := "ABCDEFGHIJKLMNOPQRSTUVWXYZ234567"

  // -------------------------------------------------------------- bit strings

  function Pow2(n: nat): (p: nat)
    ensures p >= 1
  {
    if n == 0 then 1 else 2 * Pow2(n - 1)
  }

  /** The low `w` bits of `v`, most significant first. */
  function ToBits(v: nat, w: nat): (bits: seq<bool>)
    ensures |bits| == w
  {
    if w == 0 then [] else ToBits(v / 2, w - 1) + [v % 2 == 1]
  }

  function Zeros(n: nat): seq<bool> { seq(n, _ => false) }

  function ByteBits(bytes: seq<Byte>): (bits: seq<bool>)
    ensures |bits| == 8 * |bytes|
  {
    if bytes == [] then [] else ByteBits(bytes[..|bytes| - 1]) + ToBits(bytes[|bytes| - 1], 8)
  }

  function SymbolBits(symbols: seq<nat>): (bits: seq<bool>)
    ensures |bits| == 5 * |symbols|
  {
    if symbols == [] then [] else SymbolBits(symbols[..|symbols| - 1]) + ToBits(symbols[|symbols| - 1], 5)
  }

  /** `v >>> n` and `v << n` before it is cut to 32 bits. */
  function Shr(v: nat, n: nat): nat { if n == 0 then v else Shr(v / 2, n - 1) }
  function Shl(v: nat, n: nat): nat { if n == 0 then v else 2 * Shl(v, n - 1) }

  lemma {:induction false} SplitBits(v: nat, a: nat, b: nat)
    ensures ToBits(v, a + b) == ToBits(Shr(v, b), a) + ToBits(v, b)
  {
    if b > 0 {
      SplitBits(v / 2, a, b - 1);
      Assoc(ToBits(Shr(v, b), a), ToBits(v / 2, b - 1), [v % 2 == 1]);
    } else {
      assert ToBits(v, a) + [] == ToBits(v, a);
    }
  }

  lemma LowStep(v: nat, p: nat)
    requires p > 0
    ensures v % (2 * p) == 2 * (v / 2 % p) + v % 2
  {
    var q, r := v / 2 / p, v / 2 % p;
    assert v / 2 == p * q + r;
    assert 2 * (p * q) == (2 * p) * q;
    DivisionIsUnique(v, 2 * p, q, 2 * r + v % 2);
  }

  /** Cutting a number to `k` bits does not change its low `w` bits. */
  lemma {:induction false} LowBits(v: nat, k: nat, w: nat)
    requires w <= k
    ensures ToBits(v % Pow2(k), w) == ToBits(v, w)
  {
    if w > 0 {
      LowStep(v, Pow2(k - 1));
      LowBits(v / 2, k - 1, w - 1);
    }
  }

  lemma {:induction false} BitsInjective(v: nat, u: nat, w: nat)
    requires v < Pow2(w) && u < Pow2(w) && ToBits(v, w) == ToBits(u, w)
    ensures v == u
  {
    if w > 0 {
      var a, b := ToBits(v, w), ToBits(u, w);
      assert a[w - 1] == (v % 2 == 1) && b[w - 1] == (u % 2 == 1);
      assert a[..w - 1] == ToBits(v / 2, w - 1) && b[..w - 1] == ToBits(u / 2, w - 1);
      BitsInjective(v / 2, u / 2, w - 1);
    }
  }

  lemma LastByte(x: seq<Byte>)
    requires x != []
    ensures var n := |x| - 1;
            ByteBits(x)[..8 * n] == ByteBits(x[..n]) && ByteBits(x)[8 * n..] == ToBits(x[n], 8)
  {
  }

  lemma SameLastByte(x: seq<Byte>, y: seq<Byte>)
    requires x != [] && |x| == |y| && ByteBits(x) == ByteBits(y)
    ensures var n := |x| - 1; x[n] == y[n] && ByteBits(x[..n]) == ByteBits(y[..n])
  {
    LastByte(x);
    LastByte(y);
    Powers();
    BitsInjective(x[|x| - 1], y[|x| - 1], 8);
  }

  lemma {:induction false} ByteBitsInjective(x: seq<Byte>, y: seq<Byte>)
    requires ByteBits(x) == ByteBits(y)
    ensures x == y
  {
    assert |x| == |y|;
    if x != [] {
      SameLastByte(x, y);
      ByteBitsInjective(x[..|x| - 1], y[..|x| - 1]);
    }
  }

  lemma {:induction false} ShiftBits(v: nat, a: nat, k: nat)
    ensures ToBits(Shl(v, k), a + k) == ToBits(v, a) + Zeros(k)
  {
    if k == 0 {
      assert ToBits(v, a) + Zeros(0) == ToBits(v, a);
    } else {
      ShiftBits(v, a, k - 1);
      assert Zeros(k) == Zeros(k - 1) + [false];
      Assoc(ToBits(v, a), Zeros(k - 1), [false]);
    }
  }

  // ----------------------------------------------------- the 32-bit accumulator

  lemma Powers()
    ensures Pow2(5) == 32 && Pow2(8) == 256 && Pow2(24) == 0x100_0000 && Pow2(27) == 0x800_0000
  {
    assert Pow2(4) == 16 && Pow2(8) == 256 && Pow2(12) == 4096 && Pow2(16) == 0x1_0000 && Pow2(20) == 0x10_0000;
  }

  lemma ShrIsDivision(v: nat)
    ensures Shr(v, 5) == v / 32 && Shr(v, 8) == v / 256
  {
    var a := v / 2;
    var b := a / 2;
    var c := b / 2;
    var d := c / 2;
    var e := d / 2;
    var f := e / 2;
    var g := f / 2;
    assert Shr(v, 5) == Shr(a, 4) == Shr(b, 3) == Shr(c, 2) == Shr(d, 1) == Shr(e, 0);
    assert Shr(v, 8) == Shr(a, 7) == Shr(b, 6) == Shr(c, 5) == Shr(d, 4) == Shr(e, 3) == Shr(f, 2) == Shr(g, 1);
  }

  /** `value * unit` cut to 32 bits, with `x` below `unit` put in: quotient and remainder by `unit`. */
  lemma Compose(value: nat, unit: nat, top: nat, x: nat)
    requires unit > 0 && top > 0 && unit * top == U32 && x < unit
    ensures var v := value * unit % U32 + x; v / unit == value % top && v % unit == x
  {
    var q, r := value / top, value % top;
    assert value == top * q + r;
    assert value * unit == (unit * top) * q + unit * r;
    MultipleBound(unit, top - 1 - r + 1);
    assert unit * r < unit * top by { assert unit * (top - r) == unit * top - unit * r; }
    DivisionIsUnique(value * unit, U32, q, unit * r);
    DivisionIsUnique(unit * r + x, unit, r, x);
  }

  /** `value << 8` with a byte put in: the pending bits move up and the byte follows them. */
  lemma AppendByte(value: nat, bits: nat, byte: Byte)
    requires bits <= 24
    ensures ToBits(Shift8(value, byte), bits + 8) == ToBits(value, bits) + ToBits(byte, 8)
  {
    var v := Shift8(value, byte);
    Compose(value, 256, 0x100_0000, byte);
    SplitBits(v, bits, 8);
    ShrIsDivision(v);
    Powers();
    LowBits(value, 24, bits);
    LowBits(v, 8, 8);
  }

  /** `(value << 5) | idx` likewise. */
  lemma AppendSymbol(value: nat, bits: nat, idx: nat)
    requires bits <= 24 && idx < 32
    ensures ToBits(value * 32 % U32 + idx, bits + 5) == ToBits(value, bits) + ToBits(idx, 5)
  {
    var v := value * 32 % U32 + idx;
    Compose(value, 32, 0x800_0000, idx);
    SplitBits(v, bits, 5);
    ShrIsDivision(v);
    Powers();
    LowBits(value, 27, bits);
    LowBits(v, 5, 5);
  }

  /** `(value >>> (bits - w)) & (2^w - 1)`: the oldest `w` pending bits. */
  lemma TakeBits(value: nat, bits: nat, w: nat)
    requires w <= bits
    ensures ToBits(value, bits) == ToBits(Shr(value, bits - w) % Pow2(w), w) + ToBits(value, bits - w)
  {
    SplitBits(value, w, bits - w);
    LowBits(Shr(value, bits - w), w, w);
  }

  // -------------------------------------------------------------- the alphabet

  /** `B32.indexOf(ch)`, as `IndexOfFinds` shows. */
  function IndexOf(c: char): (i: int)
    ensures -1 <= i < 32
  {
    if 'A' <= c <= 'Z' then c as int - 'A' as int
    else if '2' <= c <= '7' then 26 + (c as int - '2' as int)
    else -1
  }

  /** The character of a symbol. */
  function SymbolChar(i: nat): (c: char)
    requires i < 32
    ensures IndexOf(c) == i
  {
    if i < 26 then ('A' as int + i) as char else ('2' as int + (i - 26)) as char
  }

  lemma SymbolCharIsB32(i: nat)
    requires i < |B32|
    ensures |B32| == 32 && B32[i] == SymbolChar(i)
  {
  }

  lemma IndexOfFinds(c: char)
    ensures if IndexOf(c) >= 0 then B32[IndexOf(c)] == c else c !in B32
  {
    if c in B32 {
      var i: nat :| i < |B32| && B32[i] == c;
      SymbolCharIsB32(i);
    }
    if IndexOf(c) >= 0 {
      SymbolCharIsB32(IndexOf(c));
    }
  }

  /** The characters beyond ASCII whose upper case, as `toUpperCase` gives it, contains ASCII letters. */
  function Expanded(c: char): (u: Option<string>)
    ensures u.Some? ==> 1 <= |u.value| <= 3 && (IndexOf(u.value[0]) >= 0 || (|u.value| == 2 && IndexOf(u.value[1]) >= 0))
  {
    match c
    case '\U{DF}' => Some("SS")
    case '\U{131}' => Some("I")
    case '\U{149}' => Some("\U{2BC}N")
    case '\U{17F}' => Some("S")
    case '\U{1F0}' => Some("J\U{30C}")
    case '\U{1E96}' => Some("H\U{331}")
    case '\U{1E97}' => Some("T\U{308}")
    case '\U{1E98}' => Some("W\U{30A}")
    case '\U{1E99}' => Some("Y\U{30A}")
    case '\U{1E9A}' => Some("A\U{2BE}")
    case '\U{FB00}' => Some("FF")
    case '\U{FB01}' => Some("FI")
    case '\U{FB02}' => Some("FL")
    case '\U{FB03}' => Some("FFI")
    case '\U{FB04}' => Some("FFL")
    case '\U{FB05}' => Some("ST")
    case '\U{FB06}' => Some("ST")
    case _ => None
  }

  /** `toUpperCase` of one character, except that one whose upper case is all outside ASCII stays as it is. */
  function Upper(c: char): string {
    match Expanded(c)
    case Some(u) => u
    case None => [if 'a' <= c <= 'z' then ((c as int - 'a' as int) + 'A' as int) as char else c]
  }

  function UpperAll(s: string): string {
    if s == [] then [] else UpperAll(s[..|s| - 1]) + Upper(s[|s| - 1])
  }

  /** `replace(/=+$/, "")`. */
  function StripEquals(s: string): string {
    if s != [] && s[|s| - 1] == '=' then StripEquals(s[..|s| - 1]) else s
  }

  /** The symbols of an upper-case text; anything outside the alphabet is skipped. */
  function Symbols(s: string): (symbols: seq<nat>)
    ensures forall k :: 0 <= k < |symbols| ==> symbols[k] < 32
  {
    if s == [] then []
    else
      var rest := Symbols(s[..|s| - 1]);
      var i := IndexOf(s[|s| - 1]);
      if i >= 0 then rest + [i] else rest
  }

  /** The symbols of a text as a user types it. */
  function Digits(s: string): seq<nat> { Symbols(UpperAll(s)) }

  // ------------------------------------------------------------------- coding

  /** `out` spells the bits of `buf`, filled up with zero bits to a whole number of symbols. */
  ghost predicate Encodes(buf: seq<Byte>, out: string) {
    && (forall k :: 0 <= k < |out| ==> IndexOf(out[k]) >= 0)
    && 8 * |buf| <= 5 * |out| < 8 * |buf| + 5
    && SymbolBits(Symbols(out)) == ByteBits(buf) + Zeros(5 * |out| - 8 * |buf|)
  }

  /** `out` holds the whole bytes among the bits that the symbols of `s` spell. */
  ghost predicate Decodes(s: string, out: seq<Byte>) {
    var bits := SymbolBits(Digits(s));
    8 * |out| <= |bits| < 8 * |out| + 8 && ByteBits(out) == bits[..8 * |out|]
  }

  /** What the symbols put out and the pending bits spell together. */
  ghost function Spelled(out: string, value: nat, bits: nat): seq<bool> {
    SymbolBits(Symbols(out)) + ToBits(value, bits)
  }

  ghost predicate InAlphabet(out: string) { forall k :: 0 <= k < |out| ==> IndexOf(out[k]) >= 0 }

  lemma {:induction false} SymbolCount(out: string)
    requires InAlphabet(out)
    ensures |Symbols(out)| == |out|
  {
    if out != [] {
      SymbolCount(out[..|out| - 1]);
    }
  }

  /** What is out and pending are the first `n` bytes. */
  ghost predicate Writing(buf: seq<Byte>, n: nat, out: string, value: nat, bits: nat) {
    n <= |buf| && InAlphabet(out) && Spelled(out, value, bits) == ByteBits(buf[..n])
  }

  method Encode(buf: seq<Byte>) returns (out: string)
    ensures Encodes(buf, out)
    ensures |out| == (8 * |buf| + 4) / 5
  {
    var value, bits;
    out, value, bits := EncodeBytes(buf);
    FinishEncoding(buf, out, value, bits);
    if bits > 0 {
      out := out + [SymbolChar(LastDigit(value, bits))];
    }
  }

  /** The loop over the bytes; `value` and `bits` are what is left over. */
  method EncodeBytes(buf: seq<Byte>) returns (out: string, value: nat, bits: nat)
    ensures bits < 5 && Writing(buf, |buf|, out, value, bits)
  {
    bits, value, out := 0, 0, "";
    assert Writing(buf, 0, out, value, bits);
    for i := 0 to |buf|
      invariant bits < 5 && Writing(buf, i, out, value, bits)
    {
      WriteByte(buf, i, out, value, bits);
      value := Shift8(value, buf[i]);
      out, bits := PutSymbols(buf, i + 1, out, value, bits + 8);
    }
  }

  /** The inner loop: put out a symbol as long as five bits are pending. */
  method PutSymbols(ghost buf: seq<Byte>, ghost n: nat, before: string, value: nat, pending: nat)
    returns (out: string, bits: nat)
    requires Writing(buf, n, before, value, pending)
    ensures bits < 5 && Writing(buf, n, out, value, bits)
  {
    out, bits := before, pending;
    while bits >= 5
      invariant Writing(buf, n, out, value, bits)
    {
      WriteSymbol(buf, n, out, value, bits);
      out := out + [SymbolChar(Shr(value, bits - 5) % 32)];
      bits := bits - 5;
    }
  }

  /** `(value << 8) | byte` on 32 bits. */
  function Shift8(value: nat, byte: Byte): nat { value * 256 % U32 + byte }

  lemma WriteByte(buf: seq<Byte>, n: nat, out: string, value: nat, bits: nat)
    requires Writing(buf, n, out, value, bits) && n < |buf| && bits < 5
    ensures Writing(buf, n + 1, out, Shift8(value, buf[n]), bits + 8)
  {
    SpellByte(out, value, bits, buf[n]);
    ByteBitsNext(buf, n);
  }

  lemma WriteSymbol(buf: seq<Byte>, n: nat, out: string, value: nat, bits: nat)
    requires Writing(buf, n, out, value, bits) && bits >= 5
    ensures Writing(buf, n, out + [SymbolChar(Shr(value, bits - 5) % 32)], value, bits - 5)
  {
    SpellSymbol(out, value, bits);
  }

  lemma ByteBitsNext(buf: seq<Byte>, i: nat)
    requires i < |buf|
    ensures ByteBits(buf[..i + 1]) == ByteBits(buf[..i]) + ToBits(buf[i], 8)
  {
    var next := buf[..i + 1];
    assert next[..|next| - 1] == buf[..i] && next[|next| - 1] == buf[i];
  }

  /** After the last byte, either nothing is pending or one more symbol spells what is. */
  lemma FinishEncoding(buf: seq<Byte>, out: string, value: nat, bits: nat)
    requires bits < 5 && Writing(buf, |buf|, out, value, bits)
    ensures bits == 0 ==> Encodes(buf, out) && |out| == (8 * |buf| + 4) / 5
    ensures bits > 0 ==> var out1 := out + [SymbolChar(LastDigit(value, bits))];
                         Encodes(buf, out1) && |out1| == (8 * |buf| + 4) / 5
  {
    assert buf[..|buf|] == buf;
    SpelledLength(out, value, bits);
    if bits > 0 {
      SpellLast(out, value, bits);
      Ends(buf, out + [SymbolChar(LastDigit(value, bits))], 5 - bits);
    } else {
      SpellNothing(out, value, buf);
      Ends(buf, out, 0);
    }
  }

  lemma SpelledLength(out: string, value: nat, bits: nat)
    requires InAlphabet(out)
    ensures |Spelled(out, value, bits)| == 5 * |out| + bits
  {
    SymbolCount(out);
  }

  lemma SpellNothing(out: string, value: nat, buf: seq<Byte>)
    requires Spelled(out, value, 0) == ByteBits(buf)
    ensures SymbolBits(Symbols(out)) == ByteBits(buf) + Zeros(0)
  {
    assert Spelled(out, value, 0) == SymbolBits(Symbols(out));
    assert ByteBits(buf) + Zeros(0) == ByteBits(buf);
  }

  lemma Ends(buf: seq<Byte>, out: string, spare: nat)
    requires spare < 5 && InAlphabet(out) && 5 * |out| == 8 * |buf| + spare
    requires SymbolBits(Symbols(out)) == ByteBits(buf) + Zeros(spare)
    ensures Encodes(buf, out) && |out| == (8 * |buf| + 4) / 5
  {
  }

  lemma SpellByte(out: string, value: nat, bits: nat, byte: Byte)
    requires bits < 5
    ensures Spelled(out, Shift8(value, byte), bits + 8) == Spelled(out, value, bits) + ToBits(byte, 8)
  {
    AppendByte(value, bits, byte);
    Assoc(SymbolBits(Symbols(out)), ToBits(value, bits), ToBits(byte, 8));
  }

  lemma SpellSymbol(out: string, value: nat, bits: nat)
    requires bits >= 5
    ensures Spelled(out + [SymbolChar(Shr(value, bits - 5) % 32)], value, bits - 5) == Spelled(out, value, bits)
  {
    Powers();
    TakeBits(value, bits, 5);
    var symbol := Shr(value, bits - 5) % 32;
    Emit(out, symbol);
    Assoc(SymbolBits(Symbols(out)), ToBits(symbol, 5), ToBits(value, bits - 5));
  }

  lemma SpellLast(out: string, value: nat, bits: nat)
    requires 0 < bits < 5
    ensures SymbolBits(Symbols(out + [SymbolChar(LastDigit(value, bits))]))
            == Spelled(out, value, bits) + Zeros(5 - bits)
  {
    var symbol := LastDigit(value, bits);
    LastSymbol(value, bits);
    Emit(out, symbol);
    Assoc(SymbolBits(Symbols(out)), ToBits(value, bits), Zeros(5 - bits));
  }

  lemma Emit(out: string, symbol: nat)
    requires symbol < 32
    ensures Symbols(out + [SymbolChar(symbol)]) == Symbols(out) + [symbol]
    ensures SymbolBits(Symbols(out) + [symbol]) == SymbolBits(Symbols(out)) + ToBits(symbol, 5)
  {
    assert (out + [SymbolChar(symbol)])[..|out|] == out;
    assert (Symbols(out) + [symbol])[..|Symbols(out)|] == Symbols(out);
  }

  /** `(value << (5 - bits)) & 31`. */
  function LastDigit(value: nat, bits: nat): (symbol: nat)
    requires bits < 5
    ensures symbol < 32
  {
    Shl(value, 5 - bits) % U32 % 32
  }

  /** The last symbol is the pending bits followed by zeros. */
  lemma LastSymbol(value: nat, bits: nat)
    requires bits < 5
    ensures ToBits(LastDigit(value, bits), 5) == ToBits(value, bits) + Zeros(5 - bits)
  {
    var x := Shl(value, 5 - bits);
    ShiftBits(value, bits, 5 - bits);
    Powers();
    var r := x % U32;
    assert x == U32 * (x / U32) + r && r == 32 * (r / 32) + r % 32;
    DivisionIsUnique(x, 32, 0x800_0000 * (x / U32) + r / 32, r % 32);
    LowBits(x, 5, 5);
  }

  /** What the bytes put out and the pending bits hold together. */
  ghost function Held(out: seq<Byte>, value: nat, bits: nat): seq<bool> { ByteBits(out) + ToBits(value, bits) }

  method Decode(s: string) returns (out: seq<Byte>)
    ensures Decodes(s, out)
  {
    var text := StripEquals(UpperAll(s));
    StripKeepsSymbols(UpperAll(s));
    ghost var value, bits;
    out, value, bits := DecodeText(text);
    FinishDecoding(s, text, out, value, bits);
  }

  /** The loop over the upper-case text without its padding; `value` and `bits` are what is left over. */
  method DecodeText(text: string) returns (out: seq<Byte>, value: nat, bits: nat)
    ensures Reading(text, |text|, out, value, bits)
  {
    bits, value, out := 0, 0, [];
    assert Reading(text, 0, out, value, bits);
    for i := 0 to |text|
      invariant Reading(text, i, out, value, bits)
    {
      DecodeStep(text, i, out, value, bits);
      var idx := IndexOf(text[i]);
      if idx >= 0 {
        value := Shift5(value, idx);
        bits := bits + 5;
        if bits >= 8 {
          out := out + [Shr(value, bits - 8) % 256];
          bits := bits - 8;
        }
      }
    }
  }

  /** What is put out and pending are the symbols among the first `n` characters. */
  ghost predicate Reading(text: string, n: nat, out: seq<Byte>, value: nat, bits: nat) {
    n <= |text| && bits < 8 && Held(out, value, bits) == SymbolBits(Symbols(text[..n]))
  }

  lemma FinishDecoding(s: string, text: string, out: seq<Byte>, value: nat, bits: nat)
    requires Symbols(text) == Digits(s) && Reading(text, |text|, out, value, bits)
    ensures Decodes(s, out)
  {
    assert text[..|text|] == text;
    assert Held(out, value, bits)[..8 * |out|] == ByteBits(out);
    assert |Held(out, value, bits)| == 8 * |out| + bits;
  }

  /** `(value << 5) | idx` on 32 bits. */
  function Shift5(value: nat, idx: nat): nat { value * 32 % U32 + idx }

  /** One turn of the decoding loop, with the byte it puts out when there are eight bits. */
  lemma DecodeStep(text: string, i: nat, out: seq<Byte>, value: nat, bits: nat)
    requires i < |text| && Reading(text, i, out, value, bits)
    ensures var idx := IndexOf(text[i]);
            && (idx < 0 ==> Reading(text, i + 1, out, value, bits))
            && (idx >= 0 && bits < 3 ==> Reading(text, i + 1, out, Shift5(value, idx), bits + 5))
            && (idx >= 0 && bits >= 3 ==>
                  var v := Shift5(value, idx); Reading(text, i + 1, out + [Shr(v, bits - 3) % 256], v, bits - 3))
  {
    var idx := IndexOf(text[i]);
    SymbolsNext(text, i);
    if idx >= 0 {
      BitsSnoc(Symbols(text[..i]), idx);
      HoldSymbol(out, value, bits, idx);
      if bits >= 3 {
        HoldByte(out, Shift5(value, idx), bits + 5);
      }
    }
  }

  /** One character of the text: a symbol, or nothing. */
  lemma SymbolsNext(text: string, i: nat)
    requires i < |text|
    ensures Symbols(text[..i + 1])
            == if IndexOf(text[i]) >= 0 then Symbols(text[..i]) + [IndexOf(text[i])] else Symbols(text[..i])
  {
    var next := text[..i + 1];
    assert next[..|next| - 1] == text[..i] && next[|next| - 1] == text[i];
  }

  lemma BitsSnoc(symbols: seq<nat>, idx: nat)
    ensures SymbolBits(symbols + [idx]) == SymbolBits(symbols) + ToBits(idx, 5)
  {
    assert (symbols + [idx])[..|symbols|] == symbols;
  }

  lemma HoldSymbol(out: seq<Byte>, value: nat, bits: nat, idx: nat)
    requires bits < 8 && idx < 32
    ensures Held(out, Shift5(value, idx), bits + 5) == Held(out, value, bits) + ToBits(idx, 5)
  {
    AppendSymbol(value, bits, idx);
    Assoc(ByteBits(out), ToBits(value, bits), ToBits(idx, 5));
  }

  lemma HoldByte(out: seq<Byte>, value: nat, bits: nat)
    requires bits >= 8
    ensures Held(out + [Shr(value, bits - 8) % 256], value, bits - 8) == Held(out, value, bits)
  {
    Powers();
    TakeBits(value, bits, 8);
    var byte := Shr(value, bits - 8) % 256;
    assert (out + [byte])[..|out|] == out;
    Assoc(ByteBits(out), ToBits(byte, 8), ToBits(value, bits - 8));
  }

  lemma {:induction false} StripKeepsSymbols(s: string)
    ensures Symbols(StripEquals(s)) == Symbols(s)
  {
    if s != [] && s[|s| - 1] == '=' {
      StripKeepsSymbols(s[..|s| - 1]);
    }
  }

  // --------------------------------------------------------------- properties

  /** What a text decodes to is determined by its symbols alone. */
  lemma DecodingIsUnique(s: string, t: string, x: seq<Byte>, y: seq<Byte>)
    ensures Digits(s) == Digits(t) && Decodes(s, x) && Decodes(t, y) ==> x == y
  {
    if Digits(s) == Digits(t) && Decodes(s, x) && Decodes(t, y) {
      assert |x| == |y|;
      ByteBitsInjective(x, y);
    }
  }

  predicate InUpperCase(c: char) { Upper(c) == [c] }

  lemma UpperKeepsAlphabet(s: string)
    requires forall k :: 0 <= k < |s| ==> IndexOf(s[k]) >= 0
    ensures UpperAll(s) == s
  {
    forall k | 0 <= k < |s| ensures InUpperCase(s[k]) {
      UpperOfSymbol(s[k]);
    }
    UpperKeeps(s);
  }

  lemma {:induction false} UpperKeeps(s: string)
    requires forall k :: 0 <= k < |s| ==> InUpperCase(s[k])
    ensures UpperAll(s) == s
  {
    if s != [] {
      var n := |s| - 1;
      UpperKeeps(s[..n]);
      assert InUpperCase(s[n]);
      assert UpperAll(s) == s[..n] + [s[n]] == s;
    }
  }

  lemma UpperOfSymbol(c: char)
    requires IndexOf(c) >= 0
    ensures Upper(c) == [c]
  {
  }

  lemma {:induction false} UpperAllConcat(a: string, b: string)
    ensures UpperAll(a + b) == UpperAll(a) + UpperAll(b)
    decreases |b|
  {
    if b == [] {
      assert a + b == a;
    } else {
      var n := |b| - 1;
      assert (a + b)[..|a + b| - 1] == a + b[..n];
      UpperAllConcat(a, b[..n]);
      Assoc(UpperAll(a), UpperAll(b[..n]), Upper(b[n]));
    }
  }

  /** Round trip: decoding an encoding, or any text with the same symbols, gives back the bytes. */
  lemma RoundTrip(buf: seq<Byte>, text: string, typed: string, out: seq<Byte>)
    requires Encodes(buf, text) && Digits(typed) == Digits(text) && Decodes(typed, out)
    ensures out == buf
  {
    UpperKeepsAlphabet(text);
    var bits := SymbolBits(Symbols(text));
    assert bits[..8 * |buf|] == ByteBits(buf);
    assert Decodes(text, buf);
    DecodingIsUnique(typed, text, out, buf);
  }

  lemma {:induction false} SymbolsConcat(a: string, b: string)
    ensures Symbols(a + b) == Symbols(a) + Symbols(b)
    decreases |b|
  {
    if b == [] {
      assert a + b == a;
      assert Symbols(a) + [] == Symbols(a);
    } else {
      assert (a + b)[..|a + b| - 1] == a + b[..|b| - 1];
      SymbolsConcat(a, b[..|b| - 1]);
    }
  }

  /** The symbols a text spells are those of its parts, one after the other. */
  lemma DigitsConcat(a: string, b: string)
    ensures Digits(a + b) == Digits(a) + Digits(b)
  {
    UpperAllConcat(a, b);
    SymbolsConcat(UpperAll(a), UpperAll(b));
  }

  lemma DigitsOne(c: char)
    ensures Digits([c]) == Symbols(Upper(c))
  {
    var none := [c][..0];
    assert |none| == 0 && UpperAll([c]) == UpperAll(none) + Upper(c);
    assert [] + Upper(c) == Upper(c);
  }

  /** Whether a character counts in a text: a letter or digit of the alphabet in either case, or one that expands. */
  predicate Counts(c: char) {
    'a' <= c <= 'z' || 'A' <= c <= 'Z' || '2' <= c <= '7' || Expanded(c).Some?
  }

  lemma CountsIff(c: char)
    ensures Counts(c) <==> Symbols(Upper(c)) != []
  {
    if Expanded(c).Some? {
      var u := Upper(c);
      HasSymbol(u, if IndexOf(u[0]) >= 0 then 0 else 1);
    } else {
      SymbolsOne(Upper(c)[0]);
      assert Upper(c) == [Upper(c)[0]];
    }
  }

  lemma SymbolsOne(c: char)
    ensures Symbols([c]) == if IndexOf(c) >= 0 then [IndexOf(c)] else []
  {
    var none := [c][..0];
    assert |none| == 0 && Symbols(none) == [];
  }

  lemma {:induction false} HasSymbol(u: string, k: nat)
    requires k < |u| && IndexOf(u[k]) >= 0
    ensures Symbols(u) != []
  {
    if k < |u| - 1 {
      HasSymbol(u[..|u| - 1], k);
    }
  }

  /** A character can be put anywhere without changing the symbols of a text exactly when it does not count. */
  lemma InsertionKeepsSymbols(a: string, c: char, b: string)
    ensures Digits(a + [c] + b) == Digits(a + b) <==> !Counts(c)
  {
    DigitsConcat(a + [c], b);
    DigitsConcat(a, [c]);
    DigitsConcat(a, b);
    DigitsOne(c);
    CountsIff(c);
    assert Digits(a) + [] == Digits(a);
  }

  /** The number that a bit string writes. */
  function FromBits(bits: seq<bool>): (v: nat)
    ensures v < Pow2(|bits|) && ToBits(v, |bits|) == bits
  {
    if bits == [] then 0
    else
      var n := |bits| - 1;
      var v := 2 * FromBits(bits[..n]) + if bits[n] then 1 else 0;
      assert v / 2 == FromBits(bits[..n]) && bits == bits[..n] + [bits[n]];
      v
  }

  lemma {:induction false} BytesExist(bits: seq<bool>, n: nat) returns (out: seq<Byte>)
    requires |bits| == 8 * n
    ensures |out| == n && ByteBits(out) == bits
  {
    if n == 0 {
      out := [];
    } else {
      Powers();
      var init := BytesExist(bits[..8 * (n - 1)], n - 1);
      var last := FromBits(bits[8 * (n - 1)..]);
      out := init + [last];
      assert out[..|out| - 1] == init;
      assert bits == bits[..8 * (n - 1)] + bits[8 * (n - 1)..];
    }
  }

  /** Every text decodes to something. */
  lemma DecodingExists(s: string) returns (out: seq<Byte>)
    ensures Decodes(s, out)
  {
    var bits := SymbolBits(Digits(s));
    out := BytesExist(bits[..8 * (|bits| / 8)], |bits| / 8);
  }

  /** Wherever a character that does not count is put, what a text decodes to stays the same. */
  ghost predicate NeverMatters(c: char) {
    forall a, b, x, y :: Decodes(a + [c] + b, x) && Decodes(a + b, y) ==> x == y
  }

  /** One symbol is not yet a byte, and two are. */
  lemma SymbolsToBytes(s: string, x: seq<Byte>)
    ensures |Digits(s)| == 1 ==> Decodes(s, [])
    ensures |Digits(s)| >= 2 && Decodes(s, x) ==> x != []
  {
    var none: seq<bool> := SymbolBits(Digits(s))[..0];
    assert |none| == 0;
  }

  lemma BeforeA(c: char)
    requires Counts(c)
    ensures |Digits([] + [c] + "A")| >= 2 && |Digits([] + "A")| == 1
  {
    var a: string := [];
    DigitsConcat(a + [c], "A");
    CountsIff(c);
    DigitsOne(c);
    OneA();
    assert a + [c] == [c] && a + "A" == "A";
  }

  lemma OneA()
    ensures |Digits("A")| == 1
  {
    DigitsOne('A');
    SymbolsOne('A');
    UpperOfSymbol('A');
  }

  /** One that counts matters after all where it completes a byte, as before a single `A`. */
  lemma CountingMatters(c: char) returns (x: seq<Byte>, y: seq<Byte>)
    requires Counts(c)
    ensures Decodes([] + [c] + "A", x) && Decodes([] + "A", y) && x != y
  {
    BeforeA(c);
    x := DecodingExists([] + [c] + "A");
    y := [];
    SymbolsToBytes([] + [c] + "A", x);
    SymbolsToBytes([] + "A", x);
  }

  /** A character can be put anywhere without ever changing what is decoded if and only if it does not count. */
  lemma InsertionIgnored(c: char)
    ensures NeverMatters(c) <==> !Counts(c)
  {
    if Counts(c) {
      var x, y := CountingMatters(c);
    } else {
      forall a, b, x, y | Decodes(a + [c] + b, x) && Decodes(a + b, y) ensures x == y {
        InsertionKeepsSymbols(a, c, b);
        DecodingIsUnique(a + [c] + b, a + b, x, y);
      }
    }
  }

  /** The same in upper case, or of no account either way, as é and É. */
  predicate Alike(c: char, d: char) { Upper(c) == Upper(d) || (!Counts(c) && !Counts(d)) }

  /** Texts that differ only in case decode alike. */
  lemma CaseIgnored(s: string, t: string, x: seq<Byte>, y: seq<Byte>)
    requires |s| == |t| && forall k :: 0 <= k < |s| ==> Alike(s[k], t[k])
    ensures Digits(s) == Digits(t)
    ensures Decodes(s, x) && Decodes(t, y) ==> x == y
  {
    SameSymbols(s, t);
    DecodingIsUnique(s, t, x, y);
  }

  lemma UpperOfLower(c: char)
    requires 'a' <= c <= 'z'
    ensures Upper(c) == [(c as int - 32) as char]
  {
  }

  lemma DigitsOfUpper(c: char, d: char)
    requires Upper(c) == [d] && IndexOf(d) >= 0
    ensures Digits([c]) == [IndexOf(d)]
  {
    DigitsOne(c);
    SymbolsOne(d);
  }

  /** What letters count for, in either case, and digits. */
  lemma SymbolValues(c: char)
    ensures 'A' <= c <= 'Z' ==> Digits([c]) == [c as int - 'A' as int]
    ensures 'a' <= c <= 'z' ==> Digits([c]) == [c as int - 'a' as int]
    ensures '2' <= c <= '7' ==> Digits([c]) == [c as int - '2' as int + 26]
  {
    if 'a' <= c <= 'z' {
      UpperOfLower(c);
      DigitsOfUpper(c, (c as int - 32) as char);
    } else if IndexOf(c) >= 0 {
      UpperOfSymbol(c);
      DigitsOfUpper(c, c);
    }
  }

  lemma SameDigit(c: char, d: char)
    requires Alike(c, d)
    ensures Digits([c]) == Digits([d])
  {
    DigitsOne(c);
    DigitsOne(d);
    CountsIff(c);
    CountsIff(d);
  }

  lemma DigitsNext(s: string)
    requires s != []
    ensures Digits(s) == Digits(s[..|s| - 1]) + Digits([s[|s| - 1]])
  {
    DigitsConcat(s[..|s| - 1], [s[|s| - 1]]);
    assert s == s[..|s| - 1] + [s[|s| - 1]];
  }

  lemma {:induction false} SameSymbols(s: string, t: string)
    requires |s| == |t| && forall k :: 0 <= k < |s| ==> Alike(s[k], t[k])
    ensures Digits(s) == Digits(t)
  {
    if s != [] {
      SameSymbols(s[..|s| - 1], t[..|t| - 1]);
      DigitsNext(s);
      DigitsNext(t);
      SameDigit(s[|s| - 1], t[|t| - 1]);
    }
  }
}
