/** Integers of variable length, as arguments are sent. */
module Vlq {
  import opened Word32
  import opened CheckSum

  datatype Parsed = Parsed(value: int, rest: seq<Byte>) | Cut

  predicate Fits(sv: int, bits: int)
    requires bits in {5, 12, 19, 26}
  {
    var one := if bits == 5 then 0x20 else if bits == 12 then 0x1000 else if bits == 19 then 0x80000 else 0x4000000;
    -one <= sv < 3 * one
  }

  /** Seven bits of a word, from the given place value on. */
  function Seven(v: int, place: int): (b: Byte)
    requires place > 0
    ensures b < 128
  {
    v / place % 128
  }

  function EncodeInt(v: int): seq<Byte>
    requires 0 <= v < TWO32
  {
    var sv := ToInt32(v);
    (if Fits(sv, 26) then [] else [128 + v / 0x1000_0000]) +
    (if Fits(sv, 19) then [] else [128 + Seven(v, 0x20_0000)]) +
    (if Fits(sv, 12) then [] else [128 + Seven(v, 0x4000)]) +
    (if Fits(sv, 5) then [] else [128 + Seven(v, 0x80)]) +
    [Seven(v, 1)]
  }

  /** The low seven bits, with the sign spread when both top bits of them are set. */
  function FirstBits(c: Byte): int {
    if c % 128 >= 96 then Low(c % 128 - 128) else c % 128
  }

  /** The value once all bytes up to the last, which has no top bit, are taken. */
  function Continue(v: int, c: Byte, bytes: seq<Byte>): Parsed
    decreases |bytes|
  {
    if c < 128 then Parsed(v, bytes)
    else if bytes == [] then Cut
    else Continue(Low(v * 128 + bytes[0] % 128), bytes[0], bytes[1..])
  }

  function ParseInt(bytes: seq<Byte>): Parsed {
    if bytes == [] then Cut else Continue(FirstBits(bytes[0]), bytes[0], bytes[1..])
  }

  method ReadInt(bytes: seq<Byte>) returns (p: Parsed)
    ensures p == ParseInt(bytes)
  {
    if bytes == [] { return Cut; }
    var c: Byte, rest := bytes[0], bytes[1..];
    var v := FirstBits(c);
    while c >= 128
      invariant ParseInt(bytes) == Continue(v, c, rest)
      decreases |rest|
    {
      if rest == [] { return Cut; }
      c, rest := rest[0], rest[1..];
      v := Low(v * 128 + c % 128);
    }
    return Parsed(v, rest);
  }

  /** How many bytes a word takes: one more for every seven bits beyond what fits with the sign. */
  function Size(sv: int): nat {
    if -0x20 <= sv < 0x60 then 1 else if -0x1000 <= sv < 0x3000 then 2
    else if -0x8_0000 <= sv < 0x18_0000 then 3 else if -0x400_0000 <= sv < 0xC00_0000 then 4 else 5
  }

  function Power128(n: nat): int {
    if n == 0 then 1 else 128 * Power128(n - 1)
  }

  /** The encoding is the groups of seven bits, highest first, each but the last with the top bit set. */
  lemma EncodedDigits(v: int, i: nat)
    requires 0 <= v < TWO32 && i < Size(ToInt32(v))
    ensures var b := EncodeInt(v); var n := Size(ToInt32(v)); var d := Power128(n - 1 - i);
            |b| == n && d > 0 && b[i] == v / d % 128 + if i < n - 1 then 128 else 0
  {
    Powers();
  }

  lemma Powers()
    ensures Power128(0) == 1 && Power128(1) == 0x80 && Power128(2) == 0x4000 && Power128(3) == 0x20_0000
    ensures Power128(4) == 0x1000_0000
  {
    assert Power128(1) == 128 * Power128(0);
    assert Power128(2) == 128 * Power128(1);
    assert Power128(3) == 128 * Power128(2);
    assert Power128(4) == 128 * Power128(3);
  }

  // ----- round trip -----

  /** Seven bits more: the value so far moves up. */
  lemma SevenMore(m: int)
    ensures Low(Low(m / 128) * 128 + m % 128) == Low(m)
  {
    var a := m / 128;
    assert a * 128 + m % 128 == m;
    WrapMultiple(Low(a) * 128 + m % 128, (a / TWO32) * 128);
    assert a == (a / TWO32) * TWO32 + Low(a);
  }

  lemma TakeByte(m: int, c: Byte, b: Byte, bytes: seq<Byte>)
    requires c >= 128 && bytes != [] && bytes[0] == b && b % 128 == m % 128
    ensures Continue(Low(m / 128), c, bytes) == Continue(Low(m), b, bytes[1..])
  {
    SevenMore(m);
  }

  lemma SevenOfWord(v: int)
    requires 0 <= v < TWO32
    ensures Seven(v, 1) == v % 128 && Seven(v, 0x80) == v / 128 % 128 && Seven(v, 0x4000) == v / 128 / 128 % 128
    ensures Seven(v, 0x20_0000) == v / 128 / 128 / 128 % 128 && v / 0x1000_0000 == v / 128 / 128 / 128 / 128
  {
  }

  lemma DivDown(v: int, n: int, k: int)
    requires n == v - 128 * k
    ensures n / 128 == v / 128 - k && n % 128 == v % 128
  {
  }

  /** The bits of a word are those of the signed number it stands for. */
  lemma SevenOfSigned(v: int)
    requires 0 <= v < TWO32
    ensures var n := ToInt32(v);
            && Seven(v, 1) == n % 128 && Seven(v, 0x80) == n / 128 % 128 && Seven(v, 0x4000) == n / 128 / 128 % 128
            && Seven(v, 0x20_0000) == n / 128 / 128 / 128 % 128
  {
    hide Seven;
    SevenOfWord(v);
    var n := ToInt32(v);
    if n != v {
      DivDown(v, n, 0x200_0000);
      DivDown(v / 128, n / 128, 0x4_0000);
      DivDown(v / 128 / 128, n / 128 / 128, 0x800);
      DivDown(v / 128 / 128 / 128, n / 128 / 128 / 128, 0x10);
    }
  }

  /** The first byte carries the sign: its bits are all that is left of the number. */
  lemma FirstBitsExact(c: Byte, m: int)
    requires c % 128 == m % 128 && -32 <= m < 96
    ensures FirstBits(c) == Low(m)
  {
  }

  /** The last k + 1 bytes of a word. */
  function Bytes(v: int, k: nat): seq<Byte>
    requires k <= 3
  {
    (if k < 3 then [] else [128 + Seven(v, 0x20_0000)]) + (if k < 2 then [] else [128 + Seven(v, 0x4000)]) +
    (if k < 1 then [] else [128 + Seven(v, 0x80)]) + [Seven(v, 1)]
  }

  /** The number without its last k groups of seven bits. */
  function Above(n: int, k: nat): int {
    if k == 0 then n else Above(n, k - 1) / 128
  }

  /** A number with the bits of the word. */
  ghost predicate StandsFor(n: int, v: int) {
    && Low(n) == v && Seven(v, 1) == n % 128 && Seven(v, 0x80) == Above(n, 1) % 128
    && Seven(v, 0x4000) == Above(n, 2) % 128 && Seven(v, 0x20_0000) == Above(n, 3) % 128
  }

  lemma NextByte(v: int, k: nat)
    requires k <= 3
    ensures var b := Bytes(v, k);
            b != [] && b[1..] == (if k == 0 then [] else Bytes(v, k - 1))
            && b[0] == (if k == 3 then 128 + Seven(v, 0x20_0000) else if k == 2 then 128 + Seven(v, 0x4000)
                        else if k == 1 then 128 + Seven(v, 0x80) else Seven(v, 1))
  {
  }

  /** The bytes that remain complete the number. */
  lemma {:induction false} Completes(n: int, v: int, k: nat, c: Byte, rest: seq<Byte>)
    requires k <= 3 && StandsFor(n, v) && c >= 128
    ensures Continue(Low(Above(n, k) / 128), c, Bytes(v, k) + rest) == Parsed(v, rest)
    decreases k
  {
    hide Bytes, Seven;
    NextByte(v, k);
    var all := Bytes(v, k) + rest;
    TakeByte(Above(n, k), c, all[0], all);
    assert all[1..] == Bytes(v, k)[1..] + rest;
    if k > 0 {
      Completes(n, v, k - 1, all[0], rest);
    } else {
      assert [] + rest == rest;
    }
  }

  lemma Groups3(n: int)
    ensures Above(n, 1) == n / 128 && Above(n, 2) == n / 128 / 128 && Above(n, 3) == n / 128 / 128 / 128
  {
    assert Above(n, 2) == Above(n, 1) / 128;
  }

  lemma ShortStandsFor(v: int)
    requires 0 <= v < TWO32
    ensures StandsFor(ToInt32(v), v)
  {
    hide Seven;
    SevenOfSigned(v);
    Groups3(ToInt32(v));
  }

  lemma LongStandsFor(v: int)
    requires 0 <= v < TWO32
    ensures StandsFor(v, v) && Above(v, 3) / 128 == v / 0x1000_0000
  {
    hide Seven;
    SevenOfWord(v);
    Groups3(v);
  }

  /** How many bytes follow the first. */
  function Groups(sv: int): nat {
    if Fits(sv, 5) then 0 else if Fits(sv, 12) then 1 else if Fits(sv, 19) then 2 else if Fits(sv, 26) then 3 else 4
  }

  lemma EncodedBytes(v: int)
    requires 0 <= v < TWO32
    ensures var k := Groups(ToInt32(v));
            EncodeInt(v) == if k == 4 then [128 + v / 0x1000_0000] + Bytes(v, 3) else Bytes(v, k)
  {
    hide Seven;
  }

  lemma TopOfShort(sv: int)
    requires Groups(sv) < 4
    ensures -32 <= Above(sv, Groups(sv)) < 96
  {
    assert Above(sv, 1) == sv / 128;
    assert Above(sv, 2) == sv / 128 / 128;
    assert Above(sv, 3) == sv / 128 / 128 / 128;
  }

  lemma FirstOfShort(n: int, v: int, k: nat)
    requires k <= 3 && StandsFor(n, v) && -32 <= Above(n, k) < 96
    ensures Bytes(v, k) != [] && FirstBits(Bytes(v, k)[0]) == Low(Above(n, k)) && (Bytes(v, k)[0] >= 128 <==> k > 0)
  {
    hide Seven, Bytes, Low, FirstBits;
    NextByte(v, k);
    assert Above(n, 0) == n;
    FirstBitsExact(Bytes(v, k)[0], Above(n, k));
  }

  lemma FirstOfLong(v: int)
    requires 0 <= v < TWO32
    ensures FirstBits(128 + v / 0x1000_0000) == Low(v / 0x1000_0000)
  {
  }

  lemma LongRoundTrip(v: int, rest: seq<Byte>)
    requires 0 <= v < TWO32
    ensures ParseInt([128 + v / 0x1000_0000] + Bytes(v, 3) + rest) == Parsed(v, rest)
  {
    hide Seven, Bytes, Above, StandsFor, FirstBits, Low;
    var all := [128 + v / 0x1000_0000] + Bytes(v, 3) + rest;
    LongStandsFor(v);
    FirstOfLong(v);
    assert all[1..] == Bytes(v, 3) + rest;
    Completes(v, v, 3, all[0], rest);
  }

  lemma ShortRoundTrip(n: int, v: int, k: nat, rest: seq<Byte>)
    requires k <= 3 && StandsFor(n, v) && -32 <= Above(n, k) < 96
    ensures ParseInt(Bytes(v, k) + rest) == Parsed(v, rest)
  {
    hide Seven, Bytes, Above, StandsFor, FirstBits, Low;
    var all := Bytes(v, k) + rest;
    FirstOfShort(n, v, k);
    NextByte(v, k);
    AboveStep(n, k);
    assert all[1..] == Bytes(v, k)[1..] + rest;
    if k > 0 {
      Completes(n, v, k - 1, all[0], rest);
    } else {
      assert [] + rest == rest;
      WrapsTo(n, v);
    }
  }

  /** Encoding and parsing give back every 32-bit word, and the bytes that follow it. */
  lemma VlqRoundTrip(v: int, rest: seq<Byte>)
    requires 0 <= v < TWO32
    ensures ParseInt(EncodeInt(v) + rest) == Parsed(v, rest)
  {
    hide Bytes, EncodeInt, Fits, Above, StandsFor, ParseInt;
    EncodedBytes(v);
    var n, k := ToInt32(v), Groups(ToInt32(v));
    if k == 4 {
      LongRoundTrip(v, rest);
    } else {
      ShortStandsFor(v);
      TopOfShort(n);
      ShortRoundTrip(n, v, k, rest);
    }
  }

  lemma AboveStep(n: int, k: nat)
    ensures Above(n, 0) == n && (k > 0 ==> Above(n, k) == Above(n, k - 1) / 128)
  {
  }

  lemma WrapsTo(n: int, v: int)
    requires StandsFor(n, v)
    ensures Low(n) == v
  {
  }

  // ----- lists of integers -----

  function EncodeAll(vs: seq<int>): seq<Byte>
    requires forall i :: 0 <= i < |vs| ==> 0 <= vs[i] < TWO32
  {
    if vs == [] then [] else EncodeInt(vs[0]) + EncodeAll(vs[1..])
  }

  datatype Decoded = Decoded(values: seq<int>) | Malformed

  /** Exactly n integers that fill the bytes. */
  function DecodeAll(bytes: seq<Byte>, n: nat): Decoded
    decreases n
  {
    if n == 0 then if bytes == [] then Decoded([]) else Malformed
    else
      var p := ParseInt(bytes);
      if p.Cut? then Malformed
      else
        var d := DecodeAll(p.rest, n - 1);
        if d.Malformed? then Malformed else Decoded([p.value] + d.values)
  }

  /** The arguments of a command arrive as they were sent. */
  lemma {:induction false} ArgumentsRoundTrip(vs: seq<int>)
    requires forall i :: 0 <= i < |vs| ==> 0 <= vs[i] < TWO32
    ensures DecodeAll(EncodeAll(vs), |vs|) == Decoded(vs)
  {
    hide EncodeInt, ParseInt;
    if vs != [] {
      VlqRoundTrip(vs[0], EncodeAll(vs[1..]));
      ArgumentsRoundTrip(vs[1..]);
      assert [vs[0]] + vs[1..] == vs;
    }
  }
}
