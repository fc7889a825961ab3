/** The check sum of a block: a byte at a time, as the program does it, and as a division of bits. */
module CheckSum {
  type Byte = x: int | 0 <= x < 256

  /** The low byte of the sum with the new byte. */
  function Enter(crc: bv16, b: bv8): bv8 { b ^ ((crc & 0xff) as bv8) }

  function Twist(d: bv8): bv8 { d ^ (d << 4) }

  function Combine(crc: bv16, d: bv8): bv16 {
    (((d as bv16) << 8) | (crc >> 8)) ^ ((d >> 4) as bv16) ^ ((d as bv16) << 3)
  }

  function CrcStep(crc: bv16, b: bv8): bv16 {
    Combine(crc, Twist(Enter(crc, b)))
  }

  function CrcWord(data: seq<Byte>): bv16 {
    if data == [] then 0xffff else CrcStep(CrcWord(data[..|data|-1]), data[|data|-1] as bv8)
  }

  function Crc(data: seq<Byte>): (r: int)
    ensures 0 <= r < 0x10000
  {
    CrcWord(data) as int
  }

  method Crc16(buf: seq<Byte>) returns (crc: bv16)
    ensures crc == CrcWord(buf)
  {
    hide CrcStep;
    crc := 0xffff;
    for i := 0 to |buf|
      invariant crc == CrcWord(buf[..i])
    {
      assert buf[..i + 1][..i] == buf[..i];
      crc := CrcStep(crc, buf[i] as bv8);
    }
    assert buf[..|buf|] == buf;
  }

  /** The check sum of no bytes has all bits set, and each byte is divided into that of the bytes before it. */
  lemma CrcOverBytes(data: seq<Byte>, b: Byte)
    ensures Crc([]) == 0xffff && CrcWord(data + [b]) == Divide4(Divide4(Xor(CrcWord(data), Word(b as bv8))))
  {
    hide CrcStep, Divide4, Xor, Word;
    assert (data + [b])[..|data|] == data;
    CrcStepDivides(CrcWord(data), b as bv8);
  }

  // ----- the division -----

  function Xor(x: bv16, y: bv16): bv16 { x ^ y }

  function Half(x: bv16): bv16 { x >> 1 }

  predicate Even(x: bv16) { x & 1 == 0 }

  /** One bit of the division by the polynomial x^16 + x^12 + x^5 + 1, lowest bit first. */
  function DivideBit(crc: bv16): bv16 {
    if Even(crc) then Half(crc) else Xor(Half(crc), 0x8408)
  }

  function Divide4(crc: bv16): bv16 {
    DivideBit(DivideBit(DivideBit(DivideBit(crc))))
  }

  function Half4(x: bv16): bv16 { Half(Half(Half(Half(x)))) }

  predicate Even4(x: bv16) { Even(x) && Even(Half(x)) && Even(Half(Half(x))) && Even(Half(Half(Half(x)))) }

  lemma HalfXor(x: bv16, y: bv16)
    ensures Half(Xor(x, y)) == Xor(Half(x), Half(y))
  {
  }

  lemma EvenXor(x: bv16, y: bv16)
    requires Even(x)
    ensures Even(Xor(x, y)) == Even(y)
  {
  }

  lemma XorAssociates(x: bv16, y: bv16, z: bv16)
    ensures Xor(Xor(x, y), z) == Xor(x, Xor(y, z))
  {
  }

  /** Bits above the lowest only move down. */
  lemma UpperBits(x: bv16, y: bv16)
    requires Even(x)
    ensures DivideBit(Xor(x, y)) == Xor(Half(x), DivideBit(y))
  {
    hide Xor, Half, Even;
    HalfXor(x, y);
    EvenXor(x, y);
    XorAssociates(Half(x), Half(y), 0x8408);
  }

  lemma UpperNibbles(x: bv16, y: bv16)
    requires Even4(x)
    ensures Divide4(Xor(x, y)) == Xor(Half4(x), Divide4(y))
  {
    hide DivideBit, Xor, Half, Even;
    UpperBits(x, y);
    UpperBits(Half(x), DivideBit(y));
    UpperBits(Half(Half(x)), DivideBit(DivideBit(y)));
    UpperBits(Half(Half(Half(x))), DivideBit(DivideBit(DivideBit(y))));
  }

  /** The upper byte of a word, in its place and moved down. */
  function Upper(crc: bv16): bv16 { crc & 0xff00 }

  function Down(crc: bv16): bv16 { crc >> 8 }

  lemma UpperIsEven(crc: bv16)
    ensures Even4(Upper(crc)) && Even4(Half4(Upper(crc))) && Half4(Half4(Upper(crc))) == Down(crc)
  {
  }

  lemma UpperByte(crc: bv16, y: bv16)
    ensures Divide4(Divide4(Xor(Upper(crc), y))) == Xor(Down(crc), Divide4(Divide4(y)))
  {
    hide Divide4, Half4, Even4, Xor, Upper, Down;
    UpperIsEven(crc);
    UpperNibbles(Upper(crc), y);
    UpperNibbles(Half4(Upper(crc)), Divide4(y));
  }

  function Word(b: bv8): bv16 { b as bv16 }

  function Spread(d: bv8): bv16 {
    ((d as bv16) << 8) ^ ((d >> 4) as bv16) ^ ((d as bv16) << 3)
  }

  lemma LowerByte(d: bv8)
    ensures Divide4(Divide4(Word(d))) == Spread(Twist(d))
  {
  }

  lemma SplitBits(crc: bv16, b: bv8)
    ensures crc ^ (b as bv16) == (crc & 0xff00) ^ ((b ^ ((crc & 0xff) as bv8)) as bv16)
  {
  }

  lemma SplitBytes(crc: bv16, b: bv8)
    ensures Xor(crc, Word(b)) == Xor(Upper(crc), Word(Enter(crc, b)))
  {
    calc {
      Xor(crc, Word(b));
      crc ^ (b as bv16);
      { SplitBits(crc, b); }
      (crc & 0xff00) ^ ((b ^ ((crc & 0xff) as bv8)) as bv16);
      Xor(crc & 0xff00, Word(b ^ ((crc & 0xff) as bv8)));
      Xor(Upper(crc), Word(Enter(crc, b)));
    }
  }

  lemma JoinBytes(crc: bv16, d: bv8)
    ensures Combine(crc, d) == Xor(Down(crc), Spread(d))
  {
  }

  /** The step for a whole byte is the division of its eight bits. */
  lemma CrcStepDivides(crc: bv16, b: bv8)
    ensures CrcStep(crc, b) == Divide4(Divide4(Xor(crc, Word(b))))
  {
    hide Divide4, Xor, Spread, Word, Upper, Down, Combine, Twist, Enter;
    SplitBytes(crc, b);
    UpperByte(crc, Word(Enter(crc, b)));
    LowerByte(Enter(crc, b));
    JoinBytes(crc, Twist(Enter(crc, b)));
  }
}
