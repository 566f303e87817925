/**
 The CRC that resumable REST responses keep over the skipped document
 structure (`crc32_update`), and which structure changes it always detects.
 */
module Crc32 {

  function Xor(a: bv32, b: bv32): bv32 {
    a ^ b
  }

  function Half(a: bv32): bv32 {
    a >> 1
  }

  function Feedback(crc: bv32): bv32 {
    0xEDB8_8320 & (0 - (crc & 1))
  }

  /** One shift of the reflected polynomial 0xEDB88320. */
  function Shift(crc: bv32): bv32 {
    Xor(Half(crc), Feedback(crc))
  }

  function Shifts(crc: bv32, n: nat): bv32 {
    if n == 0 then crc else Shift(Shifts(crc, n - 1))
  }

  function Update(crc: bv32, byte: bv8): bv32 {
    Shifts(Xor(crc, byte as bv32), 8)
  }

  /** `crc32_update` with its loop. */
  method UpdateLoop(crc: bv32, byte: bv8) returns (r: bv32)
    ensures r == Update(crc, byte)
  {
    hide Xor, Half, Feedback;
    r := Xor(crc, byte as bv32);
    for i := 0 to 8
      invariant r == Shifts(Xor(crc, byte as bv32), i)
    {
      r := Xor(Half(r), Feedback(r));
    }
  }

  function Crc(crc: bv32, bytes: seq<bv8>): bv32 {
    if bytes == [] then crc else Update(Crc(crc, bytes[..|bytes| - 1]), bytes[|bytes| - 1])
  }

  /**
   The polynomial is that of CRC-32: a lone top bit of the byte comes out as
   0xEDB88320, a lone lowest one as 0x77073096.
   */
  lemma Polynomial()
    ensures Update(0, 0x80) == 0xEDB8_8320 && Update(0, 0x01) == 0x7707_3096
  {
    assert Shifts(0x80, 8) == 0xEDB8_8320 by { ShiftsFrom(0x80); }
    assert Shifts(0x01, 8) == 0x7707_3096 by { ShiftsFrom(0x01); }
  }

  lemma ShiftsFrom(crc: bv32)
    ensures Shifts(crc, 8) == Shift(Shift(Shift(Shift(Shift(Shift(Shift(Shift(crc))))))))
  {
    hide Shift, Shifts;
    ShiftsNone(crc);
    ShiftsNext(crc, 0);
    ShiftsNext(crc, 1);
    ShiftsNext(crc, 2);
    ShiftsNext(crc, 3);
    ShiftsNext(crc, 4);
    ShiftsNext(crc, 5);
    ShiftsNext(crc, 6);
    ShiftsNext(crc, 7);
  }

  lemma ShiftsNone(crc: bv32)
    ensures Shifts(crc, 0) == crc
  {}

  lemma ShiftsNext(crc: bv32, n: nat)
    ensures Shifts(crc, n + 1) == Shift(Shifts(crc, n))
  {}

  // ----- Injectivity -----

  lemma ShiftInjective(a: bv32, b: bv32)
    requires Shift(a) == Shift(b)
    ensures a == b
  {}

  lemma {:induction false} ShiftsInjective(a: bv32, b: bv32, n: nat)
    requires Shifts(a, n) == Shifts(b, n)
    ensures a == b
  {
    hide Shift;
    if n > 0 {
      ShiftInjective(Shifts(a, n - 1), Shifts(b, n - 1));
      ShiftsInjective(a, b, n - 1);
    }
  }

  lemma XorCancels(a: bv32, b: bv32, x: bv8, y: bv8)
    requires Xor(a, x as bv32) == Xor(b, y as bv32)
    ensures x == y ==> a == b
    ensures a == b ==> x == y
  {}

  /** The update is injective in the state, and injective in the byte. */
  lemma UpdateInjective(a: bv32, b: bv32, x: bv8, y: bv8)
    requires Update(a, x) == Update(b, y)
    ensures x == y ==> a == b
    ensures a == b ==> x == y
  {
    hide Shifts;
    ShiftsInjective(Xor(a, x as bv32), Xor(b, y as bv32), 8);
    XorCancels(a, b, x, y);
  }

  lemma {:induction false} CrcConcat(crc: bv32, a: seq<bv8>, b: seq<bv8>)
    ensures Crc(crc, a + b) == Crc(Crc(crc, a), b)
  {
    hide Update;
    if b == [] {
      assert a + b == a;
    } else {
      var n := |b| - 1;
      assert (a + b)[..|a| + n] == a + b[..n];
      CrcConcat(crc, a, b[..n]);
    }
  }

  lemma {:induction false} CrcInjectiveInState(a: bv32, b: bv32, bytes: seq<bv8>)
    requires Crc(a, bytes) == Crc(b, bytes)
    ensures a == b
  {
    hide Update;
    if bytes != [] {
      var n := |bytes| - 1;
      UpdateInjective(Crc(a, bytes[..n]), Crc(b, bytes[..n]), bytes[n], bytes[n]);
      CrcInjectiveInState(a, b, bytes[..n]);
    }
  }

  // ----- Bursts of up to 32 bits -----

  lemma FeedbackLinear(a: bv32, b: bv32)
    ensures Feedback(Xor(a, b)) == Xor(Feedback(a), Feedback(b))
  {
    assert a & 1 == 0 || a & 1 == 1;
    assert b & 1 == 0 || b & 1 == 1;
  }

  lemma HalfLinear(a: bv32, b: bv32)
    ensures Half(Xor(a, b)) == Xor(Half(a), Half(b))
  {}

  lemma XorAssociative(a: bv32, b: bv32, c: bv32)
    ensures Xor(a, Xor(b, c)) == Xor(Xor(a, b), c)
  {}

  lemma XorCommutes(a: bv32, b: bv32)
    ensures Xor(a, b) == Xor(b, a)
  {}

  lemma XorShuffle(p: bv32, q: bv32, r: bv32, s: bv32)
    ensures Xor(Xor(p, q), Xor(r, s)) == Xor(Xor(p, r), Xor(q, s))
  {
    hide Xor;
    XorAssociative(p, q, Xor(r, s));
    XorAssociative(q, r, s);
    XorCommutes(q, r);
    XorAssociative(r, q, s);
    XorAssociative(p, r, Xor(q, s));
  }

  lemma ShiftLinear(a: bv32, b: bv32)
    ensures Shift(Xor(a, b)) == Xor(Shift(a), Shift(b))
  {
    hide Xor, Half, Feedback;
    HalfLinear(a, b);
    FeedbackLinear(a, b);
    XorShuffle(Half(a), Half(b), Feedback(a), Feedback(b));
  }

  lemma {:induction false} ShiftsLinear(a: bv32, b: bv32, n: nat)
    ensures Shifts(Xor(a, b), n) == Xor(Shifts(a, n), Shifts(b, n))
  {
    hide Shift, Xor;
    if n > 0 {
      ShiftsLinear(a, b, n - 1);
      ShiftLinear(Shifts(a, n - 1), Shifts(b, n - 1));
    }
  }

  lemma {:induction false} ShiftsAdd(x: bv32, m: nat, n: nat)
    ensures Shifts(x, m + n) == Shifts(Shifts(x, m), n)
  {
    hide Shift;
    if n > 0 { ShiftsAdd(x, m, n - 1); }
  }

  predicate Even(x: bv32) {
    x & 1 == 0
  }

  /** The word moved down by one byte. */
  function Drop(x: bv32): bv32 {
    x >> 8
  }

  predicate LowByteIs(x: bv32, byte: bv8) {
    x & 0xFF == byte as bv32
  }

  lemma ShiftEven(x: bv32)
    requires Even(x)
    ensures Shift(x) == Half(x)
  {}

  lemma EightHalves(x: bv32, h1: bv32, h2: bv32, h3: bv32, h4: bv32, h5: bv32, h6: bv32, h7: bv32)
    requires LowByteIs(x, 0)
    requires h1 == Half(x) && h2 == Half(h1) && h3 == Half(h2) && h4 == Half(h3)
    requires h5 == Half(h4) && h6 == Half(h5) && h7 == Half(h6)
    ensures Even(x) && Even(h1) && Even(h2) && Even(h3) && Even(h4) && Even(h5) && Even(h6) && Even(h7)
    ensures Half(h7) == Drop(x)
  {}

  /** Eight shifts move a word without low bits down one byte. */
  lemma ShiftsDown(x: bv32)
    requires LowByteIs(x, 0)
    ensures Shifts(x, 8) == Drop(x)
  {
    hide Shift, Half, Even, Drop, LowByteIs;
    var h1 := Half(x);
    var h2 := Half(h1);
    var h3 := Half(h2);
    var h4 := Half(h3);
    var h5 := Half(h4);
    var h6 := Half(h5);
    var h7 := Half(h6);
    EightHalves(x, h1, h2, h3, h4, h5, h6, h7);
    ShiftEven(x);  assert Shifts(x, 1) == h1;
    ShiftEven(h1); assert Shifts(x, 2) == h2;
    ShiftEven(h2); assert Shifts(x, 3) == h3;
    ShiftEven(h3); assert Shifts(x, 4) == h4;
    ShiftEven(h4); assert Shifts(x, 5) == h5;
    ShiftEven(h5); assert Shifts(x, 6) == h6;
    ShiftEven(h6); assert Shifts(x, 7) == h7;
    ShiftEven(h7);
  }

  function High(x: bv32): bv32 {
    x & 0xFFFF_FF00
  }

  lemma SplitLow(byte: bv8, word: bv32)
    requires LowByteIs(word, byte)
    ensures word == Xor(byte as bv32, High(word))
    ensures LowByteIs(High(word), 0) && Drop(High(word)) == Drop(word)
  {}

  /** Mixing in a word and shifting by one byte is one update with its low byte; the rest moves down. */
  lemma OneUpdate(crc: bv32, byte: bv8, word: bv32)
    requires LowByteIs(word, byte)
    ensures Shifts(Xor(crc, word), 8) == Xor(Update(crc, byte), Drop(word))
  {
    hide Shifts, Xor, High, Drop, LowByteIs;
    SplitLow(byte, word);
    XorAssociative(crc, byte as bv32, High(word));
    ShiftsLinear(Xor(crc, byte as bv32), High(word), 8);
    ShiftsDown(High(word));
  }

  /** The bytes of a little-endian word. */
  lemma WordBytes(word: bv32, b0: bv8, b1: bv8, b2: bv8, b3: bv8)
    requires word == Word(b0, b1, b2, b3)
    ensures LowByteIs(word, b0) && LowByteIs(Drop(word), b1)
    ensures LowByteIs(Drop(Drop(word)), b2) && LowByteIs(Drop(Drop(Drop(word))), b3)
    ensures Drop(Drop(Drop(Drop(word)))) == 0
  {}

  function Word(b0: bv8, b1: bv8, b2: bv8, b3: bv8): bv32 {
    (b0 as bv32) | ((b1 as bv32) << 8) | ((b2 as bv32) << 16) | ((b3 as bv32) << 24)
  }

  lemma WordInjective(crc: bv32, a0: bv8, a1: bv8, a2: bv8, a3: bv8, b0: bv8, b1: bv8, b2: bv8, b3: bv8)
    requires Xor(crc, Word(a0, a1, a2, a3)) == Xor(crc, Word(b0, b1, b2, b3))
    ensures a0 == b0 && a1 == b1 && a2 == b2 && a3 == b3
  {}

  /** Four updates are one 32-step shift of the state mixed with the word. */
  lemma FourUpdates(crc: bv32, b0: bv8, b1: bv8, b2: bv8, b3: bv8)
    ensures Update(Update(Update(Update(crc, b0), b1), b2), b3) == Shifts(Xor(crc, Word(b0, b1, b2, b3)), 32)
  {
    hide Shifts, Xor, Word, Update, Drop, LowByteIs;
    var w := Word(b0, b1, b2, b3);
    WordBytes(w, b0, b1, b2, b3);
    var c1 := Update(crc, b0);
    var c2 := Update(c1, b1);
    var c3 := Update(c2, b2);
    OneUpdate(crc, b0, w);
    OneUpdate(c1, b1, Drop(w));
    OneUpdate(c2, b2, Drop(Drop(w)));
    OneUpdate(c3, b3, Drop(Drop(Drop(w))));
    XorZero(Update(c3, b3));
    var x := Xor(crc, w);
    ShiftsAdd(x, 8, 8);
    ShiftsAdd(x, 16, 8);
    ShiftsAdd(x, 24, 8);
  }

  lemma XorZero(a: bv32)
    ensures Xor(a, 0) == a
  {}

  lemma FourCrc(crc: bv32, s: seq<bv8>)
    requires |s| == 4
    ensures Crc(crc, s) == Update(Update(Update(Update(crc, s[0]), s[1]), s[2]), s[3])
  {
    hide Update;
    var s1, s2, s3 := s[..1], s[..2], s[..3];
    assert s1[..0] == [] && s2[..1] == s1 && s3[..2] == s2;
    assert Crc(crc, s1) == Update(crc, s[0]);
    assert Crc(crc, s2) == Update(Crc(crc, s1), s[1]);
    assert Crc(crc, s3) == Update(Crc(crc, s2), s[2]);
  }

  lemma FourEqual(a: seq<bv8>, b: seq<bv8>)
    requires |a| == |b| == 4 && a[0] == b[0] && a[1] == b[1] && a[2] == b[2] && a[3] == b[3]
    ensures a == b
  {}

  /**
   Structures of equal length that differ only within four consecutive bytes
   always have different CRCs; in particular, a single changed byte is always
   noticed.
   */
  lemma BurstDetected(crc: bv32, before: seq<bv8>, a: seq<bv8>, b: seq<bv8>, after: seq<bv8>)
    requires |a| == |b| == 4 && a != b
    ensures Crc(crc, before + a + after) != Crc(crc, before + b + after)
  {
    hide Crc, Update, Shifts, Xor, Word;
    CrcConcat(crc, before + a, after);
    CrcConcat(crc, before + b, after);
    CrcConcat(crc, before, a);
    CrcConcat(crc, before, b);
    var c := Crc(crc, before);
    if Crc(crc, before + a + after) == Crc(crc, before + b + after) {
      CrcInjectiveInState(Crc(c, a), Crc(c, b), after);
      FourCrc(c, a);
      FourCrc(c, b);
      FourUpdates(c, a[0], a[1], a[2], a[3]);
      FourUpdates(c, b[0], b[1], b[2], b[3]);
      ShiftsInjective(Xor(c, Word(a[0], a[1], a[2], a[3])), Xor(c, Word(b[0], b[1], b[2], b[3])), 32);
      WordInjective(c, a[0], a[1], a[2], a[3], b[0], b[1], b[2], b[3]);
      FourEqual(a, b);
    }
  }

  /** One changed byte, anywhere in a structure of any length. */
  lemma ByteChangeDetected(crc: bv32, before: seq<bv8>, x: bv8, y: bv8, after: seq<bv8>)
    requires x != y
    ensures Crc(crc, before + [x] + after) != Crc(crc, before + [y] + after)
  {
    hide Update;
    CrcConcat(crc, before + [x], after);
    CrcConcat(crc, before + [y], after);
    assert (before + [x])[..|before|] == before == (before + [y])[..|before|];
    var c := Crc(crc, before);
    if Crc(crc, before + [x] + after) == Crc(crc, before + [y] + after) {
      CrcInjectiveInState(Update(c, x), Update(c, y), after);
      UpdateInjective(c, c, x, y);
    }
  }
}
