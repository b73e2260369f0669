/** Words and octets as the numbers they stand for, the operations on words of FIPS PUB 180-1, sections 2, 3 and 5, and
    what these do to the bits of words. */
module Sha1Words {
  type Octet = o: int | 0 <= o < 0x100
  type Word = w: int | 0 <= w < 0x1_0000_0000

  // Bits.

  /** 2 to the power of n. */
  function Power(n: nat): (p: nat)
    ensures p > 0
  {
    if n == 0 then 1 else 2 * Power(n - 1)
  }

  /** Bit i of a number, 0 being the last one. */
  predicate Bit(w: nat, i: nat) {
    if i == 0 then w % 2 == 1 else Bit(w / 2, i - 1)
  }

  datatype Gate = AND | OR | XOR

  predicate Apply(g: Gate, x: bool, y: bool) {
    match g
    case AND => x && y
    case OR => x || y
    case XOR => x != y
  }

  /** The gate on each of the last n bits. */
  function Bitwise(g: Gate, n: nat, a: nat, b: nat): (r: nat)
    ensures r < Power(n)
  {
    if n == 0 then 0
    else 2 * Bitwise(g, n - 1, a / 2, b / 2) + if Apply(g, a % 2 == 1, b % 2 == 1) then 1 else 0
  }

  lemma {:induction false} BitwiseBit(g: Gate, n: nat, a: nat, b: nat, i: nat)
    requires i < n
    ensures Bit(Bitwise(g, n, a, b), i) == Apply(g, Bit(a, i), Bit(b, i))
    decreases i
  {
    hide Apply, Power;
    if i > 0 {
      BitwiseBit(g, n - 1, a / 2, b / 2, i - 1);
      assert Bitwise(g, n, a, b) / 2 == Bitwise(g, n - 1, a / 2, b / 2);
    }
  }

  lemma Power32()
    ensures Power(8) == 0x100 && Power(16) == 0x1_0000 && Power(24) == 0x100_0000 && Power(32) == 0x1_0000_0000
  {
    assert Power(4) == 16;
    assert Power(8) == 0x100;
    assert Power(12) == 0x1000;
    assert Power(16) == 0x1_0000;
    assert Power(20) == 0x10_0000;
    assert Power(24) == 0x100_0000;
    assert Power(28) == 0x1000_0000;
    assert Power(31) == 0x8000_0000;
  }

  // The operations of C on words.

  function And(a: Word, b: Word): Word {
    Power32();
    Bitwise(AND, 32, a, b)
  }

  function Or(a: Word, b: Word): Word {
    Power32();
    Bitwise(OR, 32, a, b)
  }

  function Xor(a: Word, b: Word): Word {
    Power32();
    Bitwise(XOR, 32, a, b)
  }

  function Not(a: Word): Word { 0xFFFF_FFFF - a }

  function ShiftLeft(w: Word, n: nat): Word
    decreases n
  {
    if n == 0 then w else ShiftLeft(2 * w % 0x1_0000_0000, n - 1)
  }

  function ShiftRight(w: Word, n: nat): Word {
    if n == 0 then w else ShiftRight(w / 2, n - 1)
  }

  // The operations of the standard, as the code composes them.

  function Rotate(n: nat, w: Word): Word
    requires n <= 32
  {
    Or(ShiftLeft(w, n), ShiftRight(w, 32 - n))
  }

  function BigEndian(a: Octet, b: Octet, c: Octet, d: Octet): Word {
    Or(Or(Or(ShiftLeft(a, 24), ShiftLeft(b, 16)), ShiftLeft(c, 8)), d)
  }

  function Choice(b: Word, c: Word, d: Word): Word { Or(And(b, c), And(Not(b), d)) }

  function Parity(b: Word, c: Word, d: Word): Word { Xor(Xor(b, c), d) }

  function Majority(b: Word, c: Word, d: Word): Word { Or(Or(And(b, c), And(b, d)), And(c, d)) }

  function Mix(a: Word, b: Word, c: Word, d: Word): Word { Rotate(1, Xor(Xor(Xor(a, b), c), d)) }

  function Add(a: Word, b: Word): Word { (a + b) % 0x1_0000_0000 }

  function Sum(a: Word, f: Word, e: Word, w: Word, k: Word): Word { (a + f + e + w + k) % 0x1_0000_0000 }

  // Their bits.

  lemma AndBit(a: Word, b: Word, i: nat)
    requires i < 32
    ensures Bit(And(a, b), i) == (Bit(a, i) && Bit(b, i))
  {
    hide Bit, Bitwise;
    BitwiseBit(AND, 32, a, b, i);
  }

  lemma OrBit(a: Word, b: Word, i: nat)
    requires i < 32
    ensures Bit(Or(a, b), i) == (Bit(a, i) || Bit(b, i))
  {
    hide Bit, Bitwise;
    BitwiseBit(OR, 32, a, b, i);
  }

  lemma XorBit(a: Word, b: Word, i: nat)
    requires i < 32
    ensures Bit(Xor(a, b), i) == (Bit(a, i) != Bit(b, i))
  {
    hide Bit, Bitwise;
    BitwiseBit(XOR, 32, a, b, i);
  }

  lemma {:induction false} ComplementBit(n: nat, a: nat, i: nat)
    requires i < n && a < Power(n)
    ensures Bit(Power(n) - 1 - a, i) == !Bit(a, i)
    decreases i
  {
    if i > 0 {
      assert (Power(n) - 1 - a) / 2 == Power(n - 1) - 1 - a / 2;
      ComplementBit(n - 1, a / 2, i - 1);
    }
  }

  lemma NotBit(a: Word, i: nat)
    requires i < 32
    ensures Bit(Not(a), i) == !Bit(a, i)
  {
    Power32();
    ComplementBit(32, a, i);
  }

  /** The highest bit does not matter to those below. */
  lemma {:induction false} LowerBit(n: nat, w: nat, i: nat)
    requires i < n && Power(n) <= w
    ensures Bit(w - Power(n), i) == Bit(w, i)
    decreases i
  {
    if i > 0 {
      assert (w - Power(n)) / 2 == w / 2 - Power(n - 1);
      LowerBit(n - 1, w / 2, i - 1);
    }
  }

  lemma DoubleBit(w: Word, i: nat)
    requires i < 32
    ensures Bit(2 * w % 0x1_0000_0000, i) == (i > 0 && Bit(w, i - 1))
  {
    if i > 0 {
      if w >= 0x8000_0000 {
        Power32();
        assert 2 * w % 0x1_0000_0000 / 2 == w - Power(31);
        LowerBit(31, w, i - 1);
      } else {
        assert 2 * w % 0x1_0000_0000 / 2 == w;
      }
    }
  }

  lemma {:induction false} ShiftLeftBit(w: Word, n: nat, i: nat)
    requires i < 32
    ensures Bit(ShiftLeft(w, n), i) == (n <= i && Bit(w, i - n))
    decreases n
  {
    hide Bit;
    if n > 0 {
      var v := 2 * w % 0x1_0000_0000;
      ShiftLeftBit(v, n - 1, i);
      if n - 1 <= i {
        DoubleBit(w, i - (n - 1));
      }
    }
  }

  lemma {:induction false} ShiftRightBit(w: Word, n: nat, i: nat)
    ensures Bit(ShiftRight(w, n), i) == Bit(w, i + n)
    decreases n
  {
    if n > 0 {
      ShiftRightBit(w / 2, n - 1, i);
    }
  }

  lemma {:induction false} NoBit(w: nat, n: nat, i: nat)
    requires w < Power(n) && n <= i
    ensures !Bit(w, i)
    decreases i
  {
    if i > 0 {
      NoBit(w / 2, if n > 0 then n - 1 else 0, i - 1);
    }
  }

  /** Rotating by n moves every bit n places up, and those that leave the word come in at its end. */
  lemma RotateBits(n: nat, w: Word, i: nat)
    requires n <= 32 && i < 32
    ensures Bit(Rotate(n, w), (i + n) % 32) == Bit(w, i)
  {
    hide Bit, Or, ShiftLeft, ShiftRight, Power;
    var j := (i + n) % 32;
    OrBit(ShiftLeft(w, n), ShiftRight(w, 32 - n), j);
    ShiftLeftBit(w, n, j);
    ShiftRightBit(w, 32 - n, j);
    Power32();
    if i + n < 32 {
      NoBit(w, 32, j + 32 - n);
    } else {
      assert j == i + n - 32;
    }
  }

  /** Each bit of the mixture is the exclusive or of the four bits one place below. */
  lemma MixBits(a: Word, b: Word, c: Word, d: Word, i: nat)
    requires i < 32
    ensures Bit(Mix(a, b, c, d), (i + 1) % 32) == (Bit(a, i) != (Bit(b, i) != (Bit(c, i) != Bit(d, i))))
  {
    hide Bit, Xor, Rotate;
    RotateBits(1, Xor(Xor(Xor(a, b), c), d), i);
    XorBit(Xor(Xor(a, b), c), d, i);
    XorBit(Xor(a, b), c, i);
    XorBit(a, b, i);
  }

  /** Choice takes a bit from c where b has one, and else from d. */
  lemma ChoiceBits(b: Word, c: Word, d: Word, i: nat)
    requires i < 32
    ensures Bit(Choice(b, c, d), i) == if Bit(b, i) then Bit(c, i) else Bit(d, i)
  {
    hide Bit, And, Or, Not;
    OrBit(And(b, c), And(Not(b), d), i);
    AndBit(b, c, i);
    AndBit(Not(b), d, i);
    NotBit(b, i);
  }

  /** Parity has the bits that one or all of the three have. */
  lemma ParityBits(b: Word, c: Word, d: Word, i: nat)
    requires i < 32
    ensures Bit(Parity(b, c, d), i) == (Bit(b, i) != (Bit(c, i) != Bit(d, i)))
  {
    hide Bit, Xor;
    XorBit(Xor(b, c), d, i);
    XorBit(b, c, i);
  }

  /** Majority has the bits that two of the three have. */
  lemma MajorityBits(b: Word, c: Word, d: Word, i: nat)
    requires i < 32
    ensures Bit(Majority(b, c, d), i) == if Bit(b, i) == Bit(c, i) then Bit(b, i) else Bit(d, i)
  {
    hide Bit, And, Or;
    OrBit(Or(And(b, c), And(b, d)), And(c, d), i);
    OrBit(And(b, c), And(b, d), i);
    AndBit(b, c, i);
    AndBit(b, d, i);
    AndBit(c, d, i);
  }

  // The value of a word of four octets.

  lemma {:induction false} ShiftLeftValue(w: nat, n: nat)
    requires w * Power(n) < 0x1_0000_0000
    ensures w < 0x1_0000_0000 && ShiftLeft(w, n) == w * Power(n)
    decreases n
  {
    if n > 0 {
      assert w * Power(n) == (2 * w) * Power(n - 1);
      ShiftLeftValue(2 * w, n - 1);
    }
  }

  /** The bits of a multiple of 2 to the k and those of a number below it are disjoint. */
  lemma {:induction false} OrIsSum(n: nat, q: nat, k: nat, b: nat)
    requires b < Power(k) && q * Power(k) + b < Power(n)
    ensures Bitwise(OR, n, q * Power(k), b) == q * Power(k) + b
    decreases n
  {
    if k == 0 {
      OrZero(n, q);
    } else if n > 0 {
      assert q * Power(k) == 2 * (q * Power(k - 1));
      OrIsSum(n - 1, q, k - 1, b / 2);
    }
  }

  lemma {:induction false} OrZero(n: nat, q: nat)
    requires q < Power(n)
    ensures Bitwise(OR, n, q, 0) == q
  {
    if n > 0 {
      OrZero(n - 1, q / 2);
    }
  }

  lemma OrValue(q: nat, k: nat, b: nat)
    requires b < Power(k) && q * Power(k) + b < 0x1_0000_0000
    ensures Or(q * Power(k), b) == q * Power(k) + b
  {
    Power32();
    OrIsSum(32, q, k, b);
  }

  /** The first octet of a word counts most. */
  lemma BigEndianValue(a: Octet, b: Octet, c: Octet, d: Octet)
    ensures BigEndian(a, b, c, d) == a * 0x100_0000 + b * 0x1_0000 + c * 0x100 + d
  {
    hide Or, ShiftLeft, Power;
    Power32();
    ShiftLeftValue(a, 24);
    ShiftLeftValue(b, 16);
    ShiftLeftValue(c, 8);
    OrValue(a, 24, b * 0x1_0000);
    OrValue(a * 0x100 + b, 16, c * 0x100);
    OrValue(a * 0x1_0000 + b * 0x100 + c, 8, d);
  }

  // The bits of a word are all of it.

  lemma {:induction false} SameBitsBelow(n: nat, a: nat, b: nat)
    requires a < Power(n) && b < Power(n) && forall i :: 0 <= i < n ==> Bit(a, i) == Bit(b, i)
    ensures a == b
    decreases n
  {
    if n > 0 {
      assert Bit(a, 0) == Bit(b, 0);
      forall i | 0 <= i < n - 1
        ensures Bit(a / 2, i) == Bit(b / 2, i)
      {
        assert Bit(a, i + 1) == Bit(b, i + 1);
      }
      SameBitsBelow(n - 1, a / 2, b / 2);
    }
  }

  lemma SameBits(a: Word, b: Word)
    requires forall i :: 0 <= i < 32 ==> Bit(a, i) == Bit(b, i)
    ensures a == b
  {
    Power32();
    SameBitsBelow(32, a, b);
  }

  /** There is one word with every bit of another moved by n places. */
  lemma Rotated(n: nat, w: Word, r: Word)
    requires n <= 32 && forall i :: 0 <= i < 32 ==> Bit(r, (i + n) % 32) == Bit(w, i)
    ensures r == Rotate(n, w)
  {
    hide Bit, Rotate;
    forall j | 0 <= j < 32
      ensures Bit(r, j) == Bit(Rotate(n, w), j)
    {
      var i := (j + 32 - n) % 32;
      assert (i + n) % 32 == j;
      RotateBits(n, w, i);
    }
    SameBits(r, Rotate(n, w));
  }
}
