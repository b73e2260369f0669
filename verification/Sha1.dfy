/** SHA-1: the streaming context, against the definition of FIPS PUB 180-1 on whole messages. */
module Sha1 {
  import opened Sha1Words

  // FIPS PUB 180-1, sections 4 to 7.

  /** The logical function of round t. */
  function F(t: nat, b: Word, c: Word, d: Word): Word {
    if t < 20 then Choice(b, c, d)
    else if t < 40 then Parity(b, c, d)
    else if t < 60 then Majority(b, c, d)
    else Parity(b, c, d)
  }

  function K(t: nat): Word {
    if t < 20 then 0x5A827999 else if t < 40 then 0x6ED9EBA1 else if t < 60 then 0x8F1BBCDC else 0xCA62C1D6
  }

  /** Word t of the schedule of a block. */
  function Schedule(m: seq<Octet>, t: nat): Word
    requires |m| == 64
  {
    if t < 16 then BigEndian(m[4 * t], m[4 * t + 1], m[4 * t + 2], m[4 * t + 3])
    else Mix(Schedule(m, t - 3), Schedule(m, t - 8), Schedule(m, t - 14), Schedule(m, t - 16))
  }

  datatype Five = Five(a: Word, b: Word, c: Word, d: Word, e: Word)

  function Round(t: nat, w: Word, x: Five): Five {
    Five(Sum(Rotate(5, x.a), F(t, x.b, x.c, x.d), x.e, w, K(t)), x.a, Rotate(30, x.b), x.c, x.d)
  }

  /** The five words after the first t rounds. */
  function Rounds(m: seq<Octet>, h: Five, t: nat): Five
    requires |m| == 64
  {
    if t == 0 then h else Round(t - 1, Schedule(m, t - 1), Rounds(m, h, t - 1))
  }

  function Block(m: seq<Octet>, h: Five): Five
    requires |m| == 64
  {
    var x := Rounds(m, h, 80);
    Five(Add(h.a, x.a), Add(h.b, x.b), Add(h.c, x.c), Add(h.d, x.d), Add(h.e, x.e))
  }

  const H0 := Five(0x67452301, 0xEFCDAB89, 0x98BADCFE, 0x10325476, 0xC3D2E1F0)

  /** The whole blocks of a message, one after the other. */
  function Blocks(m: seq<Octet>): Five
    requires |m| % 64 == 0
  {
    if m == [] then H0
    else
      var n := |m| - 64;
      Block(m[n..], Blocks(m[..n]))
  }

  const MAX_BITS: nat := 0x1_0000_0000_0000_0000

  function Octet8(n: nat): Octet { n % 256 }

  /** A 64-bit length, most significant octet first. */
  function Length(bits: nat): (r: seq<Octet>)
    ensures |r| == 8
  {
    [Octet8(bits / 0x100_0000_0000_0000), Octet8(bits / 0x1_0000_0000_0000), Octet8(bits / 0x100_0000_0000),
     Octet8(bits / 0x1_0000_0000), Octet8(bits / 0x100_0000), Octet8(bits / 0x1_0000), Octet8(bits / 0x100),
     Octet8(bits)]
  }

  function Zeros(n: nat): (r: seq<Octet>)
    ensures |r| == n
  {
    seq(n, _ => 0)
  }

  /** The zero octets between the one bit and the length. */
  function ZerosAfter(n: nat): nat
    requires n < 64
  {
    if n <= 55 then 55 - n else 119 - n
  }

  lemma PadMultiple(n: nat)
    ensures (n + 1 + ZerosAfter(n % 64) + 8) % 64 == 0
  {
    var blocks := n / 64 + if n % 64 <= 55 then 1 else 2;
    assert n + 1 + ZerosAfter(n % 64) + 8 == 64 * blocks;
    MultipleOf64(blocks);
  }

  lemma MultipleOf64(k: nat)
    ensures 64 * k % 64 == 0
  {
  }

  /** Section 4: a one bit, the fewest zeros, and the length in bits, up to a multiple of 512 bits. */
  function Pad(m: seq<Octet>): (r: seq<Octet>)
    ensures |r| % 64 == 0
  {
    PadMultiple(|m|);
    m + [0x80] + Zeros(ZerosAfter(|m| % 64)) + Length(8 * |m|)
  }

  function Digest(m: seq<Octet>): Five { Blocks(Pad(m)) }

  // The context.

  /** What is left of m after its whole blocks. */
  function Rest(m: seq<Octet>): (r: seq<Octet>)
    ensures |r| == |m| % 64
  {
    m[|m| - |m| % 64..]
  }

  function Whole(m: seq<Octet>): (r: seq<Octet>)
    ensures |r| % 64 == 0
  {
    m[..|m| - |m| % 64]
  }

  lemma AppendOctet(m: seq<Octet>, o: Octet)
    ensures var n := m + [o];
            if |m| % 64 == 63 then Rest(n) == [] && Blocks(Whole(n)) == Block(Rest(m) + [o], Blocks(Whole(m)))
            else Rest(n) == Rest(m) + [o] && Whole(n) == Whole(m)
  {
    hide Block, Blocks;
    var n := m + [o];
    if |m| % 64 == 63 {
      BlocksMore(Whole(m), Rest(m) + [o]);
      assert Whole(n) == n && n == Whole(m) + (Rest(m) + [o]);
    }
  }

  lemma NoRounds(m: seq<Octet>, h: Five)
    requires |m| == 64
    ensures Rounds(m, h, 0) == h
  {
  }

  lemma NextRound(m: seq<Octet>, h: Five, t: nat, x: Five)
    requires |m| == 64 && x == Rounds(m, h, t)
    ensures Rounds(m, h, t + 1) ==
            Five(Sum(Rotate(5, x.a), F(t, x.b, x.c, x.d), x.e, Schedule(m, t), K(t)), x.a, Rotate(30, x.b), x.c, x.d)
  {
    hide Rotate, Schedule, F, K, Sum;
  }

  lemma FirstWords(m: seq<Octet>, t: nat)
    requires |m| == 64 && t < 16
    ensures Schedule(m, t) == BigEndian(m[4 * t], m[4 * t + 1], m[4 * t + 2], m[4 * t + 3])
  {
    hide BigEndian;
  }

  lemma LaterWords(m: seq<Octet>, t: nat)
    requires |m| == 64 && 16 <= t
    ensures Schedule(m, t) ==
            Mix(Schedule(m, t - 3), Schedule(m, t - 8), Schedule(m, t - 14), Schedule(m, t - 16))
  {
    hide Mix;
  }

  class Context {
    var digest: array<Word>
    var lengthLow: nat
    var lengthHigh: nat
    var block: array<Octet>
    var index: nat
    var computed: bool
    var corrupted: bool
    /** All that has been put in. */
    ghost var message: seq<Octet>

    ghost function Words(): Five
      requires digest.Length == 5
      reads this, digest
    {
      Five(digest[0], digest[1], digest[2], digest[3], digest[4])
    }

    /** Before the digest is asked for: the whole blocks are digested, the rest is in the block, and the two length
        words together are 8 times the octets seen. */
    ghost predicate Streaming()
      requires digest.Length == 5 && block.Length == 64
      reads this, digest, block
    {
      && 8 * |message| < MAX_BITS && index == |message| % 64
      && Words() == Blocks(Whole(message)) && block[..index] == Rest(message)
      && lengthLow < 0x1_0000_0000 && lengthHigh * 0x1_0000_0000 + lengthLow == 8 * |message|
    }

    ghost predicate Valid()
      reads this, digest, block
    {
      && digest.Length == 5 && block.Length == 64
      && (!corrupted && !computed ==> Streaming())
      && (!corrupted && computed ==> 8 * |message| < MAX_BITS && Words() == Digest(message))
    }

    /** SHA1Reset of a new context. */
    constructor ()
      ensures Valid() && fresh(digest) && fresh(block)
      ensures message == [] && !computed && !corrupted
    {
      lengthLow, lengthHigh, index := 0, 0, 0;
      digest := new Word[5][0x67452301, 0xEFCDAB89, 0x98BADCFE, 0x10325476, 0xC3D2E1F0];
      block := new Octet[64](_ => 0);
      computed, corrupted := false, false;
      message := [];
    }

    /** SHA1ProcessMessageBlock. */
    method ProcessMessageBlock()
      requires digest.Length == 5 && block.Length == 64
      modifies digest, this`index
      ensures index == 0 && Words() == Block(block[..], old(Words()))
    {
      hide Rotate, Schedule, Rounds, Sum, Choice, Parity, Majority, Add, Round;
      var w := Prepare();
      ghost var m, h := block[..], Words();
      NoRounds(m, h);
      var a, b, c, d, e := digest[0], digest[1], digest[2], digest[3], digest[4];
      for t := 0 to 20
        invariant Five(a, b, c, d, e) == Rounds(m, h, t) && Words() == h
      {
        NextRound(m, h, t, Five(a, b, c, d, e));
        var temp := Sum(Rotate(5, a), Choice(b, c, d), e, w[t], 0x5A827999);
        e, d, c, b, a := d, c, Rotate(30, b), a, temp;
      }
      for t := 20 to 40
        invariant Five(a, b, c, d, e) == Rounds(m, h, t) && Words() == h
      {
        NextRound(m, h, t, Five(a, b, c, d, e));
        var temp := Sum(Rotate(5, a), Parity(b, c, d), e, w[t], 0x6ED9EBA1);
        e, d, c, b, a := d, c, Rotate(30, b), a, temp;
      }
      for t := 40 to 60
        invariant Five(a, b, c, d, e) == Rounds(m, h, t) && Words() == h
      {
        NextRound(m, h, t, Five(a, b, c, d, e));
        var temp := Sum(Rotate(5, a), Majority(b, c, d), e, w[t], 0x8F1BBCDC);
        e, d, c, b, a := d, c, Rotate(30, b), a, temp;
      }
      for t := 60 to 80
        invariant Five(a, b, c, d, e) == Rounds(m, h, t) && Words() == h
      {
        NextRound(m, h, t, Five(a, b, c, d, e));
        var temp := Sum(Rotate(5, a), Parity(b, c, d), e, w[t], 0xCA62C1D6);
        e, d, c, b, a := d, c, Rotate(30, b), a, temp;
      }
      digest[0] := Add(digest[0], a);
      digest[1] := Add(digest[1], b);
      digest[2] := Add(digest[2], c);
      digest[3] := Add(digest[3], d);
      digest[4] := Add(digest[4], e);
      index := 0;
    }

    /** The word sequence of the block. */
    method Prepare() returns (w: seq<Word>)
      requires block.Length == 64
      ensures |w| == 80 && forall t :: 0 <= t < 80 ==> w[t] == Schedule(block[..], t)
    {
      hide BigEndian, Mix, Schedule;
      var words := new Word[80](_ => 0);
      for t := 0 to 16
        invariant forall j :: 0 <= j < t ==> words[j] == Schedule(block[..], j)
      {
        FirstWords(block[..], t);
        words[t] := BigEndian(block[t * 4], block[t * 4 + 1], block[t * 4 + 2], block[t * 4 + 3]);
      }
      for t := 16 to 80
        invariant forall j :: 0 <= j < t ==> words[j] == Schedule(block[..], j)
      {
        LaterWords(block[..], t);
        words[t] := Mix(words[t - 3], words[t - 8], words[t - 14], words[t - 16]);
      }
      return words[..];
    }

    /** SHA1Input. */
    method Input(data: seq<Octet>)
      requires Valid() && |data| < 0x1_0000_0000
      modifies this`index, this`lengthLow, this`lengthHigh, this`corrupted, this`message, digest, block
      ensures Valid() && computed == old(computed)
      ensures if data == [] then corrupted == old(corrupted) && message == old(message)
              else if old(computed) || old(corrupted) then corrupted
              else
                && corrupted == (8 * (|old(message)| + |data|) >= MAX_BITS)
                && (!corrupted ==> message == old(message) + data)
      ensures data == [] || old(computed) ==> digest[..] == old(digest[..])
    {
      hide Blocks, Digest, Streaming;
      if |data| == 0 {
        return;
      }
      if computed || corrupted {
        corrupted := true;
        return;
      }
      ghost var start := message;
      var k := 0;
      while k < |data| && !corrupted
        invariant k <= |data| && digest.Length == 5 && block.Length == 64 && !computed
        invariant if corrupted then 8 * (|start| + k) == MAX_BITS else Streaming() && message == start + data[..k]
      {
        PutOctet(data[k]);
        k := k + 1;
        assert data[..k] == data[..k - 1] + [data[k - 1]];
      }
      assert k == |data| ==> data[..k] == data;
      if !corrupted {
        StreamingShort();
      }
    }

    lemma StreamingShort()
      requires digest.Length == 5 && block.Length == 64 && Streaming()
      ensures 8 * |message| < MAX_BITS
    {
      hide Blocks, Whole, Rest;
    }

    /** The two length words, after n octets; when they wrap the message is too long. */
    method CountOctet(ghost n: nat)
      requires lengthLow < 0x1_0000_0000 && lengthHigh * 0x1_0000_0000 + lengthLow == 8 * (n - 1) < MAX_BITS
               && !corrupted
      modifies this`lengthLow, this`lengthHigh, this`corrupted
      ensures if corrupted then 8 * n == MAX_BITS
              else
                && lengthLow < 0x1_0000_0000
                && lengthHigh * 0x1_0000_0000 + lengthLow == 8 * n < MAX_BITS
    {
      lengthLow := (lengthLow + 8) % 0x1_0000_0000;
      if lengthLow == 0 {
        lengthHigh := (lengthHigh + 1) % 0x1_0000_0000;
        if lengthHigh == 0 {
          corrupted := true;
        }
      }
    }

    /** One turn of the loop of SHA1Input. */
    method PutOctet(o: Octet)
      requires digest.Length == 5 && block.Length == 64 && Streaming() && !corrupted
      modifies this`index, this`lengthLow, this`lengthHigh, this`corrupted, this`message, digest, block
      ensures message == old(message) + [o]
      ensures if corrupted then 8 * |message| == MAX_BITS else Streaming()
    {
      hide Blocks, Block, BigEndian, Whole, Rest;
      AppendOctet(message, o);
      RestIs(message);
      RestIs(message + [o]);
      block[index] := o;
      index := index + 1;
      message := message + [o];
      assert block[..index] == old(block[..index]) + [o];
      CountOctet(|message|);
      if index == 64 {
        assert block[..] == block[..index];
        ProcessMessageBlock();
      }
    }

    /** Fills the block from `index` to `to` with zeros. */
    method FillZeros(to: nat)
      requires block.Length == 64 && index <= to <= 64
      modifies block, this`index
      ensures index == to && block[..to] == old(block[..index]) + Zeros(to - old(index))
    {
      while index < to
        invariant old(index) <= index <= to
        invariant block[..index] == old(block[..index]) + Zeros(index - old(index))
      {
        block[index] := 0;
        index := index + 1;
      }
    }

    /** SHA1PadMessage. */
    method PadMessage()
      requires digest.Length == 5 && block.Length == 64 && Streaming()
      modifies digest, block, this`index
      ensures Words() == Digest(message)
    {
      hide Blocks, Block, BigEndian, Whole, Rest, Digest, Zeros, Length;
      RestIs(message);
      PadBlocks(message);
      ghost var n := index;
      if index > 55 {
        block[index] := 0x80;
        index := index + 1;
        assert block[..index] == Rest(message) + [0x80];
        FillZeros(64);
        assert block[..] == block[..64];
        ProcessMessageBlock();
        FillZeros(56);
        assert block[..0] == [] && block[..56] == Zeros(56);
      } else {
        block[index] := 0x80;
        index := index + 1;
        assert block[..index] == Rest(message) + [0x80];
        FillZeros(56);
      }
      StoreLength();
      assert block[..] == block[..56] + block[56..];
      ProcessMessageBlock();
    }

    /** The length in the last eight octets of the block. */
    method StoreLength()
      requires block.Length == 64
      requires lengthLow < 0x1_0000_0000 && lengthHigh * 0x1_0000_0000 + lengthLow == 8 * |message|
      modifies block
      ensures block[..56] == old(block[..56]) && block[56..] == Length(8 * |message|)
    {
      hide Octet8, Length;
      LengthWords(lengthHigh, lengthLow);
      block[56] := Octet8(lengthHigh / 0x100_0000);
      block[57] := Octet8(lengthHigh / 0x1_0000);
      block[58] := Octet8(lengthHigh / 0x100);
      block[59] := Octet8(lengthHigh);
      block[60] := Octet8(lengthLow / 0x100_0000);
      block[61] := Octet8(lengthLow / 0x1_0000);
      block[62] := Octet8(lengthLow / 0x100);
      block[63] := Octet8(lengthLow);
      ghost var l := Length(8 * |message|);
      assert forall k :: 0 <= k < 8 ==> block[56..][k] == l[k];
    }

    /** SHA1Result: the digest of all that was put in, also when asked for again. */
    method Result() returns (ok: bool)
      requires Valid()
      modifies digest, block, this`index, this`computed
      ensures Valid() && ok == !corrupted && (ok ==> computed && Words() == Digest(message))
    {
      hide Digest, Blocks;
      if corrupted {
        return false;
      }
      if !computed {
        PadMessage();
        computed := true;
      }
      return true;
    }
  }

  lemma LengthWords(high: nat, low: nat)
    requires low < 0x1_0000_0000
    ensures var l := Length(high * 0x1_0000_0000 + low);
            && l[0] == Octet8(high / 0x100_0000) && l[1] == Octet8(high / 0x1_0000)
            && l[2] == Octet8(high / 0x100) && l[3] == Octet8(high)
            && l[4] == Octet8(low / 0x100_0000) && l[5] == Octet8(low / 0x1_0000)
            && l[6] == Octet8(low / 0x100) && l[7] == Octet8(low)
  {
    hide Octet8;
    var n := high * 0x1_0000_0000 + low;
    assert n / 0x100_0000_0000_0000 == high / 0x100_0000;
    assert n / 0x1_0000_0000_0000 == high / 0x1_0000;
    assert n / 0x100_0000_0000 == high / 0x100;
    assert n / 0x1_0000_0000 == high;
    SameOctet(high, low / 0x100_0000, n / 0x100_0000);
    SameOctet(high * 0x100, low / 0x1_0000, n / 0x1_0000);
    SameOctet(high * 0x1_0000, low / 0x100, n / 0x100);
    SameOctet(high * 0x100_0000, low, n);
  }

  /** A number that is a multiple of 256 higher has the same last octet. */
  lemma SameOctet(q: nat, low: nat, n: nat)
    requires n == q * 256 + low
    ensures Octet8(n) == Octet8(low)
  {
    SameRemainder(q, low, n);
    assert n % 256 == low % 256;
  }

  lemma SameRemainder(q: nat, low: nat, n: nat)
    requires n == q * 256 + low
    ensures n % 256 == low % 256
  {
  }

  /** The last block, or the last two. */
  lemma PadBlocks(m: seq<Octet>)
    ensures var n := |m| % 64;
            var start := Rest(m) + [0x80];
            var last := Length(8 * |m|);
            |start| == n + 1 &&
            if n <= 55 then
              Digest(m) == Block(start + Zeros(55 - n) + last, Blocks(Whole(m)))
            else
              Digest(m) == Block(Zeros(56) + last, Block(start + Zeros(63 - n), Blocks(Whole(m))))
  {
    hide Block, Length;
    var n := |m| % 64;
    var start, last := Rest(m) + [0x80], Length(8 * |m|);
    assert m == Whole(m) + Rest(m);
    if n <= 55 {
      BlocksMore(Whole(m), start + Zeros(55 - n) + last);
      assert Pad(m) == Whole(m) + (start + Zeros(55 - n) + last);
    } else {
      var first := start + Zeros(63 - n);
      BlocksMore(Whole(m), first);
      BlocksMore(Whole(m) + first, Zeros(56) + last);
      assert Zeros(119 - n) == Zeros(63 - n) + Zeros(56);
      assert Pad(m) == Whole(m) + first + (Zeros(56) + last);
    }
  }

  /** The digest of a message's blocks starts from five constants and takes one block after the other. */
  lemma BlocksMore(m: seq<Octet>, b: seq<Octet>)
    requires |m| % 64 == 0 && |b| == 64
    ensures Blocks([]) == Five(0x67452301, 0xEFCDAB89, 0x98BADCFE, 0x10325476, 0xC3D2E1F0)
    ensures Blocks(m + b) == Block(b, Blocks(m))
  {
    hide Block;
    assert (m + b)[|m|..] == b && (m + b)[..|m|] == m;
  }

  function Concat(chunks: seq<seq<Octet>>): seq<Octet> {
    if chunks == [] then [] else Concat(chunks[..|chunks| - 1]) + chunks[|chunks| - 1]
  }

  lemma {:induction false} ConcatPrefix(chunks: seq<seq<Octet>>, k: nat)
    requires k <= |chunks|
    ensures |Concat(chunks[..k])| <= |Concat(chunks)|
    ensures k < |chunks| ==> Concat(chunks[..k + 1]) == Concat(chunks[..k]) + chunks[k]
    decreases |chunks| - k
  {
    if k < |chunks| {
      assert chunks[..k + 1][..k] == chunks[..k];
      ConcatPrefix(chunks, k + 1);
    } else {
      assert chunks[..k] == chunks;
    }
  }

  /** However a message is cut into calls of SHA1Input, SHA1Result succeeds exactly when the message is shorter than
      2^64 bits, and then leaves its digest. */
  method DigestInPieces(chunks: seq<seq<Octet>>) returns (c: Context, ok: bool)
    requires forall k :: 0 <= k < |chunks| ==> |chunks[k]| < 0x1_0000_0000
    ensures c.Valid() && fresh(c)
    ensures ok <==> 8 * |Concat(chunks)| < MAX_BITS
    ensures ok ==> c.Words() == Digest(Concat(chunks))
  {
    hide Digest, Blocks;
    c := new Context();
    for k := 0 to |chunks|
      invariant c.Valid() && fresh(c) && fresh(c.digest) && fresh(c.block) && !c.computed
      invariant c.corrupted <==> 8 * |Concat(chunks[..k])| >= MAX_BITS
      invariant !c.corrupted ==> c.message == Concat(chunks[..k])
    {
      ConcatPrefix(chunks, k);
      c.Input(chunks[k]);
    }
    assert chunks[..|chunks|] == chunks;
    ok := c.Result();
  }

  lemma RestIs(m: seq<Octet>)
    ensures |Rest(m)| == |m| % 64
  {
  }

  // What the definition says of bits and of numbers.

  /** A word of the schedule: four octets of the block, the first counting most, or the exclusive or of four words
      before it, every bit moved by one place. */
  lemma ScheduleIs(m: seq<Octet>, t: nat, i: nat)
    requires |m| == 64 && i < 32
    ensures if t < 16 then
              Schedule(m, t) as int ==
              m[4 * t] as int * 0x100_0000 + m[4 * t + 1] as int * 0x1_0000 + m[4 * t + 2] as int * 0x100 + m[4 * t + 3]
            else
              Bit(Schedule(m, t), (i + 1) % 32) ==
              (Bit(Schedule(m, t - 3), i) != (Bit(Schedule(m, t - 8), i) !=
               (Bit(Schedule(m, t - 14), i) != Bit(Schedule(m, t - 16), i))))
  {
    hide BigEndian, Mix, Bit, Schedule;
    if t < 16 {
      FirstWords(m, t);
      BigEndianValue(m[4 * t], m[4 * t + 1], m[4 * t + 2], m[4 * t + 3]);
    } else {
      LaterWords(m, t);
      MixBits(Schedule(m, t - 3), Schedule(m, t - 8), Schedule(m, t - 14), Schedule(m, t - 16), i);
    }
  }

  /** One round: r is the first word moved by five places, and f has the bits that the logical function of the round
      makes of the next three. */
  lemma RoundIs(m: seq<Octet>, h: Five, t: nat, r: Word, f: Word)
    requires |m| == 64 && t < 80
    requires var x := Rounds(m, h, t);
             forall i :: 0 <= i < 32 ==>
               && Bit(r, (i + 5) % 32) == Bit(x.a, i)
               && Bit(f, i) == (if t < 20 then if Bit(x.b, i) then Bit(x.c, i) else Bit(x.d, i)
                                else if 40 <= t < 60 then
                                  if Bit(x.b, i) == Bit(x.c, i) then Bit(x.b, i) else Bit(x.d, i)
                                else Bit(x.b, i) != (Bit(x.c, i) != Bit(x.d, i)))
    ensures var x, y := Rounds(m, h, t), Rounds(m, h, t + 1);
            && y.a == (r + f + x.e + Schedule(m, t)
                       + if t < 20 then 0x5A827999 else if t < 40 then 0x6ED9EBA1
                         else if t < 60 then 0x8F1BBCDC else 0xCA62C1D6) % 0x1_0000_0000
            && y.b == x.a && y.d == x.c && y.e == x.d
            && forall i :: 0 <= i < 32 ==> Bit(y.c, (i + 30) % 32) == Bit(x.b, i)
  {
    hide Bit, Rotate, F, Schedule, Rounds;
    var x := Rounds(m, h, t);
    NextRound(m, h, t, x);
    Rotated(5, x.a, r);
    forall i | 0 <= i < 32
      ensures Bit(f, i) == Bit(F(t, x.b, x.c, x.d), i)
    {
      LogicalBits(t, x.b, x.c, x.d, i);
    }
    SameBits(f, F(t, x.b, x.c, x.d));
    forall i | 0 <= i < 32
      ensures Bit(Rotate(30, x.b), (i + 30) % 32) == Bit(x.b, i)
    {
      RotateBits(30, x.b, i);
    }
  }

  lemma LogicalBits(t: nat, b: Word, c: Word, d: Word, i: nat)
    requires t < 80 && i < 32
    ensures Bit(F(t, b, c, d), i) ==
            if t < 20 then if Bit(b, i) then Bit(c, i) else Bit(d, i)
            else if 40 <= t < 60 then if Bit(b, i) == Bit(c, i) then Bit(b, i) else Bit(d, i)
            else Bit(b, i) != (Bit(c, i) != Bit(d, i))
  {
    hide Bit, Choice, Parity, Majority;
    ChoiceBits(b, c, d, i);
    ParityBits(b, c, d, i);
    MajorityBits(b, c, d, i);
  }

  /** The digest of a block: 80 rounds from the words before it, added to these. */
  lemma BlockIs(m: seq<Octet>, h: Five)
    requires |m| == 64
    ensures var x := Rounds(m, h, 80);
            && Rounds(m, h, 0) == h
            && Block(m, h) == Five((h.a + x.a) % 0x1_0000_0000, (h.b + x.b) % 0x1_0000_0000,
                                   (h.c + x.c) % 0x1_0000_0000, (h.d + x.d) % 0x1_0000_0000,
                                   (h.e + x.e) % 0x1_0000_0000)
  {
    hide Round;
    NoRounds(m, h);
  }

  /** The value of octets, the first counting most. */
  function Value(s: seq<Octet>): nat {
    if s == [] then 0 else 0x100 * Value(s[..|s| - 1]) + s[|s| - 1]
  }

  /** The padded message: the message, the octet 0x80, zeros, and eight octets whose value is the length in bits; and
      no shorter one is a multiple of 64 octets. */
  lemma PadIs(m: seq<Octet>)
    requires 8 * |m| < MAX_BITS
    ensures var p := Pad(m);
            && |p| % 64 == 0 && |m| + 9 <= |p| < |m| + 9 + 64
            && p[..|m|] == m && p[|m|] == 0x80
            && (forall k :: |m| < k < |p| - 8 ==> p[k] == 0)
            && Value(p[|p| - 8..]) == 8 * |m|
  {
    hide Length, Value;
    var p := Pad(m);
    assert p[|p| - 8..] == Length(8 * |m|);
    LengthValue(8 * |m|);
  }

  lemma NextValue(l: seq<Octet>, k: nat, n: nat)
    requires k < |l| && Value(l[..k]) == n / 0x100 && l[k] == n % 0x100
    ensures Value(l[..k + 1]) == n
  {
    assert l[..k + 1][..k] == l[..k];
  }

  lemma LengthValue(bits: nat)
    requires bits < MAX_BITS
    ensures Value(Length(bits)) == bits
  {
    hide Value;
    var l := Length(bits);
    NoValue();
    assert l[..0] == [];
    NextValue(l, 0, bits / 0x100_0000_0000_0000);
    NextValue(l, 1, bits / 0x1_0000_0000_0000);
    NextValue(l, 2, bits / 0x100_0000_0000);
    NextValue(l, 3, bits / 0x1_0000_0000);
    NextValue(l, 4, bits / 0x100_0000);
    NextValue(l, 5, bits / 0x1_0000);
    NextValue(l, 6, bits / 0x100);
    NextValue(l, 7, bits);
    assert l == l[..8];
  }

  lemma NoValue()
    ensures Value([]) == 0
  {
  }
}
