/** The bit streams of compressor and decompressor: 32-bit buffers, written from the
    top by bsW and read from the bottom by GET_BITS. */
module BitStream {
  import opened Counting

  // ----- binary numerals, most significant bit first

  function Pow2(n: nat): (r: nat)
    ensures r >= 1
  {
    if n == 0 then 1 else 2 * Pow2(n - 1)
  }

  /** The low n bits of v. */
  function Bits(v: nat, n: nat): (r: seq<bool>)
    ensures |r| == n
  {
    if n == 0 then [] else Bits(v / 2, n - 1) + [v % 2 == 1]
  }

  function Value(bs: seq<bool>): (v: nat)
    ensures v < Pow2(|bs|)
  {
    if bs == [] then 0 else 2 * Value(bs[..|bs| - 1]) + (if bs[|bs| - 1] then 1 else 0)
  }

  function Zeros(n: nat): (r: seq<bool>)
    ensures |r| == n && forall i :: 0 <= i < n ==> !r[i]
  {
    seq(n, _ => false)
  }

  lemma {:induction false} ValueOfBits(v: nat, n: nat)
    requires v < Pow2(n)
    ensures Value(Bits(v, n)) == v
    decreases n
  {
    if n > 0 {
      ValueOfBits(v / 2, n - 1);
      assert Bits(v, n)[..n - 1] == Bits(v / 2, n - 1);
    }
  }

  lemma {:induction false} BitsOfValue(bs: seq<bool>)
    ensures Bits(Value(bs), |bs|) == bs
  {
    if bs != [] { BitsOfValue(bs[..|bs| - 1]); }
  }

  /** v shifted right by n. */
  function Upper(v: nat, n: nat): nat {
    if n == 0 then v else Upper(v / 2, n - 1)
  }

  /** Two numerals side by side. */
  lemma {:induction false} BitsSplit(v: nat, m: nat, n: nat)
    ensures Bits(v, m + n) == Bits(Upper(v, n), m) + Bits(v, n)
    decreases n
  {
    if n > 0 {
      BitsSplit(v / 2, m, n - 1);
      assert Bits(v, m + n) == Bits(Upper(v, n), m) + (Bits(v / 2, n - 1) + [v % 2 == 1]);
    }
  }

  lemma {:induction false} UpperOfSmall(v: nat, n: nat)
    requires v < Pow2(n)
    ensures Upper(v, n) == 0
    decreases n
  {
    if n > 0 { UpperOfSmall(v / 2, n - 1); }
  }

  lemma {:induction false} BitsOfZero(m: nat)
    ensures Bits(0, m) == Zeros(m)
    decreases m
  {
    if m > 0 { BitsOfZero(m - 1); }
  }

  /** A number below 2^n has only zeroes above its low n bits. */
  lemma SmallBits(v: nat, m: nat, n: nat)
    requires v < Pow2(n)
    ensures Bits(v, m + n) == Zeros(m) + Bits(v, n)
  {
    hide Bits, Upper, Zeros;
    BitsSplit(v, m, n);
    UpperOfSmall(v, n);
    BitsOfZero(m);
  }

  lemma {:induction false} ValueOfZeros(m: nat, bs: seq<bool>)
    ensures Value(Zeros(m) + bs) == Value(bs)
    decreases |bs|, m
  {
    if bs == [] {
      assert Zeros(m) + bs == Zeros(m);
      if m > 0 {
        assert Zeros(m)[..m - 1] == Zeros(m - 1) + [];
        ValueOfZeros(m - 1, []);
      }
    } else {
      assert (Zeros(m) + bs)[..m + |bs| - 1] == Zeros(m) + bs[..|bs| - 1];
      ValueOfZeros(m, bs[..|bs| - 1]);
    }
  }

  /** The bits of a string of bytes. */
  function BytesBits(s: seq<byte>): (r: seq<bool>)
    ensures |r| == 8 * |s|
  {
    if s == [] then [] else BytesBits(s[..|s| - 1]) + Bits(s[|s| - 1], 8)
  }

  lemma BytesBitsMore(s: seq<byte>, x: byte)
    ensures BytesBits(s + [x]) == BytesBits(s) + Bits(x, 8)
  {
    assert (s + [x])[..|s|] == s;
  }

  lemma NoBytesBits(t: seq<byte>)
    ensures t == [] ==> BytesBits(t) == []
  {
  }

  lemma {:induction false} BytesBitsJoin(s: seq<byte>, t: seq<byte>)
    ensures BytesBits(s + t) == BytesBits(s) + BytesBits(t)
    decreases |t|
  {
    hide BytesBits;
    if t == [] {
      assert s + t == s && BytesBits(t) == [] by { NoBytesBits(t); }
    } else {
      BytesBitsJoin(s, t[..|t| - 1]);
      BytesBitsMore(s + t[..|t| - 1], t[|t| - 1]);
      BytesBitsMore(t[..|t| - 1], t[|t| - 1]);
      assert s + t == s + t[..|t| - 1] + [t[|t| - 1]];
      assert t == t[..|t| - 1] + [t[|t| - 1]];
    }
  }

  // ----- 32-bit buffers

  type Register = w: seq<bool> | |w| == 32 witness Zeros(32)

  function Shl(w: Register, k: nat): Register
    requires k <= 32
  {
    w[k..] + Zeros(k)
  }

  function Shr(w: Register, k: nat): Register
    requires k <= 32
  {
    Zeros(k) + w[..32 - k]
  }

  function Or(a: Register, b: Register): (r: Register)
    ensures forall i :: 0 <= i < 32 ==> r[i] == (a[i] || b[i])
  {
    seq(32, i requires 0 <= i < 32 => a[i] || b[i])
  }

  function And(a: Register, b: Register): (r: Register)
    ensures forall i :: 0 <= i < 32 ==> r[i] == (a[i] && b[i])
  {
    seq(32, i requires 0 <= i < 32 => a[i] && b[i])
  }

  /** (1 << n) - 1 */
  function LowMask(n: nat): Register
    requires n <= 32
  {
    Zeros(32 - n) + seq(n, _ => true)
  }

  // ----- writing

  /** What bsW leaves in the buffer. */
  function Merged(buff: Register, live: nat, n: nat, v: nat): Register
    requires live + n <= 32
  {
    Or(buff, Shl(Bits(v, 32), 32 - live - n))
  }

  /** Exactly when the OR disturbs no live bit, the low n bits of v are appended. */
  lemma MergeAppends(buff: Register, live: nat, n: nat, v: nat)
    requires live + n <= 32 && forall i :: live <= i < 32 ==> !buff[i]
    ensures Merged(buff, live, n, v)[..live + n] == buff[..live] + Bits(v, n)
            <==> forall i :: 0 <= i < live ==> !(Shl(Bits(v, 32), 32 - live - n)[i] && !buff[i])
    ensures forall i :: live + n <= i < 32 ==> !Merged(buff, live, n, v)[i]
  {
    BitsSplit(v, 32 - n, n);
    var s := Shl(Bits(v, 32), 32 - live - n);
    var m := Merged(buff, live, n, v);
    assert s[live..live + n] == Bits(v, n);
    forall i | live <= i < live + n ensures m[i] == (buff[..live] + Bits(v, n))[i] {
      assert s[i] == s[live..live + n][i - live];
    }
    if m[..live + n] == buff[..live] + Bits(v, n) {
      forall i | 0 <= i < live ensures m[i] == buff[i] { assert m[i] == m[..live + n][i]; }
    }
  }

  /** A number of at most n bits is always appended. */
  lemma SmallAppends(buff: Register, live: nat, n: nat, v: nat)
    requires live + n <= 32 && v < Pow2(n) && forall i :: live <= i < 32 ==> !buff[i]
    ensures Merged(buff, live, n, v)[..live + n] == buff[..live] + Bits(v, n)
    ensures forall i :: live + n <= i < 32 ==> !Merged(buff, live, n, v)[i]
  {
    MergeAppends(buff, live, n, v);
    SmallBits(v, 32 - n, n);
  }

  /** A larger one can be lost: writing 2 in one bit after a 0 leaves two bits 1, 0. */
  lemma LargeSpoils()
    ensures Merged(Zeros(32), 1, 1, 2)[..2] != Zeros(32)[..1] + Bits(2, 1)
  {
    BitsSplit(2, 30, 2);
    assert Bits(2, 2) == [true, false] by { assert Bits(1, 1) == [true]; }
    assert Shl(Bits(2, 32), 30)[0];
    assert Merged(Zeros(32), 1, 1, 2)[..2][0];
  }

  /** The first byte of a buffer goes to the bytes written. */
  lemma TopOut(zbits: seq<byte>, b: Register, live: nat)
    requires 8 <= live <= 32
    ensures Value(b[..8]) < 256
    ensures BytesBits(zbits + [Value(b[..8])]) + Shl(b, 8)[..live - 8] == BytesBits(zbits) + b[..live]
  {
    EightBits();
    hide *;
    var x := b[..8];
    BitsOfValue(x);
    BytesBitsMore(zbits, Value(x));
    assert Shl(b, 8)[..live - 8] == b[8..live] by { ShlPart(b, live); }
    assert b[..live] == x + b[8..live];
    JoinBits(BytesBits(zbits), x, b[8..live]);
  }

  lemma EightBits()
    ensures Pow2(8) == 256
  {
    assert Pow2(4) == 16;
  }

  lemma ShlPart(b: Register, live: nat)
    requires 8 <= live <= 32
    ensures Shl(b, 8)[..live - 8] == b[8..live]
  {
  }

  class Writer {
    var bsBuff: Register
    var bsLive: int
    var zbits: seq<byte>

    ghost predicate Valid()
      reads this
    {
      0 <= bsLive <= 32 && forall i :: bsLive <= i < 32 ==> !bsBuff[i]
    }

    /** All bits written. */
    ghost function Written(): seq<bool>
      reads this
      requires Valid()
    {
      BytesBits(zbits) + bsBuff[..bsLive]
    }

    /** BZ2_bsInitWrite */
    constructor ()
      ensures Valid() && Written() == []
    {
      bsBuff, bsLive, zbits := Zeros(32), 0, [];
    }

    /** The bytes written so far have been taken away; the bits that are left stay. */
    method NewBuffer()
      requires Valid()
      modifies this`zbits
      ensures Valid() && zbits == [] && bsLive == old(bsLive) && bsBuff == old(bsBuff)
      ensures Written() == bsBuff[..bsLive]
    {
      zbits := [];
      assert [] + bsBuff[..bsLive] == bsBuff[..bsLive];
    }

    /** One byte leaves the buffer. */
    method PutTop()
      requires Valid() && bsLive >= 8
      modifies this
      ensures Valid() && bsLive == old(bsLive) - 8 && Written() == old(Written())
    {
      hide BytesBits, Pow2, Bits, Value;
      TopOut(zbits, bsBuff, bsLive);
      zbits := zbits + [Value(bsBuff[..8])];
      bsBuff := Shl(bsBuff, 8);
      bsLive := bsLive - 8;
    }

    /** bsNEEDW: the whole bytes go out. */
    method NeedW()
      requires Valid()
      modifies this
      ensures Valid() && bsLive == old(bsLive) % 8 && Written() == old(Written())
    {
      hide Valid, Written;
      LiveIs();
      while bsLive >= 8
        invariant Valid() && Written() == old(Written()) && 0 <= bsLive && bsLive % 8 == old(bsLive) % 8
      {
        PutTop();
        LiveIs();
      }
    }

    lemma LiveIs()
      requires Valid()
      ensures 0 <= bsLive <= 32
    {
    }

    /** bsW: appends exactly the n bits of v. */
    method BsW(n: nat, v: nat)
      requires Valid() && n <= 24 && v < Pow2(n)
      modifies this
      ensures Valid() && Written() == old(Written()) + Bits(v, n)
      ensures bsLive == old(bsLive) % 8 + n
    {
      NeedW();
      ghost var b, live := bsBuff, bsLive;
      SmallAppends(bsBuff, bsLive, n, v);
      hide Bits, Pow2, BytesBits;
      bsBuff := Merged(bsBuff, bsLive, n, v);
      bsLive := bsLive + n;
      assert BytesBits(zbits) + (b[..live] + Bits(v, n)) == BytesBits(zbits) + b[..live] + Bits(v, n);
    }

    /** bsFinishWrite: pads with -bsLive zeroes to whole bytes, and does nothing else. */
    method BsFinishWrite()
      requires Valid()
      modifies this
      ensures -8 < bsLive <= 0 && BytesBits(zbits) == old(Written()) + Zeros(-bsLive)
    {
      while bsLive > 0
        invariant bsLive >= 0 ==> Valid() && Written() == old(Written())
        invariant bsLive < 0 ==> bsLive > -8 && BytesBits(zbits) == old(Written()) + Zeros(-bsLive)
      {
        if bsLive >= 8 { PutTop(); } else { PutLast(); }
      }
      assert bsLive == 0 ==> BytesBits(zbits) + bsBuff[..0] == BytesBits(zbits) + Zeros(0);
    }

    /** The same step when less than a byte is left. */
    method PutLast()
      requires Valid() && 0 < bsLive < 8
      modifies this
      ensures bsLive == old(bsLive) - 8 && BytesBits(zbits) == old(Written()) + Zeros(-bsLive)
    {
      ghost var b, live := bsBuff, bsLive;
      BitsOfValue(bsBuff[..8]);
      assert Pow2(8) == 256 by { assert Pow2(4) == 16; }
      BytesBitsMore(zbits, Value(bsBuff[..8]));
      assert BytesBits(zbits) + b[..live] + Zeros(8 - live) == BytesBits(zbits) + b[..8];
      zbits := zbits + [Value(bsBuff[..8])];
      bsBuff := Shl(bsBuff, 8);
      bsLive := bsLive - 8;
    }
  }

  // ----- reading

  lemma LowBits(w: Register, live: nat, n: nat)
    requires n <= live <= 32
    ensures Value(And(Shr(w, live - n), LowMask(n))) == Value(w[32 - live..32 - live + n])
  {
    var x := w[32 - live..32 - live + n];
    assert And(Shr(w, live - n), LowMask(n)) == Zeros(32 - n) + x;
    ValueOfZeros(32 - n, x);
  }

  lemma TakeIn(w: Register, live: nat, x: byte)
    requires live <= 24
    ensures Or(Shl(w, 8), Bits(x, 32))[24 - live..] == w[32 - live..] + Bits(x, 8)
  {
    hide Bits, Pow2;
    EightBits();
    SmallBits(x, 24, 8);
  }

  lemma JoinBits(a: seq<bool>, b: seq<bool>, c: seq<bool>)
    ensures a + (b + c) == a + b + c
  {
  }

  lemma FirstByteBits(x: byte, rest: seq<byte>)
    ensures BytesBits([x] + rest) == Bits(x, 8) + BytesBits(rest)
  {
    BytesBitsJoin([x], rest);
    BytesBitsMore([], x);
    assert [] + [x] == [x];
  }

  /** Shifting in a byte keeps all accounts. */
  lemma TakeInKeeps(w: Register, live: nat, x: byte, taken: seq<byte>, given: seq<bool>, rest: seq<byte>)
    requires live <= 23 && BytesBits(taken) == given + w[32 - live..]
    ensures var w' := Or(Shl(w, 8), Bits(x, 32));
            && BytesBits(taken + [x]) == given + w'[24 - live..]
            && w'[24 - live..] + BytesBits(rest) == w[32 - live..] + BytesBits([x] + rest)
  {
    hide *;
    TakeIn(w, live, x);
    BytesBitsMore(taken, x);
    FirstByteBits(x, rest);
    JoinBits(given, w[32 - live..], Bits(x, 8));
    JoinBits(w[32 - live..], Bits(x, 8), BytesBits(rest));
  }

  /** So does giving out the first n live bits. */
  lemma GiveOutKeeps(w: Register, live: nat, n: nat, given: seq<bool>, more: seq<bool>)
    requires n <= live <= 32
    ensures var x := w[32 - live..32 - live + n];
            && given + w[32 - live..] == given + x + w[32 - live + n..]
            && (w[32 - live..] + more)[..n] == x
            && (w[32 - live..] + more)[n..] == w[32 - live + n..] + more
  {
    assert w[32 - live..] == w[32 - live..32 - live + n] + w[32 - live + n..];
  }

  /** The portions of input, one behind the other. */
  function Concat(portions: seq<seq<byte>>): seq<byte> {
    if portions == [] then [] else portions[0] + Concat(portions[1..])
  }

  /** The reading side of BZ2_decompress. When a call has used up its input it returns from
      within GET_BITS, and the next call, with the next portion of input, goes on at that
      place; later holds the portions of the calls to come, and calls counts those begun. */
  class Reader {
    var bsBuff: Register
    var bsLive: nat
    var nextIn: seq<byte>
    var later: seq<seq<byte>>
    var calls: nat
    ghost var taken: seq<byte>
    ghost var given: seq<bool>

    /** Nothing is lost: the bits of all bytes taken are those given out and those live. */
    ghost predicate Valid()
      reads this
    {
      bsLive < 32 && BytesBits(taken) == given + bsBuff[32 - bsLive..]
    }

    /** The input that is still to be taken, in this call and later. */
    ghost function Input(): seq<byte>
      reads this
    {
      nextIn + Concat(later)
    }

    /** The bits that can still be read. */
    ghost function Ahead(): seq<bool>
      reads this
      requires Valid()
    {
      bsBuff[32 - bsLive..] + BytesBits(Input())
    }

    constructor (portions: seq<seq<byte>>)
      ensures Valid() && Ahead() == BytesBits(Concat(portions)) && taken == [] && given == []
      ensures Input() == Concat(portions) && later == portions && calls == 1
    {
      bsBuff, bsLive, nextIn, later, calls, taken, given := Zeros(32), 0, [], portions, 1, [], [];
      new;
      assert nextIn + Concat(portions) == Concat(portions);
      assert bsBuff[32..] + BytesBits(Concat(portions)) == BytesBits(Concat(portions));
    }

    /** The call returns for want of input, and the next one comes back with more of it, or
        again with none. */
    method Return()
      requires Valid() && nextIn == [] && later != []
      modifies this`nextIn, this`later, this`calls
      ensures Valid() && Ahead() == old(Ahead()) && Input() == old(Input())
      ensures later == old(later)[1..] && calls == old(calls) + 1
    {
      hide BytesBits;
      assert [] + Concat(later) == later[0] + Concat(later[1..]);
      nextIn, later, calls := later[0], later[1..], calls + 1;
    }

    /** One input byte enters the buffer. */
    method TakeByte()
      requires Valid() && bsLive <= 23 && nextIn != []
      modifies this`bsBuff, this`bsLive, this`nextIn, this`taken
      ensures Valid() && Ahead() == old(Ahead()) && bsLive == old(bsLive) + 8
      ensures taken + Input() == old(taken) + old(Input()) && |nextIn| == |old(nextIn)| - 1
    {
      hide *;
      ghost var w, all := bsBuff, Input();
      var x := nextIn[0];
      Facts();
      ghost var rest := nextIn[1..] + Concat(later);
      assert all == [x] + rest;
      TakeInKeeps(w, bsLive, x, taken, given, rest);
      bsBuff := Or(Shl(bsBuff, 8), Bits(x, 32));
      bsLive := bsLive + 8;
      nextIn := nextIn[1..];
      taken := taken + [x];
      InputIs();
      Remains();
      assert taken + Input() == old(taken) + ([x] + rest);
    }

    lemma InputIs()
      ensures Input() == nextIn + Concat(later)
    {
    }

    lemma Facts()
      requires Valid()
      ensures bsLive < 32 && BytesBits(taken) == given + bsBuff[32 - bsLive..]
      ensures Ahead() == bsBuff[32 - bsLive..] + BytesBits(Input()) && Input() == nextIn + Concat(later)
    {
    }

    lemma Remains()
      requires bsLive < 32 && BytesBits(taken) == given + bsBuff[32 - bsLive..]
      ensures Valid() && Ahead() == bsBuff[32 - bsLive..] + BytesBits(Input())
    {
    }

    lemma NoInput()
      requires Valid() && nextIn == [] && later == []
      ensures |Ahead()| == bsLive && Input() == []
    {
    }

    /** GET_BITS: gives the next n bits, taking in input as needed, in as many calls as it
        takes. When no call brings more, nothing is given. */
    method GetBits(n: nat) returns (ok: bool, v: nat)
      requires Valid() && n <= 24
      modifies this
      ensures Valid() && taken + Input() == old(taken) + old(Input())
      ensures ok <==> n <= |old(Ahead())|
      ensures ok ==> Bits(v, n) == old(Ahead())[..n] && v < Pow2(n) && Ahead() == old(Ahead())[n..]
                     && given == old(given) + Bits(v, n)
      ensures !ok ==> Input() == [] && Ahead() == old(Ahead()) && given == old(given)
    {
      hide *;
      v := 0;
      while true
        invariant Valid() && Ahead() == old(Ahead()) && given == old(given)
        invariant taken + Input() == old(taken) + old(Input())
        decreases |later|, |nextIn|
      {
        Facts();
        if bsLive >= n {
          v := Value(And(Shr(bsBuff, bsLive - n), LowMask(n)));
          GiveOut(n, v);
          return true, v;
        }
        if |nextIn| == 0 && |later| == 0 {
          NoInput();
          return false, v;
        }
        if |nextIn| == 0 { Return(); } else { TakeByte(); }
      }
    }

    method GiveOut(n: nat, ghost v: nat)
      requires Valid() && n <= bsLive < 32 && v == Value(And(Shr(bsBuff, bsLive - n), LowMask(n)))
      modifies this`bsLive, this`given
      ensures Valid() && Bits(v, n) == old(Ahead())[..n] && v < Pow2(n) && n <= |old(Ahead())|
      ensures Ahead() == old(Ahead())[n..] && given == old(given) + Bits(v, n) && Input() == old(Input())
    {
      hide *;
      Facts();
      ghost var x := bsBuff[32 - bsLive..32 - bsLive + n];
      LowBits(bsBuff, bsLive, n);
      BitsOfValue(x);
      GiveOutKeeps(bsBuff, bsLive, n, given, BytesBits(Input()));
      bsLive := bsLive - n;
      given := given + x;
      InputIs();
      Remains();
    }
  }
}
