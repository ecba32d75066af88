/** Numbers and markers of the stream, sent and received byte by byte. */
module Headers {
  import opened Counting
  import opened BitStream
  import opened MtfCoding

  // ----- numerals in pieces

  lemma {:induction false} UpperTwice(v: nat, a: nat, b: nat)
    ensures Upper(v, a + b) == Upper(Upper(v, a), b)
    decreases a
  {
    if a > 0 { UpperTwice(v / 2, a - 1, b); }
  }

  lemma Upper8(v: nat)
    ensures Upper(v, 8) == v / 256
  {
    Upper4(v);
    Upper4(v / 16);
    hide Upper;
    UpperTwice(v, 4, 4);
  }

  lemma Upper4(v: nat)
    ensures Upper(v, 4) == v / 16
  {
    assert Upper(v, 4) == Upper(v / 2, 3) == Upper(v / 2 / 2, 2) == Upper(v / 2 / 2 / 2, 1) == v / 2 / 2 / 2 / 2;
  }

  lemma {:induction false} BitsOfSum(v: nat, k: nat, n: nat)
    ensures Bits(v + Pow2(n) * k, n) == Bits(v, n)
    decreases n
  {
    if n > 0 {
      var m := Pow2(n - 1) * k;
      assert Pow2(n) * k == 2 * m;
      BitsOfSum(v / 2, k, n - 1);
      assert (v + 2 * m) / 2 == v / 2 + m && (v + 2 * m) % 2 == v % 2;
    }
  }

  /** Only the low byte of a number matters for its low eight bits. */
  lemma LowByte(w: nat)
    ensures Bits(w % 256, 8) == Bits(w, 8) && w % 256 < Pow2(8)
  {
    assert Pow2(8) == 256 by { assert Pow2(4) == 16; }
    BitsOfSum(w % 256, w / 256, 8);
  }

  /** The last byte of a numeral. */
  lemma BitsLastByte(v: nat, m: nat)
    ensures Bits(v, m + 8) == Bits(v / 256, m) + Bits(v % 256, 8)
  {
    BitsSplit(v, m, 8);
    Upper8(v);
    LowByte(v);
  }

  lemma Scale(a: nat, p: nat, b: nat, bit: nat)
    ensures 2 * (a * p + b) + bit == a * (2 * p) + (2 * b + bit)
  {
  }

  lemma ValueMore(a: seq<bool>, x: bool)
    ensures Value(a + [x]) == 2 * Value(a) + (if x then 1 else 0)
  {
    assert (a + [x])[..|a|] == a;
  }

  lemma {:induction false} ValueJoin(a: seq<bool>, b: seq<bool>)
    ensures Value(a + b) == Value(a) * Pow2(|b|) + Value(b)
    decreases |b|
  {
    if b == [] {
      assert a + b == a;
    } else {
      var front, x := b[..|b| - 1], b[|b| - 1];
      assert Pow2(|b|) == 2 * Pow2(|front|);
      hide Value, Pow2;
      ValueJoin(a, front);
      JoinBits(a, front, [x]);
      assert b == front + [x];
      ValueMore(a + front, x);
      ValueMore(front, x);
      Scale(Value(a), Pow2(|front|), Value(front), if x then 1 else 0);
    }
  }

  // ----- sending

  /** bsPutUInt32 */
  method PutUInt32(w: Writer, u: nat)
    requires w.Valid() && u < 0x1_0000_0000
    modifies w
    ensures w.Valid() && w.Written() == old(w.Written()) + Bits(u, 32)
  {
    hide *;
    ghost var start := w.Written();
    FourBytes(start, u);
    LowByte(u / 0x100_0000);
    LowByte(u / 0x1_0000);
    LowByte(u / 0x100);
    LowByte(u);
    w.BsW(8, u / 0x100_0000 % 256);
    w.BsW(8, u / 0x1_0000 % 256);
    w.BsW(8, u / 0x100 % 256);
    w.BsW(8, u % 256);
  }

  lemma FourBytes(start: seq<bool>, u: nat)
    requires u < 0x1_0000_0000
    ensures start + Bits(u / 0x100_0000 % 256, 8) + Bits(u / 0x1_0000 % 256, 8) + Bits(u / 0x100 % 256, 8)
            + Bits(u % 256, 8) == start + Bits(u, 32)
  {
    hide *;
    Divisions(u);
    BitsLastByte(u, 24);
    BitsLastByte(u / 0x100, 16);
    BitsLastByte(u / 0x1_0000, 8);
    Gather(start, Bits(u / 0x100_0000, 8), Bits(u / 0x1_0000 % 256, 8), Bits(u / 0x100 % 256, 8), Bits(u % 256, 8));
  }

  lemma Divisions(u: nat)
    requires u < 0x1_0000_0000
    ensures u / 0x100 / 256 == u / 0x1_0000
    ensures u / 0x1_0000 / 256 == u / 0x100_0000 < 256
  {
  }

  lemma Gather(s: seq<bool>, a: seq<bool>, b: seq<bool>, c: seq<bool>, d: seq<bool>)
    ensures s + a + b + c + d == s + (((a + b) + c) + d)
  {
  }

  /** bsPutUChar for every byte of a marker. */
  method PutBytes(w: Writer, bytes: seq<byte>)
    requires w.Valid()
    modifies w
    ensures w.Valid() && w.Written() == old(w.Written()) + BytesBits(bytes)
  {
    hide *;
    ghost var start := w.Written();
    NoBytes(start);
    for i := 0 to |bytes|
      invariant w.Valid() && w.Written() == start + BytesBits(bytes[..i])
    {
      ByteFits(bytes[i]);
      w.BsW(8, bytes[i]);
      assert bytes[..i] + [bytes[i]] == bytes[..i + 1];
      BytesBitsMore(bytes[..i], bytes[i]);
      JoinBits(start, BytesBits(bytes[..i]), Bits(bytes[i], 8));
    }
    assert bytes[..|bytes|] == bytes;
  }

  lemma NoBytes(start: seq<bool>)
    ensures forall s: seq<byte> :: start + BytesBits(s[..0]) == start
  {
  }

  lemma ByteFits(x: byte)
    ensures x < Pow2(8)
  {
    assert Pow2(4) == 16;
  }

  // ----- receiving

  lemma OneByte(v: nat, bs: seq<bool>)
    requires |bs| >= 8 && Bits(v, 8) == bs[..8] && v < Pow2(8)
    ensures v == Value(bs[..8]) < 256
  {
    ValueOfBits(v, 8);
    assert Pow2(8) == 256 by { assert Pow2(4) == 16; }
  }

  lemma ValueOneMore(bs: seq<bool>, i: nat)
    requires 8 * i + 8 <= |bs|
    ensures Value(bs[..8 * i + 8]) == Value(bs[..8 * i]) * 256 + Value(bs[8 * i..][..8])
    ensures bs[8 * i..][8..] == bs[8 * i + 8..]
  {
    assert bs[..8 * i + 8] == bs[..8 * i] + bs[8 * i..][..8];
    ValueJoin(bs[..8 * i], bs[8 * i..][..8]);
    assert Pow2(8) == 256 by { assert Pow2(4) == 16; }
  }

  /** GET_UCHAR m times, the bytes forming one number. */
  method ReceiveNumber(r: Reader, m: nat) returns (ok: bool, v: nat)
    requires r.Valid()
    modifies r
    ensures r.Valid() && (ok <==> 8 * m <= |old(r.Ahead())|)
    ensures ok ==> v == Value(old(r.Ahead())[..8 * m]) && r.Ahead() == old(r.Ahead())[8 * m..]
  {
    hide *;
    ghost var bs := r.Ahead();
    v := 0;
    NoValue(bs);
    for i := 0 to m
      invariant r.Valid() && 8 * i <= |bs| && v == Value(bs[..8 * i]) && r.Ahead() == bs[8 * i..]
    {
      var got, uc := r.GetBits(8);
      if !got { return false, v; }
      OneByte(uc, bs[8 * i..]);
      ValueOneMore(bs, i);
      v := v * 256 + uc;
    }
    ok := true;
  }

  lemma NoValue(bs: seq<bool>)
    ensures Value(bs[..0]) == 0
  {
  }

  /** A number that was sent arrives. */
  lemma NumberArrives(u: nat, n: nat, rest: seq<bool>)
    requires u < Pow2(n)
    ensures var bs := Bits(u, n) + rest; |bs| >= n && Value(bs[..n]) == u && bs[n..] == rest
  {
    ValueOfBits(u, n);
    hide Bits, Value, Pow2;
    var bs := Bits(u, n) + rest;
    assert bs[..n] == Bits(u, n) && bs[n..] == rest;
  }

  lemma Power32()
    ensures Pow2(24) == 0x100_0000 && Pow2(32) == 0x1_0000_0000
  {
    assert Pow2(4) == 16 && Pow2(8) == 256 && Pow2(12) == 0x1000 && Pow2(16) == 0x1_0000;
    assert Pow2(20) == 0x10_0000 && Pow2(24) == 0x100_0000 && Pow2(28) == 0x1000_0000;
  }

  /** The bytes are the first that come. */
  ghost predicate Begins(bytes: seq<byte>, bs: seq<bool>) {
    BytesBits(bytes) <= bs
  }

  /** The bytes before byte i come, and then another byte than byte i. */
  ghost predicate DiffersAt(bytes: seq<byte>, bs: seq<bool>, i: nat) {
    && i < |bytes| && Begins(bytes[..i], bs) && |bs| >= 8 * i + 8
    && bs[8 * i..8 * i + 8] != Bits(bytes[i], 8)
  }

  ghost predicate Differs(bytes: seq<byte>, bs: seq<bool>) {
    exists i: nat :: DiffersAt(bytes, bs, i)
  }

  lemma BeginsMore(bytes: seq<byte>, bs: seq<bool>, i: nat)
    requires i < |bytes|
    ensures Begins(bytes[..i + 1], bs) <==>
              Begins(bytes[..i], bs) && |bs| >= 8 * i + 8 && bs[8 * i..8 * i + 8] == Bits(bytes[i], 8)
  {
    assert bytes[..i + 1] == bytes[..i] + [bytes[i]];
    BytesBitsMore(bytes[..i], bytes[i]);
    hide BytesBits, Bits;
    var a, b := BytesBits(bytes[..i]), Bits(bytes[i], 8);
    if a + b <= bs { assert bs[8 * i..8 * i + 8] == (a + b)[8 * i..8 * i + 8] == b; }
    if a <= bs && |bs| >= 8 * i + 8 && bs[8 * i..8 * i + 8] == b { assert bs[..8 * i + 8] == a + b; }
  }

  lemma {:induction false} BeginsLess(bytes: seq<byte>, bs: seq<bool>, i: nat, j: nat)
    requires i <= j <= |bytes| && Begins(bytes[..j], bs)
    ensures Begins(bytes[..i], bs)
    decreases j
  {
    if i < j {
      BeginsMore(bytes, bs, j - 1);
      BeginsLess(bytes, bs, i, j - 1);
    }
  }

  /** Reading stops at byte i: the marker does not come, and it differs there or nowhere. */
  lemma StopsAt(bytes: seq<byte>, bs: seq<bool>, i: nat)
    requires i < |bytes| && Begins(bytes[..i], bs) && !Begins(bytes[..i + 1], bs)
    ensures !Begins(bytes, bs)
    ensures Differs(bytes, bs) <==> |bs| >= 8 * i + 8
  {
    hide Begins;
    BeginsMore(bytes, bs, i);
    assert bytes[..|bytes|] == bytes;
    if Begins(bytes, bs) { BeginsLess(bytes, bs, i + 1, |bytes|); }
    if |bs| >= 8 * i + 8 { assert DiffersAt(bytes, bs, i); }
    forall k: nat | DiffersAt(bytes, bs, k) ensures |bs| >= 8 * i + 8 {
      if k < i {
        BeginsLess(bytes, bs, k + 1, i);
        BeginsMore(bytes, bs, k);
      }
    }
  }

  lemma NeverDiffers(bytes: seq<byte>, bs: seq<bool>)
    requires Begins(bytes, bs)
    ensures !Differs(bytes, bs)
  {
    hide Begins;
    assert bytes[..|bytes|] == bytes;
    forall k: nat | DiffersAt(bytes, bs, k) ensures false {
      BeginsLess(bytes, bs, k + 1, |bytes|);
      BeginsMore(bytes, bs, k);
    }
  }

  /** The first byte and the others. */
  lemma BeginsFirst(bytes: seq<byte>, bs: seq<bool>)
    requires bytes != []
    ensures Begins(bytes, bs) <==> |bs| >= 8 && bs[..8] == Bits(bytes[0], 8) && Begins(bytes[1..], bs[8..])
  {
    assert bytes == [bytes[0]] + bytes[1..];
    FirstByteBits(bytes[0], bytes[1..]);
    hide BytesBits, Bits;
    var a, b := Bits(bytes[0], 8), BytesBits(bytes[1..]);
    if a + b <= bs { assert bs[..8] == (a + b)[..8] == a && bs[8..][..|b|] == (a + b)[8..] == b; }
    if |bs| >= 8 && bs[..8] == a && b <= bs[8..] { assert bs[..8] + bs[8..][..|b|] == bs[..8 + |b|]; }
  }

  lemma DiffersFirst(bytes: seq<byte>, bs: seq<bool>)
    requires bytes != []
    ensures Differs(bytes, bs) <==> |bs| >= 8 && (bs[..8] != Bits(bytes[0], 8) || Differs(bytes[1..], bs[8..]))
  {
    hide Begins;
    BeginsNone(bytes, bs);
    if |bs| >= 8 && bs[..8] != Bits(bytes[0], 8) { assert DiffersAt(bytes, bs, 0); }
    if |bs| >= 8 && bs[..8] == Bits(bytes[0], 8) && Differs(bytes[1..], bs[8..]) {
      var i: nat :| DiffersAt(bytes[1..], bs[8..], i);
      DiffersLater(bytes, bs, i);
    }
    if Differs(bytes, bs) {
      var i: nat :| DiffersAt(bytes, bs, i);
      if i > 0 { DiffersLater(bytes, bs, i - 1); }
    }
  }

  lemma DiffersLater(bytes: seq<byte>, bs: seq<bool>, i: nat)
    requires bytes != []
    ensures DiffersAt(bytes, bs, i + 1) <==>
              |bs| >= 8 && bs[..8] == Bits(bytes[0], 8) && DiffersAt(bytes[1..], bs[8..], i)
  {
    hide Begins;
    if i + 1 < |bytes| {
      BeginsFirst(bytes[..i + 1], bs);
      assert bytes[..i + 1][1..] == bytes[1..][..i];
      if |bs| >= 8 * (i + 1) + 8 { assert bs[8..][8 * i..8 * i + 8] == bs[8 * (i + 1)..8 * (i + 1) + 8]; }
    }
  }

  lemma BeginsNone(bytes: seq<byte>, bs: seq<bool>)
    ensures Begins(bytes[..0], bs)
  {
    assert bytes[..0] == [];
  }

  /** Receives the bytes of a marker, each of which must be the expected one; on any bits. */
  method ReceiveMarker(r: Reader, bytes: seq<byte>) returns (status: Status)
    requires r.Valid()
    modifies r
    ensures r.Valid() && (status == Complete <==> Begins(bytes, old(r.Ahead())))
    ensures status == Corrupt <==> Differs(bytes, old(r.Ahead()))
    ensures status == Complete ==> 8 * |bytes| <= |old(r.Ahead())| && r.Ahead() == old(r.Ahead())[8 * |bytes|..]
  {
    hide *;
    ghost var bs := r.Ahead();
    BeginsNone(bytes, bs);
    for i := 0 to |bytes|
      invariant r.Valid() && 8 * i <= |bs| && r.Ahead() == bs[8 * i..] && Begins(bytes[..i], bs)
    {
      BeginsMore(bytes, bs, i);
      var got, uc := r.GetBits(8);
      if !got {
        StopsAt(bytes, bs, i);
        return Starved;
      }
      assert bs[8 * i..][..8] == bs[8 * i..8 * i + 8] && bs[8 * i..][8..] == bs[8 * (i + 1)..];
      OneByte(uc, bs[8 * i..]);
      if uc != bytes[i] {
        if Bits(bytes[i], 8) == bs[8 * i..8 * i + 8] { SameByte(uc, bytes[i]); }
        StopsAt(bytes, bs, i);
        return Corrupt;
      }
    }
    assert bytes[..|bytes|] == bytes;
    NeverDiffers(bytes, bs);
    status := Complete;
  }

  /** A marker that was sent is there. */
  lemma MarkerComes(bytes: seq<byte>, rest: seq<bool>)
    ensures var bs := BytesBits(bytes) + rest;
            Begins(bytes, bs) && 8 * |bytes| <= |bs| && bs[8 * |bytes|..] == rest
  {
  }

  lemma SameByte(v: nat, x: byte)
    requires Bits(v, 8) == Bits(x, 8) && v < 256
    ensures v == x
  {
    assert Pow2(8) == 256 by { assert Pow2(4) == 16; }
    ValueOfBits(v, 8);
    ValueOfBits(x, 8);
  }
}
