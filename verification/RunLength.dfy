/** The initial run-length coding: up to three equal bytes stand for themselves,
    four are followed by a count of further ones. */
module RunLength {
  import opened Counting

  /** What a block stands for so far: the bytes, and the last byte with the number
      of its copies just seen; after four of them the next byte is a count. */
  datatype Unpacked = Unpacked(out: seq<byte>, ch: byte, copies: nat)

  function UnpackByte(u: Unpacked, x: byte): Unpacked {
    if u.copies == 4 then Unpacked(u.out + Repeat(u.ch, x), u.ch, 0)
    else Unpacked(u.out + [x], x, if u.copies > 0 && u.ch == x then u.copies + 1 else 1)
  }

  function Unpack(b: seq<byte>): (u: Unpacked)
    ensures u.copies <= 4
  {
    if b == [] then Unpacked([], 0, 0) else UnpackByte(Unpack(b[..|b| - 1]), b[|b| - 1])
  }

  /** No count is missing at the end. */
  ghost predicate Whole(b: seq<byte>) {
    Unpack(b).copies < 4
  }

  /** The bytes a block stands for. */
  function Expand(b: seq<byte>): seq<byte> {
    Unpack(b).out
  }

  lemma UnpackNext(s: seq<byte>, m: nat)
    requires m < |s|
    ensures Unpack(s[..m + 1]) == UnpackByte(Unpack(s[..m]), s[m])
  {
    assert s[..m + 1][..m] == s[..m];
  }

  lemma UnpackAppend(b: seq<byte>, x: byte)
    ensures Unpack(b + [x]) == UnpackByte(Unpack(b), x)
  {
    assert (b + [x])[..|b|] == b;
  }

  /** Longer prefixes of a block stand for longer strings. */
  lemma {:induction false} ExpandPrefix(s: seq<byte>, a: nat, b: nat)
    requires a <= b <= |s|
    ensures Expand(s[..a]) <= Expand(s[..b])
    decreases b
  {
    if a < b {
      ExpandPrefix(s, a, b - 1);
      UnpackNext(s, b - 1);
    }
  }

  // ----- what the compressor appends for a run

  /** The bytes for a run of len copies of ch. */
  function Pair(ch: byte, len: nat): (r: seq<byte>)
    requires 1 <= len <= 255
    ensures 1 <= |r| <= 5
  {
    if len < 4 then Repeat(ch, len) else Repeat(ch, 4) + [len - 4]
  }

  /** The next run can be appended: it will not be taken for more of the last one. */
  ghost predicate Ready(b: seq<byte>, ch: byte) {
    var u := Unpack(b);
    u.copies == 0 || (u.copies < 4 && u.ch != ch)
  }

  lemma FirstCopy(u: Unpacked, ch: byte)
    requires u.copies == 0 || (u.copies < 4 && u.ch != ch)
    ensures UnpackByte(u, ch) == Unpacked(u.out + [ch], ch, 1)
  {
  }

  lemma NextCopy(u: Unpacked, ch: byte)
    requires 0 < u.copies < 4 && u.ch == ch
    ensures UnpackByte(u, ch) == Unpacked(u.out + [ch], ch, u.copies + 1)
  {
  }

  lemma Joined(a: seq<byte>, b: seq<byte>, c: seq<byte>)
    ensures a + (b + c) == a + b + c
  {
  }

  lemma {:induction false} AppendCopies(b: seq<byte>, ch: byte, n: nat)
    requires Ready(b, ch) && 1 <= n <= 4
    ensures Unpack(b + Repeat(ch, n)) == Unpacked(Expand(b) + Repeat(ch, n), ch, n)
  {
    hide Repeat, Unpack, UnpackByte;
    if n == 1 {
      RepeatMore(ch, 0, 1);
      UnpackAppend(b, ch);
      FirstCopy(Unpack(b), ch);
    } else {
      AppendCopies(b, ch, n - 1);
      RepeatMore(ch, n - 1, 1);
      UnpackAppend(b + Repeat(ch, n - 1), ch);
      NextCopy(Unpack(b + Repeat(ch, n - 1)), ch);
      Joined(b, Repeat(ch, n - 1), [ch]);
      Joined(Expand(b), Repeat(ch, n - 1), [ch]);
    }
  }

  lemma AddCount(u: Unpacked, x: byte)
    requires u.copies == 4
    ensures UnpackByte(u, x) == Unpacked(u.out + Repeat(u.ch, x), u.ch, 0)
  {
  }

  /** A pair stands for its run, and another run may follow. */
  lemma ExpandPair(b: seq<byte>, ch: byte, len: nat)
    requires Ready(b, ch) && 1 <= len <= 255
    ensures Expand(b + Pair(ch, len)) == Expand(b) + Repeat(ch, len)
    ensures Whole(b + Pair(ch, len))
    ensures forall d: byte :: d != ch || len >= 4 ==> Ready(b + Pair(ch, len), d)
  {
    hide Repeat, Unpack, UnpackByte;
    if len < 4 {
      AppendCopies(b, ch, len);
    } else {
      AppendCopies(b, ch, 4);
      UnpackAppend(b + Repeat(ch, 4), len - 4);
      AddCount(Unpack(b + Repeat(ch, 4)), len - 4);
      RepeatMore(ch, 4, len - 4);
      Joined(b, Repeat(ch, 4), [len - 4]);
      Joined(Expand(b), Repeat(ch, 4), Repeat(ch, len - 4));
    }
  }

  // ----- the coding of a string

  datatype Copies = Copies(ch: byte, len: nat)

  /** Runs of at most 255, of which only those of 255 are followed by a run of the same byte. */
  ghost predicate Cut(rs: seq<Copies>) {
    && (forall i :: 0 <= i < |rs| ==> 1 <= rs[i].len <= 255)
    && forall i :: 0 < i < |rs| ==> CutAt(rs, i)
  }

  ghost predicate CutAt(rs: seq<Copies>, i: nat)
    requires 0 < i < |rs|
  {
    rs[i - 1].len == 255 || rs[i - 1].ch != rs[i].ch
  }

  /** The bytes that runs stand for. */
  function Flat(rs: seq<Copies>): seq<byte> {
    if rs == [] then [] else Flat(rs[..|rs| - 1]) + Repeat(rs[|rs| - 1].ch, rs[|rs| - 1].len)
  }

  /** Their coding. */
  ghost function Pairs(rs: seq<Copies>): seq<byte>
    requires Cut(rs)
  {
    if rs == [] then []
    else
      CutFront(rs, |rs| - 1);
      Pairs(rs[..|rs| - 1]) + Pair(rs[|rs| - 1].ch, rs[|rs| - 1].len)
  }

  lemma CutFront(rs: seq<Copies>, n: nat)
    requires Cut(rs) && n <= |rs|
    ensures Cut(rs[..n])
  {
    forall i | 0 < i < n ensures CutAt(rs[..n], i) { assert CutAt(rs, i); }
  }

  lemma CutBack(rs: seq<Copies>, n: nat)
    requires Cut(rs) && n <= |rs|
    ensures Cut(rs[n..])
  {
    forall i | 0 < i < |rs[n..]| ensures CutAt(rs[n..], i) { assert CutAt(rs, n + i); }
  }

  lemma CutMore(rs: seq<Copies>, r: Copies)
    requires Cut(rs) && 1 <= r.len <= 255
    requires rs != [] ==> rs[|rs| - 1].len == 255 || rs[|rs| - 1].ch != r.ch
    ensures Cut(rs + [r])
  {
    var a := rs + [r];
    assert |a| == |rs| + 1 && a[|rs|] == r && forall i :: 0 <= i < |rs| ==> a[i] == rs[i];
    forall i | 0 < i < |a| ensures CutAt(a, i) {
      if i < |rs| { assert CutAt(rs, i); }
    }
  }

  lemma PairsMore(rs: seq<Copies>, r: Copies)
    requires Cut(rs) && Cut(rs + [r])
    ensures 1 <= r.len <= 255 && Pairs(rs + [r]) == Pairs(rs) + Pair(r.ch, r.len)
  {
    assert (rs + [r])[..|rs|] == rs && (rs + [r])[|rs|] == r;
    hide Pair;
  }

  /** The last run can grow until it is full. */
  lemma CutGrows(rs: seq<Copies>, ch: byte, len: nat)
    requires Cut(rs + [Copies(ch, len)]) && len < 255
    ensures Cut(rs + [Copies(ch, len + 1)])
  {
    var a, b := rs + [Copies(ch, len)], rs + [Copies(ch, len + 1)];
    assert a[|rs|] == Copies(ch, len);
    forall i | 0 <= i < |b| ensures 1 <= b[i].len <= 255 { assert 1 <= a[i].len <= 255; }
    forall i | 0 < i < |b| ensures CutAt(b, i) { assert CutAt(a, i); }
  }

  /** The coding of runs stands for their bytes. */
  lemma {:induction false} PairsExpand(rs: seq<Copies>)
    requires Cut(rs)
    ensures Expand(Pairs(rs)) == Flat(rs) && Whole(Pairs(rs))
    ensures forall d: byte :: rs == [] || rs[|rs| - 1].len == 255 || rs[|rs| - 1].ch != d ==> Ready(Pairs(rs), d)
    decreases |rs|
  {
    hide Pair, Unpack, Repeat, Ready;
    if rs == [] {
      NothingReady();
    } else {
      var front, r := rs[..|rs| - 1], rs[|rs| - 1];
      CutFront(rs, |rs| - 1);
      PairsExpand(front);
      if front != [] { assert CutAt(rs, |rs| - 1); }
      ExpandPair(Pairs(front), r.ch, r.len);
    }
  }

  lemma NothingReady()
    ensures Expand([]) == [] && Whole([]) && forall d: byte :: Ready([], d)
  {
  }

  // ----- there is one coding

  lemma {:induction false} FlatFirst(rs: seq<Copies>)
    requires rs != []
    ensures Flat(rs) == Repeat(rs[0].ch, rs[0].len) + Flat(rs[1..])
    decreases |rs|
  {
    hide Repeat;
    if |rs| == 1 {
      assert rs[..0] == [] && rs[1..] == [];
      assert [] + Repeat(rs[0].ch, rs[0].len) == Repeat(rs[0].ch, rs[0].len) + [];
    } else {
      var front := rs[..|rs| - 1];
      FlatFirst(front);
      assert front[1..] == rs[1..][..|rs[1..]| - 1];
      Joined(Repeat(rs[0].ch, rs[0].len), Flat(front[1..]), Repeat(rs[|rs| - 1].ch, rs[|rs| - 1].len));
    }
  }

  /** What follows a run that is not full does not begin with its byte. */
  lemma FirstEnds(rs: seq<Copies>)
    requires Cut(rs) && rs != []
    ensures var x := Flat(rs);
            && rs[0].len <= |x| && (forall i :: 0 <= i < rs[0].len ==> x[i] == rs[0].ch)
            && (rs[0].len < 255 ==> |x| == rs[0].len || x[rs[0].len] != rs[0].ch)
            && x[rs[0].len..] == Flat(rs[1..])
  {
    FlatFirst(rs);
    var a := Repeat(rs[0].ch, rs[0].len);
    if |rs| > 1 {
      assert CutAt(rs, 1);
      FlatFirst(rs[1..]);
      assert rs[1..][0] == rs[1];
      assert Flat(rs[1..])[0] == rs[1].ch;
    } else {
      assert rs[1..] == [];
    }
    hide Repeat, Flat;
    assert (a + Flat(rs[1..]))[|a|..] == Flat(rs[1..]);
  }

  /** A string is cut into runs in one way only, so it has one coding. */
  lemma {:induction false} CutUnique(rs: seq<Copies>, qs: seq<Copies>)
    requires Cut(rs) && Cut(qs) && Flat(rs) == Flat(qs)
    ensures rs == qs
    decreases |rs|
  {
    hide Flat;
    if rs == [] || qs == [] {
      SomeFlat(rs);
      SomeFlat(qs);
    } else {
      FirstEnds(rs);
      FirstEnds(qs);
      assert rs[0].ch == Flat(rs)[0] == qs[0].ch;
      assert rs[0] == qs[0];
      CutBack(rs, 1);
      CutBack(qs, 1);
      CutUnique(rs[1..], qs[1..]);
      assert rs == [rs[0]] + rs[1..] && qs == [qs[0]] + qs[1..];
    }
  }

  lemma SomeFlat(rs: seq<Copies>)
    requires Cut(rs)
    ensures Flat(rs) == [] <==> rs == []
  {
    if rs != [] { FirstEnds(rs); }
  }
}
