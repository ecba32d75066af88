/** The move-to-front and zero-run coding of the last column, and its decoding. */
module MtfCoding {
  import opened Counting
  import opened MoveToFront

  const RUNA := 0
  const RUNB := 1

  /** How a part of decoding ends: complete, with BZ_DATA_ERROR, or for want of input. */
  datatype Status = Complete | Corrupt | Starved

  // ----- run lengths in bijective base two

  /** The digits emitted for a decremented run length p. */
  function Digits(p: nat): (r: seq<int>)
    ensures forall i :: 0 <= i < |r| ==> r[i] == RUNA || r[i] == RUNB
  {
    [if p % 2 == 1 then RUNB else RUNA] + (if p < 2 then [] else Digits((p - 2) / 2))
  }

  /** The digits for z pending zeroes; none for none. */
  function RunDigits(z: nat): (r: seq<int>)
    ensures forall i :: 0 <= i < |r| ==> r[i] == RUNA || r[i] == RUNB
  {
    if z == 0 then [] else Digits(z - 1)
  }

  /** The number that a string of digits stands for. */
  function RunValue(ds: seq<int>): int {
    if ds == [] then 0 else (ds[0] + 1) + 2 * RunValue(ds[1..])
  }

  /** Every run length is the value of its digits ... */
  lemma {:induction false} DigitsValue(p: nat)
    ensures RunValue(Digits(p)) == p + 1
  {
    var d := if p % 2 == 1 then RUNB else RUNA;
    if p >= 2 {
      DigitsValue((p - 2) / 2);
      assert Digits(p)[1..] == Digits((p - 2) / 2);
    } else {
      assert Digits(p) == [d];
    }
  }

  /** ... and every string of digits is the one emitted for its value. */
  lemma {:induction false} ValueDigits(ds: seq<int>)
    requires forall i :: 0 <= i < |ds| ==> ds[i] == RUNA || ds[i] == RUNB
    ensures RunValue(ds) >= 0 && RunDigits(RunValue(ds)) == ds
  {
    if ds != [] {
      ValueDigits(ds[1..]);
      var p := RunValue(ds) - 1;
      assert ds == [ds[0]] + ds[1..];
      if ds[1..] != [] {
        assert (p - 2) / 2 == RunValue(ds[1..]) - 1;
      }
    }
  }

  // ----- encoding

  /** The first place of x in l. */
  function IndexOf(l: seq<byte>, x: byte): (k: nat)
    requires x in l
    ensures k < |l| && l[k] == x
    ensures forall i :: 0 <= i < k ==> l[i] != x
  {
    if l[0] == x then 0 else 1 + IndexOf(l[1..], x)
  }

  /** All values of ls are on the list. */
  ghost predicate AllIn(ls: seq<byte>, yy: seq<byte>) {
    forall i :: 0 <= i < |ls| ==> ls[i] in yy
  }

  /** The symbols for the remaining values ls, with list yy and z zeroes pending. */
  function Encode(yy: seq<byte>, z: nat, ls: seq<byte>): (r: seq<int>)
    requires yy != [] && AllIn(ls, yy)
    decreases |ls|
  {
    if ls == [] then RunDigits(z) + [|yy| + 1]
    else if ls[0] == yy[0] then Encode(yy, z + 1, ls[1..])
    else
      var k := IndexOf(yy, ls[0]);
      AllInMoved(ls, yy, k);
      RunDigits(z) + [k + 1] + Encode(ToFront(yy, k), 0, ls[1..])
  }

  lemma ToFrontKeeps(l: seq<byte>, k: nat)
    requires k < |l|
    ensures forall x :: x in l <==> x in ToFront(l, k)
  {
    var r := ToFront(l, k);
    forall x | x in l ensures x in r {
      var i :| 0 <= i < |l| && l[i] == x;
      assert r[if i == k then 0 else if i < k then i + 1 else i] == x;
    }
  }

  lemma HeadIn(ls: seq<byte>, yy: seq<byte>)
    requires AllIn(ls, yy) && ls != []
    ensures ls[0] in yy
  {
  }

  lemma AllInMoved(ls: seq<byte>, yy: seq<byte>, k: nat)
    requires AllIn(ls, yy) && k < |yy| && ls != []
    ensures AllIn(ls[1..], ToFront(yy, k)) && AllIn(ls[1..], yy)
  {
    ToFrontKeeps(yy, k);
  }

  // ----- decoding

  /** How decoding ends: all symbols up to the end mark used, bad data, or no more symbols. */
  datatype Decoded = Done(out: seq<byte>, rest: seq<int>) | BadData | MoreInput

  const RUN_LIMIT := 2 * 1024 * 1024

  /** The symbol range demanded by Decode. */
  ghost predicate SymbolsUpTo(syms: seq<int>, eob: int) {
    forall i :: 0 <= i < |syms| ==> 0 <= syms[i] <= eob
  }

  /** Decodes symbols with move-to-front list c; es and n are the run in progress,
      -1 and 1 when there is none. */
  function Decode(unseq: seq<byte>, eob: nat, max: nat, c: seq<byte>, out: seq<byte>, es: int, n: nat, syms: seq<int>)
    : Decoded
    requires |unseq| == 256 && |c| == 256 && 2 <= eob <= 257 && es >= -1
    requires forall i :: 0 <= i < |syms| ==> 0 <= syms[i] <= eob
    decreases |syms|
  {
    if syms == [] then MoreInput
    else
      var s := syms[0];
      if s == RUNA || s == RUNB then
        if n >= RUN_LIMIT then BadData
        else Decode(unseq, eob, max, c, out, es + (s + 1) * n, 2 * n, syms[1..])
      else if |out| + (es + 1) > max then BadData
      else
        var out' := out + Repeat(unseq[c[0]], es + 1);
        if s == eob then Done(out', syms[1..])
        else if |out'| >= max then BadData
        else Decode(unseq, eob, max, ToFront(c, s - 1), out' + [unseq[c[s - 1]]], -1, 1, syms[1..])
  }

  /** What p + 1 pending zeroes add when their first digit has weight n. */
  function Weight(p: nat, n: nat): int {
    (p + 1) * n
  }

  lemma DecodeDigit(unseq: seq<byte>, eob: nat, max: nat, c: seq<byte>, out: seq<byte>, es: int, n: nat, d: int,
                    rest: seq<int>)
    requires |unseq| == 256 && |c| == 256 && 2 <= eob <= 257 && es >= -1
    requires forall i :: 0 <= i < |rest| ==> 0 <= rest[i] <= eob
    requires (d == RUNA || d == RUNB) && n < RUN_LIMIT
    ensures Decode(unseq, eob, max, c, out, es, n, [d] + rest)
            == Decode(unseq, eob, max, c, out, es + (d + 1) * n, 2 * n, rest)
  {
    assert ([d] + rest)[1..] == rest;
  }

  /** Once the run is over its weight no longer matters. */
  lemma DecodeRunOver(unseq: seq<byte>, eob: nat, max: nat, c: seq<byte>, out: seq<byte>, es: int, n: nat,
                      rest: seq<int>)
    requires |unseq| == 256 && |c| == 256 && 2 <= eob <= 257 && es >= -1
    requires forall i :: 0 <= i < |rest| ==> 0 <= rest[i] <= eob
    requires rest != [] && rest[0] >= 2
    ensures Decode(unseq, eob, max, c, out, es, n, rest) == Decode(unseq, eob, max, c, out, es, 1, rest)
  {
  }

  /** The digits of a run of at most 900000 never trip the limit, and add up to it. */
  lemma {:induction false} DecodeDigits(unseq: seq<byte>, eob: nat, max: nat, c: seq<byte>, out: seq<byte>, es: int,
                                        n: nat, p: nat, rest: seq<int>)
    requires |unseq| == 256 && |c| == 256 && 2 <= eob <= 257 && es >= -1
    requires forall i :: 0 <= i < |rest| ==> 0 <= rest[i] <= eob
    requires rest != [] && rest[0] >= 2
    requires 0 < n && n * (p + 2) <= RUN_LIMIT
    ensures es + Weight(p, n) >= -1
    ensures Decode(unseq, eob, max, c, out, es, n, Digits(p) + rest)
            == Decode(unseq, eob, max, c, out, es + Weight(p, n), 1, rest)
    decreases p
  {
    hide Decode, Weight;
    var d := if p % 2 == 1 then RUNB else RUNA;
    WeightFacts(p, n);
    if p < 2 {
      assert Digits(p) == [d];
      DecodeDigit(unseq, eob, max, c, out, es, n, d, rest);
      DecodeRunOver(unseq, eob, max, c, out, es + (d + 1) * n, 2 * n, rest);
    } else {
      var p' := (p - 2) / 2;
      assert Digits(p) + rest == [d] + (Digits(p') + rest);
      DecodeDigit(unseq, eob, max, c, out, es, n, d, Digits(p') + rest);
      DecodeDigits(unseq, eob, max, c, out, es + (d + 1) * n, 2 * n, p', rest);
    }
  }

  lemma WeightFacts(p: nat, n: nat)
    requires 0 < n && n * (p + 2) <= RUN_LIMIT
    ensures n < RUN_LIMIT && Weight(p, n) >= 0
    ensures p < 2 ==> Weight(p, n) == (p % 2 + 1) * n
    ensures p >= 2 ==> (2 * n) * ((p - 2) / 2 + 2) <= RUN_LIMIT
    ensures p >= 2 ==> (p % 2 + 1) * n + Weight((p - 2) / 2, 2 * n) == Weight(p, n)
  {
    assert n * (p + 2) >= n * 2;
    if p >= 2 {
      Halve(n, p);
      HalveSum(n, p);
    }
  }

  lemma Halve(n: nat, p: nat)
    requires p >= 2 && n * (p + 2) <= RUN_LIMIT
    ensures (2 * n) * ((p - 2) / 2 + 2) <= RUN_LIMIT
  {
    var q := (p - 2) / 2;
    assert (2 * n) * (q + 2) == n * (2 * q + 4);
    assert n * (2 * q + 4) <= n * (p + 2);
  }

  lemma HalveSum(n: nat, p: nat)
    requires p >= 2
    ensures (p % 2 + 1) * n + ((p - 2) / 2 + 1) * (2 * n) == (p + 1) * n
  {
    var q := (p - 2) / 2;
    assert p == 2 * q + 2 + p % 2;
    assert (p % 2 + 1) * n + (q + 1) * (2 * n) == (p % 2 + 1 + 2 * q + 2) * n;
  }

  /** Bytes mapped back from their sequence numbers. */
  function Mapped(unseq: seq<byte>, ls: seq<byte>): (r: seq<byte>)
    requires |unseq| == 256
    ensures |r| == |ls| && forall i :: 0 <= i < |ls| ==> r[i] == unseq[ls[i]]
  {
    seq(|ls|, i requires 0 <= i < |ls| => unseq[ls[i]])
  }

  lemma {:induction false} EncodeRange(yy: seq<byte>, z: nat, ls: seq<byte>)
    requires yy != [] && AllIn(ls, yy)
    ensures forall i :: 0 <= i < |Encode(yy, z, ls)| ==> 0 <= Encode(yy, z, ls)[i] <= |yy| + 1
    decreases |ls|
  {
    if ls != [] {
      if ls[0] == yy[0] {
        EncodeRange(yy, z + 1, ls[1..]);
      } else {
        var k := IndexOf(yy, ls[0]);
        ToFrontKeeps(yy, k);
        EncodeRange(ToFront(yy, k), 0, ls[1..]);
      }
    }
  }

  /** A run of z zeroes followed by another symbol. */
  lemma DecodeRun(unseq: seq<byte>, eob: nat, max: nat, c: seq<byte>, out: seq<byte>, z: nat, rest: seq<int>)
    requires |unseq| == 256 && |c| == 256 && 2 <= eob <= 257 && z <= 900000
    requires forall i :: 0 <= i < |rest| ==> 0 <= rest[i] <= eob
    requires rest != [] && rest[0] >= 2
    ensures Decode(unseq, eob, max, c, out, -1, 1, RunDigits(z) + rest)
            == Decode(unseq, eob, max, c, out, z - 1, 1, rest)
  {
    hide Decode;
    if z == 0 {
      assert RunDigits(z) + rest == rest;
    } else {
      DecodeDigits(unseq, eob, max, c, out, -1, 1, z - 1, rest);
    }
  }

  lemma PrefixToFront(c: seq<byte>, n: nat, k: nat)
    requires k < n <= |c|
    ensures ToFront(c, k)[..n] == ToFront(c[..n], k)
  {
  }

  lemma DecodeMove(unseq: seq<byte>, eob: nat, max: nat, c: seq<byte>, out: seq<byte>, z: nat, s: int, rest: seq<int>)
    requires |unseq| == 256 && |c| == 256 && 2 <= s < eob <= 257
    requires forall i :: 0 <= i < |rest| ==> 0 <= rest[i] <= eob
    requires |out| + z < max
    ensures Decode(unseq, eob, max, c, out, z - 1, 1, [s] + rest)
            == Decode(unseq, eob, max, ToFront(c, s - 1), out + Repeat(unseq[c[0]], z) + [unseq[c[s - 1]]], -1, 1, rest)
  {
    hide ToFront, Repeat, RunDigits, Digits;
    assert ([s] + rest)[1..] == rest;
  }

  /** Decoding what Encode emits gives back the pending run and the values. */
  ghost predicate Inverts(unseq: seq<byte>, n: nat, max: nat, c: seq<byte>, out: seq<byte>, z: nat, ls: seq<byte>,
                          tail: seq<int>)
    requires |unseq| == 256 && |c| == 256 && 1 <= n <= 256
    requires AllIn(ls, c[..n])
  {
    var syms := Encode(c[..n], z, ls) + tail;
    && (forall i :: 0 <= i < |syms| ==> 0 <= syms[i] <= n + 1)
    && Decode(unseq, n + 1, max, c, out, -1, 1, syms)
       == Done(out + Repeat(unseq[c[0]], z) + Mapped(unseq, ls), tail)
  }

  lemma InvertsEnd(unseq: seq<byte>, n: nat, max: nat, c: seq<byte>, out: seq<byte>, z: nat, tail: seq<int>)
    requires |unseq| == 256 && |c| == 256 && 1 <= n <= 256 && max <= 900000
    requires forall i :: 0 <= i < |tail| ==> 0 <= tail[i] <= n + 1
    requires |out| + z <= max
    ensures Inverts(unseq, n, max, c, out, z, [], tail)
  {
    assert Encode(c[..n], z, []) + tail == RunDigits(z) + ([n + 1] + tail);
    DecodeRun(unseq, n + 1, max, c, out, z, [n + 1] + tail);
    assert ([n + 1] + tail)[1..] == tail;
    assert out + Repeat(unseq[c[0]], z) + Mapped(unseq, []) == out + Repeat(unseq[c[0]], z);
  }

  lemma InvertsZero(unseq: seq<byte>, n: nat, max: nat, c: seq<byte>, out: seq<byte>, z: nat, ls: seq<byte>,
                    tail: seq<int>)
    requires |unseq| == 256 && |c| == 256 && 1 <= n <= 256
    requires AllIn(ls, c[..n])
    requires ls != [] && ls[0] == c[0] && Inverts(unseq, n, max, c, out, z + 1, ls[1..], tail)
    ensures Inverts(unseq, n, max, c, out, z, ls, tail)
  {
    hide Decode;
    assert out + Repeat(unseq[c[0]], z + 1) + Mapped(unseq, ls[1..])
        == out + Repeat(unseq[c[0]], z) + Mapped(unseq, ls);
  }

  lemma InvertsMove(unseq: seq<byte>, n: nat, max: nat, c: seq<byte>, out: seq<byte>, z: nat, ls: seq<byte>,
                    tail: seq<int>, k: nat)
    requires |unseq| == 256 && |c| == 256 && 1 <= n <= 256 && max <= 900000
    requires AllIn(ls, c[..n])
    requires ls != [] && ls[0] != c[0] && k == IndexOf(c[..n], ls[0]) && |out| + z < max
    requires AllIn(ls[1..], ToFront(c, k)[..n])
    requires Inverts(unseq, n, max, ToFront(c, k), out + Repeat(unseq[c[0]], z) + [unseq[c[k]]], 0, ls[1..], tail)
    ensures Inverts(unseq, n, max, c, out, z, ls, tail)
  {
    hide *;
    MoveSymbols(n, c, z, ls, tail, k);
    MoveBytes(unseq, c, out, z, ls, k);
    var rest := Encode(ToFront(c, k)[..n], 0, ls[1..]) + tail;
    InvertsParts(unseq, n, max, c, out, z, ls, tail, k);
    DecodeRun(unseq, n + 1, max, c, out, z, [k + 1] + rest);
    DecodeMove(unseq, n + 1, max, c, out, z, k + 1, rest);
    EncodeRange(c[..n], z, ls);
    TailRange(Encode(ToFront(c, k)[..n], 0, ls[1..]), tail, Encode(c[..n], z, ls), n + 1);
    MakeInverts(unseq, n, max, c, out, z, ls, tail);
  }

  lemma TailRange(a: seq<int>, tail: seq<int>, b: seq<int>, top: int)
    requires forall i :: 0 <= i < |a + tail| ==> 0 <= (a + tail)[i] <= top
    requires forall i :: 0 <= i < |b| ==> 0 <= b[i] <= top
    ensures forall i :: 0 <= i < |b + tail| ==> 0 <= (b + tail)[i] <= top
  {
    forall i | 0 <= i < |b + tail| ensures 0 <= (b + tail)[i] <= top {
      if i >= |b| { assert (b + tail)[i] == (a + tail)[|a| + (i - |b|)]; }
    }
  }

  lemma MakeInverts(unseq: seq<byte>, n: nat, max: nat, c: seq<byte>, out: seq<byte>, z: nat, ls: seq<byte>,
                    tail: seq<int>)
    requires |unseq| == 256 && |c| == 256 && 1 <= n <= 256
    requires AllIn(ls, c[..n])
    requires var syms := Encode(c[..n], z, ls) + tail;
             && (forall i :: 0 <= i < |syms| ==> 0 <= syms[i] <= n + 1)
             && Decode(unseq, n + 1, max, c, out, -1, 1, syms)
                == Done(out + Repeat(unseq[c[0]], z) + Mapped(unseq, ls), tail)
    ensures Inverts(unseq, n, max, c, out, z, ls, tail)
  {
  }

  lemma InvertsParts(unseq: seq<byte>, n: nat, max: nat, c: seq<byte>, out: seq<byte>, z: nat, ls: seq<byte>,
                     tail: seq<int>, k: nat)
    requires |unseq| == 256 && |c| == 256 && 1 <= n <= 256 && k < n && ls != []
    requires AllIn(ls[1..], ToFront(c, k)[..n])
    requires Inverts(unseq, n, max, ToFront(c, k), out + Repeat(unseq[c[0]], z) + [unseq[c[k]]], 0, ls[1..], tail)
    ensures var rest := Encode(ToFront(c, k)[..n], 0, ls[1..]) + tail;
            var out' := out + Repeat(unseq[c[0]], z) + [unseq[c[k]]];
            && (forall i :: 0 <= i < |rest| ==> 0 <= rest[i] <= n + 1)
            && Decode(unseq, n + 1, max, ToFront(c, k), out', -1, 1, rest)
               == Done(out' + Repeat(unseq[ToFront(c, k)[0]], 0) + Mapped(unseq, ls[1..]), tail)
  {
  }

  lemma MoveSymbols(n: nat, c: seq<byte>, z: nat, ls: seq<byte>, tail: seq<int>, k: nat)
    requires 1 <= n <= |c| && ls != [] && AllIn(ls, c[..n])
    requires ls[0] != c[0] && k == IndexOf(c[..n], ls[0])
    requires AllIn(ls[1..], ToFront(c, k)[..n])
    ensures 0 < k < n
    ensures Encode(c[..n], z, ls) + tail
            == RunDigits(z) + ([k + 1] + (Encode(ToFront(c, k)[..n], 0, ls[1..]) + tail))
  {
    hide *;
    var yy := c[..n];
    assert yy[0] == c[0];
    PrefixToFront(c, n, k);
    EncodeMove(yy, z, ls);
    var more := Encode(ToFront(yy, k), 0, ls[1..]);
    assert RunDigits(z) + [k + 1] + more + tail == RunDigits(z) + ([k + 1] + (more + tail));
  }

  lemma EncodeStay(yy: seq<byte>, z: nat, ls: seq<byte>)
    requires yy != [] && AllIn(ls, yy)
    ensures ls == [] ==> Encode(yy, z, ls) == RunDigits(z) + [|yy| + 1]
    ensures ls != [] && ls[0] == yy[0] ==>
              AllIn(ls[1..], yy) && Encode(yy, z, ls) == Encode(yy, z + 1, ls[1..])
  {
    hide ToFront, RunDigits, Digits, IndexOf;
    if ls != [] { AllInMoved(ls, yy, 0); }
  }

  lemma EncodeMove(yy: seq<byte>, z: nat, ls: seq<byte>)
    requires yy != [] && ls != [] && AllIn(ls, yy) && ls[0] != yy[0]
    ensures var k := IndexOf(yy, ls[0]);
            && 0 < k
            && AllIn(ls[1..], ToFront(yy, k))
            && Encode(yy, z, ls) == RunDigits(z) + [k + 1] + Encode(ToFront(yy, k), 0, ls[1..])
  {
    hide AllIn, ToFront, RunDigits, Digits, IndexOf;
    HeadIn(ls, yy);
    AllInMoved(ls, yy, IndexOf(yy, ls[0]));
  }

  lemma MoveBytes(unseq: seq<byte>, c: seq<byte>, out: seq<byte>, z: nat, ls: seq<byte>, k: nat)
    requires |unseq| == 256 && k < |c| && ls != [] && c[k] == ls[0]
    ensures out + Repeat(unseq[c[0]], z) + [unseq[c[k]]] + Repeat(unseq[ToFront(c, k)[0]], 0) + Mapped(unseq, ls[1..])
            == out + Repeat(unseq[c[0]], z) + Mapped(unseq, ls)
  {
  }

  /** Decoding inverts encoding: for every list, every pending run and every
      sequence of values that fits the block. */
  lemma {:induction false} DecodeEncode(unseq: seq<byte>, n: nat, max: nat, c: seq<byte>, out: seq<byte>, z: nat,
                                        ls: seq<byte>, tail: seq<int>)
    requires |unseq| == 256 && |c| == 256 && 1 <= n <= 256 && max <= 900000
    requires AllIn(ls, c[..n])
    requires forall i :: 0 <= i < |tail| ==> 0 <= tail[i] <= n + 1
    requires |out| + z + |ls| <= max
    ensures Inverts(unseq, n, max, c, out, z, ls, tail)
    decreases |ls|
  {
    hide Inverts;
    if ls == [] {
      InvertsEnd(unseq, n, max, c, out, z, tail);
    } else if ls[0] == c[0] {
      DecodeEncode(unseq, n, max, c, out, z + 1, ls[1..], tail);
      InvertsZero(unseq, n, max, c, out, z, ls, tail);
    } else {
      var k := IndexOf(c[..n], ls[0]);
      ToFrontKeeps(c[..n], k);
      PrefixToFront(c, n, k);
      DecodeEncode(unseq, n, max, ToFront(c, k), out + Repeat(unseq[c[0]], z) + [unseq[c[k]]], 0, ls[1..], tail);
      InvertsMove(unseq, n, max, c, out, z, ls, tail, k);
    }
  }
}
