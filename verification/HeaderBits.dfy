/** The bucket-header bits of fallbackSort, kept 32 to a word. */
module HeaderBits {

  /** A 32-bit word as its bits, lowest first. */
  type Word = s: seq<bool> | |s| == 32 witness seq(32, _ => false)

  /** The word with all bits equal to v: 0xffffffff or 0. */
  function Solid(v: bool): (w: Word)
    ensures forall i :: 0 <= i < 32 ==> w[i] == v
  {
    seq(32, _ => v)
  }

  /** Bit z of the table. */
  predicate Bit(bh: seq<Word>, z: nat)
    requires z / 32 < |bh|
  {
    bh[z / 32][z % 32]
  }

  /** The table with bit z set to v. */
  function WithBit(bh: seq<Word>, z: nat, v: bool): (r: seq<Word>)
    requires z / 32 < |bh|
    ensures |r| == |bh|
  {
    bh[z / 32 := bh[z / 32][z % 32 := v]]
  }

  lemma WithBitIs(bh: seq<Word>, z: nat, v: bool, y: nat)
    requires z / 32 < |bh| && y / 32 < |bh|
    ensures Bit(WithBit(bh, z, v), y) == if y == z then v else Bit(bh, y)
  {
  }

  method TestBit(bhtab: array<Word>, z: nat) returns (v: bool)
    requires z / 32 < bhtab.Length
    ensures v == Bit(bhtab[..], z)
  {
    v := bhtab[z / 32][z % 32];
  }

  method SetBit(bhtab: array<Word>, z: nat, v: bool)
    requires z / 32 < bhtab.Length
    modifies bhtab
    ensures bhtab[..] == WithBit(old(bhtab[..]), z, v)
  {
    ghost var bh := bhtab[..];
    bhtab[z / 32] := bhtab[z / 32][z % 32 := v];
    assert bhtab[..] == WithBit(bh, z, v);
  }

  /** All bits from a up to but not including z are v. */
  ghost predicate Run(bh: seq<Word>, a: nat, z: nat, v: bool) {
    forall k {:trigger Bit(bh, k)} :: a <= k < z && k / 32 < |bh| ==> Bit(bh, k) == v
  }

  lemma RunWord(bh: seq<Word>, a: nat, z: nat, v: bool)
    requires Run(bh, a, z, v) && z % 32 == 0 && z / 32 < |bh| && bh[z / 32] == Solid(v)
    ensures Run(bh, a, z + 32, v)
  {
    forall k | a <= k < z + 32 && k / 32 < |bh| ensures Bit(bh, k) == v {
      if k >= z { assert k / 32 == z / 32; }
    }
  }

  lemma RunStep(bh: seq<Word>, a: nat, z: nat, v: bool)
    requires Run(bh, a, z, v) && z / 32 < |bh| && Bit(bh, z) == v
    ensures Run(bh, a, z + 1, v)
  {
  }

  lemma RunStops(bh: seq<Word>, a: nat, z: nat, v: bool, limit: nat)
    requires Run(bh, a, z, v) && a <= limit && limit / 32 < |bh| && Bit(bh, limit) != v
    ensures z <= limit
  {
  }

  /** The first place from k0 on whose bit is not v, found by single bits up to a
      word boundary, by whole words, and by single bits again. */
  method SkipBits(bhtab: array<Word>, k0: nat, v: bool, ghost limit: nat) returns (k: nat)
    requires k0 <= limit && limit / 32 < bhtab.Length && Bit(bhtab[..], limit) != v
    ensures k0 <= k <= limit && Bit(bhtab[..], k) != v
    ensures Run(bhtab[..], k0, k, v)
  {
    hide Run;
    ghost var bh := bhtab[..];
    k := k0;
    RunEmpty(bh, k0, v);
    while bhtab[k / 32][k % 32] == v && k % 32 != 0
      invariant k0 <= k <= limit && Run(bh, k0, k, v)
      decreases limit - k
    {
      RunStep(bh, k0, k, v);
      k := k + 1;
      RunStops(bh, k0, k, v, limit);
    }
    if bhtab[k / 32][k % 32] == v {
      while bhtab[k / 32] == Solid(v)
        invariant k0 <= k <= limit && Run(bh, k0, k, v) && k % 32 == 0
        decreases limit - k
      {
        RunWord(bh, k0, k, v);
        k := k + 32;
        RunStops(bh, k0, k, v, limit);
      }
      while bhtab[k / 32][k % 32] == v
        invariant k0 <= k <= limit && Run(bh, k0, k, v)
        decreases limit - k
      {
        RunStep(bh, k0, k, v);
        k := k + 1;
        RunStops(bh, k0, k, v, limit);
      }
    }
  }

  lemma RunEmpty(bh: seq<Word>, a: nat, v: bool)
    ensures Run(bh, a, a, v)
  {
  }
}
