/** The bytes in use and their numbering: makeMaps_e and makeMaps_d. */
module ByteMaps {
  import opened Counting
  import opened MtfCoding

  /** The used bytes below k, in ascending order. */
  function UsedBelow(inUse: seq<bool>, k: nat): (r: seq<byte>)
    requires |inUse| == 256 && k <= 256
    ensures |r| <= k && forall i :: 0 <= i < |r| ==> r[i] < k && inUse[r[i]]
  {
    if k == 0 then []
    else if inUse[k - 1] then UsedBelow(inUse, k - 1) + [(k - 1) as byte]
    else UsedBelow(inUse, k - 1)
  }

  /** How many bytes are in use. */
  function NInUse(inUse: seq<bool>): nat
    requires |inUse| == 256
  {
    |UsedBelow(inUse, 256)|
  }

  /** The number given to byte x. */
  function Rank(inUse: seq<bool>, x: byte): nat
    requires |inUse| == 256
  {
    |UsedBelow(inUse, x)|
  }

  lemma {:induction false} UsedPrefix(inUse: seq<bool>, j: nat, k: nat)
    requires |inUse| == 256 && j <= k <= 256
    ensures UsedBelow(inUse, j) <= UsedBelow(inUse, k)
    decreases k
  {
    if j < k { UsedPrefix(inUse, j, k - 1); }
  }

  /** The two numberings are inverse: a used byte stands in the list at its number ... */
  lemma RankFinds(inUse: seq<bool>, x: byte)
    requires |inUse| == 256 && inUse[x]
    ensures Rank(inUse, x) < NInUse(inUse) && UsedBelow(inUse, 256)[Rank(inUse, x)] == x
  {
    UsedPrefix(inUse, x as int + 1, 256);
    assert UsedBelow(inUse, x as int + 1) == UsedBelow(inUse, x) + [x];
  }

  /** ... and the byte at place k of the list has number k. */
  lemma {:induction false} ListRanks(inUse: seq<bool>, k: nat, top: nat)
    requires |inUse| == 256 && top <= 256 && k < |UsedBelow(inUse, top)|
    ensures Rank(inUse, UsedBelow(inUse, top)[k]) == k && inUse[UsedBelow(inUse, top)[k]]
    decreases top
  {
    if k < |UsedBelow(inUse, top - 1)| { ListRanks(inUse, k, top - 1); }
  }

  /** The numbers of the bytes of l. */
  function Ranks(inUse: seq<bool>, l: seq<byte>): (r: seq<byte>)
    requires |inUse| == 256 && forall i :: 0 <= i < |l| ==> inUse[l[i]]
    ensures |r| == |l| && forall i :: 0 <= i < |l| ==> r[i] == Rank(inUse, l[i]) < NInUse(inUse)
  {
    assert forall i :: 0 <= i < |l| ==> Rank(inUse, l[i]) < NInUse(inUse) <= 256 by {
      forall i | 0 <= i < |l| ensures Rank(inUse, l[i]) < NInUse(inUse) { RankFinds(inUse, l[i]); }
    }
    seq(|l|, i requires 0 <= i < |l| => Rank(inUse, l[i]) as byte)
  }

  /** Numbering bytes and mapping them back changes nothing. */
  lemma MapsInverse(inUse: seq<bool>, unseq: seq<byte>, l: seq<byte>)
    requires |inUse| == 256 && |unseq| == 256 && UsedBelow(inUse, 256) <= unseq
    requires forall i :: 0 <= i < |l| ==> inUse[l[i]]
    ensures Mapped(unseq, Ranks(inUse, l)) == l
  {
    forall i | 0 <= i < |l| ensures Mapped(unseq, Ranks(inUse, l))[i] == l[i] { RankFinds(inUse, l[i]); }
  }

  /** Mapping numbers of used bytes to bytes and numbering these changes nothing either. */
  lemma NumbersInverse(inUse: seq<bool>, unseq: seq<byte>, ks: seq<byte>)
    requires |inUse| == 256 && |unseq| == 256 && UsedBelow(inUse, 256) <= unseq
    requires forall i :: 0 <= i < |ks| ==> ks[i] < NInUse(inUse)
    ensures forall i :: 0 <= i < |ks| ==> inUse[Mapped(unseq, ks)[i]]
    ensures Ranks(inUse, Mapped(unseq, ks)) == ks
  {
    forall i | 0 <= i < |ks| ensures inUse[Mapped(unseq, ks)[i]] && Rank(inUse, Mapped(unseq, ks)[i]) == ks[i] {
      ListRanks(inUse, ks[i] as nat, 256);
    }
  }

  /** makeMaps_e: numbers the used bytes. */
  method MakeMapsE(inUse: seq<bool>) returns (nInUse: nat, unseqToSeq: array<byte>)
    requires |inUse| == 256
    ensures fresh(unseqToSeq) && unseqToSeq.Length == 256 && nInUse == NInUse(inUse)
    ensures forall i: byte :: inUse[i] ==> unseqToSeq[i] == Rank(inUse, i)
  {
    unseqToSeq := new byte[256];
    nInUse := 0;
    for i := 0 to 256
      invariant nInUse == |UsedBelow(inUse, i)|
      invariant forall k: byte :: k < i && inUse[k] ==> unseqToSeq[k] == Rank(inUse, k)
    {
      if inUse[i] {
        unseqToSeq[i] := nInUse;
        nInUse := nInUse + 1;
      }
    }
  }

  /** makeMaps_d: lists the used bytes. */
  method MakeMapsD(inUse: seq<bool>) returns (nInUse: nat, seqToUnseq: array<byte>)
    requires |inUse| == 256
    ensures fresh(seqToUnseq) && seqToUnseq.Length == 256 && nInUse == NInUse(inUse)
    ensures UsedBelow(inUse, 256) <= seqToUnseq[..]
  {
    seqToUnseq := new byte[256];
    nInUse := 0;
    for i := 0 to 256
      invariant nInUse == |UsedBelow(inUse, i)|
      invariant seqToUnseq[..nInUse] == UsedBelow(inUse, i)
    {
      if inUse[i] {
        seqToUnseq[nInUse] := i;
        nInUse := nInUse + 1;
      }
    }
  }
}
