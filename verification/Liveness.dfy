/** The register analysis of cftool: which registers may be overwritten before each
    instruction of a function, and why that is safe. */
module Liveness {

  // ----- register sets

  /** Bit k is register k of allRegs: rax, rbx, rcx, rdx, rdi, rsi, rbp, rsp, r8 to r15,
      rip, rflags; fourteen bits are unused. */
  type RegisterSet = s: seq<bool> | |s| == 32 witness seq(32, _ => false)

  const NREGS := 18
  const RSP := 7
  const RIP := 16

  function Empty(): (r: RegisterSet)
    ensures forall k :: 0 <= k < 32 ==> !r[k]
  {
    seq(32, _ => false)
  }

  function AllRegs(): (r: RegisterSet)
    ensures forall k :: 0 <= k < 32 ==> (r[k] <==> k < NREGS)
  {
    seq(32, k => k < NREGS)
  }

  /** (rs ^ other) & rs */
  function Difference(rs: RegisterSet, other: RegisterSet): (r: RegisterSet)
    ensures forall k :: 0 <= k < 32 ==> (r[k] <==> rs[k] && !other[k])
  {
    seq(32, k requires 0 <= k < 32 => (rs[k] != other[k]) && rs[k])
  }

  function Union(rs: RegisterSet, other: RegisterSet): (r: RegisterSet)
    ensures forall k :: 0 <= k < 32 ==> (r[k] <==> rs[k] || other[k])
  {
    seq(32, k requires 0 <= k < 32 => rs[k] || other[k])
  }

  function Unit(k: nat): (r: RegisterSet)
    requires k < 32
    ensures forall j :: 0 <= j < 32 ==> (r[j] <==> j == k)
  {
    seq(32, j => j == k)
  }

  ghost predicate Within(a: RegisterSet, b: RegisterSet) {
    forall k :: 0 <= k < 32 ==> a[k] ==> b[k]
  }

  /** OnesCount32 over the first n bits. */
  function Size(s: RegisterSet, n: nat): (c: nat)
    requires n <= 32
    ensures c <= n
  {
    if n == 0 then 0 else Size(s, n - 1) + if s[n - 1] then 1 else 0
  }

  lemma {:induction false} SizeMonotone(a: RegisterSet, b: RegisterSet, n: nat)
    requires Within(a, b) && n <= 32
    ensures Size(a, n) <= Size(b, n)
    ensures (exists k :: 0 <= k < n && b[k] && !a[k]) ==> Size(a, n) < Size(b, n)
  {
    if n > 0 { SizeMonotone(a, b, n - 1); }
  }

  // ----- the input

  /** A register name as the table of subregisters resolves it: a part of the given size
      of a register, a segment register, or no known name. */
  datatype RegName = Part(index: nat, size: nat) | Segment | Unknown

  datatype Successor = Index(i: int) | Ret | Call | Undef | OtherString

  datatype Instruction = Instruction(succs: seq<Successor>, written: seq<RegName>, read: seq<RegName>)

  /** What the analysis stops with a panic for. */
  datatype Outcome<T> = Ok(value: T) | Panic

  function UsedByRet(): (r: RegisterSet)
    ensures forall k :: 0 <= k < 32 ==> (r[k] <==> k < 16)
  {
    seq(32, k => k < 16)
  }

  /** All of rax to r15 but r10 and r11. */
  function UsedByCall(): (r: RegisterSet)
    ensures forall k :: 0 <= k < 32 ==> (r[k] <==> k < 16 && k != 10 && k != 11)
  {
    seq(32, k => k < 16 && k != 10 && k != 11)
  }

  predicate Known(r: RegName) {
    r.Part? && r.index < NREGS
  }

  /** regSetFromRegList */
  function SetFromList(l: seq<RegName>): Outcome<RegisterSet> {
    if |l| > 32 then Panic else SetFrom(l)
  }

  function SetFrom(l: seq<RegName>): (r: Outcome<RegisterSet>)
    ensures r.Ok? <==> forall i :: 0 <= i < |l| ==> l[i].Segment? || Known(l[i])
    ensures r.Ok? ==> forall k :: 0 <= k < 32 ==>
              (r.value[k] <==> exists i :: 0 <= i < |l| && l[i].Part? && l[i].index == k)
  {
    if l == [] then Ok(Empty())
    else
      var front := SetFrom(l[..|l| - 1]);
      var last := l[|l| - 1];
      if front.Panic? then Panic
      else if last.Segment? then front
      else if Known(last) then Ok(Union(front.value, Unit(last.index)))
      else Panic
  }

  /** The registers added to the read set because only a part of them is written; a
      segment register among the written names is looked up in vain here. */
  function PartlyWritten(l: seq<RegName>): (r: Outcome<RegisterSet>)
    ensures r.Ok? ==> forall k :: 0 <= k < 32 ==>
              (r.value[k] <==> exists i :: 0 <= i < |l| && l[i].Part? && l[i].index == k && l[i].size < 32)
    ensures r.Ok? <==> forall i :: 0 <= i < |l| ==> l[i].Part? && (l[i].size < 32 ==> Known(l[i]))
  {
    if l == [] then Ok(Empty())
    else
      var front := PartlyWritten(l[..|l| - 1]);
      var last := l[|l| - 1];
      if front.Panic? || !last.Part? then Panic
      else if last.size >= 32 then front
      else if Known(last) then Ok(Union(front.value, Unit(last.index)))
      else Panic
  }

  // ----- the equations

  /** One instruction in set form. */
  datatype Sets = Sets(readSet: RegisterSet, writtenSet: RegisterSet, succs: seq<Successor>)

  /** The registers whose old value is dead after the instruction. */
  function Kill(s: Sets): RegisterSet {
    Difference(s.writtenSet, s.readSet)
  }

  /** The registers a successor uses; a name that is none of the three uses nothing. */
  function Exposed(used: seq<RegisterSet>, succ: Successor): RegisterSet {
    match succ
    case Index(i) => if 0 <= i < |used| then used[i] else AllRegs()
    case Ret => UsedByRet()
    case Call => UsedByCall()
    case Undef => AllRegs()
    case OtherString => Empty()
  }

  /** Register k is used by one of the successors. */
  ghost predicate NeededBy(used: seq<RegisterSet>, succs: seq<Successor>, k: nat)
    requires k < 32
  {
    exists j :: 0 <= j < |succs| && Exposed(used, succs[j])[k]
  }

  /** Register k is used at an instruction, given what its successors use. */
  ghost predicate Needed(s: Sets, used: seq<RegisterSet>, k: nat)
    requires k < 32
  {
    s.readSet[k] || (!Kill(s)[k] && NeededBy(used, s.succs, k))
  }

  /** used[i] covers everything that instruction i and its successors need. */
  ghost predicate Covers(code: seq<Sets>, used: seq<RegisterSet>, i: nat)
    requires i < |code| == |used|
  {
    forall k :: 0 <= k < 32 ==> Needed(code[i], used, k) ==> used[i][k]
  }

  ghost predicate PostFixpoint(code: seq<Sets>, used: seq<RegisterSet>) {
    |used| == |code| && forall i :: 0 <= i < |code| ==> Covers(code, used, i)
  }

  ghost predicate Fixpoint(code: seq<Sets>, used: seq<RegisterSet>) {
    |used| == |code| && forall i, k :: 0 <= i < |code| && 0 <= k < 32 ==> (Needed(code[i], used, k) <==> used[i][k])
  }

  ghost predicate SmallSets(code: seq<Sets>) {
    forall i :: 0 <= i < |code| ==> Within(code[i].readSet, AllRegs())
  }

  // ----- one update

  /** A successor index beyond the end stops the analysis. */
  ghost predicate InRange(s: Sets, n: nat) {
    forall j :: 0 <= j < |s.succs| && s.succs[j].Index? ==> 0 <= s.succs[j].i <= n
  }

  /** analyzeInstruction up to the comparison: the new set for an instruction. */
  method NewUses(s: Sets, used: seq<RegisterSet>) returns (r: Outcome<RegisterSet>)
    ensures r.Ok? <==> InRange(s, |used|)
    ensures r.Ok? ==> forall k :: 0 <= k < 32 ==> (r.value[k] <==> Needed(s, used, k))
  {
    var reguses := s.readSet;
    var regwrites := Difference(s.writtenSet, reguses);
    for j := 0 to |s.succs|
      invariant forall k :: 0 <= k < 32 ==>
                  (reguses[k] <==> s.readSet[k] || (!Kill(s)[k] && NeededBy(used, s.succs[..j], k)))
      invariant forall h :: 0 <= h < j && s.succs[h].Index? ==> 0 <= s.succs[h].i <= |used|
    {
      var v := s.succs[j];
      if v.Index? && (v.i > |used| || v.i < 0) { return Panic; }
      NeededMore(used, s.succs, j);
      var regsUsedBySuccessor := Difference(Exposed(used, v), regwrites);
      reguses := Union(reguses, regsUsedBySuccessor);
    }
    assert s.succs[..|s.succs|] == s.succs;
    return Ok(reguses);
  }

  lemma NeededMore(used: seq<RegisterSet>, succs: seq<Successor>, j: nat)
    requires j < |succs|
    ensures forall k :: 0 <= k < 32 ==>
              (NeededBy(used, succs[..j + 1], k) <==> NeededBy(used, succs[..j], k) || Exposed(used, succs[j])[k])
  {
    forall k | 0 <= k < 32
      ensures NeededBy(used, succs[..j + 1], k) <==> NeededBy(used, succs[..j], k) || Exposed(used, succs[j])[k]
    {
      if NeededBy(used, succs[..j], k) {
        var h :| 0 <= h < j && Exposed(used, succs[..j][h])[k];
        assert succs[..j + 1][h] == succs[h];
      }
      if Exposed(used, succs[j])[k] { assert succs[..j + 1][j] == succs[j]; }
      if NeededBy(used, succs[..j + 1], k) {
        var h :| 0 <= h < j + 1 && Exposed(used, succs[..j + 1][h])[k];
        assert h < j ==> succs[..j][h] == succs[h];
      }
    }
  }

  /** Fewer registers used by the successors, fewer needed. */
  lemma NeededMonotone(s: Sets, used: seq<RegisterSet>, used': seq<RegisterSet>, k: nat)
    requires |used| == |used'| && k < 32 && forall i :: 0 <= i < |used| ==> Within(used'[i], used[i])
    requires Needed(s, used', k)
    ensures Needed(s, used, k)
  {
    if !s.readSet[k] {
      var j :| 0 <= j < |s.succs| && Exposed(used', s.succs[j])[k];
      assert Exposed(used, s.succs[j])[k];
    }
  }

  /** Replacing one set by what is needed there keeps all sets large enough. */
  lemma UpdateKeeps(code: seq<Sets>, used: seq<RegisterSet>, i: nat, r: RegisterSet)
    requires PostFixpoint(code, used) && i < |code|
    requires forall k :: 0 <= k < 32 ==> (r[k] <==> Needed(code[i], used, k))
    ensures Within(r, used[i]) && PostFixpoint(code, used[i := r])
  {
    var used' := used[i := r];
    assert Covers(code, used, i);
    forall j | 0 <= j < |used| ensures Within(used'[j], used[j]) { }
    forall j | 0 <= j < |code| ensures Covers(code, used', j) {
      assert Covers(code, used, j);
      forall k | 0 <= k < 32 && Needed(code[j], used', k) ensures used'[j][k] {
        NeededMonotone(code[j], used, used', k);
      }
    }
  }

  lemma StartCovers(code: seq<Sets>, used: seq<RegisterSet>)
    requires SmallSets(code) && |used| == |code| && forall i :: 0 <= i < |used| ==> used[i] == AllRegs()
    ensures PostFixpoint(code, used)
  {
    forall i | 0 <= i < |code| ensures Covers(code, used, i) {
      assert Within(code[i].readSet, AllRegs());
      forall k | 0 <= k < 32 && Needed(code[i], used, k) ensures used[i][k] {
        if !code[i].readSet[k] {
          var j :| 0 <= j < |code[i].succs| && Exposed(used, code[i].succs[j])[k];
        }
      }
    }
  }

  // ----- the analysis of a function

  /** The sets made of the listed names. */
  ghost predicate Decoded(ins: Instruction, s: Sets) {
    && s.succs == ins.succs
    && SetFromList(ins.written) == Ok(s.writtenSet)
    && SetFromList(ins.read).Ok? && PartlyWritten(ins.written).Ok?
    && s.readSet == Union(SetFromList(ins.read).value, PartlyWritten(ins.written).value)
  }

  /** All names of an instruction can be looked up. */
  predicate WellNamed(ins: Instruction) {
    SetFromList(ins.read).Ok? && SetFromList(ins.written).Ok? && PartlyWritten(ins.written).Ok?
  }

  /** A register of which only a part is written is never taken for dead. */
  lemma PartNotKilled(ins: Instruction, s: Sets, i: nat)
    requires Decoded(ins, s) && i < |ins.written| && ins.written[i].Part? && ins.written[i].size < 32
    ensures ins.written[i].index < NREGS && s.readSet[ins.written[i].index] && !Kill(s)[ins.written[i].index]
  {
    assert Known(ins.written[i]);
    assert PartlyWritten(ins.written).value[ins.written[i].index];
  }

  lemma DecodedSmall(ins: Instruction, s: Sets)
    requires Decoded(ins, s)
    ensures Within(s.readSet, AllRegs())
  {
    forall k | 0 <= k < 32 && s.readSet[k] ensures k < NREGS {
      if SetFromList(ins.read).value[k] {
        var i :| 0 <= i < |ins.read| && ins.read[i].Part? && ins.read[i].index == k;
      } else {
        var i :| 0 <= i < |ins.written| && ins.written[i].Part? && ins.written[i].index == k
          && ins.written[i].size < 32;
      }
    }
  }

  /** Converts to register set representation. */
  method ToSets(fi: seq<Instruction>) returns (r: Outcome<seq<Sets>>)
    ensures r.Ok? <==> forall i :: 0 <= i < |fi| ==> WellNamed(fi[i])
    ensures r.Ok? ==> |r.value| == |fi| && forall i :: 0 <= i < |fi| ==> Decoded(fi[i], r.value[i])
  {
    hide SetFromList, PartlyWritten;
    var code: seq<Sets> := [];
    for i := 0 to |fi|
      invariant |code| == i && forall j :: 0 <= j < i ==> WellNamed(fi[j]) && Decoded(fi[j], code[j])
    {
      var read, written, partly := SetFromList(fi[i].read), SetFromList(fi[i].written), PartlyWritten(fi[i].written);
      if read.Panic? || written.Panic? || partly.Panic? {
        assert !WellNamed(fi[i]);
        return Panic;
      }
      code := code + [Sets(Union(read.value, partly.value), written.value, fi[i].succs)];
    }
    return Ok(code);
  }

  function TotalSize(used: seq<RegisterSet>): nat {
    if used == [] then 0 else TotalSize(used[..|used| - 1]) + Size(used[|used| - 1], 32)
  }

  lemma {:induction false} TotalBound(used: seq<RegisterSet>, i: nat)
    requires (forall j :: 0 <= j < |used| ==> Within(used[j], AllRegs())) && i <= |used|
    ensures TotalSize(used[..i]) <= 18 * i
  {
    if i > 0 {
      TotalBound(used, i - 1);
      assert used[..i][..i - 1] == used[..i - 1];
      SizeMonotone(used[i - 1], AllRegs(), 32);
      AllSize(32);
    }
  }

  lemma {:induction false} AllSize(n: nat)
    requires n <= 32
    ensures Size(AllRegs(), n) == if n <= 18 then n else 18
  {
    if n > 0 { AllSize(n - 1); }
  }

  /** A changed set is a smaller one, and so is the total. */
  lemma {:induction false} TotalShrinks(used: seq<RegisterSet>, i: nat, r: RegisterSet)
    requires i < |used| && Within(r, used[i]) && r != used[i]
    ensures TotalSize(used[i := r]) < TotalSize(used)
  {
    var m := |used| - 1;
    if i == m {
      assert used[i := r][..m] == used[..m];
      var k :| 0 <= k < 32 && r[k] != used[i][k];
      SizeMonotone(r, used[i], 32);
    } else {
      assert used[i := r][..m] == used[..m][i := r];
      TotalShrinks(used[..m], i, r);
    }
  }

  /** The first i sets are what is needed. */
  ghost predicate ExactUpTo(code: seq<Sets>, used: seq<RegisterSet>, i: nat) {
    && i <= |code| == |used|
    && forall j, k :: 0 <= j < i && 0 <= k < 32 ==> (Needed(code[j], used, k) <==> used[j][k])
  }

  lemma ExactOneMore(code: seq<Sets>, used: seq<RegisterSet>, i: nat, r: RegisterSet)
    requires ExactUpTo(code, used, i) && i < |code| && r == used[i]
    requires forall k :: 0 <= k < 32 ==> (r[k] <==> Needed(code[i], used, k))
    ensures ExactUpTo(code, used, i + 1)
  {
  }

  ghost predicate AllInRange(code: seq<Sets>) {
    forall i :: 0 <= i < |code| ==> InRange(code[i], |code|)
  }

  // ----- how the sets come about

  /** The set of instruction i is what is needed there. */
  ghost predicate ExactAt(code: seq<Sets>, used: seq<RegisterSet>, i: nat)
    requires i < |code| == |used|
  {
    forall k :: 0 <= k < 32 ==> (Needed(code[i], used, k) <==> used[i][k])
  }

  /** The first i instructions can be analyzed, and their sets are what is needed. */
  ghost predicate Settled(code: seq<Sets>, used: seq<RegisterSet>, i: nat) {
    && i <= |code| == |used|
    && forall j :: 0 <= j < i ==> ExactAt(code, used, j) && InRange(code[j], |code|)
  }

  /** used' is used with the first set that is not what is needed put right. */
  ghost predicate UpdateAt(code: seq<Sets>, used: seq<RegisterSet>, used': seq<RegisterSet>, i: nat) {
    && i < |code| && Settled(code, used, i) && InRange(code[i], |code|) && !ExactAt(code, used, i)
    && |used'| == |used| && used' == used[i := used'[i]]
    && forall k :: 0 <= k < 32 ==> (used'[i][k] <==> Needed(code[i], used, k))
  }

  ghost predicate Update(code: seq<Sets>, used: seq<RegisterSet>, used': seq<RegisterSet>) {
    exists i :: UpdateAt(code, used, used', i)
  }

  /** The first instruction whose set might be wrong has a successor out of range. */
  ghost predicate Stuck(code: seq<Sets>, used: seq<RegisterSet>) {
    exists i :: 0 <= i < |code| && Settled(code, used, i) && !InRange(code[i], |code|)
  }

  /** From all registers at every instruction, one update at a time. */
  ghost predicate History(code: seq<Sets>, h: seq<seq<RegisterSet>>) {
    && h != [] && |h[0]| == |code| && (forall i :: 0 <= i < |code| ==> h[0][i] == AllRegs())
    && forall t :: 0 <= t < |h| - 1 ==> Update(code, h[t], h[t + 1])
  }

  lemma HistoryMore(code: seq<Sets>, h: seq<seq<RegisterSet>>, used: seq<RegisterSet>)
    requires History(code, h) && Update(code, h[|h| - 1], used)
    ensures History(code, h + [used])
  {
    hide Update, AllRegs;
    var h' := h + [used];
    forall t | 0 <= t < |h'| - 1 ensures Update(code, h'[t], h'[t + 1]) {
      if t < |h| - 1 { assert Update(code, h[t], h[t + 1]); }
    }
  }

  lemma SettledMore(code: seq<Sets>, used: seq<RegisterSet>, i: nat, r: RegisterSet)
    requires Settled(code, used, i) && i < |code| && InRange(code[i], |code|) && r == used[i]
    requires forall k :: 0 <= k < 32 ==> (r[k] <==> Needed(code[i], used, k))
    ensures Settled(code, used, i + 1)
  {
    hide Needed, InRange;
  }

  lemma MakeUpdate(code: seq<Sets>, used: seq<RegisterSet>, i: nat, r: RegisterSet)
    requires Settled(code, used, i) && i < |code| && InRange(code[i], |code|) && r != used[i]
    requires forall k :: 0 <= k < 32 ==> (r[k] <==> Needed(code[i], used, k))
    ensures Update(code, used, used[i := r])
  {
    hide Needed, InRange;
    var used' := used[i := r];
    assert used' == used[i := used'[i]];
    var k :| 0 <= k < 32 && r[k] != used[i][k];
    assert !ExactAt(code, used, i);
    assert UpdateAt(code, used, used', i);
  }

  /** What a fixpoint needs is never taken out. */
  lemma {:induction false} FixpointStays(code: seq<Sets>, h: seq<seq<RegisterSet>>, x: seq<RegisterSet>)
    requires History(code, h) && Fixpoint(code, x) && SmallSets(code)
    requires forall i :: 0 <= i < |code| ==> Within(x[i], AllRegs())
    ensures |h[|h| - 1]| == |code| && forall i :: 0 <= i < |code| ==> Within(x[i], h[|h| - 1][i])
    decreases |h|
  {
    var used := h[|h| - 1];
    if |h| > 1 {
      var front := h[..|h| - 1];
      HistoryFront(code, h);
      FixpointStays(code, front, x);
      OneStays(code, h[|h| - 2], used, x);
    }
  }

  lemma HistoryFront(code: seq<Sets>, h: seq<seq<RegisterSet>>)
    requires History(code, h) && |h| > 1
    ensures History(code, h[..|h| - 1]) && Update(code, h[|h| - 2], h[|h| - 1])
  {
    hide Update, AllRegs;
    var front := h[..|h| - 1];
    forall t | 0 <= t < |front| - 1 ensures Update(code, front[t], front[t + 1]) {
      assert Update(code, h[t], h[t + 1]);
    }
    assert Update(code, h[|h| - 2], h[|h| - 2 + 1]);
  }

  lemma OneStays(code: seq<Sets>, used: seq<RegisterSet>, used': seq<RegisterSet>, x: seq<RegisterSet>)
    requires Update(code, used, used') && Fixpoint(code, x) && |used| == |code|
    requires forall i :: 0 <= i < |code| ==> Within(x[i], used[i])
    ensures |used'| == |code| && forall i :: 0 <= i < |code| ==> Within(x[i], used'[i])
  {
    var i: nat :| UpdateAt(code, used, used', i);
    forall k | 0 <= k < 32 && x[i][k] ensures used'[i][k] {
      assert Needed(code[i], x, k);
      NeededMonotone(code[i], used, x, k);
    }
    hide Needed, InRange, ExactAt;
    assert forall j :: 0 <= j < |used| && j != i ==> used'[j] == used[j];
  }

  /** If nothing is left to be put right, the sets are the largest fixpoint. */
  lemma LargestFixpoint(code: seq<Sets>, h: seq<seq<RegisterSet>>, x: seq<RegisterSet>)
    requires History(code, h) && Settled(code, h[|h| - 1], |code|) && Fixpoint(code, x) && SmallSets(code)
    requires forall i :: 0 <= i < |code| ==> Within(x[i], AllRegs())
    ensures Fixpoint(code, h[|h| - 1]) && forall i :: 0 <= i < |code| ==> Within(x[i], h[|h| - 1][i])
  {
    hide Needed, InRange;
    FixpointStays(code, h, x);
    var used := h[|h| - 1];
    forall i, k | 0 <= i < |code| && 0 <= k < 32 ensures Needed(code[i], used, k) <==> used[i][k] {
      assert ExactAt(code, used, i);
    }
  }

  /** One pass. After the first set that changes the rest is not looked at, because the
      or that collects the changes does not evaluate its second operand. */
  method Pass(code: seq<Sets>, used: array<RegisterSet>) returns (ok: bool, change: bool)
    requires PostFixpoint(code, used[..])
    modifies used
    ensures AllInRange(code) ==> ok
    ensures |used[..]| == |code| && PostFixpoint(code, used[..])
    ensures ok && change ==> TotalSize(used[..]) < TotalSize(old(used[..]))
    ensures ok && !change ==> Fixpoint(code, used[..])
    ensures !change ==> used[..] == old(used[..])
    ensures ok && change ==> Update(code, old(used[..]), used[..])
    ensures ok && !change ==> Settled(code, used[..], |code|)
    ensures !ok ==> !change && Stuck(code, used[..])
  {
    hide PostFixpoint, Needed, InRange, TotalSize, AllInRange, ExactUpTo, ExactAt, Settled, Update;
    NothingSettled(code, used[..]);
    CodeSize(code, used[..]);
    ghost var u := used[..];
    ok, change := true, false;
    for i := 0 to |code|
      invariant |used[..]| == |code| && PostFixpoint(code, used[..]) && ok
      invariant change ==> TotalSize(used[..]) < TotalSize(u)
      invariant !change ==> used[..] == u && ExactUpTo(code, used[..], i) && Settled(code, u, i)
      invariant change ==> Update(code, u, used[..])
    {
      if !change {
        AnyInRange(code, i);
        var r := NewUses(code[i], used[..]);
        if r.Panic? {
          MakeStuck(code, used[..], i);
          return false, false;
        }
        UpdateKeeps(code, used[..], i, r.value);
        if r.value != used[i] {
          TotalShrinks(used[..], i, r.value);
          MakeUpdate(code, used[..], i, r.value);
          used[i] := r.value;
          assert used[..] == u[i := r.value];
          change := true;
        } else {
          ExactOneMore(code, used[..], i, r.value);
          SettledMore(code, used[..], i, r.value);
        }
      }
    }
    AllExact(code, used[..]);
  }

  lemma NothingSettled(code: seq<Sets>, used: seq<RegisterSet>)
    requires PostFixpoint(code, used)
    ensures Settled(code, used, 0)
  {
  }

  lemma MakeStuck(code: seq<Sets>, used: seq<RegisterSet>, i: nat)
    requires i < |code| && Settled(code, used, i) && !InRange(code[i], |code|)
    ensures Stuck(code, used)
  {
    hide Settled, InRange;
  }

  lemma CodeSize(code: seq<Sets>, used: seq<RegisterSet>)
    requires PostFixpoint(code, used)
    ensures |code| == |used| && ExactUpTo(code, used, 0)
  {
  }

  lemma AnyInRange(code: seq<Sets>, i: nat)
    requires i < |code|
    ensures AllInRange(code) ==> InRange(code[i], |code|)
  {
  }

  lemma AllExact(code: seq<Sets>, used: seq<RegisterSet>)
    ensures ExactUpTo(code, used, |code|) ==> Fixpoint(code, used)
  {
  }

  /** regSetToRegList of the complement: the free registers, without rip and rsp. */
  function FreeList(used: RegisterSet, n: nat): (r: seq<nat>)
    requires n <= NREGS
    ensures forall k: nat :: k in r <==> k < n && !used[k] && k != RIP && k != RSP
    ensures Ascending(r)
  {
    if n == 0 then []
    else
      var front := FreeList(used, n - 1);
      if !used[n - 1] && n - 1 != RIP && n - 1 != RSP then
        assert forall p :: 0 <= p < |front| ==> front[p] in front;
        front + [n - 1]
      else front
  }

  ghost predicate Ascending(r: seq<nat>) { forall p, q :: 0 <= p < q < |r| ==> r[p] < r[q] }

  const MAX_ITERATIONS := 8192

  /** The passes, until nothing changes or the limit is reached. */
  method Iterate(code: seq<Sets>, used: array<RegisterSet>) returns (ok: bool, ghost h: seq<seq<RegisterSet>>)
    requires PostFixpoint(code, used[..]) && TotalSize(used[..]) <= 18 * |code|
    requires forall i :: 0 <= i < used.Length ==> used[..][i] == AllRegs()
    modifies used
    ensures PostFixpoint(code, used[..]) && (AllInRange(code) ==> ok)
    ensures ok && 18 * |code| < MAX_ITERATIONS ==> Fixpoint(code, used[..])
    ensures History(code, h) && h[|h| - 1] == used[..] && |h| <= 8193
    ensures ok ==> |h| == 8193 || Settled(code, used[..], |code|)
    ensures !ok ==> |h| <= 8192 && Stuck(code, used[..])
  {
    hide PostFixpoint, Fixpoint, TotalSize, AllInRange, Settled, Update, Stuck;
    CodeSize(code, used[..]);
    ok, h := true, [used[..]];
    var change, i := true, 0;
    while i < MAX_ITERATIONS && change
      invariant i <= MAX_ITERATIONS && PostFixpoint(code, used[..]) && ok
      invariant change ==> TotalSize(used[..]) + i <= 18 * |code|
      invariant !change ==> Fixpoint(code, used[..]) && Settled(code, used[..], |code|)
      invariant History(code, h) && h[|h| - 1] == used[..] && |h| == if change then i + 1 else i
    {
      ok, change := Pass(code, used);
      if !ok { return; }
      if change {
        HistoryMore(code, h, used[..]);
        h := h + [used[..]];
      }
      i := i + 1;
    }
  }

  /** The free registers at every instruction. */
  method ListFree(used: seq<RegisterSet>) returns (free: seq<seq<nat>>)
    ensures |free| == |used| && forall i :: 0 <= i < |used| ==> free[i] == FreeList(used[i], NREGS)
  {
    free := [];
    for j := 0 to |used|
      invariant |free| == j && forall k :: 0 <= k < j ==> free[k] == FreeList(used[k], NREGS)
    {
      free := free + [FreeList(used[j], NREGS)];
    }
  }

  /** The sets for the instructions of a function, in set form. */
  method FindSets(code: seq<Sets>) returns (ok: bool, usedRegs: array<RegisterSet>, ghost h: seq<seq<RegisterSet>>)
    requires SmallSets(code)
    ensures fresh(usedRegs) && usedRegs.Length == |code|
    ensures PostFixpoint(code, usedRegs[..]) && (AllInRange(code) ==> ok)
    ensures ok && 18 * |code| < MAX_ITERATIONS ==> Fixpoint(code, usedRegs[..])
    ensures History(code, h) && h[|h| - 1] == usedRegs[..] && |h| <= 8193
    ensures ok ==> |h| == 8193 || Settled(code, usedRegs[..], |code|)
    ensures !ok ==> |h| <= 8192 && Stuck(code, usedRegs[..])
  {
    hide *;
    usedRegs := StartSets(|code|);
    StartCovers(code, usedRegs[..]);
    StartTotal(usedRegs[..]);
    ok, h := Iterate(code, usedRegs);
    CodeSize(code, usedRegs[..]);
  }

  /** analyzeFunction. Even if the limit on the passes ends the iteration, the sets are
      large enough; for a function of up to 455 instructions it always ends at a fixpoint. The
      sets are those after the updates of h, as many as there are to make or the limit allows. */
  method AnalyzeFunction(fi: seq<Instruction>)
    returns (r: Outcome<seq<seq<nat>>>, ghost code: seq<Sets>, ghost used: seq<RegisterSet>,
      ghost h: seq<seq<RegisterSet>>)
    ensures (exists i :: 0 <= i < |fi| && !WellNamed(fi[i])) ==> r.Panic?
    ensures r.Panic? ==> (exists i :: 0 <= i < |fi| && !WellNamed(fi[i])) || !AllInRange(code)
    ensures r.Ok? ==> |code| == |fi| && (forall i :: 0 <= i < |fi| ==> Decoded(fi[i], code[i]))
    ensures r.Ok? ==> PostFixpoint(code, used) && |used| == |r.value| == |fi|
                      && forall i :: 0 <= i < |fi| ==> r.value[i] == FreeList(used[i], NREGS)
    ensures r.Ok? && 18 * |fi| < MAX_ITERATIONS ==> Fixpoint(code, used)
    ensures r.Ok? ==> History(code, h) && used == h[|h| - 1] && |h| <= 8193
                      && (|h| == 8193 || Settled(code, used, |code|))
    ensures r.Panic? && (forall i :: 0 <= i < |fi| ==> WellNamed(fi[i])) ==>
              History(code, h) && |h| <= 8192 && Stuck(code, h[|h| - 1])
  {
    hide *;
    code, used, h := [], [], [];
    var converted := ToSets(fi);
    if converted.Panic? { return Panic, code, used, h; }
    var sets := converted.value;
    code := sets;
    AllSmall(fi, sets);
    var ok, usedRegs, updates := FindSets(sets);
    h, used := updates, usedRegs[..];
    if !ok { return Panic, code, used, h; }
    var free := ListFree(usedRegs[..]);
    return Ok(free), code, used, h;
  }

  lemma AllSmall(fi: seq<Instruction>, code: seq<Sets>)
    requires |code| == |fi| && forall i :: 0 <= i < |fi| ==> Decoded(fi[i], code[i])
    ensures SmallSets(code)
  {
    hide Decoded, Within;
    forall i | 0 <= i < |code| ensures Within(code[i].readSet, AllRegs()) { DecodedSmall(fi[i], code[i]); }
  }

  method StartSets(n: nat) returns (used: array<RegisterSet>)
    ensures fresh(used) && used.Length == n && forall i :: 0 <= i < n ==> used[..][i] == AllRegs()
  {
    used := new RegisterSet[n](_ => AllRegs());
  }

  lemma StartTotal(used: seq<RegisterSet>)
    requires forall i :: 0 <= i < |used| ==> used[i] == AllRegs()
    ensures TotalSize(used) <= 18 * |used|
  {
    TotalBound(used, |used|);
    assert used[..|used|] == used;
  }

  // ----- what the sets are good for

  /** Where an instruction leaves the machine: at another instruction of the function,
      or outside it. M stands for memory and everything else. */
  datatype State<M> = State(next: Successor, regs: seq<int>, mem: M)

  ghost predicate Agree(a: seq<int>, b: seq<int>, on: RegisterSet) {
    |a| == |b| == NREGS && forall k :: 0 <= k < NREGS && on[k] ==> a[k] == b[k]
  }

  /** What an instruction may depend on: the registers it reads, and if it calls, those
      that calls use. */
  function DependsOn(s: Sets): (r: RegisterSet)
    ensures forall k :: 0 <= k < 32 ==> (r[k] <==> s.readSet[k] || (Call in s.succs && UsedByCall()[k] && !Kill(s)[k]))
  {
    if Call in s.succs then Union(s.readSet, Difference(UsedByCall(), Kill(s))) else s.readSet
  }

  /** Two executions of an instruction from states that agree on what it depends on go
      the same way and leave the same memory; a register either gets the same value in
      both, or is left alone, which a written one is not. */
  ghost predicate SameEffect<M>(s: Sets, r1: seq<int>, o1: State<M>, r2: seq<int>, o2: State<M>) {
    && o1.next == o2.next && o1.mem == o2.mem && |o1.regs| == |o2.regs| == NREGS
    && forall k :: 0 <= k < NREGS ==> SameRegister(s, r1, o1.regs, r2, o2.regs, k)
  }

  ghost predicate SameRegister(s: Sets, r1: seq<int>, q1: seq<int>, r2: seq<int>, q2: seq<int>, k: nat)
    requires k < NREGS && |q1| == |q2| == NREGS
  {
    q1[k] == q2[k] || (!Kill(s)[k] && |r1| == |r2| == NREGS && q1[k] == r1[k] && q2[k] == r2[k])
  }

  /** The step function of a machine that runs the described code. */
  ghost predicate Runs<M(!new)>(step: (nat, seq<int>, M) -> State<M>, code: seq<Sets>) {
    forall i: nat, r1, r2, m :: i < |code| ==> RunsAt(step, code[i], i, r1, r2, m)
  }

  ghost predicate RunsAt<M(!new)>(step: (nat, seq<int>, M) -> State<M>, s: Sets, i: nat, r1: seq<int>, r2: seq<int>,
                                  m: M) {
    Agree(r1, r2, DependsOn(s)) ==>
      && SameEffect(s, r1, step(i, r1, m), r2, step(i, r2, m))
      && step(i, r1, m).next in s.succs && step(i, r1, m).next != Call
  }

  /** The instruction can go on to something other than a call. A call is always listed with
      the place behind it, or with one that is not known. */
  predicate GoesOn(s: Sets) {
    exists j :: 0 <= j < |s.succs| && s.succs[j] != Call
  }

  function Onward(succs: seq<Successor>): (r: Successor)
    ensures (exists j :: 0 <= j < |succs| && succs[j] != Call) ==> r in succs && r != Call
  {
    if succs == [] then Ret else if succs[0] != Call then succs[0] else Onward(succs[1..])
  }

  /** The registers with those of the set cleared. */
  function Cleared(r: seq<int>, rs: RegisterSet): (q: seq<int>)
    ensures |q| == NREGS
  {
    seq(NREGS, k requires 0 <= k < NREGS => if |r| == NREGS && !rs[k] then r[k] else 0)
  }

  /** There is a machine that runs the code if and only if every instruction can go on. */
  lemma Runnable(code: seq<Sets>)
    ensures (exists step: (nat, seq<int>, int) -> State<int> :: Runs(step, code))
            <==> forall i :: 0 <= i < |code| ==> GoesOn(code[i])
  {
    if forall i :: 0 <= i < |code| ==> GoesOn(code[i]) {
      var step: (nat, seq<int>, int) -> State<int> := (i: nat, r: seq<int>, m: int) =>
        if i < |code| then State(Onward(code[i].succs), Cleared(r, Kill(code[i])), m) else State(Ret, r, m);
      forall i: nat, r1, r2, m | i < |code| ensures RunsAt(step, code[i], i, r1, r2, m) {
        assert GoesOn(code[i]);
      }
      assert Runs(step, code);
    }
    forall step: (nat, seq<int>, int) -> State<int>, i | Runs(step, code) && 0 <= i < |code| ensures GoesOn(code[i]) {
      var r := seq(NREGS, _ => 0);
      assert RunsAt(step, code[i], i, r, r, 0);
      assert step(i, r, 0).next in code[i].succs;
    }
  }

  /** Same place, same memory, and the same values in all registers still in use. */
  ghost predicate Similar<M(!new)>(used: seq<RegisterSet>, a: State<M>, b: State<M>) {
    a.next == b.next && a.mem == b.mem && Agree(a.regs, b.regs, Exposed(used, a.next))
  }

  /** One step of the machine; outside the function it stays where it is. */
  ghost function Step<M>(step: (nat, seq<int>, M) -> State<M>, n: nat, a: State<M>): State<M> {
    if a.next.Index? && 0 <= a.next.i < n then step(a.next.i, a.regs, a.mem) else a
  }

  lemma StepSimilar<M(!new)>(step: (nat, seq<int>, M) -> State<M>, code: seq<Sets>, used: seq<RegisterSet>,
                             a: State<M>, b: State<M>)
    requires Runs(step, code) && PostFixpoint(code, used) && Similar(used, a, b)
    ensures Similar(used, Step(step, |code|, a), Step(step, |code|, b))
  {
    if a.next.Index? && 0 <= a.next.i < |code| {
      var i := a.next.i;
      var s := code[i];
      assert Covers(code, used, i);
      assert RunsAt(step, s, i, a.regs, b.regs, a.mem);
      DependenceUsed(code, used, i, a.regs, b.regs);
      var o1, o2 := step(i, a.regs, a.mem), step(i, b.regs, a.mem);
      var j :| 0 <= j < |s.succs| && s.succs[j] == o1.next;
      forall k | 0 <= k < NREGS && Exposed(used, o1.next)[k] ensures o1.regs[k] == o2.regs[k] {
        assert SameRegister(s, a.regs, o1.regs, b.regs, o2.regs, k);
        assert NeededBy(used, s.succs, k);
        assert !Kill(s)[k] ==> Needed(s, used, k);
      }
    }
  }

  lemma DependenceUsed(code: seq<Sets>, used: seq<RegisterSet>, i: nat, r1: seq<int>, r2: seq<int>)
    requires i < |code| == |used| && Covers(code, used, i) && Agree(r1, r2, used[i])
    ensures Agree(r1, r2, DependsOn(code[i]))
  {
    var s := code[i];
    forall k | 0 <= k < NREGS && DependsOn(s)[k] ensures used[i][k] {
      if !s.readSet[k] {
        var j :| 0 <= j < |s.succs| && s.succs[j] == Call;
        assert Exposed(used, s.succs[j])[k];
        assert NeededBy(used, s.succs, k);
      }
      assert Needed(s, used, k);
    }
  }

  /** b is a with some of the registers reported free for its instruction overwritten. */
  ghost predicate Overwritten<M(!new)>(used: seq<RegisterSet>, a: State<M>, b: State<M>) {
    && a.next == b.next && a.mem == b.mem && |a.regs| == |b.regs| == NREGS
    && forall k :: 0 <= k < NREGS && a.regs[k] != b.regs[k] ==>
         a.next.Index? && 0 <= a.next.i < |used| && k in FreeList(used[a.next.i], NREGS)
  }

  lemma OverwrittenSimilar<M(!new)>(used: seq<RegisterSet>, a: State<M>, b: State<M>)
    requires Overwritten(used, a, b)
    ensures Similar(used, a, b)
  {
  }

  lemma SimilarTransitive<M(!new)>(used: seq<RegisterSet>, a: State<M>, b: State<M>, c: State<M>)
    requires Similar(used, a, b) && Similar(used, b, c)
    ensures Similar(used, a, c)
  {
  }

  /** A run of the machine. */
  ghost predicate IsRun<M(!new)>(step: (nat, seq<int>, M) -> State<M>, n: nat, run: seq<State<M>>) {
    forall t :: 0 < t < |run| ==> NextState(step, n, run, t)
  }

  ghost predicate NextState<M(!new)>(step: (nat, seq<int>, M) -> State<M>, n: nat, run: seq<State<M>>, t: nat)
    requires 0 < t < |run|
  {
    run[t] == Step(step, n, run[t - 1])
  }

  /** A run in which before every step free registers may be overwritten: after[t] is
      before[t] with such changes. */
  ghost predicate IsDisturbedRun<M(!new)>(step: (nat, seq<int>, M) -> State<M>, n: nat, used: seq<RegisterSet>,
                                          before: seq<State<M>>, after: seq<State<M>>) {
    && |before| == |after|
    && (forall t :: 0 <= t < |before| ==> Overwritten(used, before[t], after[t]))
    && (forall t :: 0 < t < |before| ==> Disturbed(step, n, before, after, t))
  }

  ghost predicate Disturbed<M(!new)>(step: (nat, seq<int>, M) -> State<M>, n: nat, before: seq<State<M>>,
                                     after: seq<State<M>>, t: nat)
    requires 0 < t < |before| == |after|
  {
    before[t] == Step(step, n, after[t - 1])
  }

  /** Soundness: however the registers reported free are overwritten before every
      instruction, the run takes the same path through the same memory, and at every
      exit the exposed registers hold the values they would hold anyway. */
  lemma {:induction false} FreeRegistersAreFree<M(!new)>(step: (nat, seq<int>, M) -> State<M>, code: seq<Sets>,
                                                         used: seq<RegisterSet>, run: seq<State<M>>,
                                                         before: seq<State<M>>, after: seq<State<M>>, t: nat)
    requires Runs(step, code) && PostFixpoint(code, used)
    requires IsRun(step, |code|, run) && IsDisturbedRun(step, |code|, used, before, after)
    requires |run| == |before| && run != [] && run[0] == before[0] && t < |run|
    ensures Similar(used, run[t], after[t])
    decreases t
  {
    assert Overwritten(used, before[t], after[t]);
    OverwrittenSimilar(used, before[t], after[t]);
    if t > 0 {
      FreeRegistersAreFree(step, code, used, run, before, after, t - 1);
      assert NextState(step, |code|, run, t);
      assert Disturbed(step, |code|, before, after, t);
      StepSimilar(step, code, used, run[t - 1], after[t - 1]);
      SimilarTransitive(used, run[t], before[t], after[t]);
    }
  }
}
