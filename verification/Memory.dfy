/** Memory as bytes, and words of eight of them. */
module Memory {

  const TWO64 := 0x1_0000_0000_0000_0000

  /** v shifted right by d bytes. */
  function Shifted(v: int, d: nat): int {
    if d == 0 then v else Shifted(v, d - 1) / 256
  }

  function Store(m: int -> int, a: int, v: int): int -> int {
    (x: int) => if a <= x < a + 8 then Shifted(v, x - a) % 256 else m(x)
  }

  /** The number in n bytes, the lowest first. */
  function LoadBytes(m: int -> int, a: int, n: nat): int
    decreases n
  {
    if n == 0 then 0 else m(a) + 256 * LoadBytes(m, a + 1, n - 1)
  }

  function Load(m: int -> int, a: int): int {
    LoadBytes(m, a, 8)
  }

  lemma ShiftedOut(v: int)
    requires 0 <= v < TWO64
    ensures Shifted(v, 8) == 0
  {
    assert 0 <= Shifted(v, 1) == v / 256 < 0x100_0000_0000_0000;
    assert 0 <= Shifted(v, 2) == Shifted(v, 1) / 256 < 0x1_0000_0000_0000;
    assert 0 <= Shifted(v, 3) == Shifted(v, 2) / 256 < 0x100_0000_0000;
    assert 0 <= Shifted(v, 4) == Shifted(v, 3) / 256 < 0x1_0000_0000;
    assert 0 <= Shifted(v, 5) == Shifted(v, 4) / 256 < 0x100_0000;
    assert 0 <= Shifted(v, 6) == Shifted(v, 5) / 256 < 0x1_0000;
    assert 0 <= Shifted(v, 7) == Shifted(v, 6) / 256 < 0x100;
  }

  lemma {:induction false} LoadFrom(m: int -> int, a: int, v: int, d: nat)
    requires 0 <= v < TWO64 && d <= 8
    ensures LoadBytes(Store(m, a, v), a + d, 8 - d) == Shifted(v, d)
    decreases 8 - d
  {
    if d == 8 {
      ShiftedOut(v);
    } else {
      LoadFrom(m, a, v, d + 1);
      assert Shifted(v, d + 1) == Shifted(v, d) / 256;
    }
  }

  lemma LoadStored(m: int -> int, a: int, v: int)
    requires 0 <= v < TWO64
    ensures Load(Store(m, a, v), a) == v
  {
    LoadFrom(m, a, v, 0);
  }

  lemma {:induction false} LoadApart(m: int -> int, a: int, v: int, b: int, n: nat)
    requires b + n <= a || a + 8 <= b
    ensures LoadBytes(Store(m, a, v), b, n) == LoadBytes(m, b, n)
    decreases n
  {
    hide Shifted;
    if n > 0 { LoadApart(m, a, v, b + 1, n - 1); }
  }

  lemma LoadOther(m: int -> int, a: int, v: int, b: int)
    requires b + 8 <= a || a + 8 <= b
    ensures Load(Store(m, a, v), b) == Load(m, b)
  {
    LoadApart(m, a, v, b, 8);
  }
}
