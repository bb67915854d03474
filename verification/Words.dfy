/** 32-bit words, value units and the option type shared by every module. */
module Words {

  const WORD_RANGE := 0x1_0000_0000

  type u32 = x: int | 0 <= x < 0x1_0000_0000

  type byte = x: int | 0 <= x < 256

  /** Bytes in one value unit, `kMaxChunkValueBytes`. */
  const UNIT_BYTES: nat := 4288

  datatype Option<+T> = None | Some(value: T)

  /** `a + b` as the source computes it on `uint32_t`, wrapping. */
  function AddWord(a: u32, b: u32): u32 {
    if a + b < WORD_RANGE then a + b else a + b - WORD_RANGE
  }

  /** `++x` on `uint32_t`. */
  function Next(x: u32): (r: u32)
    ensures r != x
  {
    if x == 0xFFFF_FFFF then 0 else x + 1
  }

  /** Conversion to `uint32_t`. */
  function Word(x: nat): u32 {
    if x < WORD_RANGE then x else x % WORD_RANGE
  }

  function Min(a: int, b: int): int {
    if a <= b then a else b
  }

  /** `chunk_count_for`, in the overflow-free form the protocol header uses. */
  function ChunkCount(unit: nat, bytes: nat): nat
    requires unit > 0
  {
    if bytes == 0 then 0 else 1 + (bytes - 1) / unit
  }

  lemma MulMono(a: int, b: int, c: int)
    requires a <= b && 0 <= c
    ensures a * c <= b * c
  {
  }

  lemma DivBounds(x: nat, lo: nat, n: nat, unit: nat)
    requires unit > 0 && lo * unit <= x < lo * unit + n * unit
    ensures lo <= x / unit < lo + n
  {
    var q := x / unit;
    assert q * unit + x % unit == x;
    if q < lo { MulMono(q + 1, lo, unit); }
    if q >= lo + n { MulMono(lo + n, q, unit); }
  }

  lemma ChunkCountBounds(unit: nat, bytes: nat)
    requires unit > 0
    ensures ChunkCount(unit, bytes) <= bytes
  {
    if bytes > 0 {
      var q := (bytes - 1) / unit;
      assert q * unit + (bytes - 1) % unit == bytes - 1;
      MulMono(1, unit, q);
    }
  }

  /** `ChunkCount` is the ceiling of the quotient. */
  lemma ChunkCountIsCeiling(unit: nat, bytes: nat)
    requires unit > 0
    ensures ChunkCount(unit, bytes) * unit >= bytes
    ensures bytes > 0 ==> ChunkCount(unit, bytes) > 0 && (ChunkCount(unit, bytes) - 1) * unit < bytes
  {
    if bytes > 0 {
      var q := (bytes - 1) / unit;
      assert q * unit + (bytes - 1) % unit == bytes - 1;
      assert (q + 1) * unit == q * unit + unit;
    }
  }

  /** Where item `n` of a run of `size`-byte items starts. */
  function Offset(size: nat, n: nat): nat {
    if n == 0 then 0 else Offset(size, n - 1) + size
  }

  lemma {:induction false} OffsetIsProduct(size: nat, n: nat)
    ensures Offset(size, n) == n * size
  {
    if n > 0 {
      OffsetIsProduct(size, n - 1);
      assert n * size == (n - 1) * size + size;
    }
  }

  lemma {:induction false} OffsetAdd(size: nat, a: nat, b: nat)
    ensures Offset(size, a + b) == Offset(size, a) + Offset(size, b)
  {
    if b > 0 { OffsetAdd(size, a, b - 1); }
  }

  lemma OffsetMono(size: nat, a: nat, b: nat)
    requires a <= b
    ensures Offset(size, a) <= Offset(size, b)
  {
    OffsetAdd(size, a, b - a);
  }

  /** The first `n` naturals. */
  function Range(n: nat): (r: set<nat>)
    ensures forall i: nat :: i in r <==> i < n
  {
    if n == 0 then {} else Range(n - 1) + {n - 1}
  }

  lemma {:induction false} RangeSize(n: nat)
    ensures |Range(n)| == n
  {
    if n > 0 { RangeSize(n - 1); }
  }
}
