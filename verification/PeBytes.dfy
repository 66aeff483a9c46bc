/** Little-endian fields in a byte string, and the edits `copy_from_slice` makes. */
module PeBytes {
  import opened Wrappers

  type byte = b: int | 0 <= b < 0x100
  type u16 = n: int | 0 <= n < 0x1_0000
  type u32 = n: int | 0 <= n < 0x1_0000_0000

  const TAG := 0x8000_0000

  function U16(b: seq<byte>, at: nat): u16
    requires at + 2 <= |b|
  {
    b[at] as int + 0x100 * (b[at + 1] as int)
  }

  function U32(b: seq<byte>, at: nat): u32
    requires at + 4 <= |b|
  {
    b[at] as int + 0x100 * (b[at + 1] as int) + 0x1_0000 * (b[at + 2] as int) + 0x100_0000 * (b[at + 3] as int)
  }

  function U16At(b: seq<byte>, at: nat): Result<u16> {
    if at + 2 <= |b| then Ok(U16(b, at)) else Err("PE: truncated header")
  }

  function U32At(b: seq<byte>, at: nat): Result<u32> {
    if at + 4 <= |b| then Ok(U32(b, at)) else Err("PE: truncated header")
  }

  /** The low 16 bits of `v`, low byte first (`(v as u16).to_le_bytes()`). */
  function Le16(v: nat): (r: seq<byte>)
    ensures |r| == 2
  {
    [v % 0x100, v / 0x100 % 0x100]
  }

  /** The low 32 bits of `v`, low byte first. */
  function Le32(v: nat): (r: seq<byte>)
    ensures |r| == 4
  {
    [v % 0x100, v / 0x100 % 0x100, v / 0x1_0000 % 0x100, v / 0x100_0000 % 0x100]
  }

  /** `b` with `x` written over it at `at`. */
  function Patch(b: seq<byte>, at: nat, x: seq<byte>): (r: seq<byte>)
    requires at + |x| <= |b|
    ensures |r| == |b|
  {
    b[..at] + x + b[at + |x|..]
  }

  /** What was written is read back, and everything else stays. */
  lemma PatchReads(b: seq<byte>, at: nat, x: seq<byte>)
    requires at + |x| <= |b|
    ensures forall k :: 0 <= k < |b| ==> Patch(b, at, x)[k] == if at <= k < at + |x| then x[k - at] else b[k]
    ensures Patch(b, at, x)[at..at + |x|] == x
  {
  }

  lemma Le16Reads(b: seq<byte>, at: nat, v: u16)
    requires at + 2 <= |b| && b[at..at + 2] == Le16(v)
    ensures U16(b, at) == v
  {
    assert b[at] == b[at..at + 2][0] && b[at + 1] == b[at..at + 2][1];
  }

  lemma Le32Splits(v: u32)
    ensures v % 0x100 + 0x100 * (v / 0x100 % 0x100) + 0x1_0000 * (v / 0x1_0000 % 0x100)
          + 0x100_0000 * (v / 0x100_0000 % 0x100) == v
  {
    assert v / 0x1_0000 == v / 0x100 / 0x100;
    assert v / 0x100_0000 == v / 0x1_0000 / 0x100;
  }

  lemma Le32Reads(b: seq<byte>, at: nat, v: u32)
    requires at + 4 <= |b| && b[at..at + 4] == Le32(v)
    ensures U32(b, at) == v
  {
    Le32Splits(v);
    var field := b[at..at + 4];
    assert field[0] == b[at] && field[1] == b[at + 1] && field[2] == b[at + 2] && field[3] == b[at + 3];
  }

  /** A field reads the same in two byte strings that agree on its bytes. */
  predicate AgreeOn(b: seq<byte>, c: seq<byte>, lo: nat, hi: nat) {
    hi <= |b| && hi <= |c| && forall k :: lo <= k < hi ==> b[k] == c[k]
  }

  lemma FieldsAgree(b: seq<byte>, c: seq<byte>, at: nat)
    ensures AgreeOn(b, c, at, at + 2) ==> U16(b, at) == U16(c, at)
    ensures AgreeOn(b, c, at, at + 4) ==> U32(b, at) == U32(c, at)
  {
  }

  lemma MultipleOf(k: nat, a: nat)
    requires a > 0
    ensures (k * a) % a == 0
  {
    var x := k * a;
    var d := x / a - k;
    assert x == a * (x / a) + x % a && a * (x / a) - k * a == a * d;
    assert a * -d == -(a * d);
    SmallMultiple(a, -d);
  }

  lemma SmallMultiple(a: int, d: int)
    requires a > 0 && 0 <= a * d < a
    ensures d == 0
  {
  }

  /** The least multiple of `a` from `v` up. */
  function AlignUp(v: nat, a: nat): (r: nat)
    ensures v <= r && (a > 0 ==> r < v + a)
  {
    if a == 0 then v
    else
      assert v + a - 1 == (v + a - 1) / a * a + (v + a - 1) % a;
      (v + a - 1) / a * a
  }

  /** The least multiple from `v` on; `v` itself when there is no alignment. */
  lemma AlignUpIsLeast(v: nat, a: nat)
    ensures a == 0 ==> AlignUp(v, a) == v
    ensures a > 0 ==> AlignUp(v, a) % a == 0 && v <= AlignUp(v, a) < v + a
  {
    if a > 0 {
      MultipleOf((v + a - 1) / a, a);
    }
  }

  /** `align_up(v, 8)`. */
  function Align8(v: nat): nat {
    (v + 7) / 8 * 8
  }
  lemma Align8IsLeast(v: nat)
    ensures Align8(v) % 8 == 0 && v <= Align8(v) < v + 8
    ensures Align8(v) == AlignUp(v, 8)
  {
  }
}
