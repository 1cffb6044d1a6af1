/** lib/kernel/bitmap.c: a byte array read bit by bit.  The specification works on the
    sequence of bits; the class works on bytes, and is proved to refine it. */
module Bitmap {
  import opened Basics

  /** `cnt` consecutive free bits starting at `i`, all inside the bitmap. */
  ghost predicate FreeRun(b: seq<bool>, i: int, cnt: nat) {
    0 <= i && i + cnt <= |b| && forall k :: i <= k < i + cnt ==> !b[k]
  }

  ghost predicate Full(b: seq<bool>) {
    forall k :: 0 <= k < |b| ==> b[k]
  }

  /** First fit at or after `i`. */
  ghost function FitFrom(b: seq<bool>, cnt: nat, i: nat): Option<nat>
    decreases |b| - i
  {
    if i + cnt > |b| then None
    else if FreeRun(b, i, cnt) then Some(i)
    else if i < |b| then FitFrom(b, cnt, i + 1)
    else None
  }

  ghost function FirstFit(b: seq<bool>, cnt: nat): Option<nat> {
    FitFrom(b, cnt, 0)
  }

  /** First fit is the least run of the wanted length, and None exactly when there is none. */
  lemma {:induction false} FitFromExact(b: seq<bool>, cnt: nat, i: nat)
    requires i <= |b|
    ensures match FitFrom(b, cnt, i)
            case Some(r) => i <= r && FreeRun(b, r, cnt) && forall j :: i <= j < r ==> !FreeRun(b, j, cnt)
            case None => forall j :: i <= j ==> !FreeRun(b, j, cnt)
    decreases |b| - i
  {
    if i + cnt <= |b| && !FreeRun(b, i, cnt) && i < |b| {
      FitFromExact(b, cnt, i + 1);
    }
  }

  /** The defining property again, in the direction the allocators use. */
  lemma FirstFitIs(b: seq<bool>, cnt: nat, r: Option<nat>)
    requires r.Some? ==> FreeRun(b, r.value, cnt) && forall j :: 0 <= j < r.value ==> !FreeRun(b, j, cnt)
    requires r.None? ==> forall j :: 0 <= j ==> !FreeRun(b, j, cnt)
    ensures FirstFit(b, cnt) == r
  {
    FitFromExact(b, cnt, 0);
  }

  /** No run of `cnt` free bits ends at or before `n`. */
  ghost predicate NoRunUpTo(b: seq<bool>, cnt: nat, n: int) {
    forall j :: 0 <= j && j + cnt <= n ==> !FreeRun(b, j, cnt)
  }

  lemma UsedPrefix(b: seq<bool>, n: nat, cnt: nat)
    requires n <= |b| && cnt >= 1 && forall k :: 0 <= k < n ==> b[k]
    ensures forall j :: 0 <= j < n ==> !FreeRun(b, j, cnt)
  {
    forall j | 0 <= j < n ensures !FreeRun(b, j, cnt) {
      assert b[j];
    }
  }

  lemma FirstIsFit(b: seq<bool>, first: nat)
    requires first < |b| && !b[first] && forall k :: 0 <= k < first ==> b[k]
    ensures FirstFit(b, 1) == Some(first)
  {
    UsedPrefix(b, first, 1);
    FirstFitIs(b, 1, Some(first));
  }

  lemma NoRunYet(b: seq<bool>, first: nat, cnt: nat)
    requires first < |b| && cnt >= 2 && forall k :: 0 <= k < first ==> b[k]
    ensures NoRunUpTo(b, cnt, first + 1)
  {
    UsedPrefix(b, first, cnt);
  }

  lemma NoFit(b: seq<bool>, cnt: nat)
    requires cnt >= 1 && NoRunUpTo(b, cnt, |b|)
    ensures FirstFit(b, cnt) == None
  {
    FirstFitIs(b, cnt, None);
  }

  /** Looking at bit `n`, when exactly `count < cnt` free bits end just before it. */
  lemma ScanBit(b: seq<bool>, cnt: nat, n: nat, count: nat)
    requires count < cnt && count <= n < |b| && NoRunUpTo(b, cnt, n)
    requires (forall k :: n - count <= k < n ==> !b[k]) && (n == count || b[n - count - 1])
    ensures !b[n] && count + 1 == cnt ==> FirstFit(b, cnt) == Some(n + 1 - cnt)
    ensures b[n] || count + 1 < cnt ==> NoRunUpTo(b, cnt, n + 1)
  {
    if !b[n] && count + 1 == cnt {
      FirstFitIs(b, cnt, Some(n + 1 - cnt));
    } else {
      forall j | 0 <= j && j + cnt <= n + 1 ensures !FreeRun(b, j, cnt) {
        if j + cnt == n + 1 {
          assert b[if b[n] then n else n - count - 1];
        }
      }
    }
  }

  ghost function Marked(b: seq<bool>, i: nat, cnt: nat, v: bool): (r: seq<bool>)
    requires i + cnt <= |b|
    ensures |r| == |b| && forall k :: 0 <= k < |b| ==> r[k] == if i <= k < i + cnt then v else b[k]
  {
    b[..i] + seq(cnt, _ => v) + b[i + cnt..]
  }

  /** Once the found bits are set, no scan returns a range touching them. */
  lemma TakenStaysTaken(b: seq<bool>, i: nat, cnt: nat, want: nat)
    requires i + cnt <= |b| && cnt >= 1 && want >= 1
    ensures FirstFit(Marked(b, i, cnt, true), want).Some? ==>
              var r := FirstFit(Marked(b, i, cnt, true), want).value; r + want <= i || i + cnt <= r
  {
    var m := Marked(b, i, cnt, true);
    FitFromExact(m, want, 0);
    if FirstFit(m, want).Some? {
      var r := FirstFit(m, want).value;
      var k := if r < i then i else r;
      assert r <= k < r + want ==> !m[k];
    }
  }

  /** A single free bit is found unless the bitmap is full, where the ASSERT stops the kernel;
      so a scan for one bit never returns -1. */
  lemma OneBit(b: seq<bool>)
    ensures FirstFit(b, 1).None? <==> Full(b)
    ensures FirstFit(b, 1).Some? ==> FirstFit(b, 1).value < |b| && !b[FirstFit(b, 1).value]
  {
    FitFromExact(b, 1, 0);
    if FirstFit(b, 1).Some? {
      assert !b[FirstFit(b, 1).value];
    }
    if k :| 0 <= k < |b| && !b[k] {
      assert FreeRun(b, k, 1);
    }
  }

  // ----------------------------------------------------------------- the bytes

  /** BITMAP_MASK << k */
  function Mask(k: nat): bv8
    requires k < 8
  {
    if k == 0 then 1 else if k == 1 then 2 else if k == 2 then 4 else if k == 3 then 8
    else if k == 4 then 16 else if k == 5 then 32 else if k == 6 then 64 else 128
  }

  predicate Bit(x: bv8, k: nat)
    requires k < 8
  {
    x & Mask(k) != 0
  }

  lemma SetBit(x: bv8, k: nat, j: nat)
    requires k < 8 && j < 8
    ensures Bit(x | Mask(k), j) == (j == k || Bit(x, j))
  {
  }

  lemma ClearBit(x: bv8, k: nat, j: nat)
    requires k < 8 && j < 8
    ensures Bit(x & !Mask(k), j) == (j != k && Bit(x, j))
  {
  }

  lemma AllOnes(x: bv8)
    ensures x == 0xff <==> forall k :: 0 <= k < 8 ==> Bit(x, k)
  {
    if x != 0xff {
      assert !(Bit(x, 0) && Bit(x, 1) && Bit(x, 2) && Bit(x, 3) && Bit(x, 4) && Bit(x, 5) && Bit(x, 6) && Bit(x, 7));
    }
  }

  /** The loop over the bits of one byte. */
  method FirstZero(x: bv8) returns (bit: nat)
    requires x != 0xff
    ensures bit < 8 && !Bit(x, bit) && forall k :: 0 <= k < bit ==> Bit(x, k)
  {
    AllOnes(x);
    bit := 0;
    while x & Mask(bit) != 0
      invariant bit < 8
      invariant exists k :: bit <= k < 8 && !Bit(x, k)
      invariant forall k :: 0 <= k < bit ==> Bit(x, k)
      decreases 8 - bit
    {
      assert Bit(x, bit);
      bit := bit + 1;
    }
  }

  class ByteMap {
    const bits: array<bv8>   // bits, btmp_bytes_len == bits.Length

    constructor (bytes: nat)
      ensures fresh(bits) && bits.Length == bytes
      ensures Bits() == seq(8 * bytes, _ => false)
    {
      bits := new bv8[bytes](_ => 0);
    }

    function Bits(): (b: seq<bool>)
      reads bits
      ensures |b| == 8 * bits.Length
      ensures forall i :: 0 <= i < |b| ==> b[i] == Bit(bits[i / 8], i % 8)
    {
      seq(8 * bits.Length, i requires 0 <= i < 8 * bits.Length reads bits => Bit(bits[i / 8], i % 8))
    }

    /** bitmap_scan_test */
    method Test(i: nat) returns (r: bool)
      requires i < 8 * bits.Length
      ensures r == Bits()[i]
    {
      r := bits[i / 8] & Mask(i % 8) != 0;
    }

    /** bitmap_set */
    method Set(i: nat, v: bool)
      requires i < 8 * bits.Length
      modifies bits
      ensures Bits() == old(Bits())[i := v]
    {
      hide Bit, Mask;
      var x, k := bits[i / 8], i % 8;
      if v {
        bits[i / 8] := x | Mask(k);
      } else {
        bits[i / 8] := x & !Mask(k);
      }
      forall j | 0 <= j < 8 * bits.Length ensures Bits()[j] == old(Bits())[i := v][j] {
        if j / 8 == i / 8 {
          if v { SetBit(x, k, j % 8); } else { ClearBit(x, k, j % 8); }
        }
      }
    }

    /** The first two loops of bitmap_scan: the first free bit, bytes of 0xff being skipped.
        On a full bitmap the ASSERT at line 33 stops the kernel. */
    method FirstFree() returns (first: nat, halt: Halt)
      ensures halt == (if Full(Bits()) then Stopped("lib/kernel/bitmap.c", 33) else Live)
      ensures halt == Live ==> first < |Bits()| && !Bits()[first] && forall k :: 0 <= k < first ==> Bits()[k]
    {
      hide Bit, Mask;
      var byte := 0;
      while byte < bits.Length && bits[byte] == 0xff
        invariant byte <= bits.Length
        invariant forall k :: 0 <= k < 8 * byte ==> Bits()[k]
      {
        AllOnes(bits[byte]);
        byte := byte + 1;
      }
      if byte >= bits.Length {
        return 0, Stopped("lib/kernel/bitmap.c", 33);
      }
      var bit := FirstZero(bits[byte]);
      first, halt := 8 * byte + bit, Live;
      assert !Bits()[first];
    }

    /** bitmap_scan */
    method Scan(cnt: nat) returns (start: int, halt: Halt)
      ensures halt == (if Full(Bits()) then Stopped("lib/kernel/bitmap.c", 33) else Live)
      ensures halt == Live && cnt >= 1 ==> start == match FirstFit(Bits(), cnt) case Some(r) => r case None => -1
    {
      hide Bit, Mask, FirstFit, FreeRun, NoRunUpTo;
      ghost var b := Bits();
      var first: nat;
      first, halt := FirstFree();
      if halt != Live {
        return -1, halt;
      }
      if cnt == 1 {
        FirstIsFit(b, first);
        return first, Live;
      }
      if cnt >= 1 { NoRunYet(b, first, cnt); }
      var left, next, count := bits.Length * 8 - first - 1, first + 1, 1;
      start := -1;
      while left > 0
        invariant 0 <= left && next + left == |b| && 0 <= count <= next
        invariant cnt >= 1 ==> count < cnt && NoRunUpTo(b, cnt, next)
        invariant forall k :: next - count <= k < next ==> !b[k]
        invariant next == count || b[next - count - 1]
        decreases left
      {
        left := left - 1;
        if cnt >= 1 { ScanBit(b, cnt, next, count); }
        var used := Test(next);
        count := if used then 0 else count + 1;
        if count == cnt {
          start := next - count + 1;
          return;
        }
        next := next + 1;
      }
      if cnt >= 1 { NoFit(b, cnt); }
    }
  }
}
