/** Where partition_format (fs/fs.c) puts boot sector, superblock, bitmaps, inode table and data. */
module Layout {
  import opened Sectors

  // ------------------------------------------------------------------ partition_format

  const INODES: nat := 4096          // MAX_FILES_PER_PART
  const INODE_BYTES: nat := 76       // sizeof(struct inode)
  const TABLE_SECTS: nat := 608      // 76 * 4096 / 512

  function DivRoundUp(x: nat, y: nat): nat
    requires y > 0
  {
    (x + y - 1) / y
  }

  /** Sectors of the block bitmap and bits in it, in 32-bit arithmetic. */
  datatype Super = Super(bitmapLba: nat, bitmapSects: nat, inodeBitmapLba: nat, inodeTableLba: nat, dataStart: nat, bitLen: nat)

  function Format(base: nat, sectors: nat): Super {
    var used := 1 + 1 + DivRoundUp(INODES, 4096) + DivRoundUp(INODE_BYTES * INODES, SECTOR);
    var free := (sectors - used) % U32;
    var guess := (free + 4095) % U32 / 4096;
    var bitLen := (free - guess) % U32;
    var sects := (bitLen + 4095) % U32 / 4096;
    Super((base + 2) % U32, sects, (base + 2 + sects) % U32, (base + 3 + sects) % U32, (base + 3 + sects + TABLE_SECTS) % U32, bitLen)
  }

  lemma UsedSectors()
    ensures 1 + 1 + DivRoundUp(INODES, 4096) + DivRoundUp(INODE_BYTES * INODES, SECTOR) == 611
  {
  }

  lemma CeilFits(free: nat)
    requires 0 <= free && free + 4095 < U32
    ensures var guess := (free + 4095) / 4096;
            && guess <= free && (free - guess + 4095) / 4096 <= guess
            && 4096 * ((free - guess + 4095) / 4096) >= free - guess && 4096 * guess <= free + 4095
            && (free > guess ==> 4096 * ((free - guess + 4095) / 4096) < free - guess + 4096)
  {
  }

  /** For every partition that has room for the metadata and ends below sector 2^32 - 4096: boot
      sector, super block, block bitmap, inode bitmap, inode table and data follow each other
      without gap, the bitmap has a bit for every data block and no sector too many, and the last data
      block lies inside and at the end: at most one sector is left over, and one more for every 4095
      sectors of the bitmap. */
  lemma LayoutFits(base: nat, sectors: nat)
    requires 611 <= sectors && base + sectors + 4096 <= U32
    ensures var s := Format(base, sectors);
            && s.bitmapLba == base + 2 && s.inodeBitmapLba == s.bitmapLba + s.bitmapSects
            && s.inodeTableLba == s.inodeBitmapLba + 1 && s.dataStart == s.inodeTableLba + TABLE_SECTS
            && s.bitLen <= s.bitmapSects * 4096 && (s.bitmapSects > 0 ==> (s.bitmapSects - 1) * 4096 < s.bitLen)
            && 0 <= base + sectors - (s.dataStart + s.bitLen) <= 1 + s.bitmapSects / 4095
  {
    var free := sectors - 611;
    var guess := (free + 4095) / 4096;
    var sects := (free - guess + 4095) / 4096;
    CeilFits(free);
    Sizes(base, sectors);
    LeftOver(guess - sects, sects);
    hide Format;
  }

  /** Without wrap-around the arithmetic is plain. */
  lemma Sizes(base: nat, sectors: nat)
    requires 611 <= sectors && base + sectors + 4096 <= U32
    ensures var free := sectors - 611; var guess := (free + 4095) / 4096; var sects := (free - guess + 4095) / 4096;
            guess <= free && Format(base, sectors) == Super(base + 2, sects, base + 2 + sects, base + 3 + sects, base + 3 + sects + TABLE_SECTS, free - guess)
  {
    UsedSectors();
    var free := sectors - 611;
    CeilFits(free);
    var guess := (free + 4095) / 4096;
    var bitLen := free - guess;
    var sects := (bitLen + 4095) / 4096;
    NoWrap(free);
    NoWrap(free + 4095);
    NoWrap(bitLen);
    NoWrap(bitLen + 4095);
    NoWrap(base + 2);
    NoWrap(base + 2 + sects);
    NoWrap(base + 3 + sects);
    NoWrap(base + 3 + sects + TABLE_SECTS);
  }

  lemma LeftOver(left: nat, sects: nat)
    requires 4096 * left <= left + sects + 4095
    ensures left <= 1 + sects / 4095
  {
  }

  lemma NoWrap(x: nat)
    requires x < U32
    ensures x % U32 == x
  {
  }

  /** With fewer sectors than the metadata needs the subtraction wraps, and the block bitmap
      promises blocks that the partition does not have. */
  lemma LayoutFitsIff(base: nat, sectors: nat)
    requires base + sectors + 4096 <= U32
    ensures var s := Format(base, sectors); 611 + s.bitmapSects + s.bitLen <= sectors <==> sectors >= 611
  {
    UsedSectors();
    if sectors >= 611 {
      LayoutFits(base, sectors);
    } else {
      Wrapped(sectors);
    }
  }

  lemma Wrapped(sectors: nat)
    requires sectors < 611
    ensures Format(0, sectors).bitLen > 611
  {
    UsedSectors();
    var free := (sectors - 611) % U32;
    assert free == U32 - 611 + sectors;
    assert (free + 4095) % U32 / 4096 <= 1;
  }

  // --------------------------------------------------------------------- the block bitmap

  /** The n bits of the block bitmap that partition_format writes for `len` blocks: bit 0 for the root
      directory, and all bits behind the last block, except that the loop which frees the blocks in
      the last byte again goes one bit too far. */
  function FormatBits(n: nat, len: nat): (b: seq<bool>)
    ensures |b| == n
  {
    seq(n, i => if i < len / 8 * 8 then i == 0 else i > len)
  }

  /** Apart from the root directory's, exactly the bits behind bit `len` are marked: every other block
      of the partition is free. */
  lemma BlocksFree(n: nat, len: nat, i: nat)
    requires i < n
    ensures FormatBits(n, len)[i] <==> (i == 0 && len >= 8) || i > len
  {
  }

  /** The root directory's block is marked if and only if there are at least eight blocks: else it
      lies in the byte that is cleared at the end. */
  lemma RootMarkedIff(n: nat, len: nat)
    requires 0 < n && len <= n
    ensures FormatBits(n, len)[0] <==> len >= 8
  {
  }

  /** A free bit stands for a sector beyond the end of the partition if and only if the blocks do not
      fill the bitmap's sectors and leave none of the partition's own sectors over. */
  lemma BeyondIff(base: nat, sectors: nat)
    requires 611 <= sectors && base + sectors + 4096 <= U32
    ensures var s := Format(base, sectors); var bits := FormatBits(s.bitmapSects * 4096, s.bitLen);
            (exists i :: 0 <= i < |bits| && !bits[i] && s.dataStart + i >= base + sectors)
            <==> s.bitLen % 4096 != 0 && 611 + s.bitmapSects + s.bitLen == sectors
  {
    hide Format;
    LayoutFits(base, sectors);
    var s := Format(base, sectors);
    var bits := FormatBits(s.bitmapSects * 4096, s.bitLen);
    LastSector(base, sectors);
    if s.bitLen < |bits| { assert !bits[s.bitLen]; }
  }

  /** The bitmap has no more sectors than its bits need. */
  lemma LastSector(base: nat, sectors: nat)
    requires 611 <= sectors && base + sectors + 4096 <= U32
    ensures var s := Format(base, sectors); s.bitLen < s.bitmapSects * 4096 <==> s.bitLen % 4096 != 0
  {
    UsedSectors();
    var free := sectors - 611;
    CeilFits(free);
    var bitLen := free - (free + 4095) / 4096;
    NoWrap(free);
    NoWrap(free + 4095);
    NoWrap(bitLen);
    NoWrap(bitLen + 4095);
    RoundUp(bitLen);
  }

  lemma RoundUp(x: nat)
    ensures x < (x + 4095) / 4096 * 4096 <==> x % 4096 != 0
  {
  }
}
