/** ide_read and ide_write of device/ide.c: how a request is cut into commands of at most 256
    sectors, whose count travels through an 8-bit register, and what reaches disk and buffer.
    Waiting for the drive is part of the transition system in Sync. */
module Transfer {
  import opened Basics
  import opened Sectors
  import opened Volume

  const MAX_LBA: nat := 163839   // 80 * 1024 * 1024 / 512 - 1

  /** What the sector registers hold; the count register has 8 bits. */
  datatype Command = Command(lba: nat, count: nat)

  /** How many sectors the drive and the copy routine move: 0 stands for 256. */
  function Moved(c: Command): nat {
    if c.count == 0 then 256 else c.count
  }

  /** The commands run through [lba, lba + n) in order, without gap or overlap. */
  ghost predicate Covers(cs: seq<Command>, lba: nat, n: nat) {
    if cs == [] then n == 0
    else
      var c := cs[|cs| - 1];
      && c.count < 256 && Moved(c) <= n && c.lba == lba + n - Moved(c) && Covers(cs[..|cs| - 1], lba, n - Moved(c))
  }

  lemma CoversMore(cs: seq<Command>, lba: nat, n: nat, c: Command)
    requires Covers(cs, lba, n) && c.lba == lba + n && c.count < 256
    ensures Covers(cs + [c], lba, n + Moved(c))
  {
  }

  /** Every command names sectors of the request only, and every sector of the request is named
      by exactly one command. */
  lemma {:induction false} CoversOnce(cs: seq<Command>, lba: nat, n: nat, x: nat)
    requires Covers(cs, lba, n)
    ensures lba <= x < lba + n <==> exists i :: 0 <= i < |cs| && cs[i].lba <= x < cs[i].lba + Moved(cs[i])
    ensures forall i, j :: 0 <= i < j < |cs| && cs[i].lba <= x < cs[i].lba + Moved(cs[i]) ==> x < cs[j].lba
  {
    if cs != [] {
      var m := |cs| - 1;
      CoversOnce(cs[..m], lba, n - Moved(cs[m]), x);
      assert forall i :: 0 <= i < m ==> cs[..m][i] == cs[i];
    }
  }

  /** The bytes of sector i of a buffer. */
  function Part(b: seq<byte>, i: nat): seq<byte>
    requires SECTOR * (i + 1) <= |b|
  {
    b[SECTOR * i..SECTOR * i + SECTOR]
  }

  /** n sectors from lba on, as read_from_sector copies them. */
  function Run(disk: map<nat, Sector>, lba: nat, n: nat): (b: seq<byte>)
    ensures |b| == SECTOR * n
    ensures forall x: nat :: lba <= x < lba + n ==> Part(b, x - lba) == Read(disk, x)
  {
    if n == 0 then [] else
      var b0 := Run(disk, lba, n - 1);
      RunMore(disk, lba, n - 1, b0);
      b0 + Read(disk, lba + n - 1)
  }

  lemma RunMore(disk: map<nat, Sector>, lba: nat, n: nat, b0: seq<byte>)
    requires |b0| == SECTOR * n && forall x: nat :: lba <= x < lba + n ==> Part(b0, x - lba) == Read(disk, x)
    ensures var b := b0 + Read(disk, lba + n); forall x: nat :: lba <= x < lba + n + 1 ==> Part(b, x - lba) == Read(disk, x)
  {
    var b := b0 + Read(disk, lba + n);
    forall x: nat | lba <= x < lba + n + 1 ensures Part(b, x - lba) == Read(disk, x) {
      if x < lba + n { assert Part(b, x - lba) == Part(b0, x - lba); }
    }
  }

  /** A command of a request for cnt sectors starts d sectors into it. */
  predicate CommandAt(d: nat, cnt: nat) {
    d % 256 == 0 && d < cnt
  }

  /** The request is not empty and every command of it starts below max_lba. */
  ghost predicate Reachable(lba: nat, cnt: nat) {
    cnt > 0 && forall d: nat :: CommandAt(d, cnt) ==> lba + d < MAX_LBA
  }

  /** How many sectors the next command of a request moves. */
  function ChunkSize(done: nat, cnt: nat): nat {
    if done + 256 <= cnt then 256 else if done <= cnt then cnt - done else 0
  }

  /** The size of the next chunk, and what the 8-bit registers make of it. */
  method NextChunk(lba: nat, done: nat, cnt: nat) returns (every: nat, c: Command)
    requires done < cnt
    ensures every == ChunkSize(done, cnt) && 0 < every <= 256 && done + every <= cnt && (done + every < cnt ==> every == 256)
    ensures c == Command(lba + done, every % 256) && Moved(c) == every
  {
    if done + 256 <= cnt {
      every := 256;
    } else {
      every := cnt - done;
    }
    c := Command(lba + done, every % 256);
  }

  lemma Nothing(lba: nat)
    ensures Covers([], lba, 0)
  {
  }

  /** ide_read: byte j of sector lba + i arrives at place 512 * i + j of the buffer.  It stops exactly
      when the request is empty or one of its commands starts at or beyond max_lba. */
  method IdeRead(disk: map<nat, Sector>, lba: nat, cnt: nat) returns (buf: seq<byte>, cs: seq<Command>, halt: Halt)
    ensures halt == Live <==> Reachable(lba, cnt)
    ensures halt == Live ==> |buf| == SECTOR * cnt && Covers(cs, lba, cnt)
    ensures halt == Live ==> forall x: nat, j: nat :: lba <= x < lba + cnt && j < 512 ==> Read(disk, x)[j] == buf[512 * (x - lba) + j]
  {
    hide Covers, Moved, Read, Run, ChunkSize;
    buf, cs, halt := [], [], Live;
    Nothing(lba);
    if cnt == 0 {
      return [], [], Stopped("device/ide.c", 150);
    }
    assert CommandAt(0, cnt);
    if lba > MAX_LBA {
      return [], [], Stopped("device/ide.c", 151);
    }
    var done := 0;
    while done < cnt
      invariant done <= cnt && |buf| == SECTOR * done && Covers(cs, lba, done) && halt == Live
      invariant forall x: nat :: lba <= x < lba + done ==> Part(buf, x - lba) == Read(disk, x)
      invariant done == cnt || done % 256 == 0
      invariant forall d: nat :: CommandAt(d, cnt) && d < done ==> lba + d < MAX_LBA
    {
      var every, c := NextChunk(lba, done, cnt);
      if c.lba >= MAX_LBA {
        assert CommandAt(done, cnt);
        return [], [], Stopped("device/ide.c", 89);
      }
      CoversMore(cs, lba, done, c);
      cs := cs + [c];
      var more := Run(disk, lba + done, every);
      ReadOn(disk, lba, buf, done, more, every);
      buf := buf + more;
      done := done + every;
    }
    forall x: nat, j: nat | lba <= x < lba + cnt && j < 512 ensures Read(disk, x)[j] == buf[512 * (x - lba) + j] {
      assert Part(buf, x - lba)[j] == buf[512 * (x - lba) + j];
    }
  }

  /** Another chunk behind what has been read. */
  lemma ReadOn(disk: map<nat, Sector>, lba: nat, b: seq<byte>, m: nat, c: seq<byte>, n: nat)
    requires |b| == SECTOR * m && |c| == SECTOR * n
    requires forall x: nat :: lba <= x < lba + m ==> Part(b, x - lba) == Read(disk, x)
    requires forall x: nat :: lba + m <= x < lba + m + n ==> Part(c, x - (lba + m)) == Read(disk, x)
    ensures forall x: nat :: lba <= x < lba + m + n ==> Part(b + c, x - lba) == Read(disk, x)
  {
    forall x: nat | lba <= x < lba + m + n ensures Part(b + c, x - lba) == Read(disk, x) {
      if x < lba + m {
        assert Part(b + c, x - lba) == Part(b, x - lba);
      } else {
        assert Part(b + c, x - lba) == Part(c, x - (lba + m));
      }
    }
  }

  /** n sectors from lba on replaced by the bytes of b, as write2sector sends them. */
  function Stored(disk: map<nat, Sector>, lba: nat, b: seq<byte>, n: nat): (disk1: map<nat, Sector>)
    requires |b| == SECTOR * n
    ensures forall x: nat :: Read(disk1, x) == if lba <= x < lba + n then Part(b, x - lba) else Read(disk, x)
  {
    if n == 0 then disk
    else
      var disk0 := Stored(disk, lba, b[..SECTOR * (n - 1)], n - 1);
      StoredMore(disk, disk0, lba, b, n - 1);
      disk0[lba + n - 1 := b[SECTOR * (n - 1)..]]
  }

  lemma StoredMore(disk: map<nat, Sector>, disk0: map<nat, Sector>, lba: nat, b: seq<byte>, n: nat)
    requires |b| == SECTOR * (n + 1)
    requires forall x: nat :: Read(disk0, x) == if lba <= x < lba + n then Part(b[..SECTOR * n], x - lba) else Read(disk, x)
    ensures var disk1 := disk0[lba + n := b[SECTOR * n..]];
            forall x: nat :: Read(disk1, x) == if lba <= x < lba + n + 1 then Part(b, x - lba) else Read(disk, x)
  {
    var disk1 := disk0[lba + n := b[SECTOR * n..]];
    forall x: nat ensures Read(disk1, x) == if lba <= x < lba + n + 1 then Part(b, x - lba) else Read(disk, x) {
      if x == lba + n {
        assert Part(b, n) == b[SECTOR * n..];
      } else {
        assert Read(disk1, x) == Read(disk0, x);
        if lba <= x < lba + n { assert Part(b[..SECTOR * n], x - lba) == Part(b, x - lba); }
      }
    }
  }

  /** Sector x of the request belongs to a command that starts below max_lba. */
  predicate Written(lba: nat, cnt: nat, x: nat) {
    lba <= x < lba + cnt && x - (x - lba) % 256 < MAX_LBA
  }

  /** ide_write: sector lba + i of the disk becomes bytes 512 * i to 512 * i + 511 of the buffer and no
      other sector changes.  It stops as ide_read does, at the first command that starts at or beyond
      max_lba and with the sectors of the commands before it written. */
  method IdeWrite(disk: map<nat, Sector>, lba: nat, buf: seq<byte>, cnt: nat) returns (disk1: map<nat, Sector>, cs: seq<Command>, halt: Halt)
    requires |buf| == SECTOR * cnt
    ensures halt == Live <==> Reachable(lba, cnt)
    ensures halt == Live ==> Covers(cs, lba, cnt) && forall x: nat :: lba <= x < lba + cnt ==> Written(lba, cnt, x)
    ensures forall x: nat ::
              Read(disk1, x) == if Written(lba, cnt, x) then buf[512 * (x - lba)..512 * (x - lba) + 512] else Read(disk, x)
  {
    hide Covers, Moved, Stored, Read, ChunkSize, Written, Filled;
    NoneWritten(lba, cnt);
    NoneFilled(disk, lba, buf);
    disk1, cs, halt := disk, [], Live;
    Nothing(lba);
    assert cnt > 0 ==> CommandAt(0, cnt);
    if lba > MAX_LBA {
      return disk, [], Stopped("device/ide.c", 189);
    }
    if cnt == 0 {
      return disk, [], Stopped("device/ide.c", 190);
    }
    var done := 0;
    while done < cnt
      invariant done <= cnt && Covers(cs, lba, done) && halt == Live
      invariant Filled(disk, disk1, lba, buf, done)
      invariant forall x: nat :: lba <= x < lba + done ==> Written(lba, cnt, x)
      invariant done == cnt || done % 256 == 0
      invariant forall d: nat :: CommandAt(d, cnt) && d < done ==> lba + d < MAX_LBA
    {
      var every, c := NextChunk(lba, done, cnt);
      if c.lba >= MAX_LBA {
        assert CommandAt(done, cnt);
        NotReached(lba, done, cnt);
        SoFar(disk, disk1, lba, buf, done, cnt);
        return disk1, cs, Stopped("device/ide.c", 89);
      }
      CoversMore(cs, lba, done, c);
      cs := cs + [c];
      var part := buf[SECTOR * done..SECTOR * (done + every)];
      WriteOn(disk, disk1, lba, buf, done, part, every);
      NowWritten(lba, done, every, cnt);
      disk1 := Stored(disk1, lba + done, part, every);
      done := done + every;
    }
    SoFar(disk, disk1, lba, buf, cnt, cnt);
  }

  lemma NoneWritten(lba: nat, cnt: nat)
    ensures lba > MAX_LBA || cnt == 0 ==> forall x: nat :: !Written(lba, cnt, x)
    ensures forall x: nat :: x >= lba + cnt ==> !Written(lba, cnt, x)
  {
  }

  lemma NowWritten(lba: nat, done: nat, every: nat, cnt: nat)
    requires done % 256 == 0 && every <= 256 && done + every <= cnt && lba + done < MAX_LBA
    ensures forall x: nat :: lba + done <= x < lba + done + every ==> Written(lba, cnt, x)
  {
  }

  /** The first n sectors of the request have been written, and nothing else. */
  ghost predicate Filled(disk: map<nat, Sector>, disk1: map<nat, Sector>, lba: nat, buf: seq<byte>, n: nat)
    requires SECTOR * n <= |buf|
  {
    forall x: nat :: Read(disk1, x) == if lba <= x < lba + n then Part(buf, x - lba) else Read(disk, x)
  }

  lemma NoneFilled(disk: map<nat, Sector>, lba: nat, buf: seq<byte>)
    ensures Filled(disk, disk, lba, buf, 0)
  {
  }

  lemma PartOf(b: seq<byte>, m: nat, n: nat, i: nat)
    requires SECTOR * (m + n) <= |b| && i < n
    ensures Part(b[SECTOR * m..SECTOR * (m + n)], i) == Part(b, m + i)
  {
    var p, q := Part(b[SECTOR * m..SECTOR * (m + n)], i), Part(b, m + i);
    forall j | 0 <= j < SECTOR ensures p[j] == q[j] {
      assert p[j] == b[SECTOR * m + (SECTOR * i + j)] && q[j] == b[SECTOR * (m + i) + j];
    }
  }

  /** Another chunk behind what has been written. */
  lemma WriteOn(disk: map<nat, Sector>, disk1: map<nat, Sector>, lba: nat, buf: seq<byte>, done: nat, part: seq<byte>, n: nat)
    requires SECTOR * (done + n) <= |buf| && part == buf[SECTOR * done..SECTOR * (done + n)] && Filled(disk, disk1, lba, buf, done)
    ensures Filled(disk, Stored(disk1, lba + done, part, n), lba, buf, done + n)
  {
    hide Stored, Read;
    var disk2 := Stored(disk1, lba + done, part, n);
    forall x: nat ensures Read(disk2, x) == if lba <= x < lba + done + n then Part(buf, x - lba) else Read(disk, x) {
      if lba + done <= x < lba + done + n { PartOf(buf, done, n, x - (lba + done)); }
    }
  }

  /** From a command at or beyond max_lba on nothing is written. */
  lemma NotReached(lba: nat, done: nat, cnt: nat)
    requires done % 256 == 0 && lba + done >= MAX_LBA
    ensures forall x: nat :: x >= lba + done ==> !Written(lba, cnt, x)
  {
  }

  lemma SoFar(disk: map<nat, Sector>, disk1: map<nat, Sector>, lba: nat, buf: seq<byte>, done: nat, cnt: nat)
    requires |buf| == SECTOR * cnt && done <= cnt && (forall x: nat :: x >= lba + done ==> !Written(lba, cnt, x))
    requires Filled(disk, disk1, lba, buf, done)
    requires forall x: nat :: lba <= x < lba + done ==> Written(lba, cnt, x)
    ensures forall x: nat ::
              Read(disk1, x) == if Written(lba, cnt, x) then buf[512 * (x - lba)..512 * (x - lba) + 512] else Read(disk, x)
  {
    hide Read;
  }

  /** Reading back what has been written gives the buffer. */
  lemma ReadBack(disk: map<nat, Sector>, lba: nat, cnt: nat, b: seq<byte>, r: seq<byte>)
    requires |b| == |r| == SECTOR * cnt
    requires forall x: nat :: lba <= x < lba + cnt ==> Read(disk, x) == b[512 * (x - lba)..512 * (x - lba) + 512]
    requires forall x: nat, j: nat :: lba <= x < lba + cnt && j < 512 ==> Read(disk, x)[j] == r[512 * (x - lba) + j]
    ensures r == b
  {
    forall k | 0 <= k < |b| ensures r[k] == b[k] {
      var x, j := lba + k / 512, k % 512;
      assert Read(disk, x)[j] == b[512 * (x - lba)..512 * (x - lba) + 512][j];
    }
  }
}
