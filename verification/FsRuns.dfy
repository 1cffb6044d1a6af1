/** Runs of file-system operations.  A step is what an operation does to bitmap, inodes and
    sectors; that block ownership, files and directories stay in order is proved of every run,
    and Execute shows that the operations produce such runs. */
module FsRuns {
  import opened Basics
  import opened Bitmap
  import opened Entries
  import opened Sectors
  import opened Volume
  import opened DirModel
  import opened FileWrite
  import opened Directory
  import opened FileSystem

  /** `subject` is the one inode an operation is about. */
  datatype Op = Write(subject: nat, buf: seq<byte>) | Insert(subject: nat, e: Entry) | Delete(subject: nat, ino: nat)
              | Create(subject: nat) | MakeDir(subject: nat, parent: nat) | Release(subject: nat)

  /** `torn` are directories out of order: they have lost the entries behind their index block, or were
      given an entry whose name or number they had, or whose name does not read back. */
  datatype State = State(v: Vol, files: set<nat>, dirs: set<nat>, torn: set<nat>)

  ghost predicate FsInv(s: State) {
    && OwnOk(s.v) && s.files !! s.dirs && s.files !! s.torn && s.dirs !! s.torn
    && s.files + s.dirs + s.torn == s.v.inodes.Keys
    && (forall a :: a in s.files ==> FileOk(s.v, a)) && (forall a :: a in s.dirs ==> DirOk(s.v, a))
    && (forall a :: a in s.torn ==> s.v.inodes[a].size % ENTRY == 0)
  }

  /** A partition as the constructor leaves it: the root directory and nothing else. */
  lemma FormattedOk(v: Vol)
    requires OwnOk(v) && v.inodes == map[0 := Inode(2 * ENTRY, [v.start] + seq(12, _ => 0))]
    requires Read(v.disk, v.start) == DotsBlock(0, 0)
    ensures FsInv(State(v, {}, {0}, {}))
  {
    hide OwnOk, DirOk, Block, DotsBlock, Listing;
    FormattedBlocks(v);
    FormattedStart(v);
    NewDirOk(v, 0, 0);
  }

  lemma FormattedBlocks(v: Vol)
    requires v.inodes == map[0 := Inode(2 * ENTRY, [v.start] + seq(12, _ => 0))]
    ensures Block(v, 0, 0) == v.start && forall k: nat :: 0 < k <= INDEX ==> Block(v, 0, k) == 0
  {
    hide Table;
    assert v.inodes[0].sectors[12] == 0;
  }

  lemma FormattedStart(v: Vol)
    requires OwnOk(v)
    ensures v.start != 0
  {
  }

  // ------------------------------------------------------------------------- steps

  /** What a completed operation has done to the volume. */
  ghost predicate Effect(v: Vol, v1: Vol, op: Op) {
    match op
    case Write(a, buf) => Wrote(v, v1, a, buf)
    case Insert(a, e) => Inserted(v, v1, a, e)
    case Delete(a, ino) => Deleted(v, v1, a, ino)
    case Create(a) => a !in v.inodes && v1 == WithNew(v, a)
    case MakeDir(a, parent) => NewDir(v, v1, a, parent)
    case Release(a) => Released(v, v1, a)
  }

  /** What the kernel's own callers see to: writes go to files, entries into and out of directories. */
  predicate Asked(s: State, op: Op)
    requires s.dirs <= s.v.inodes.Keys
  {
    match op
    case Write(a, _) => a in s.files
    case Insert(a, e) => (a in s.dirs || a in s.torn) && Writable(e) && e.kind != Unknown
    case Delete(a, _) => a in s.dirs || a in s.torn
    case _ => true
  }

  /** Which inodes are files, directories and torn directories afterwards. */
  function Next(s: State, v1: Vol, op: Op): State
    requires s.dirs <= s.v.inodes.Keys
  {
    var a := op.subject;
    match op
    case Insert(_, _) =>
      if a in s.dirs && !(CanAdd(s.v, a, op.e) && Roomy(s.v, a)) then State(v1, s.files, s.dirs - {a}, s.torn + {a}) else s.(v := v1)
    case Create(_) => State(v1, s.files + {a}, s.dirs, s.torn)
    case MakeDir(_, _) => State(v1, s.files, s.dirs + {a}, s.torn)
    case Release(_) => State(v1, s.files - {a}, s.dirs - {a}, s.torn - {a})
    case _ => s.(v := v1)
  }

  ghost predicate Step(s: State, s1: State, op: Op) {
    s.dirs <= s.v.inodes.Keys && Asked(s, op) && Effect(s.v, s1.v, op) && s1 == Next(s, s1.v, op)
  }

  /** Every operation keeps block ownership and leaves all inodes but its subject alone. */
  lemma StepOwn(s: State, s1: State, op: Op)
    requires FsInv(s) && Step(s, s1, op)
    ensures OwnOk(s1.v) && Isolated(s.v, s1.v, op.subject)
    ensures s1.files + s1.dirs + s1.torn == s1.v.inodes.Keys
  {
    hide OwnOk, Isolated, FileOk, DirOk, CanAdd, Roomy, Wrote, Inserted, Deleted, NewDir, Released;
    var a := op.subject;
    match op
    case Write(_, buf) =>
      WroteAppends(s.v, s1.v, a, buf);
      AppendedOwn(s.v, s1.v, a, buf);
    case Insert(_, e) => InsertedOwn(s.v, s1.v, a, e);
    case Delete(_, ino) => DeletedOwn(s.v, s1.v, a, ino);
    case Create(_) => NewInode(s.v, a);
    case MakeDir(_, parent) => NewDirKeeps(s.v, s1.v, a, parent);
    case Release(_) =>
      ReleaseKeeps(s.v, s1.v, a);
      ReleasedKeys(s.v, s1.v, a);
  }

  lemma AppendedOwn(v: Vol, v1: Vol, a: nat, buf: seq<byte>)
    requires Appended(v, v1, a, buf)
    ensures FileOk(v1, a) && Isolated(v, v1, a) && v1.inodes.Keys == v.inodes.Keys
  {
  }

  /** An operation leaves every byte of every other file and every entry of every other
      directory as it was. */
  lemma OthersUntouched(s: State, s1: State, op: Op, b: nat)
    requires FsInv(s) && Step(s, s1, op) && b != op.subject
    ensures b in s.files ==> FileOk(s1.v, b) && Content(s1.v, b) == Content(s.v, b)
    ensures b in s.dirs ==> DirOk(s1.v, b) && Listing(s1.v, b) == Listing(s.v, b)
    ensures b in s.torn ==> b in s1.v.inodes && s1.v.inodes[b] == s.v.inodes[b]
  {
    hide OwnOk, FileOk, DirOk, Content, Listing, Step, Block;
    StepOwn(s, s1, op);
    if b in s.files { IsolatedContent(s.v, s1.v, op.subject, b); }
    if b in s.dirs { DirStays(s.v, s1.v, op.subject, b); }
  }

  /** The subject of an operation is in the order its kind calls for. */
  lemma SubjectOk(s: State, s1: State, op: Op)
    requires FsInv(s) && Step(s, s1, op) && op.subject in s1.v.inodes
    ensures op.subject in s1.files ==> FileOk(s1.v, op.subject)
    ensures op.subject in s1.dirs ==> DirOk(s1.v, op.subject)
    ensures op.subject in s1.torn ==> s1.v.inodes[op.subject].size % ENTRY == 0
  {
    hide OwnOk, Isolated, FileOk, DirOk, CanAdd, Roomy, Wrote, Inserted, Deleted, NewDir, Listing;
    var a := op.subject;
    match op
    case Write(_, buf) =>
      WroteAppends(s.v, s1.v, a, buf);
      AppendedOwn(s.v, s1.v, a, buf);
    case Insert(_, e) =>
      InsertedOwn(s.v, s1.v, a, e);
      if a in s.dirs {
        DirShape(s.v, a);
        if CanAdd(s.v, a, e) && Roomy(s.v, a) { InsertedKeeps(s.v, s1.v, a, e); }
      }
    case Delete(_, ino) =>
      DeletedOwn(s.v, s1.v, a, ino);
      if a in s.dirs { DeletedKeeps(s.v, s1.v, a, ino); }
    case Create(_) => NewFileOk(s1.v, a);
    case MakeDir(_, parent) =>
      FreshNumber(s.v, s1.v, a, parent);
      NewDirKeeps(s.v, s1.v, a, parent);
    case Release(_) =>
  }

  lemma NewFileOk(v: Vol, n: nat)
    requires n in v.inodes && v.inodes[n] == Blank()
    ensures FileOk(v, n)
  {
  }

  lemma KindsStay(s: State, s1: State, op: Op)
    requires FsInv(s) && Step(s, s1, op)
    ensures s1.files !! s1.dirs && s1.files !! s1.torn && s1.dirs !! s1.torn
    ensures forall b :: b != op.subject ==> (b in s1.files <==> b in s.files) && (b in s1.dirs <==> b in s.dirs) && (b in s1.torn <==> b in s.torn)
  {
    hide OwnOk, FileOk, DirOk, CanAdd, Roomy, Wrote, Inserted, Deleted;
  }

  /** Every step keeps the invariant. */
  lemma StepKeeps(s: State, s1: State, op: Op)
    requires FsInv(s) && Step(s, s1, op)
    ensures FsInv(s1)
  {
    hide OwnOk, Isolated, FileOk, DirOk, Content, Listing, Step;
    StepOwn(s, s1, op);
    KindsStay(s, s1, op);
    if op.subject in s1.v.inodes { SubjectOk(s, s1, op); }
    forall b | b in s1.v.inodes && b != op.subject
      ensures (b in s1.files ==> FileOk(s1.v, b)) && (b in s1.dirs ==> DirOk(s1.v, b)) && (b in s1.torn ==> s1.v.inodes[b].size % ENTRY == 0)
    {
      OthersUntouched(s, s1, op, b);
    }
  }

  // -------------------------------------------------------------------------- runs

  ghost predicate FsRun(ss: seq<State>, ops: seq<Op>) {
    |ss| == |ops| + 1 && FsInv(ss[0]) && forall i :: 0 <= i < |ops| ==> Step(ss[i], ss[i + 1], ops[i])
  }

  /** In every state of every run no block has two owners, every owned block is marked, every
      file has exactly the blocks its size calls for and every directory that is not torn is in order. */
  lemma {:induction false} FsSafe(ss: seq<State>, ops: seq<Op>, n: nat)
    requires FsRun(ss, ops) && n <= |ops|
    ensures FsInv(ss[n])
  {
    hide FsInv, Step;
    if n > 0 {
      FsSafe(ss, ops, n - 1);
      StepKeeps(ss[n - 1], ss[n], ops[n - 1]);
    }
  }

  /** A file keeps its content through any stretch of a run that does not name it. */
  lemma {:induction false} ContentLasts(ss: seq<State>, ops: seq<Op>, b: nat, m: nat, n: nat)
    requires FsRun(ss, ops) && m <= n <= |ops| && b in ss[m].files
    requires forall i :: m <= i < n ==> ops[i].subject != b
    ensures b in ss[n].files && FileOk(ss[m].v, b) && FileOk(ss[n].v, b) && Content(ss[n].v, b) == Content(ss[m].v, b)
    decreases n
  {
    hide FsInv, Step, FileOk, Content;
    FsSafe(ss, ops, m);
    InvFile(ss[m], b);
    if m < n {
      ContentLasts(ss, ops, b, m, n - 1);
      FsSafe(ss, ops, n - 1);
      OthersUntouched(ss[n - 1], ss[n], ops[n - 1], b);
      KindsStay(ss[n - 1], ss[n], ops[n - 1]);
    }
  }

  /** What a run of writes outside the third situation appends to one file is what it contains. */
  lemma {:induction false} WritesConcatenate(ss: seq<State>, ops: seq<Op>, a: nat, n: nat)
    requires FsRun(ss, ops) && n <= |ops| && a in ss[0].files
    requires forall i :: 0 <= i < n ==> ops[i].subject == a ==> ops[i].Write?
    requires forall i :: 0 <= i < n && ops[i].Write? && ops[i].subject == a && a in ss[i].v.inodes ==>
               var size := ss[i].v.inodes[a].size; !Loses(Needed(size), Needed(size + |ops[i].buf|))
    ensures a in ss[n].files && FileOk(ss[0].v, a) && FileOk(ss[n].v, a)
    ensures Content(ss[n].v, a) == Content(ss[0].v, a) + Buffers(ops, a, n)
  {
    hide FsInv, Step, FileOk, Content, Loses;
    FsSafe(ss, ops, 0);
    InvFile(ss[0], a);
    if n > 0 {
      WritesConcatenate(ss, ops, a, n - 1);
      FsSafe(ss, ops, n - 1);
      InvFile(ss[n - 1], a);
      StepAppends(ss[n - 1], ss[n], ops[n - 1], a);
    }
  }

  lemma InvFile(s: State, a: nat)
    requires FsInv(s) && a in s.files
    ensures FileOk(s.v, a) && a in s.v.inodes
  {
  }

  lemma StepAppends(s: State, s1: State, op: Op, a: nat)
    requires FsInv(s) && Step(s, s1, op) && a in s.files && a in s.v.inodes
    requires op.subject == a ==> op.Write? && !Loses(Needed(s.v.inodes[a].size), Needed(s.v.inodes[a].size + |op.buf|))
    ensures a in s1.files && FileOk(s.v, a) && FileOk(s1.v, a)
    ensures Content(s1.v, a) == Content(s.v, a) + if op.Write? && op.subject == a then op.buf else []
  {
    hide OwnOk, FileOk, Isolated, DirOk, Content, Listing, Wrote, Appended;
    if op.subject == a {
      WroteAppends(s.v, s1.v, a, op.buf);
      AppendedOwn(s.v, s1.v, a, op.buf);
      AppendContent(s.v, s1.v, a, op.buf);
    } else {
      OthersUntouched(s, s1, op, a);
      KindsStay(s, s1, op);
    }
  }

  /** The buffers written to file a by the first n operations. */
  function Buffers(ops: seq<Op>, a: nat, n: nat): seq<byte>
    requires n <= |ops|
  {
    if n == 0 then [] else Buffers(ops, a, n - 1) + if ops[n - 1].Write? && ops[n - 1].subject == a then ops[n - 1].buf else []
  }

  // --------------------------------------------------------- the operations produce runs

  /** The requests that are carried out, if nothing stops the kernel: any that a caller makes, except a
      write beyond 71680 bytes, a deletion of what is not there, a new inode under a number in use and the
      release of one that does not exist. */
  ghost predicate Due(s: State, op: Op) {
    s.dirs + s.torn + s.files <= s.v.inodes.Keys && Asked(s, op) &&
    match op
    case Write(a, buf) => s.v.inodes[a].size + |buf| <= BLOCKS * SECTOR
    case Insert(_, _) => true
    case Delete(a, ino) => HasTarget(s.v, a, ino)
    case Create(a) => a !in s.v.inodes
    case MakeDir(a, parent) => a !in s.v.inodes && a < U32 && parent < U32
    case Release(a) => a in s.v.inodes
  }

  /** What stops the kernel in the middle of a request; `full` says that no block is free by then. */
  ghost predicate Stops(s: State, op: Op, full: bool) {
    Due(s, op) &&
    match op
    case Write(a, buf) =>
      || full || s.v.inodes[a].size + |buf| == BLOCKS * SECTOR
      || (s.v.inodes[a].sectors[0] == 0 && UnluckyBlock(s.v.bits))
    case Insert(_, _) => full
    case Delete(a, ino) => AloneBehind(s.v, a, ino) || (a in s.torn && (s.v.inodes[a].size < ENTRY || TwiceIn(s.v, a, ino)))
    case Create(_) => false
    case MakeDir(_, _) => full || !InUse(s.v, s.v.start)
    case Release(a) => s.v.start in Owned(s.v, a)
  }

  /** One request through the operation that serves it.  `done` says that it was carried out; a
      request that is not due changes nothing. */
  method Perform(p: Partition, s: State, op: Op) returns (s1: State, done: bool, halt: Halt)
    requires FsInv(s) && s.v == p.View()
    modifies p`disk, p`inodes, p.bmap.bits
    ensures halt != Live ==> Stops(s, op, Full(p.bmap.Bits()))
    ensures halt == Live ==> s1.v == p.View() && FsInv(s1) && (done <==> Due(s, op)) && if done then Step(s, s1, op) else s1 == s
  {
    hide UnluckyBlock, HasTarget, AloneBehind, TwiceIn, InUse, Full, OwnOk, FileOk, DirOk, CanAdd, Roomy, Wrote, Inserted, Deleted, NewDir, Released, Isolated, Appended, Added, Listing, Taken, Owned, Writable;
    done, halt, s1 := false, Live, s;
    var a := op.subject;
    KeysOf(s);
    if !Asked(s, op) {
      return;
    }
    match op {
      case Write(_, buf) =>
        if p.inodes[a].size + |buf| >= U32 {
          return;
        }
        InvFile(s, a);
        var r, pos := p.FileWrite(a, buf);
        done := r.Written?;
        halt := if r.Crash? then r.at else Live;
      case Insert(_, e) =>
        AskedFits(s, a, e);
        WholeEntries(s, a);
        halt := SyncDirEntry(p, a, e);
        done := true;
      case Delete(_, ino) =>
        WholeEntries(s, a);
        done, halt := DeleteDirEntry(p, a, ino);
      case Create(_) =>
        if a !in p.inodes {
          p.inodes := p.inodes[a := Blank()];
          done := true;
        }
      case MakeDir(_, parent) =>
        if a !in p.inodes && a < U32 && parent < U32 {
          halt := NewDirectory(p, parent, a);
          done := true;
        }
      case Release(_) =>
        if a in p.inodes {
          halt := InodeRelease(p, a);
          done := true;
        }
    }
    if halt == Live && done {
      s1 := Next(s, p.View(), op);
      StepKeeps(s, s1, op);
    }
  }

  lemma KeysOf(s: State)
    requires FsInv(s)
    ensures s.dirs <= s.v.inodes.Keys && s.files <= s.v.inodes.Keys && s.torn <= s.v.inodes.Keys
    ensures forall a :: a in s.dirs ==> DirOk(s.v, a)
  {
  }

  lemma WholeEntries(s: State, a: nat)
    requires FsInv(s) && (a in s.dirs || a in s.torn)
    ensures a in s.v.inodes && s.v.inodes[a].size % ENTRY == 0 && (a in s.dirs ==> s.v.inodes[a].size >= ENTRY)
  {
    hide OwnOk, DirOk, FileOk, Listing;
    if a in s.dirs { DirShape(s.v, a); }
  }

  lemma AskedFits(s: State, a: nat, e: Entry)
    requires FsInv(s) && Asked(s, Insert(a, e))
    ensures a in s.v.inodes && Writable(e) && e.kind != Unknown
  {
  }

  /** The state before each request and after the last: a request that is due is carried out, any other
      changes nothing. */
  ghost predicate Handled(ts: seq<State>, ops: seq<Op>) {
    && 1 <= |ts| <= |ops| + 1
    && forall i :: 0 <= i < |ts| - 1 ==> if Due(ts[i], ops[i]) then Step(ts[i], ts[i + 1], ops[i]) else ts[i + 1] == ts[i]
  }

  /** The requests among the first n that were due. */
  ghost function Carried(ts: seq<State>, ops: seq<Op>, n: nat): seq<Op>
    requires n <= |ops| && n <= |ts|
  {
    if n == 0 then [] else Carried(ts, ops, n - 1) + if Due(ts[n - 1], ops[n - 1]) then [ops[n - 1]] else []
  }

  lemma {:induction false} CarriedSame(ts: seq<State>, t: State, ops: seq<Op>, n: nat)
    requires n <= |ops| && n <= |ts|
    ensures Carried(ts + [t], ops, n) == Carried(ts, ops, n)
  {
    hide Due;
    if n > 0 { CarriedSame(ts, t, ops, n - 1); }
  }

  /** Any sequence of requests, handled one after the other until one of them stops the kernel: exactly
      the requests that were due form a run, and there is a reason for the stop. */
  method Execute(p: Partition, s: State, ops: seq<Op>)
    returns (halt: Halt, ghost ts: seq<State>, ghost ss: seq<State>, ghost done: seq<Op>)
    requires FsInv(s) && s.v == p.View()
    modifies p`disk, p`inodes, p.bmap.bits
    ensures Handled(ts, ops) && ts[0] == s && done == Carried(ts, ops, |ts| - 1)
    ensures FsRun(ss, done) && ss[0] == s && ss[|done|] == ts[|ts| - 1] && FsInv(ss[|done|])
    ensures halt == Live ==> |ts| == |ops| + 1 && ts[|ops|].v == p.View()
    ensures halt != Live ==> |ts| <= |ops| && Stops(ts[|ts| - 1], ops[|ts| - 1], Full(p.bmap.Bits()))
  {
    hide FsInv, Step, Asked, Due, Stops;
    halt, ts, ss, done := Live, [s], [s], [];
    var t, i := s, 0;
    while i < |ops|
      invariant 0 <= i <= |ops| && |ts| == i + 1 && Handled(ts, ops) && ts[0] == s && ts[i] == t && done == Carried(ts, ops, i)
      invariant FsRun(ss, done) && ss[0] == s && ss[|done|] == t && FsInv(t) && t.v == p.View() && halt == Live
    {
      var t1, ok;
      t1, ok, halt := Perform(p, t, ops[i]);
      if halt != Live {
        return;
      }
      CarriedSame(ts, t1, ops, i);
      ts := ts + [t1];
      if ok {
        ss, done := ss + [t1], done + [ops[i]];
      }
      t := t1;
      i := i + 1;
    }
  }
}
