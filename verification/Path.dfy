/** Path names over a tree of directories: path_parse, what search_file computes, the names that
    sys_getcwd of fs/fs.c collects and the loop that turns them around.  A directory is given as the
    sequence of its slots in block order; the directory tree itself is not changed here. */
module Paths {
  import opened Basics
  import opened Entries

  type Tree = map<nat, seq<Entry>>

  // ----------------------------------------------------------------------- names

  /** The characters up to the next slash or the end. */
  function Word(s: string): (w: string)
    ensures w <= s && '/' !in w && (w < s ==> s[|w|] == '/')
  {
    if s == [] || s[0] == '/' then [] else [s[0]] + Word(s[1..])
  }

  /** The names a path consists of; repeated and trailing slashes do not count. */
  function Components(s: string): (ws: seq<string>)
    ensures forall i :: 0 <= i < |ws| ==> Name(ws[i])
    decreases |s|
  {
    if s == [] then []
    else if s[0] == '/' then Components(s[1..])
    else [Word(s)] + Components(s[|Word(s)|..])
  }

  predicate Name(w: string) {
    w != [] && '/' !in w
  }

  function Join(ws: seq<string>): string {
    if ws == [] then [] else ['/'] + ws[0] + Join(ws[1..])
  }

  lemma {:induction false} WordOf(w: string, rest: string)
    requires '/' !in w && (rest == [] || rest[0] == '/')
    ensures Word(w + rest) == w
  {
    if w != [] {
      assert (w + rest)[1..] == w[1..] + rest;
      WordOf(w[1..], rest);
    } else {
      assert w + rest == rest;
    }
  }

  lemma {:induction false} JoinStarts(ws: seq<string>)
    ensures Join(ws) == [] || Join(ws)[0] == '/'
  {
  }

  lemma SplitFirst(w: string, rest: string)
    requires Name(w) && (rest == [] || rest[0] == '/')
    ensures Components(['/'] + (w + rest)) == [w] + Components(rest)
  {
    var s := ['/'] + (w + rest);
    assert s[1..] == w + rest;
    WordOf(w, rest);
    assert (w + rest)[|w|..] == rest && (w + rest)[0] == w[0];
  }

  /** Splitting undoes joining. */
  lemma {:induction false} SplitJoin(ws: seq<string>)
    requires forall i :: 0 <= i < |ws| ==> Name(ws[i])
    ensures Components(Join(ws)) == ws
  {
    if ws != [] {
      var w, rest := ws[0], Join(ws[1..]);
      JoinStarts(ws[1..]);
      SplitJoin(ws[1..]);
      assert Join(ws) == ['/'] + (w + rest);
      SplitFirst(w, rest);
    }
  }

  lemma {:induction false} JoinSnoc(ws: seq<string>, w: string)
    ensures Join(ws + [w]) == Join(ws) + ['/'] + w
  {
    if ws == [] {
      assert Join([w]) == ['/'] + w + Join([]);
    } else {
      assert (ws + [w])[1..] == ws[1..] + [w];
      JoinSnoc(ws[1..], w);
    }
  }

  lemma SkipSlash(s: string, i: nat)
    requires i < |s| && s[i] == '/'
    ensures Components(s[i..]) == Components(s[i + 1..])
  {
  }

  lemma TakeWord(s: string, start: nat, i: nat)
    requires start <= i <= |s| && '/' !in s[start..i] && (i == |s| || (s[i] == '/' && start < i))
    ensures Components(s[start..]) == if start == i then [] else [s[start..i]] + Components(s[i..])
  {
    var w, rest := s[start..i], s[i..];
    assert s[start..] == w + rest;
    WordOf(w, rest);
    if start < i { assert s[start..][0] == w[0]; }
    assert s[start..][|w|..] == rest;
  }

  /** path_parse: the first name of the path, and what is left of it (NULL at the end). */
  method PathParse(path: string) returns (name: string, rest: Option<string>)
    ensures Components(path) == (if name == [] then [] else [name] + Components(rest.UnwrapOr([])))
    ensures name == [] ==> rest == None
    ensures rest.Some? ==> 0 < |rest.value| && rest.value[0] == '/'
    ensures |rest.UnwrapOr([])| + |name| + (if path != [] && path[0] == '/' then 1 else 0) <= |path|
  {
    hide Components, Word, Name;
    var i := 0;
    assert path[0..] == path;
    if |path| > 0 && path[0] == '/' {
      SkipSlash(path, 0);
      i := 1;
      while i < |path| && path[i] == '/'
        invariant 1 <= i <= |path| && Components(path[i..]) == Components(path)
      {
        SkipSlash(path, i);
        i := i + 1;
      }
    }
    ghost var start := i;
    name := [];
    while i < |path| && path[i] != '/'
      invariant start <= i <= |path| && name == path[start..i] && '/' !in name
      invariant start == i ==> start == |path| || path[start] != '/'
    {
      name := name + [path[i]];
      i := i + 1;
    }
    TakeWord(path, start, i);
    rest := if i == |path| then None else Some(path[i..]);
    assert i == |path| ==> path[i..] == [];
  }

  // ------------------------------------------------------------------ search_file

  /** What search_file reports: the inode number, its kind and the directory it was found in,
      or the directory in which the search failed. */
  datatype Search = Hit(ino: nat, kind: Kind, parent: nat) | Missing(parent: nat) | Stop(at: Halt)

  function Slots(t: Tree, n: nat): seq<Entry> {
    if n in t then t[n] else []
  }

  /** The walk from directory `at`, whose parent on the walk is `parent`; `last` is the number
      in the entry read last.  A regular file ends the walk even when names are left. */
  function Walk(t: Tree, at: nat, parent: nat, last: nat, names: seq<string>): Search
    decreases |names|
  {
    if names == [] then Hit(last, Directory, parent)
    else match ByName(Slots(t, at), names[0])
      case None => Missing(at)
      case Some(e) =>
        match e.kind
        case Directory => Walk(t, e.ino, at, e.ino, names[1..])
        case Regular => Hit(e.ino, Regular, at)
        case Unknown => Walk(t, at, parent, e.ino, names[1..])
  }

  /** `junk` is what the uninitialised entry on the stack holds: "//" and the like return it. */
  function SearchFile(t: Tree, path: string, junk: nat): Search {
    if path == "/" || path == "/." || path == "/.." then Hit(0, Directory, 0)
    else if !(|path| > 1 && path[0] == '/' && |path| < 512) then Stop(Stopped("fs/fs.c", 294))
    else Walk(t, 0, 0, junk, Components(path))
  }

  /** The same walk with the record it keeps: `used` is the length of searched_path so far.  Line 310
      tests it before every name is looked up. */
  function WalkFrom(t: Tree, at: nat, parent: nat, last: nat, names: seq<string>, used: nat): Search
    decreases |names|
  {
    if names == [] then Hit(last, Directory, parent)
    else if used >= 512 then Stop(Stopped("fs/fs.c", 310))
    else match ByName(Slots(t, at), names[0])
      case None => Missing(at)
      case Some(e) =>
        match e.kind
        case Directory => WalkFrom(t, e.ino, at, e.ino, names[1..], used + 1 + |names[0]|)
        case Regular => Hit(e.ino, Regular, at)
        case Unknown => WalkFrom(t, at, parent, e.ino, names[1..], used + 1 + |names[0]|)
  }

  /** search_file with a record whose searched_path holds `stale` up to its first zero byte. */
  function SearchFrom(t: Tree, path: string, junk: nat, stale: string): Search {
    if path == "/" || path == "/." || path == "/.." then Hit(0, Directory, 0)
    else if !(|path| > 1 && path[0] == '/' && |path| < 512) then Stop(Stopped("fs/fs.c", 294))
    else WalkFrom(t, 0, 0, junk, Components(path), |stale|)
  }

  /** A name is looked up, after k others, with no less than 512 characters in the record. */
  ghost predicate Overrun(t: Tree, at: nat, parent: nat, last: nat, names: seq<string>, used: nat) {
    exists k :: 0 <= k < |names| && used + |Join(names[..k])| >= 512
                && var r := Walk(t, at, parent, last, names[..k]); r.Hit? && r.kind == Directory
  }

  /** The stop on line 310 comes exactly in that case; otherwise the record makes no difference. */
  lemma {:induction false} OverrunIff(t: Tree, at: nat, parent: nat, last: nat, names: seq<string>, used: nat)
    ensures WalkFrom(t, at, parent, last, names, used) ==
            if Overrun(t, at, parent, last, names, used) then Stop(Stopped("fs/fs.c", 310)) else Walk(t, at, parent, last, names)
    decreases |names|
  {
    if names != [] {
      if used >= 512 {
        assert names[..0] == [];
      } else {
        match ByName(Slots(t, at), names[0])
        case None => LaterStops(t, at, parent, last, names, used);
        case Some(e) =>
          if e.kind == Regular {
            LaterStops(t, at, parent, last, names, used);
          } else {
            var at1, parent1 := if e.kind == Directory then e.ino else at, if e.kind == Directory then at else parent;
            OverrunIff(t, at1, parent1, e.ino, names[1..], used + 1 + |names[0]|);
            OverrunStep(t, at, parent, last, names, used, e, at1, parent1);
          }
      }
    }
  }

  /** A walk that ends at its first name visits no other. */
  lemma LaterStops(t: Tree, at: nat, parent: nat, last: nat, names: seq<string>, used: nat)
    requires names != [] && used < 512
    requires var found := ByName(Slots(t, at), names[0]); found.None? || found.value.kind == Regular
    ensures !Overrun(t, at, parent, last, names, used)
  {
    forall k | 0 <= k < |names| && used + |Join(names[..k])| >= 512
      ensures var r := Walk(t, at, parent, last, names[..k]); !(r.Hit? && r.kind == Directory)
    {
      assert k > 0 && names[..k][0] == names[0];
    }
  }

  lemma OverrunStep(t: Tree, at: nat, parent: nat, last: nat, names: seq<string>, used: nat, e: Entry, at1: nat, parent1: nat)
    requires names != [] && used < 512 && ByName(Slots(t, at), names[0]) == Some(e) && e.kind != Regular
    requires at1 == (if e.kind == Directory then e.ino else at) && parent1 == (if e.kind == Directory then at else parent)
    ensures Overrun(t, at, parent, last, names, used) <==> Overrun(t, at1, parent1, e.ino, names[1..], used + 1 + |names[0]|)
  {
    forall k | 0 < k <= |names|
      ensures Walk(t, at, parent, last, names[..k]) == Walk(t, at1, parent1, e.ino, names[1..][..k - 1])
      ensures |Join(names[..k])| == 1 + |names[0]| + |Join(names[1..][..k - 1])|
    {
      assert names[..k][0] == names[0] && names[..k][1..] == names[1..][..k - 1];
    }
    if Overrun(t, at1, parent1, e.ino, names[1..], used + 1 + |names[0]|) {
      var k :| 0 <= k < |names[1..]| && used + 1 + |names[0]| + |Join(names[1..][..k])| >= 512
               && var r := Walk(t, at1, parent1, e.ino, names[1..][..k]); r.Hit? && r.kind == Directory;
      assert Walk(t, at, parent, last, names[..k + 1]) == Walk(t, at1, parent1, e.ino, names[1..][..k]);
    }
  }

  /** What search_file appends is no longer than the path. */
  lemma {:induction false} JoinedLength(s: string)
    ensures |Join(Components(s))| <= |s| + if s != [] && s[0] != '/' then 1 else 0
    decreases |s|
  {
    if s != [] {
      if s[0] == '/' {
        JoinedLength(s[1..]);
        if |s| > 1 && s[1] != '/' { assert s[1..][0] != '/'; }
      } else {
        JoinedLength(s[|Word(s)|..]);
      }
    }
  }

  lemma {:induction false} PrefixShorter(ws: seq<string>, k: nat)
    requires k < |ws|
    ensures |Join(ws[..k])| < |Join(ws)|
  {
    if k > 0 {
      assert ws[..k][1..] == ws[1..][..k - 1];
      PrefixShorter(ws[1..], k - 1);
    }
  }

  /** With a cleared record the assertion on line 310 cannot fire. */
  lemma ClearRecord(t: Tree, path: string, junk: nat)
    ensures SearchFrom(t, path, junk, "") == SearchFile(t, path, junk)
  {
    hide Components, Walk, WalkFrom, Join;
    if |path| > 1 && path[0] == '/' && |path| < 512 {
      var ws := Components(path);
      OverrunIff(t, 0, 0, junk, ws, 0);
      JoinedLength(path);
      forall k | 0 <= k < |ws| ensures |Join(ws[..k])| < 512 { PrefixShorter(ws, k); }
    }
  }

  /** The case on which it does: "/a/b" with 510 characters left in the record of an earlier call. */
  lemma StaleRecord(t: Tree, junk: nat, stale: string, n: nat)
    requires ByName(Slots(t, 0), "a") == Some(Entry("a", n, Directory)) && |stale| == 510
    ensures SearchFrom(t, "/a/b", junk, stale) == Stop(Stopped("fs/fs.c", 310))
  {
    hide Components;
    assert ["a", "b"][1..] == ["b"] && ["b"][1..] == [];
    assert Join(["b"]) == "/b" && Join(["a", "b"]) == "/a/b";
    SplitJoin(["a", "b"]);
  }

  lemma NoNames()
    ensures Components([]) == []
  {
  }

  // ------------------------------------------------------------- well-formed trees

  ghost predicate SlotOk(t: Tree, n: nat, e: Entry) {
    if e.kind == Unknown then e == EMPTY
    else
      && Name(e.name) && |e.name| <= 15 && e.name != "." && e.name != ".."
      && (e.kind == Directory ==> e.ino in t && e.ino != 0 && |t[e.ino]| >= 2 && t[e.ino][1].ino == n)
      && (e.kind == Regular ==> e.ino !in t)
  }

  ghost predicate Listed(t: Tree, p: nat, n: nat)
    requires p in t
  {
    exists i :: 2 <= i < |t[p]| && t[p][i].kind == Directory && t[p][i].ino == n
  }

  /** "." and ".." in slots 0 and 1; the parent lists the directory and is nearer to the root. */
  ghost predicate Rooted(t: Tree, depth: map<nat, nat>, n: nat)
    requires n in t && t.Keys <= depth.Keys
  {
    var l := t[n];
    && n < 4096 && |l| >= 2 && l[0] == Entry(".", n, Directory)
    && l[1].name == ".." && l[1].kind == Directory && l[1].ino in t
    && (if n == 0 then l[1].ino == 0 else depth[l[1].ino] < depth[n] && Listed(t, l[1].ino, n))
  }

  ghost predicate SlotsOk(t: Tree, n: nat)
    requires n in t
  {
    forall i :: 2 <= i < |t[n]| ==> SlotOk(t, n, t[n][i])
  }

  /** Names and inode numbers are unique. */
  ghost predicate NoRepeats(l: seq<Entry>) {
    forall i, j :: 2 <= i < j < |l| && l[i].kind != Unknown && l[j].kind != Unknown ==> l[i].name != l[j].name && l[i].ino != l[j].ino
  }

  ghost predicate DirOk(t: Tree, depth: map<nat, nat>, n: nat)
    requires n in t && t.Keys <= depth.Keys
  {
    Rooted(t, depth, n) && SlotsOk(t, n) && NoRepeats(t[n])
  }

  ghost predicate WellFormed(t: Tree, depth: map<nat, nat>) {
    0 in t && t.Keys <= depth.Keys && forall n :: n in t ==> DirOk(t, depth, n)
  }

  function Parent(t: Tree, n: nat): nat
    requires n in t && |t[n]| >= 2
  {
    t[n][1].ino
  }

  /** The parent's entry for a directory is what both look-ups find. */
  lemma ChildFound(t: Tree, depth: map<nat, nat>, n: nat) returns (e: Entry)
    requires WellFormed(t, depth) && n in t && n != 0
    ensures |t[n]| >= 2 && Parent(t, n) in t && depth[Parent(t, n)] < depth[n]
    ensures e.ino == n && e.kind == Directory && Name(e.name) && |e.name| <= 15 && e.name != "." && e.name != ".."
    ensures ByIno(t[Parent(t, n)], n) == Some(e) && ByName(t[Parent(t, n)], e.name) == Some(e)
  {
    var p, i := ChildSlot(t, depth, n);
    e := t[p][i];
    forall j | 0 <= j < |t[p]| && j != i ensures t[p][j].ino != n && t[p][j].name != e.name {
      OtherSlot(t, depth, n, i, j);
    }
    OnlySlot(t[p], i);
  }

  lemma ChildSlot(t: Tree, depth: map<nat, nat>, n: nat) returns (p: nat, i: nat)
    requires WellFormed(t, depth) && n in t && n != 0
    ensures |t[n]| >= 2 && p == Parent(t, n) && p in t && depth[p] < depth[n]
    ensures 2 <= i < |t[p]| && t[p][i].kind == Directory && t[p][i].ino == n && SlotOk(t, p, t[p][i])
  {
    assert DirOk(t, depth, n);
    p := Parent(t, n);
    assert DirOk(t, depth, p);
    i :| 2 <= i < |t[p]| && t[p][i].kind == Directory && t[p][i].ino == n;
  }

  lemma OtherSlot(t: Tree, depth: map<nat, nat>, n: nat, i: nat, j: nat)
    requires WellFormed(t, depth) && n in t && n != 0 && |t[n]| >= 2
    requires var p := Parent(t, n); p in t && depth[p] < depth[n] && 2 <= i < |t[p]| && j < |t[p]| && j != i
    requires var e := t[Parent(t, n)][i]; e.ino == n && e.kind == Directory && SlotOk(t, Parent(t, n), e)
    ensures var l := t[Parent(t, n)]; l[j].ino != n && l[j].name != l[i].name
  {
    var p := Parent(t, n);
    assert DirOk(t, depth, p);
    if j >= 2 { assert SlotOk(t, p, t[p][j]); }
  }

  lemma {:induction false} OnlySlot(l: seq<Entry>, i: nat)
    requires i < |l| && forall j :: 0 <= j < |l| && j != i ==> l[j].ino != l[i].ino && l[j].name != l[i].name
    ensures ByIno(l, l[i].ino) == Some(l[i]) && ByName(l, l[i].name) == Some(l[i])
  {
  }

  // ------------------------------------------------------------ the path of a directory

  /** Root-to-leaf names of a directory: the definition sys_getcwd is measured against. */
  ghost function PathOf(t: Tree, depth: map<nat, nat>, n: nat): (ws: seq<string>)
    requires WellFormed(t, depth) && n in t
    decreases depth[n]
  {
    if n == 0 then []
    else
      assert DirOk(t, depth, n);
      PathOf(t, depth, Parent(t, n)) + [ByIno(t[Parent(t, n)], n).UnwrapOr(EMPTY).name]
  }

  lemma {:induction false} PathNames(t: Tree, depth: map<nat, nat>, n: nat)
    requires WellFormed(t, depth) && n in t
    ensures forall w :: w in PathOf(t, depth, n) ==> Name(w) && |w| <= 15 && w != "." && w != ".."
    ensures n != 0 ==> PathOf(t, depth, n) != []
    decreases depth[n]
  {
    if n != 0 {
      var e := ChildFound(t, depth, n);
      PathNames(t, depth, Parent(t, n));
    }
  }

  /** Walking a directory's path leads to it. */
  lemma {:induction false} WalkPath(t: Tree, depth: map<nat, nat>, n: nat, junk: nat, tail: seq<string>)
    requires WellFormed(t, depth) && n in t
    ensures Walk(t, 0, 0, junk, PathOf(t, depth, n) + tail) ==
            if n == 0 then Walk(t, 0, 0, junk, tail) else Walk(t, n, t[n][1].ino, n, tail)
    decreases depth[n]
  {
    hide DirOk, Walk;
    if n == 0 {
      assert [] + tail == tail;
    } else {
      var e := ChildFound(t, depth, n);
      var p := Parent(t, n);
      var step := [e.name] + tail;
      WalkPath(t, depth, p, junk, step);
      assert PathOf(t, depth, n) + tail == PathOf(t, depth, p) + step;
      HasDots(t, depth, p);
      WalkStep(t, p, if p == 0 then 0 else t[p][1].ino, if p == 0 then junk else p, e, tail);
    }
  }

  lemma HasDots(t: Tree, depth: map<nat, nat>, n: nat)
    requires WellFormed(t, depth) && n in t
    ensures |t[n]| >= 2 && (n == 0 ==> t[n][1].ino == 0)
  {
    assert DirOk(t, depth, n);
  }

  lemma WalkStep(t: Tree, at: nat, parent: nat, last: nat, e: Entry, tail: seq<string>)
    requires ByName(Slots(t, at), e.name) == Some(e) && e.kind == Directory
    ensures Walk(t, at, parent, last, [e.name] + tail) == Walk(t, e.ino, at, e.ino, tail)
  {
  }

  function CwdPath(ws: seq<string>): string { if ws == [] then "/" else Join(ws) }

  lemma NotRootPath(ws: seq<string>)
    requires ws != [] && forall i :: 0 <= i < |ws| ==> Name(ws[i]) && ws[i] != "." && ws[i] != ".."
    ensures Join(ws) != "/" && Join(ws) != "/." && Join(ws) != "/.." && |Join(ws)| > 1 && Join(ws)[0] == '/'
  {
    SplitJoin(ws);
    assert Components("/") == [];
    assert Components("/.") == ["."] by { DotPaths(); }
    assert Components("/..") == [".."] by { DotPaths(); }
  }

  lemma DotPaths()
    ensures Components("/.") == ["."] && Components("/..") == [".."]
  {
    assert Join(["."]) == "/." && Join([".."]) == "/..";
    SplitJoin(["."]);
    SplitJoin([".."]);
  }

  /** search_file on a directory's path finds the directory, in its parent. */
  lemma SearchFindsPath(t: Tree, depth: map<nat, nat>, n: nat, junk: nat)
    requires WellFormed(t, depth) && n in t && |Join(PathOf(t, depth, n))| < 512
    ensures var r := SearchFile(t, CwdPath(PathOf(t, depth, n)), junk); r == Hit(n, Directory, t[n][1].ino)
  {
    hide WellFormed, Components, Join, PathOf, ByName, Name;
    var ws := PathOf(t, depth, n);
    PathNames(t, depth, n);
    HasDots(t, depth, n);
    if n == 0 {
      RootPath(t, depth);
    } else {
      forall i | 0 <= i < |ws| ensures Name(ws[i]) && ws[i] != "." && ws[i] != ".." { assert ws[i] in ws; }
      NotRootPath(ws);
      SplitJoin(ws);
      WalkPath(t, depth, n, junk, []);
      assert ws + [] == ws;
    }
  }

  lemma RootPath(t: Tree, depth: map<nat, nat>)
    requires WellFormed(t, depth)
    ensures PathOf(t, depth, 0) == []
  {
  }

  // --------------------------------------------------------------------- reversal

  function Reversed(ws: seq<string>): seq<string> {
    if ws == [] then [] else Reversed(ws[1..]) + [ws[0]]
  }

  lemma {:induction false} JoinAppend(a: seq<string>, b: seq<string>)
    ensures Join(a + b) == Join(a) + Join(b)
  {
    if a == [] {
      assert a + b == b;
    } else {
      assert (a + b)[1..] == a[1..] + b;
      JoinAppend(a[1..], b);
    }
  }

  lemma {:induction false} ReversedLength(ws: seq<string>)
    ensures |Join(Reversed(ws))| == |Join(ws)|
  {
    if ws != [] {
      JoinSnoc(Reversed(ws[1..]), ws[0]);
      ReversedLength(ws[1..]);
    }
  }

  /** strrchr for a slash. */
  method LastSlash(s: string) returns (i: int)
    ensures -1 <= i < |s| && (i >= 0 ==> s[i] == '/') && forall j :: i < j < |s| ==> s[j] != '/'
  {
    i := -1;
    var k := 0;
    while k < |s|
      invariant -1 <= i < k <= |s| && (i >= 0 ==> s[i] == '/') && forall j :: i < j < k ==> s[j] != '/'
    {
      if s[k] == '/' {
        i := k;
      }
      k := k + 1;
    }
  }

  /** The last slash of a joined path starts its last name. */
  lemma LastSlashIs(ws: seq<string>, w: string, i: int)
    requires '/' !in w && -1 <= i < |Join(ws + [w])| && (i >= 0 ==> Join(ws + [w])[i] == '/')
    requires forall j :: i < j < |Join(ws + [w])| ==> Join(ws + [w])[j] != '/'
    ensures i == |Join(ws)| && Join(ws + [w])[i..] == ['/'] + w && Join(ws + [w])[..i] == Join(ws)
  {
    JoinSnoc(ws, w);
    var s, n := Join(ws + [w]), |Join(ws)|;
    assert s[n] == '/';
    assert s[n..] == ['/'] + w && s[..n] == Join(ws);
    forall j | n < j < |s| ensures s[j] != '/' { assert s[j] == w[j - n - 1]; }
  }

  /** The last-slash loop of sys_getcwd turns leaf-to-root into root-to-leaf. */
  method ReversePath(leafFirst: string, ghost ws: seq<string>) returns (buf: string)
    requires leafFirst == Join(Reversed(ws)) && forall w :: w in ws ==> '/' !in w
    ensures buf == Join(ws)
  {
    hide Join;
    var rev := leafFirst;
    ghost var k := 0;
    buf := "";
    EmptyJoin();
    assert ws[0..] == ws;
    var slash := LastSlash(rev);
    while slash >= 0
      invariant 0 <= k <= |ws| && rev == Join(Reversed(ws[k..])) && buf == Join(ws[..k])
      invariant -1 <= slash < |rev| && (slash >= 0 ==> rev[slash] == '/') && forall j :: slash < j < |rev| ==> rev[j] != '/'
      decreases |rev|
    {
      assert ws[k..][1..] == ws[k + 1..];
      LastSlashIs(Reversed(ws[k + 1..]), ws[k], slash);
      JoinSnoc(ws[..k], ws[k]);
      assert ws[..k] + [ws[k]] == ws[..k + 1];
      buf := buf + rev[slash..];
      rev := rev[..slash];
      k := k + 1;
      slash := LastSlash(rev);
    }
    if k < |ws| {
      assert ws[k..][1..] == ws[k + 1..];
      LastSlashIs(Reversed(ws[k + 1..]), ws[k], slash);
    }
    assert ws[..k] == ws;
  }

  lemma EmptyJoin()
    ensures Join([]) == []
  {
  }

  // ---------------------------------------------------------------- cwd of a task

  datatype CwdResult = Cwd(path: string) | NoCwd | CwdStop(at: Halt)

  /** get_child_dir_name's search through the slots. */
  method ChildName(slots: seq<Entry>, ino: nat) returns (r: Option<string>)
    ensures r == match ByIno(slots, ino) case Some(e) => Some(e.name) case None => None
  {
    var i := 0;
    assert slots[0..] == slots;
    while i < |slots|
      invariant 0 <= i <= |slots| && ByIno(slots, ino) == ByIno(slots[i..], ino)
    {
      if slots[i].ino == ino {
        return Some(slots[i].name);
      }
      assert slots[i..][1..] == slots[i + 1..];
      i := i + 1;
    }
    r := None;
  }

  class Task {
    var cwd: nat  // cwd_inode_nr

    constructor (n: nat)
      ensures cwd == n
    {
      cwd := n;
    }
  }

  lemma NoneReversed()
    ensures Reversed([]) == []
  {
  }

  lemma NameHasNoSlash(w: string)
    requires Name(w)
    ensures '/' !in w
  {
  }

  /** One more name at the front is one more name at the end of the reversed path. */
  lemma OneMore(suffix: seq<string>, w: string) returns (more: seq<string>)
    ensures more == [w] + suffix && Join(Reversed(more)) == Join(Reversed(suffix)) + ['/'] + w
  {
    more := [w] + suffix;
    assert more[1..] == suffix;
    JoinSnoc(Reversed(suffix), w);
  }

  // ------------------------------------------------------------------ round trips

  lemma {:induction false} WalkStays(t: Tree, depth: map<nat, nat>, at: nat, parent: nat, last: nat, names: seq<string>)
    requires WellFormed(t, depth) && at in t && last in t && forall i :: 0 <= i < |names| ==> Name(names[i])
    ensures var r := Walk(t, at, parent, last, names); r.Hit? && r.kind == Directory ==> r.ino in t
    decreases |names|
  {
    hide DirOk;
    if names != [] {
      var found := ByName(t[at], names[0]);
      if found.Some? && found.value.kind != Regular {
        DirEntriesInside(t, depth, at, found.value);
        WalkStays(t, depth, found.value.ino, at, found.value.ino, names[1..]);
      }
    }
  }

  lemma DirEntriesInside(t: Tree, depth: map<nat, nat>, n: nat, e: Entry)
    requires WellFormed(t, depth) && n in t && e in t[n] && e.name != "" && e.kind != Regular
    ensures e.kind == Directory && e.ino in t
  {
    hide DirOk;
    DirEntryInside(t, depth, n, e);
  }

  lemma DirEntryInside(t: Tree, depth: map<nat, nat>, n: nat, e: Entry)
    requires n in t && t.Keys <= depth.Keys && DirOk(t, depth, n) && e in t[n] && e.name != "" && e.kind != Regular
    ensures e.kind == Directory && e.ino in t
  {
  }

  /** A path other than the three root spellings that finds a directory finds one of the tree,
      unless it is nothing but slashes: then search_file returns what was on the stack. */
  lemma SearchStays(t: Tree, depth: map<nat, nat>, path: string, junk: nat)
    requires WellFormed(t, depth)
    ensures var r := SearchFile(t, path, junk);
            r.Hit? && r.kind == Directory ==> r.ino in t || (Components(path) == [] && r.ino == junk)
  {
    hide DirOk, Word;
    var ws := Components(path);
    if ws != [] && |path| > 1 {
      var found := ByName(t[0], ws[0]);
      if found.Some? && found.value.kind != Regular {
        DirEntriesInside(t, depth, 0, found.value);
        WalkStays(t, depth, found.value.ino, 0, found.value.ino, ws[1..]);
      }
    }
  }

  /** getcwd and chdir are inverse on every directory of a well-formed tree: whatever path led
      to directory n, the path that getcwd reports leads to n again, and n's entry is in the
      directory that search_file leaves open. */
  lemma CwdRoundTrip(t: Tree, depth: map<nat, nat>, path: string, junk: nat, junk1: nat)
    requires WellFormed(t, depth) && Components(path) != []
    requires var r := SearchFile(t, path, junk); r.Hit? && r.kind == Directory
    ensures var n := SearchFile(t, path, junk).ino;
            && n in t && |t[n]| >= 2
            && var cwd := CwdPath(PathOf(t, depth, n));
               |cwd| < 512 ==> SearchFile(t, cwd, junk1) == Hit(n, Directory, t[n][1].ino)
  {
    SearchStays(t, depth, path, junk);
    var n := SearchFile(t, path, junk).ino;
    HasDots(t, depth, n);
    if |Join(PathOf(t, depth, n))| < 512 {
      SearchFindsPath(t, depth, n, junk1);
    }
  }

  // --------------------------------------------------- a file in the middle of a path

  /** A proper prefix of the names leads to a regular file. */
  ghost predicate ThroughFile(t: Tree, at: nat, parent: nat, last: nat, names: seq<string>) {
    exists k :: 0 < k < |names| && var r := Walk(t, at, parent, last, names[..k]); r.Hit? && r.kind == Regular
  }

  /** Path resolution as its callers expect it: a file has no children. */
  ghost function Resolve(t: Tree, at: nat, parent: nat, last: nat, names: seq<string>): Search
    decreases |names|
  {
    if names == [] then Hit(last, Directory, parent)
    else match ByName(Slots(t, at), names[0])
      case None => Missing(at)
      case Some(e) =>
        match e.kind
        case Directory => Resolve(t, e.ino, at, e.ino, names[1..])
        case Regular => if |names| == 1 then Hit(e.ino, Regular, at) else Missing(at)
        case Unknown => Resolve(t, at, parent, e.ino, names[1..])
  }

  /** search_file resolves a path correctly exactly when no proper prefix of it is a file. */
  lemma {:induction false} ResolvesIff(t: Tree, at: nat, parent: nat, last: nat, names: seq<string>)
    ensures Walk(t, at, parent, last, names) == Resolve(t, at, parent, last, names)
            <==> !ThroughFile(t, at, parent, last, names)
    decreases |names|
  {
    if names != [] {
      match ByName(Slots(t, at), names[0])
      case None =>
        forall k | 0 < k < |names| ensures Walk(t, at, parent, last, names[..k]) == Missing(at) {
          assert names[..k][0] == names[0];
        }
      case Some(e) =>
        if e.kind == Regular {
          if |names| > 1 { assert names[..1][0] == names[0]; }
        } else {
          var at1, parent1 := if e.kind == Directory then e.ino else at, if e.kind == Directory then at else parent;
          ResolvesIff(t, at1, parent1, e.ino, names[1..]);
          PrefixStep(t, at, parent, last, names, e, at1, parent1);
        }
    }
  }

  lemma PrefixStep(t: Tree, at: nat, parent: nat, last: nat, names: seq<string>, e: Entry, at1: nat, parent1: nat)
    requires names != [] && ByName(Slots(t, at), names[0]) == Some(e) && e.kind != Regular
    requires at1 == (if e.kind == Directory then e.ino else at) && parent1 == (if e.kind == Directory then at else parent)
    ensures ThroughFile(t, at, parent, last, names) <==> ThroughFile(t, at1, parent1, e.ino, names[1..])
  {
    forall k | 0 < k <= |names|
      ensures Walk(t, at, parent, last, names[..k]) == Walk(t, at1, parent1, e.ino, names[1..][..k - 1])
    {
      assert names[..k][0] == names[0] && names[..k][1..] == names[1..][..k - 1];
    }
    if ThroughFile(t, at1, parent1, e.ino, names[1..]) {
      var k :| 0 < k < |names[1..]| && var r := Walk(t, at1, parent1, e.ino, names[1..][..k]); r.Hit? && r.kind == Regular;
      assert Walk(t, at, parent, last, names[..k + 1]) == Walk(t, at1, parent1, e.ino, names[1..][..k]);
    }
  }

  /** "/f/x" finds the file f. */
  lemma FileWithChild()
    ensures var root := [Entry(".", 0, Directory), Entry("..", 0, Directory), Entry("f", 7, Regular)];
            SearchFile(map[0 := root], "/f/x", 0) == Hit(7, Regular, 0)
  {
  }
}
