/** The directory tree of a volume.  sys_mkdir and sys_rmdir keep it well-formed, so that what
    Paths proves of well-formed trees holds throughout every run of them. */
module DirTree {
  import opened Basics
  import opened Entries
  import opened Volume
  import opened DirModel
  import opened Directory
  import opened FileSystem
  import opened Paths

  // ----------------------------------------------------- slots and listings agree

  /** get_child_dir_name looks for a non-zero number among all slots; free slots hold 0. */
  lemma {:induction false} ByInoLive(l: seq<Entry>, ino: nat)
    requires ino != 0 && forall e :: e in l && e.kind == Unknown ==> e == EMPTY
    ensures ByIno(l, ino) == ByIno(Entered(l), ino)
  {
    if l != [] {
      assert l[0] in l;
      ByInoLive(l[1..], ino);
      LiveCons(l);
      ByInoAppend(if l[0].kind == Unknown then [] else [l[0]], Entered(l[1..]), ino);
    }
  }

  lemma {:induction false} ByInoAppend(l: seq<Entry>, m: seq<Entry>, ino: nat)
    ensures ByIno(l + m, ino) == if ByIno(l, ino).Some? then ByIno(l, ino) else ByIno(m, ino)
  {
    if l == [] {
      assert l + m == m;
    } else {
      assert (l + m)[1..] == l[1..] + m;
      ByInoAppend(l[1..], m, ino);
    }
  }

  /** The tree over the directories `dirs` of a volume. */
  ghost function TreeOf(v: Vol, dirs: set<nat>): Tree
    requires dirs <= v.inodes.Keys
  {
    map d | d in dirs :: Listing(v, d)
  }

  /** Look-ups by name and by number in the blocks of a directory are look-ups in the tree. */
  lemma TreeLookups(v: Vol, dirs: set<nat>, d: nat, name: string, ino: nat)
    requires dirs <= v.inodes.Keys && d in dirs && CleanOk(v, d) && name != "" && ino != 0
    ensures ByName(From(v, d, 0), name) == ByName(Slots(TreeOf(v, dirs), d), name)
    ensures ByIno(From(v, d, 0), ino) == ByIno(Slots(TreeOf(v, dirs), d), ino)
  {
    hide From, Entered, CleanOk, ByName, ByIno;
    FromClean(v, d, 0);
    ByNameLive(From(v, d, 0), name);
    ByInoLive(From(v, d, 0), ino);
  }

  // ------------------------------------------------------------------------- mkdir

  /** The number is in use nowhere in the tree, and inode_sync does not change it. */
  ghost predicate Unused(t: Tree, n: nat) {
    n !in t && n < 256 && n != 0 && forall d, e :: d in t && e in t[d] ==> e.ino != n
  }

  ghost predicate NewName(t: Tree, d: nat, name: string)
    requires d in t
  {
    Name(name) && |name| <= 15 && name != "." && name != ".." && forall e :: e in t[d] ==> e.name != name
  }

  ghost predicate Made(t: Tree, t1: Tree, parent: nat, n: nat, name: string) {
    && parent in t && n !in t && t1.Keys == t.Keys + {n}
    && t1[n] == [Entry(".", n, Directory), Entry("..", parent, Directory)]
    && (forall d :: d in t && d != parent ==> t1[d] == t[d])
    && exists p :: p >= 2 && InsertedAt(t[parent], t1[parent], p, Entry(name, n, Directory))
  }

  /** What sys_mkdir does to the blocks is Made of the tree. */
  lemma MkdirIsMade(v: Vol, v1: Vol, dirs: set<nat>, parent: nat, n: nat, name: string)
    requires OwnOk(v) && parent in dirs && dirs <= v.inodes.Keys && (forall d :: d in dirs ==> DirModel.DirOk(v, d))
    requires CanAdd(v, parent, Entry(name, n, Directory)) && Roomy(v, parent) && n !in v.inodes && MadeDir(v, v1, parent, n, name)
    ensures dirs + {n} <= v1.inodes.Keys && Made(TreeOf(v, dirs), TreeOf(v1, dirs + {n}), parent, n, name)
  {
    hide OwnOk, Isolated, DirModel.DirOk, Listing, InsertedAt, MadeDir, Roomy, CanAdd;
    MadeDirKeeps(v, v1, parent, n, name);
    var mid :| Isolated(v, mid, n) && Isolated(mid, v1, parent);
    forall d | d in dirs && d != parent ensures Listing(v1, d) == Listing(v, d) {
      DirStays(v, mid, n, d);
      DirStays(mid, v1, parent, d);
    }
    var q :| q >= 2 && InsertedAt(Listing(v, parent), Listing(v1, parent), q, Entry(name, n, Directory));
    assert InsertedAt(TreeOf(v, dirs)[parent], TreeOf(v1, dirs + {n})[parent], q, Entry(name, n, Directory));
  }

  /** Every entry of a directory after mkdir is an old one or the new one. */
  lemma MadeEntry(t: Tree, t1: Tree, parent: nat, n: nat, name: string, d: nat, i: nat)
    requires Made(t, t1, parent, n, name) && d in t && |t[d]| >= 2 && i < |t1[d]|
    ensures |t1[d]| >= |t[d]| && t1[d][0] == t[d][0] && t1[d][1] == t[d][1]
    ensures i >= 2 ==> (exists j :: 2 <= j < |t[d]| && t1[d][i] == t[d][j]) || (d == parent && t1[d][i] == Entry(name, n, Directory))
  {
    if d == parent {
      var p :| p >= 2 && InsertedAt(t[parent], t1[parent], p, Entry(name, n, Directory));
      if i >= 2 && i != p { assert t1[d][i] == t[d][if i < p then i else i - 1]; }
    } else if i >= 2 {
      assert t1[d][i] == t[d][i];
    }
  }

  lemma MadeSlot(t: Tree, t1: Tree, depth: map<nat, nat>, parent: nat, n: nat, name: string, d: nat, e: Entry)
    requires Made(t, t1, parent, n, name) && WellFormed(t, depth) && Unused(t, n) && d in t && e in t[d] && SlotOk(t, d, e)
    ensures SlotOk(t1, d, e)
  {
    hide WellFormed, Name;
    if e.kind == Directory {
      DotsThere(t, depth, e.ino);
      MadeEntry(t, t1, parent, n, name, e.ino, 0);
    }
  }

  lemma DotsThere(t: Tree, depth: map<nat, nat>, n: nat)
    requires WellFormed(t, depth) && n in t
    ensures |t[n]| >= 2
  {
    assert Paths.DirOk(t, depth, n);
  }

  /** An old directory is still listed by its parent. */
  lemma StillListed(t: Tree, t1: Tree, parent: nat, n: nat, name: string, d: nat, c: nat)
    requires Made(t, t1, parent, n, name) && d in t && Listed(t, d, c)
    ensures Listed(t1, d, c)
  {
    var i :| 2 <= i < |t[d]| && t[d][i].kind == Directory && t[d][i].ino == c;
    if d == parent {
      var p :| p >= 2 && InsertedAt(t[parent], t1[parent], p, Entry(name, n, Directory));
      assert t1[d][if i < p then i else i + 1] == t[d][i];
    } else {
      assert t1[d][i] == t[d][i];
    }
  }

  lemma InsertNoRepeat(l: seq<Entry>, l1: seq<Entry>, p: nat, e: Entry)
    requires InsertedAt(l, l1, p, e) && p >= 2 && NoRepeats(l) && forall f :: f in l ==> f.name != e.name && f.ino != e.ino
    ensures NoRepeats(l1)
  {
  }

  lemma OldNoRepeats(t: Tree, t1: Tree, parent: nat, n: nat, name: string, d: nat)
    requires Made(t, t1, parent, n, name) && Unused(t, n) && NewName(t, parent, name) && d in t && NoRepeats(t[d])
    ensures NoRepeats(t1[d])
  {
    if d == parent {
      var p :| p >= 2 && InsertedAt(t[parent], t1[parent], p, Entry(name, n, Directory));
      hide NoRepeats, InsertedAt;
      InsertNoRepeat(t[d], t1[d], p, Entry(name, n, Directory));
    }
  }

  lemma OldSlots(t: Tree, t1: Tree, depth: map<nat, nat>, parent: nat, n: nat, name: string, d: nat)
    requires WellFormed(t, depth) && Made(t, t1, parent, n, name) && Unused(t, n) && NewName(t, parent, name)
    requires d in t && SlotsOk(t, d) && |t[d]| >= 2
    ensures SlotsOk(t1, d)
  {
    hide WellFormed, SlotOk, InsertedAt, Unused;
    forall i | 2 <= i < |t1[d]| ensures SlotOk(t1, d, t1[d][i]) {
      MadeEntry(t, t1, parent, n, name, d, i);
      if j :| 2 <= j < |t[d]| && t1[d][i] == t[d][j] {
        MadeSlot(t, t1, depth, parent, n, name, d, t[d][j]);
      } else {
        NewSlot(t, t1, parent, n, name);
      }
    }
  }

  lemma NewSlot(t: Tree, t1: Tree, parent: nat, n: nat, name: string)
    requires Made(t, t1, parent, n, name) && Unused(t, n) && NewName(t, parent, name)
    ensures SlotOk(t1, parent, Entry(name, n, Directory))
  {
  }

  lemma OldRooted(t: Tree, t1: Tree, depth: map<nat, nat>, parent: nat, n: nat, name: string, d: nat)
    requires t.Keys <= depth.Keys && d in t && Rooted(t, depth, d) && Made(t, t1, parent, n, name)
    ensures Rooted(t1, depth[n := depth[parent] + 1], d)
  {
    hide Listed;
    MadeEntry(t, t1, parent, n, name, d, 0);
    if d != 0 { StillListed(t, t1, parent, n, name, t[d][1].ino, d); }
  }

  lemma NewRooted(t: Tree, t1: Tree, depth: map<nat, nat>, parent: nat, n: nat, name: string)
    requires t.Keys <= depth.Keys && Unused(t, n) && Made(t, t1, parent, n, name)
    ensures Rooted(t1, depth[n := depth[parent] + 1], n) && SlotsOk(t1, n) && NoRepeats(t1[n])
  {
    var p :| p >= 2 && InsertedAt(t[parent], t1[parent], p, Entry(name, n, Directory));
    assert t1[parent][p] == Entry(name, n, Directory);
    assert Listed(t1, parent, n);
  }

  /** sys_mkdir keeps the tree well-formed. */
  lemma MkdirKeepsTree(t: Tree, t1: Tree, depth: map<nat, nat>, parent: nat, n: nat, name: string)
    requires WellFormed(t, depth) && Unused(t, n) && Made(t, t1, parent, n, name) && NewName(t, parent, name)
    ensures parent in depth && WellFormed(t1, depth[n := depth[parent] + 1])
  {
    hide Rooted, SlotsOk, NoRepeats, InsertedAt, NewName, Unused;
    var depth1 := depth[n := depth[parent] + 1];
    NewRooted(t, t1, depth, parent, n, name);
    forall d | d in t ensures Rooted(t1, depth1, d) && SlotsOk(t1, d) && NoRepeats(t1[d]) {
      assert Paths.DirOk(t, depth, d);
      DotsThere(t, depth, d);
      OldRooted(t, t1, depth, parent, n, name, d);
      OldSlots(t, t1, depth, parent, n, name, d);
      OldNoRepeats(t, t1, parent, n, name, d);
    }
  }

  // ------------------------------------------------------------------------- rmdir

  /** The empty directory c has been removed from its parent. */
  ghost predicate Unmade(t: Tree, t1: Tree, parent: nat, c: nat) {
    && c in t && c != 0 && |t[c]| == 2 && t[c][1].ino == parent && parent in t && parent != c && t1.Keys == t.Keys - {c}
    && (forall d :: d in t1 && d != parent ==> t1[d] == t[d])
    && exists p: nat, e: Entry :: p >= 2 && e.ino == c && InsertedAt(t1[parent], t[parent], p, e)
  }

  /** Every entry left is an old one, at the same place or the next, and is not c's. */
  lemma LeftEntry(t: Tree, t1: Tree, parent: nat, c: nat, d: nat, i: nat) returns (j: nat)
    requires Unmade(t, t1, parent, c) && d in t1 && i < |t1[d]| && SlotsOk(t, d) && NoRepeats(t[d])
    ensures j < |t[d]| && t1[d][i] == t[d][j] && (i < 2 ==> j == i) && (i >= 2 ==> j >= 2)
    ensures i >= 2 && t[d][j].kind == Directory ==> t[d][j].ino != c
  {
    j := i;
    if d == parent {
      var p: nat, e: Entry :| p >= 2 && e.ino == c && InsertedAt(t1[parent], t[parent], p, e);
      if i >= p { j := i + 1; }
      assert t1[d][i] == t[d][j] && t[d][p] == e;
      if j >= 2 {
        assert SlotOk(t, d, t[d][p]) && SlotOk(t, d, t[d][j]);
      }
    } else if i >= 2 {
      assert SlotOk(t, d, t[d][j]);
    }
  }

  lemma LeftRooted(t: Tree, t1: Tree, depth: map<nat, nat>, parent: nat, c: nat, d: nat)
    requires Unmade(t, t1, parent, c) && t.Keys <= depth.Keys && d in t1 && Rooted(t, depth, d)
    ensures Rooted(t1, depth, d)
  {
  }

  lemma LeftSlots(t: Tree, t1: Tree, depth: map<nat, nat>, parent: nat, c: nat, d: nat)
    requires Unmade(t, t1, parent, c) && WellFormed(t, depth) && d in t1 && SlotsOk(t, d) && NoRepeats(t[d])
    ensures SlotsOk(t1, d)
  {
    hide WellFormed, InsertedAt, NoRepeats;
    forall i | 2 <= i < |t1[d]| ensures SlotOk(t1, d, t1[d][i]) {
      var j := LeftEntry(t, t1, parent, c, d, i);
      var e := t[d][j];
      assert SlotOk(t, d, e);
      if e.kind == Directory && e.ino == parent {
        DotsThere(t, depth, parent);
        SameDots(t, t1, parent, c);
      }
    }
  }

  lemma SameDots(t: Tree, t1: Tree, parent: nat, c: nat)
    requires Unmade(t, t1, parent, c) && |t[parent]| >= 2
    ensures |t1[parent]| >= 2 && t1[parent][1] == t[parent][1]
  {
  }

  lemma LeftNoRepeats(t: Tree, t1: Tree, parent: nat, c: nat, d: nat)
    requires Unmade(t, t1, parent, c) && d in t1 && NoRepeats(t[d])
    ensures NoRepeats(t1[d])
  {
    if d == parent {
      var p: nat, e: Entry :| p >= 2 && e.ino == c && InsertedAt(t1[parent], t[parent], p, e);
      forall i | 0 <= i < |t1[d]| ensures t1[d][i] == t[d][if i < p then i else i + 1] {}
    }
  }

  /** sys_rmdir of an empty directory keeps the tree well-formed. */
  lemma RmdirKeepsTree(t: Tree, t1: Tree, depth: map<nat, nat>, parent: nat, c: nat)
    requires WellFormed(t, depth) && Unmade(t, t1, parent, c)
    ensures WellFormed(t1, depth)
  {
    hide Rooted, SlotsOk, NoRepeats, InsertedAt;
    forall d | d in t1 ensures Rooted(t1, depth, d) && SlotsOk(t1, d) && NoRepeats(t1[d]) {
      assert Paths.DirOk(t, depth, d);
      LeftRooted(t, t1, depth, parent, c, d);
      LeftSlots(t, t1, depth, parent, c, d);
      LeftNoRepeats(t, t1, parent, c, d);
    }
  }

  // ------------------------------------------------- the directory a path search leaves open

  /** The last name of a path is found in the directory that search_file leaves open. */
  lemma {:induction false} WalkEnd(t: Tree, depth: map<nat, nat>, at: nat, parent: nat, last: nat, names: seq<string>)
    requires WellFormed(t, depth) && at in t && names != [] && forall i :: 0 <= i < |names| ==> Name(names[i])
    ensures var r := Walk(t, at, parent, last, names);
            r.Hit? && r.kind == Directory ==>
              r.parent in t && r.ino in t && ByName(t[r.parent], names[|names| - 1]) == Some(Entry(names[|names| - 1], r.ino, Directory))
    decreases |names|
  {
    hide WellFormed;
    var found := ByName(t[at], names[0]);
    if found.Some? && found.value.kind != Regular {
      DirEntriesInside(t, depth, at, found.value);
      if |names| > 1 { WalkEnd(t, depth, found.value.ino, at, found.value.ino, names[1..]); }
    }
  }

  lemma SearchEnd(t: Tree, depth: map<nat, nat>, path: string, junk: nat)
    requires WellFormed(t, depth) && Components(path) != []
    ensures var r, ws := SearchFile(t, path, junk), Components(path);
            r.Hit? && r.kind == Directory ==>
              r.parent in t && r.ino in t && ByName(t[r.parent], ws[|ws| - 1]) == Some(Entry(ws[|ws| - 1], r.ino, Directory))
  {
    hide WellFormed, Components, Walk, ByName;
    HasRoot(t, depth);
    RootHasNoNames();
    if path == "/." || path == "/.." {
      DotPaths();
    } else if path != "/" {
      WalkEnd(t, depth, 0, 0, junk, Components(path));
    }
  }

  lemma RootHasNoNames()
    ensures Components("/") == []
  {
  }

  lemma HasRoot(t: Tree, depth: map<nat, nat>)
    requires WellFormed(t, depth)
    ensures 0 in t && ByName(t[0], ".") == Some(Entry(".", 0, Directory)) && ByName(t[0], "..") == Some(Entry("..", 0, Directory))
  {
    assert Paths.DirOk(t, depth, 0);
    DotsFound(t, depth, 0);
  }

  lemma DotsFound(t: Tree, depth: map<nat, nat>, d: nat)
    requires WellFormed(t, depth) && d in t
    ensures |t[d]| >= 2 && t[d][1].ino in t && ByName(t[d], ".") == Some(Entry(".", d, Directory)) && ByName(t[d], "..") == Some(t[d][1])
  {
    assert Paths.DirOk(t, depth, d);
    assert t[d][1..][0] == t[d][1];
  }

  lemma ProperFound(t: Tree, depth: map<nat, nat>, d: nat, e: Entry)
    requires WellFormed(t, depth) && d in t && ByName(t[d], e.name) == Some(e) && e.kind == Directory && e.name != "." && e.name != ".."
    ensures e.ino in t && e.ino != 0 && |t[e.ino]| >= 2 && t[e.ino][1].ino == d
  {
    assert Paths.DirOk(t, depth, d);
  }

  /** ".." never leads to the directory it is taken from, except at the root. */
  lemma Upwards(t: Tree, depth: map<nat, nat>, d: nat)
    requires WellFormed(t, depth) && d in t
    ensures |t[d]| >= 2 && t[d][1].ino in t && |t[t[d][1].ino]| >= 2
    ensures (t[d][1].ino == d <==> d == 0) && (t[t[d][1].ino][1].ino == d <==> d == 0)
    ensures d != 0 ==> |t[t[d][1].ino]| > 2
  {
    assert Paths.DirOk(t, depth, d);
    assert Paths.DirOk(t, depth, t[d][1].ino);
  }

  function Last(path: string): string {
    var ws := Components(path); if ws == [] then "" else ws[|ws| - 1]
  }

  /** The directory left open is the parent of the one found exactly when the path does not end in
      "." or "..", or when it is the root. */
  lemma ParentIff(t: Tree, depth: map<nat, nat>, path: string, junk: nat)
    requires WellFormed(t, depth) && Components(path) != []
    requires var r := SearchFile(t, path, junk); r.Hit? && r.kind == Directory
    ensures var r := SearchFile(t, path, junk);
            && r.ino in t && r.parent in t && |t[r.ino]| >= 2
            && (t[r.ino][1].ino == r.parent <==> Last(path) !in {".", ".."} || r.parent == 0)
            && (Last(path) == "." ==> r.ino == r.parent)
            && (Last(path) == ".." ==> r.ino == 0 || |t[r.ino]| > 2)
            && (Last(path) !in {".", ".."} ==> r.ino != 0)
  {
    hide WellFormed, SearchFile, Components, ByName;
    SearchEnd(t, depth, path, junk);
    var r := SearchFile(t, path, junk);
    DotsFound(t, depth, r.ino);
    DotsFound(t, depth, r.parent);
    Upwards(t, depth, r.parent);
    if Last(path) !in {".", ".."} { ProperFound(t, depth, r.parent, Entry(Last(path), r.ino, Directory)); }
  }

  // ---------------------------------------------------------------------- sys_rmdir

  /** dir_remove(parent, c) in the tree: the first entry for c after the parent's dots goes, if
      there is one, and directory c. */
  ghost predicate Removal(t: Tree, t1: Tree, parent: nat, c: nat) {
    && c in t && parent in t && t1.Keys == t.Keys - {c}
    && (forall d :: d in t1 && d != parent ==> t1[d] == t[d])
    && (parent != c ==>
          if exists i :: 2 <= i < |t[parent]| && t[parent][i].ino == c
          then exists p: nat, e: Entry :: p >= 2 && e.ino == c && InsertedAt(t1[parent], t[parent], p, e)
          else t1[parent] == t[parent])
  }

  /** What DirRemove does to the blocks is Removal in the tree. */
  lemma RmdirIsRemoval(v: Vol, v1: Vol, dirs: set<nat>, parent: nat, c: nat)
    requires parent in dirs && c in dirs && dirs <= v.inodes.Keys && (forall d :: d in dirs ==> DirModel.DirOk(v, d))
    requires IsolatedTwo(v, v1, parent, c) && v1.inodes.Keys == v.inodes.Keys - {c}
    requires parent != c ==> EntryGone(v, v1, parent, c)
    ensures Removal(TreeOf(v, dirs), TreeOf(v1, dirs - {c}), parent, c)
  {
    hide Isolated, DirModel.DirOk, Listing, InsertedAt;
    var mid :| Isolated(v, mid, parent) && Isolated(mid, v1, c);
    forall d | d in dirs && d != parent && d != c ensures Listing(v1, d) == Listing(v, d) {
      DirStays(v, mid, parent, d);
      DirStays(mid, v1, c, d);
    }
    if parent != c && Lists(v, parent, c) {
      var q: nat, e: Entry :| q >= 2 && e.ino == c && InsertedAt(Listing(v1, parent), Listing(v, parent), q, e);
      assert InsertedAt(TreeOf(v1, dirs - {c})[parent], TreeOf(v, dirs)[parent], q, e);
    }
  }

  /** A directory is found and is empty: sys_rmdir goes on to remove it. */
  ghost predicate Removes(t: Tree, path: string, junk: nat) {
    var r := SearchFile(t, path, junk); r.Hit? && r.kind == Directory && r.ino in t && |t[r.ino]| == 2
  }

  /** A completed sys_rmdir.  An empty root cannot be removed: inode_release stops.  A path of
      nothing but slashes finds what was on the stack and is excluded. */
  ghost predicate RmdirStep(t: Tree, t1: Tree, path: string, junk: nat) {
    && (Components(path) != [] || path == "/")
    && var r := SearchFile(t, path, junk);
       if Removes(t, path, junk) then r.ino != 0 && Removal(t, t1, r.parent, r.ino) else t1 == t
  }

  /** sys_rmdir keeps the tree well-formed if and only if it does not remove a directory through a
      path that ends in ".": then the directory goes and its entry in the real parent stays. */
  lemma RmdirIff(t: Tree, t1: Tree, depth: map<nat, nat>, path: string, junk: nat)
    requires WellFormed(t, depth) && RmdirStep(t, t1, path, junk)
    ensures (exists depth1 :: WellFormed(t1, depth1)) <==> !(Last(path) == "." && Removes(t, path, junk))
    ensures !(Last(path) == "." && Removes(t, path, junk)) ==> WellFormed(t1, depth)
  {
    hide WellFormed, SearchFile, Removal, Components;
    if Removes(t, path, junk) {
      var r := SearchFile(t, path, junk);
      if Components(path) != [] {
        ParentIff(t, depth, path, junk);
        if Last(path) == "." {
          Dangling(t, t1, depth, r.ino);
        } else {
          RemovalIsUnmade(t, t1, depth, r.parent, r.ino);
          RmdirKeepsTree(t, t1, depth, r.parent, r.ino);
        }
      } else {
        RootFound(t, junk);
      }
    }
  }

  lemma RootFound(t: Tree, junk: nat)
    ensures SearchFile(t, "/", junk) == Hit(0, Directory, 0)
  {
  }

  lemma RemovalIsUnmade(t: Tree, t1: Tree, depth: map<nat, nat>, parent: nat, c: nat)
    requires WellFormed(t, depth) && Removal(t, t1, parent, c) && c != 0 && |t[c]| == 2 && t[c][1].ino == parent
    ensures Unmade(t, t1, parent, c)
  {
    Upwards(t, depth, c);
    var p, i := ChildSlot(t, depth, c);
  }

  /** The entry of a directory removed from itself is left in its parent. */
  lemma Dangling(t: Tree, t1: Tree, depth: map<nat, nat>, c: nat)
    requires WellFormed(t, depth) && c in t && c != 0 && Removal(t, t1, c, c)
    ensures !exists depth1 :: WellFormed(t1, depth1)
  {
    hide WellFormed, SlotOk;
    var p, i := ChildSlot(t, depth, c);
    Upwards(t, depth, c);
    assert p != c && t1[p] == t[p];
    forall depth1 ensures !WellFormed(t1, depth1) {
      if WellFormed(t1, depth1) { ListedInside(t1, depth1, p, i); }
    }
  }

  lemma ListedInside(t: Tree, depth: map<nat, nat>, p: nat, i: nat)
    requires WellFormed(t, depth) && p in t && 2 <= i < |t[p]| && t[p][i].kind == Directory
    ensures t[p][i].ino in t
  {
    assert Paths.DirOk(t, depth, p);
    assert SlotOk(t, p, t[p][i]);
  }

  function OneDirectory(): Tree {
    map[0 := [Entry(".", 0, Directory), Entry("..", 0, Directory), Entry("a", 1, Directory)],
        1 := [Entry(".", 1, Directory), Entry("..", 0, Directory)]]
  }

  /** The concrete case: rmdir of "/a/." on a partition whose only directory is the empty "/a". */
  lemma DotRemoved(t1: Tree, junk: nat)
    requires RmdirStep(OneDirectory(), t1, "/a/.", junk)
    ensures SearchFile(OneDirectory(), "/a/.", junk) == Hit(1, Directory, 1)
    ensures WellFormed(OneDirectory(), map[0 := 0, 1 := 1]) && !exists depth1 :: WellFormed(t1, depth1)
  {
    hide WellFormed, Walk, Components, RmdirStep;
    OneDirectoryOk();
    DotPath();
    OneWalk(junk);
    RmdirIff(OneDirectory(), t1, map[0 := 0, 1 := 1], "/a/.", junk);
  }

  lemma DotPath()
    ensures Components("/a/.") == ["a", "."]
  {
    assert ["a", "."][1..] == ["."];
    assert Join(["."]) == "/.";
    assert Join(["a", "."]) == "/a/.";
    SplitJoin(["a", "."]);
  }

  lemma OneDirectoryOk()
    ensures WellFormed(OneDirectory(), map[0 := 0, 1 := 1])
  {
    var t := OneDirectory();
    assert t[0][2] == Entry("a", 1, Directory);
    assert Listed(t, 0, 1);
  }

  lemma OneWalk(junk: nat)
    ensures Walk(OneDirectory(), 0, 0, junk, ["a", "."]) == Hit(1, Directory, 1)
  {
    var t := OneDirectory();
    assert ["a", "."][1..] == ["."];
    assert t[0][1..][1..][0] == t[0][2];
    assert ByName(t[0], "a") == Some(Entry("a", 1, Directory));
    assert ByName(t[1], ".") == Some(Entry(".", 1, Directory));
  }

  // ------------------------------------------------------------------ regular entries

  /** Directory d has other entries than before, but the same dots and subdirectories; what is new are
      files under proper names. */
  ghost predicate Edited(t: Tree, t1: Tree, d: nat) {
    && d in t && t1.Keys == t.Keys && (forall c :: c in t && c != d ==> t1[c] == t[c])
    && |t[d]| >= 2 && |t1[d]| >= 2 && t1[d][0] == t[d][0] && t1[d][1] == t[d][1] && NoRepeats(t1[d])
    && (forall i :: 2 <= i < |t[d]| && t[d][i].kind == Directory ==> At(t1[d], t[d][i]))
    && (forall i :: 2 <= i < |t1[d]| ==> At(t[d], t1[d][i]) || (t1[d][i].kind == Regular && SlotOk(t, d, t1[d][i])))
  }

  lemma EditedListed(t: Tree, t1: Tree, d: nat, p: nat, c: nat)
    requires Edited(t, t1, d) && p in t && Listed(t, p, c)
    ensures Listed(t1, p, c)
  {
    if p == d {
      var i :| 2 <= i < |t[p]| && t[p][i].kind == Directory && t[p][i].ino == c;
      var j :| 2 <= j < |t1[d]| && t1[d][j] == t[d][i];
    }
  }

  lemma EditedSlots(t: Tree, t1: Tree, d: nat, c: nat)
    requires Edited(t, t1, d) && c in t && SlotsOk(t, c)
    ensures SlotsOk(t1, c)
  {
    hide NoRepeats, Name;
    forall i | 2 <= i < |t1[c]| ensures SlotOk(t1, c, t1[c][i]) {
      assert SlotOk(t, c, t1[c][i]);
    }
  }

  lemma EditedKeeps(t: Tree, t1: Tree, depth: map<nat, nat>, d: nat)
    requires WellFormed(t, depth) && Edited(t, t1, d)
    ensures WellFormed(t1, depth)
  {
    hide SlotsOk, SlotOk, NoRepeats, Listed;
    forall c | c in t1 ensures Paths.DirOk(t1, depth, c) {
      assert Paths.DirOk(t, depth, c);
      EditedSlots(t, t1, d, c);
      if c != 0 { EditedListed(t, t1, d, t[c][1].ino, c); }
    }
  }

  /** file_create's entry: a file under a new name and a number that is used nowhere. */
  ghost predicate Filed(t: Tree, t1: Tree, parent: nat, n: nat, name: string) {
    && parent in t && NewName(t, parent, name) && n !in t && (forall e :: e in t[parent] ==> e.ino != n) && t1.Keys == t.Keys
    && (forall d :: d in t && d != parent ==> t1[d] == t[d])
    && exists p :: p >= 2 && InsertedAt(t[parent], t1[parent], p, Entry(name, n, Regular))
  }

  /** The entry of a file is gone. */
  ghost predicate Unfiled(t: Tree, t1: Tree, parent: nat, n: nat) {
    && parent in t && t1.Keys == t.Keys && (forall d :: d in t && d != parent ==> t1[d] == t[d])
    && exists p: nat, e: Entry :: p >= 2 && e.ino == n && e.kind == Regular && InsertedAt(t1[parent], t[parent], p, e)
  }

  ghost predicate At(l: seq<Entry>, e: Entry) { exists j :: 2 <= j < |l| && l[j] == e }

  /** What is behind the dots before and after an insertion. */
  lemma InsertedBehind(l: seq<Entry>, l1: seq<Entry>, p: nat, e: Entry)
    requires InsertedAt(l, l1, p, e) && p >= 2
    ensures |l| >= 2 && |l1| >= 2 && l1[0] == l[0] && l1[1] == l[1]
    ensures forall i :: 2 <= i < |l| ==> At(l1, l[i])
    ensures forall i :: 2 <= i < |l1| ==> At(l, l1[i]) || l1[i] == e
  {
    forall i | 2 <= i < |l| ensures At(l1, l[i]) { assert l1[if i < p then i else i + 1] == l[i]; }
    forall i | 2 <= i < |l1| && i != p ensures At(l, l1[i]) { assert l[if i < p then i else i - 1] == l1[i]; }
  }

  lemma DropNoRepeat(l: seq<Entry>, l1: seq<Entry>, p: nat, e: Entry)
    requires InsertedAt(l, l1, p, e) && p >= 2 && NoRepeats(l1)
    ensures NoRepeats(l)
  {
    forall i | 0 <= i < |l| ensures l[i] == l1[if i < p then i else i + 1] {}
  }

  lemma NamesOnce(t: Tree, depth: map<nat, nat>, d: nat)
    requires WellFormed(t, depth) && d in t
    ensures NoRepeats(t[d])
  {
    assert Paths.DirOk(t, depth, d);
  }

  lemma FiledEdits(t: Tree, t1: Tree, depth: map<nat, nat>, parent: nat, n: nat, name: string)
    requires WellFormed(t, depth) && Filed(t, t1, parent, n, name)
    ensures Edited(t, t1, parent)
  {
    hide WellFormed, NoRepeats, InsertedAt;
    var e := Entry(name, n, Regular);
    var p :| p >= 2 && InsertedAt(t[parent], t1[parent], p, e);
    NamesOnce(t, depth, parent);
    InsertNoRepeat(t[parent], t1[parent], p, e);
    InsertedBehind(t[parent], t1[parent], p, e);
  }

  lemma UnfiledEdits(t: Tree, t1: Tree, depth: map<nat, nat>, parent: nat, n: nat)
    requires WellFormed(t, depth) && Unfiled(t, t1, parent, n)
    ensures Edited(t, t1, parent)
  {
    hide WellFormed, NoRepeats, InsertedAt, SlotOk;
    var p: nat, e: Entry :| p >= 2 && e.ino == n && e.kind == Regular && InsertedAt(t1[parent], t[parent], p, e);
    NamesOnce(t, depth, parent);
    DropNoRepeat(t1[parent], t[parent], p, e);
    InsertedBehind(t1[parent], t[parent], p, e);
  }

  /** An insertion into the blocks of a directory with room is Filed in the tree. */
  lemma InsertIsFiled(v: Vol, v1: Vol, dirs: set<nat>, parent: nat, n: nat, name: string)
    requires OwnOk(v) && parent in dirs && dirs <= v.inodes.Keys && (forall d :: d in dirs ==> DirModel.DirOk(v, d))
    requires CanAdd(v, parent, Entry(name, n, Regular)) && Roomy(v, parent) && Inserted(v, v1, parent, Entry(name, n, Regular))
    requires NewName(TreeOf(v, dirs), parent, name) && n !in dirs && forall e :: e in Listing(v, parent) ==> e.ino != n
    ensures dirs <= v1.inodes.Keys && Filed(TreeOf(v, dirs), TreeOf(v1, dirs), parent, n, name)
  {
    hide OwnOk, Isolated, DirModel.DirOk, Listing, InsertedAt, Roomy, CanAdd, Inserted, NewName;
    InsertedKeeps(v, v1, parent, Entry(name, n, Regular));
    forall d | d in dirs && d != parent ensures Listing(v1, d) == Listing(v, d) { DirStays(v, v1, parent, d); }
    var p :| p >= 2 && InsertedAt(Listing(v, parent), Listing(v1, parent), p, Entry(name, n, Regular));
    assert InsertedAt(TreeOf(v, dirs)[parent], TreeOf(v1, dirs)[parent], p, Entry(name, n, Regular));
  }

  /** A deletion of a file's entry from the blocks is Unfiled in the tree. */
  lemma DeleteIsUnfiled(v: Vol, v1: Vol, dirs: set<nat>, parent: nat, e: Entry)
    requires parent in dirs && dirs <= v.inodes.Keys && (forall d :: d in dirs ==> DirModel.DirOk(v, d))
    requires Taken(v, v1, parent, e) && e.kind == Regular
    ensures dirs <= v1.inodes.Keys && Unfiled(TreeOf(v, dirs), TreeOf(v1, dirs), parent, e.ino)
  {
    hide OwnOk, Isolated, DirModel.DirOk, Listing, InsertedAt;
    forall d | d in dirs && d != parent ensures Listing(v1, d) == Listing(v, d) { DirStays(v, v1, parent, d); }
    var p :| p >= 2 && InsertedAt(Listing(v1, parent), Listing(v, parent), p, e);
    assert InsertedAt(TreeOf(v1, dirs)[parent], TreeOf(v, dirs)[parent], p, e);
  }

  /** No file is listed by two directories. */
  ghost predicate OneLink(t: Tree) {
    forall d, c, n :: ListsFile(t, d, n) && ListsFile(t, c, n) ==> d == c
  }

  ghost predicate ListsFile(t: Tree, d: nat, n: nat) {
    d in t && exists e :: e in t[d] && e.kind == Regular && e.ino == n
  }

  ghost predicate NoNewFile(t: Tree, t1: Tree) {
    forall d, e :: d in t1 && e in t1[d] && e.kind == Regular ==> d in t && e in t[d]
  }

  lemma OneLinkStays(t: Tree, t1: Tree)
    requires OneLink(t) && NoNewFile(t, t1)
    ensures OneLink(t1)
  {
    forall d, n | ListsFile(t1, d, n) ensures ListsFile(t, d, n) {
      var e :| e in t1[d] && e.kind == Regular && e.ino == n;
      assert e in t[d];
    }
  }

  lemma InsertedIn(l: seq<Entry>, l1: seq<Entry>, p: nat, e: Entry)
    requires InsertedAt(l, l1, p, e)
    ensures forall f :: f in l1 <==> f in l || f == e
  {
    forall f | f in l ensures f in l1 {
      var i :| 0 <= i < |l| && l[i] == f;
      assert l1[if i < p then i else i + 1] == f;
    }
    assert l1[p] == e;
  }

  lemma MadeNoFile(t: Tree, t1: Tree, parent: nat, n: nat, name: string)
    requires Made(t, t1, parent, n, name)
    ensures NoNewFile(t, t1)
  {
    var p :| p >= 2 && InsertedAt(t[parent], t1[parent], p, Entry(name, n, Directory));
    InsertedIn(t[parent], t1[parent], p, Entry(name, n, Directory));
  }

  lemma RemovalNoFile(t: Tree, t1: Tree, parent: nat, c: nat)
    requires Removal(t, t1, parent, c)
    ensures NoNewFile(t, t1)
  {
    hide InsertedAt;
    if parent != c && exists i :: 2 <= i < |t[parent]| && t[parent][i].ino == c {
      var p: nat, e: Entry :| p >= 2 && e.ino == c && InsertedAt(t1[parent], t[parent], p, e);
      InsertedIn(t1[parent], t[parent], p, e);
    }
  }

  lemma UnfiledNoFile(t: Tree, t1: Tree, parent: nat, n: nat)
    requires Unfiled(t, t1, parent, n)
    ensures NoNewFile(t, t1)
  {
    hide InsertedAt;
    var p: nat, e: Entry :| p >= 2 && e.ino == n && e.kind == Regular && InsertedAt(t1[parent], t[parent], p, e);
    InsertedIn(t1[parent], t[parent], p, e);
  }

  lemma FiledOneLink(t: Tree, t1: Tree, parent: nat, n: nat, name: string)
    requires OneLink(t) && Filed(t, t1, parent, n, name) && forall d, e :: d in t && e in t[d] ==> e.ino != n
    ensures OneLink(t1)
  {
    hide InsertedAt, NewName;
    var f := Entry(name, n, Regular);
    var p :| p >= 2 && InsertedAt(t[parent], t1[parent], p, f);
    InsertedIn(t[parent], t1[parent], p, f);
    forall d, k | ListsFile(t1, d, k) ensures if k == n then d == parent else ListsFile(t, d, k) {
      var e :| e in t1[d] && e.kind == Regular && e.ino == k;
      assert e in t[d] || (d == parent && e == f);
    }
  }

  /** A file found by a path is listed, behind the dots, by the directory left open. */
  lemma {:induction false} WalkFile(t: Tree, depth: map<nat, nat>, at: nat, parent: nat, last: nat, names: seq<string>)
    requires WellFormed(t, depth) && at in t && forall i :: 0 <= i < |names| ==> Name(names[i])
    ensures var r := Walk(t, at, parent, last, names);
            r.Hit? && r.kind == Regular ==> r.parent in t && r.ino !in t && exists e :: At(t[r.parent], e) && e.ino == r.ino && e.kind == Regular
    decreases |names|
  {
    hide WellFormed;
    if names != [] {
      var found := ByName(t[at], names[0]);
      if found.Some? && found.value.kind == Regular {
        FileAt(t, depth, at, found.value);
      } else if found.Some? {
        DirEntriesInside(t, depth, at, found.value);
        WalkFile(t, depth, found.value.ino, at, found.value.ino, names[1..]);
      }
    }
  }

  lemma FileAt(t: Tree, depth: map<nat, nat>, d: nat, e: Entry)
    requires WellFormed(t, depth) && d in t && e in t[d] && e.kind == Regular
    ensures At(t[d], e) && e.ino !in t
  {
    hide Listed, NoRepeats;
    assert Paths.DirOk(t, depth, d);
    var i :| 0 <= i < |t[d]| && t[d][i] == e;
    if i >= 2 { assert SlotOk(t, d, t[d][i]); }
  }

  lemma SearchFinds(t: Tree, depth: map<nat, nat>, path: string, junk: nat)
    requires WellFormed(t, depth)
    ensures var r := SearchFile(t, path, junk);
            r.Hit? && r.kind == Regular ==> r.parent in t && r.ino !in t && r.ino != 0 && exists e :: At(t[r.parent], e) && e.ino == r.ino && e.kind == Regular
  {
    hide WellFormed, Components, Walk;
    HasRoot(t, depth);
    WalkFile(t, depth, 0, 0, junk, Components(path));
  }

  // ---------------------------------------------------------- slots of the inode table

  /** The tree as the inode table holds it once inode_sync has stored file n: in slot n % 256.  A
      directory of that number is then read back as the file, with the entries `l`. */
  function Overwritten(t: Tree, n: nat, l: seq<Entry>): Tree {
    if n % 256 in t then t[n % 256 := l] else t
  }

  /** file_create: the entry, and the stored inode of a file without sectors. */
  ghost predicate Linked(t: Tree, t1: Tree, parent: nat, n: nat, name: string) {
    exists mid :: Filed(t, mid, parent, n, name) && t1 == Overwritten(mid, n, [])
  }

  /** file_write to file n stores its inode again, with whatever its blocks look like as entries. */
  ghost predicate Saved(t: Tree, t1: Tree, n: nat) {
    n !in t && exists l :: t1 == Overwritten(t, n, l)
  }

  /** file_create keeps the tree well-formed if and only if no directory has the file's number modulo
      256: for numbers below 256 always. */
  lemma LinkIff(t: Tree, t1: Tree, depth: map<nat, nat>, parent: nat, n: nat, name: string)
    requires WellFormed(t, depth) && Linked(t, t1, parent, n, name)
    ensures (exists depth1 :: WellFormed(t1, depth1)) <==> n % 256 !in t
    ensures n % 256 !in t ==> WellFormed(t1, depth)
    ensures n < 256 ==> n % 256 !in t
  {
    hide WellFormed;
    var mid :| Filed(t, mid, parent, n, name) && t1 == Overwritten(mid, n, []);
    FiledEdits(t, mid, depth, parent, n, name);
    EditedKeeps(t, mid, depth, parent);
    if n % 256 in t {
      forall depth1 ensures !WellFormed(t1, depth1) {
        if WellFormed(t1, depth1) { DotsThere(t1, depth1, n % 256); }
      }
    }
  }

  function OneLevel(): Tree { RootTree()[0 := RootTree()[0] + [Entry("a", 1, Directory)]][1 := [Entry(".", 1, Directory), Entry("..", 0, Directory)]] }

  function TwoLevels(): Tree {
    OneLevel()[1 := OneLevel()[1] + [Entry("b", 2, Directory)]][2 := [Entry(".", 2, Directory), Entry("..", 1, Directory)]]
  }

  /** The concrete case: "/a" and "/a/b" have been made as 1 and 2, and file_create stores a file with
      number 257.  "/a/b" was there and is not found any more. */
  lemma DirectoryLost(t1: Tree, junk: nat)
    requires Linked(TwoLevels(), t1, 0, 257, "f")
    ensures TreeRun([RootTree(), OneLevel(), TwoLevels(), t1], [Mk(0, 1, "a"), Mk(1, 2, "b"), Link(0, 257, "f")])
    ensures SearchFile(TwoLevels(), "/a/b", junk) == Hit(2, Directory, 1)
    ensures SearchFile(t1, "/a/b", junk) == Missing(1)
  {
    hide TreeRun, SearchFile, TwoLevels, Linked;
    LostRun(t1);
    LostWalk(t1, junk);
  }

  lemma LostRun(t1: Tree)
    requires Linked(TwoLevels(), t1, 0, 257, "f")
    ensures TreeRun([RootTree(), OneLevel(), TwoLevels(), t1], [Mk(0, 1, "a"), Mk(1, 2, "b"), Link(0, 257, "f")])
  {
    hide TreeStep, RootTree, OneLevel, TwoLevels, Linked;
    LevelsMade();
    LinkIsStep(TwoLevels(), t1);
  }

  lemma LostWalk(t1: Tree, junk: nat)
    requires Linked(TwoLevels(), t1, 0, 257, "f")
    ensures SearchFile(TwoLevels(), "/a/b", junk) == Hit(2, Directory, 1) && SearchFile(t1, "/a/b", junk) == Missing(1)
  {
    hide Components, InsertedAt, TwoLevels, ByName, Walk, NewName;
    TwoNames();
    TwoLevelsAre();
    var t := TwoLevels();
    var mid :| Filed(t, mid, 0, 257, "f") && t1 == Overwritten(mid, 257, []);
    var p :| p >= 2 && InsertedAt(t[0], mid[0], p, Entry("f", 257, Regular));
    FoundA(t[0], mid[0], p);
    assert t1[0] == mid[0] && t1[1] == [];
    WalkAB(t, 1, 0, junk);
    WalkAB(t1, 1, 0, junk);
    NothingIn("b");
  }

  lemma NothingIn(name: string)
    ensures ByName([], name) == None
  {
  }

  lemma TwoLevelsAre()
    ensures var t := TwoLevels();
            && t.Keys == {0, 1, 2} && t[0] == [Entry(".", 0, Directory), Entry("..", 0, Directory), Entry("a", 1, Directory)]
            && ByName(t[1], "b") == Some(Entry("b", 2, Directory))
  {
    var l := [Entry(".", 1, Directory), Entry("..", 0, Directory), Entry("b", 2, Directory)];
    assert TwoLevels()[1] == l;
    assert l[1..][1..][0] == l[2];
  }

  lemma WalkAB(t: Tree, n: nat, at: nat, junk: nat)
    requires ByName(Slots(t, at), "a") == Some(Entry("a", n, Directory))
    ensures Walk(t, at, at, junk, ["a", "b"]) ==
            match ByName(Slots(t, n), "b")
            case None => Missing(n)
            case Some(e) =>
              match e.kind
              case Directory => Hit(e.ino, Directory, n)
              case Regular => Hit(e.ino, Regular, n)
              case Unknown => Hit(e.ino, Directory, at)
  {
    assert ["a", "b"][1..] == ["b"] && ["b"][1..] == [];
  }

  lemma LinkIsStep(t: Tree, t1: Tree)
    requires Linked(t, t1, 0, 257, "f")
    ensures TreeStep(t, t1, Link(0, 257, "f"))
  {
  }

  lemma TwoNames()
    ensures Components("/a/b") == ["a", "b"]
  {
    assert ["a", "b"][1..] == ["b"];
    assert Join(["b"]) == "/b" && Join(["a", "b"]) == "/a/b";
    SplitJoin(["a", "b"]);
  }

  lemma FoundA(l: seq<Entry>, l1: seq<Entry>, p: nat)
    requires l == [Entry(".", 0, Directory), Entry("..", 0, Directory), Entry("a", 1, Directory)]
    requires p >= 2 && InsertedAt(l, l1, p, Entry("f", 257, Regular))
    ensures ByName(l, "a") == ByName(l1, "a") == Some(Entry("a", 1, Directory))
  {
    var e, f := Entry("a", 1, Directory), Entry("f", 257, Regular);
    assert l1 == l[..2] + [f, e] || l1 == l[..2] + [e, f];
  }

  lemma LevelsMade()
    ensures TreeStep(RootTree(), OneLevel(), Mk(0, 1, "a")) && TreeStep(OneLevel(), TwoLevels(), Mk(1, 2, "b"))
  {
    assert InsertedAt(RootTree()[0], OneLevel()[0], 2, Entry("a", 1, Directory));
    assert InsertedAt(OneLevel()[1], TwoLevels()[1], 2, Entry("b", 2, Directory));
  }

  // -------------------------------------------------------------------------- runs

  /** mkdir, rmdir by path, file_create, sys_unlink, and file_write as far as it stores the inode. */
  datatype TreeOp = Mk(parent: nat, n: nat, name: string) | Rm(path: string, junk: nat)
                  | Link(parent: nat, n: nat, name: string) | Unlink(parent: nat, n: nat) | Save(n: nat)

  ghost predicate TreeStep(t: Tree, t1: Tree, op: TreeOp) {
    match op
    case Mk(parent, n, name) => Unused(t, n) && Made(t, t1, parent, n, name) && NewName(t, parent, name)
    case Rm(path, junk) => RmdirStep(t, t1, path, junk)
    case Link(parent, n, name) => Linked(t, t1, parent, n, name)
    case Save(n) => Saved(t, t1, n)
    case Unlink(parent, n) => Unfiled(t, t1, parent, n)
  }

  /** A formatted partition's tree. */
  function RootTree(): Tree { map[0 := [Entry(".", 0, Directory), Entry("..", 0, Directory)]] }

  ghost predicate TreeRun(ts: seq<Tree>, ops: seq<TreeOp>) {
    |ts| == |ops| + 1 && ts[0] == RootTree() && forall i :: 0 <= i < |ops| ==> TreeStep(ts[i], ts[i + 1], ops[i])
  }

  ghost predicate NoDotRemoved(ts: seq<Tree>, ops: seq<TreeOp>, m: nat)
    requires m <= |ops| < |ts|
  {
    forall i :: 0 <= i < m && ops[i].Rm? && Last(ops[i].path) == "." ==> !Removes(ts[i], ops[i].path, ops[i].junk)
  }

  /** No file is stored in the slot of a directory. */
  ghost predicate NoSlotLost(ts: seq<Tree>, ops: seq<TreeOp>, m: nat)
    requires m <= |ops| < |ts|
  {
    forall i :: 0 <= i < m && (ops[i].Link? || ops[i].Save?) ==> ops[i].n % 256 !in ts[i]
  }

  lemma RootOk()
    ensures WellFormed(RootTree(), map[0 := 0])
  {
  }

  lemma {:induction false} RunWellFormed(ts: seq<Tree>, ops: seq<TreeOp>, m: nat) returns (depth: map<nat, nat>)
    requires TreeRun(ts, ops) && m <= |ops| && NoDotRemoved(ts, ops, m) && NoSlotLost(ts, ops, m)
    ensures WellFormed(ts[m], depth)
  {
    hide WellFormed, Made, RmdirStep, Unused, NewName, Removes, Last, Edited, Linked, Unfiled;
    if m == 0 {
      depth := map[0 := 0];
      RootOk();
    } else {
      depth := RunWellFormed(ts, ops, m - 1);
      assert TreeStep(ts[m - 1], ts[m], ops[m - 1]);
      match ops[m - 1]
      case Mk(parent, n, name) =>
        MkdirKeepsTree(ts[m - 1], ts[m], depth, parent, n, name);
        depth := depth[n := depth[parent] + 1];
      case Rm(path, junk) =>
        RmdirIff(ts[m - 1], ts[m], depth, path, junk);
      case Link(parent, n, name) =>
        LinkIff(ts[m - 1], ts[m], depth, parent, n, name);
      case Save(n) =>
      case Unlink(parent, n) =>
        UnfiledEdits(ts[m - 1], ts[m], depth, parent, n);
        EditedKeeps(ts[m - 1], ts[m], depth, parent);
    }
  }

  /** After any run of mkdir, rmdir, file creation, writing and unlinking from a formatted partition in
      which nothing is removed through a path ending in "." and no file is stored in a directory's slot,
      for every directory that exists: some measure makes it reachable from the root, and the path getcwd
      reports for it, if shorter than 512 characters, leads search_file back to it. */
  lemma CwdAfterAnyRun(ts: seq<Tree>, ops: seq<TreeOp>, m: nat, d: nat, junk: nat)
    requires TreeRun(ts, ops) && m <= |ops| && d in ts[m] && NoDotRemoved(ts, ops, m) && NoSlotLost(ts, ops, m)
    ensures exists depth :: WellFormed(ts[m], depth) &&
              (|Join(PathOf(ts[m], depth, d))| < 512 ==>
                 var r := SearchFile(ts[m], CwdPath(PathOf(ts[m], depth, d)), junk); r.Hit? && r.ino == d && r.kind == Directory)
  {
    hide SearchFile, Join, CwdPath, PathOf;
    var depth := RunWellFormed(ts, ops, m);
    if |Join(PathOf(ts[m], depth, d))| < 512 {
      SearchFindsPath(ts[m], depth, d, junk);
    }
  }
}
