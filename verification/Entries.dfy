/** Directory entries (fs/dir.h) and look-ups in a sequence of slots. */
module Entries {
  import opened Basics

  datatype Kind = Unknown | Regular | Directory

  /** `name` is the text of the 16-byte filename field up to its terminator. */
  datatype Entry = Entry(name: string, ino: nat, kind: Kind)

  /** A slot filled with zero bytes. */
  const EMPTY: Entry := Entry("", 0, Unknown)

  /** The first slot that carries the name, whatever its kind. */
  function ByName(slots: seq<Entry>, name: string): (r: Option<Entry>)
    ensures r.Some? ==> r.value in slots && r.value.name == name
    ensures r.None? <==> forall e :: e in slots ==> e.name != name
  {
    if slots == [] then None
    else if slots[0].name == name then Some(slots[0])
    else ByName(slots[1..], name)
  }

  /** The first slot with the inode number, whatever its kind. */
  function ByIno(slots: seq<Entry>, ino: nat): (r: Option<Entry>)
    ensures r.Some? ==> r.value in slots && r.value.ino == ino
    ensures r.None? <==> forall e :: e in slots ==> e.ino != ino
  {
    if slots == [] then None
    else if slots[0].ino == ino then Some(slots[0])
    else ByIno(slots[1..], ino)
  }
}
