/** The ring buffer of device/ioqueue.c as an array, and the keyboard queue made of it.  How a thread
    sleeps on the empty queue and the keyboard handler wakes it is part of Sync. */
module Ioqueue {

  // ------------------------------------------------------------------------ the ring

  /** The bytes from tail up to head, around the end of the buffer if need be. */
  function Window(b: seq<char>, tail: nat, head: nat): seq<char>
    requires |b| == 64 && tail < 64 && head < 64
  {
    if tail <= head then b[tail..head] else b[tail..] + b[..head]
  }

  lemma WindowLength(b: seq<char>, tail: nat, head: nat)
    requires |b| == 64 && tail < 64 && head < 64
    ensures |Window(b, tail, head)| == if tail <= head then head - tail else head + 64 - tail
  {
  }

  lemma Stored(b: seq<char>, tail: nat, head: nat, x: char)
    requires |b| == 64 && tail < 64 && head < 64 && (head + 1) % 64 != tail
    ensures Window(b[head := x], tail, (head + 1) % 64) == Window(b, tail, head) + [x]
  {
  }

  lemma Fetched(b: seq<char>, tail: nat, head: nat)
    requires |b| == 64 && tail < 64 && head < 64 && head != tail
    ensures [b[tail]] + Window(b, (tail + 1) % 64, head) == Window(b, tail, head)
  {
    hide Window;
    if tail < head {
      FetchedStraight(b, tail, head);
    } else if tail < 63 {
      FetchedAround(b, tail, head);
    } else {
      FetchedLast(b, head);
    }
  }

  lemma FetchedStraight(b: seq<char>, tail: nat, head: nat)
    requires |b| == 64 && tail < head < 64
    ensures [b[tail]] + Window(b, tail + 1, head) == Window(b, tail, head)
  {
  }

  lemma FetchedAround(b: seq<char>, tail: nat, head: nat)
    requires |b| == 64 && head < tail < 63
    ensures [b[tail]] + Window(b, tail + 1, head) == Window(b, tail, head)
  {
  }

  lemma FetchedLast(b: seq<char>, head: nat)
    requires |b| == 64 && head < 63
    ensures [b[63]] + Window(b, 0, head) == Window(b, 63, head)
  {
  }

  class Ring {
    const buf: array<char>
    var head: nat
    var tail: nat

    ghost predicate Valid()
      reads this
    {
      buf.Length == 64 && head < 64 && tail < 64
    }

    /** The bytes in the queue, oldest first. */
    ghost function Contents(): seq<char>
      requires Valid()
      reads this, buf
    {
      Window(buf[..], tail, head)
    }

    constructor ()
      ensures Valid() && Contents() == [] && fresh(buf)
    {
      buf := new char[64];
      head, tail := 0, 0;
    }

    /** ioq_full: one place always stays empty. */
    predicate Full()
      requires Valid()
      reads this, buf
      ensures Full() <==> |Contents()| == 63
    {
      WindowLength(buf[..], tail, head);
      (head + 1) % 64 == tail
    }

    predicate Empty()
      requires Valid()
      reads this, buf
      ensures Empty() <==> Contents() == []
    {
      WindowLength(buf[..], tail, head);
      head == tail
    }

    /** The storing half of ioq_putchar. */
    method Put(x: char)
      requires Valid() && !Full()
      modifies this`head, buf
      ensures Valid() && Contents() == old(Contents()) + [x]
    {
      Stored(buf[..], tail, head, x);
      buf[head] := x;
      head := (head + 1) % 64;
    }

    /** The fetching half of ioq_getchar. */
    method Get() returns (x: char)
      requires Valid() && !Empty()
      modifies this`tail
      ensures Valid() && [x] + Contents() == old(Contents())
    {
      x := buf[tail];
      Fetched(buf[..], tail, head);
      tail := (tail + 1) % 64;
    }
  }

  // ------------------------------------------------------------- the keyboard's bytes

  /** What the keyboard queue holds, and what has ever gone in and out. */
  datatype Buffer = Buffer(data: seq<char>, put: seq<char>, taken: seq<char>)

  /** At most 63 bytes, and they are what has been put and not yet taken, in order. */
  ghost predicate BufferOk(b: Buffer) {
    |b.data| <= 63 && b.taken + b.data == b.put
  }

  /** The keyboard handler: a full queue drops the byte. */
  function Kept(b: Buffer, x: char): Buffer {
    if |b.data| == 63 then b else b.(data := b.data + [x], put := b.put + [x])
  }

  /** The end of ioq_getchar. */
  function Fetch(b: Buffer): Buffer
    requires b.data != []
  {
    b.(data := b.data[1..], taken := b.taken + [b.data[0]])
  }

  /** The byte is kept exactly when fewer than 63 are waiting to be taken. */
  lemma KeptOk(b: Buffer, x: char)
    requires BufferOk(b)
    ensures BufferOk(Kept(b, x)) && Kept(b, x).taken == b.taken
    ensures Kept(b, x).put == b.put + if |b.put| - |b.taken| < 63 then [x] else []
  {
    assert |b.put| == |b.taken| + |b.data|;
  }

  lemma FetchOk(b: Buffer)
    requires BufferOk(b) && b.data != []
    ensures BufferOk(Fetch(b)) && Fetch(b).put == b.put && |b.taken| < |b.put| && Fetch(b).taken == b.taken + [b.put[|b.taken|]]
  {
    assert b.data == [b.data[0]] + b.data[1..];
    assert b.put[|b.taken|] == (b.taken + b.data)[|b.taken|];
  }

  /** kbd_buf: the ring with the bytes that have gone through it. */
  class Keyboard {
    const ring: Ring
    ghost var put: seq<char>
    ghost var taken: seq<char>

    ghost predicate Valid()
      reads this, ring, ring.buf
    {
      ring.Valid() && taken + ring.Contents() == put
    }

    ghost function View(): Buffer
      requires Valid()
      reads this, ring, ring.buf
    {
      Buffer(ring.Contents(), put, taken)
    }

    constructor ()
      ensures Valid() && View() == Buffer([], [], []) && fresh(ring) && fresh(ring.buf)
    {
      ring := new Ring();
      put, taken := [], [];
    }

    /** The keyboard handler's last lines: ioq_full, and ioq_putchar without the waking. */
    method Key(x: char)
      requires Valid()
      modifies this, ring`head, ring.buf
      ensures Valid() && View() == Kept(old(View()), x) && taken == old(taken)
      ensures put == old(put) + if |old(put)| - |taken| < 63 then [x] else []
    {
      assert |put| == |taken| + |ring.Contents()|;
      if !ring.Full() {
        ring.Put(x);
        put := put + [x];
      }
    }

    /** ioq_getchar once the queue is not empty: the oldest byte. */
    method Take() returns (x: char)
      requires Valid() && View().data != []
      modifies this, ring`tail
      ensures Valid() && View() == Fetch(old(View())) && put == old(put)
      ensures |old(taken)| < |put| && x == put[|old(taken)|] && taken == old(taken) + [x]
    {
      assert put == taken + ring.Contents();
      x := ring.Get();
      taken := taken + [x];
    }
  }
}
