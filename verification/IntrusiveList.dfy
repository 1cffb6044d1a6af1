/** lib/kernel/list.c: the doubly linked list with a head and a tail sentinel.  The other modules
    use it as the sequence of its elements; here every operation is proved to act on that
    sequence. */
module IntrusiveList {

  class Elem {
    var front: Elem?
    var next: Elem?

    constructor ()
    {
    }
  }

  /** What lies between the sentinels. */
  ghost function Inner(n: seq<Elem>): (r: seq<Elem>)
    requires |n| >= 2
    ensures |r| == |n| - 2
  {
    n[1..|n| - 1]
  }

  lemma Inserted(n: seq<Elem>, i: nat, e: Elem)
    requires 1 <= i < |n|
    ensures Inner(n[..i] + [e] + n[i..]) == Inner(n)[..i - 1] + [e] + Inner(n)[i - 1..]
    ensures forall k :: 0 <= k <= |n| ==> (n[..i] + [e] + n[i..])[k] == if k < i then n[k] else if k == i then e else n[k - 1]
  {
  }

  lemma Dropped(n: seq<Elem>, i: nat)
    requires 1 <= i < |n| - 1
    ensures Inner(n[..i] + n[i + 1..]) == Inner(n)[..i - 1] + Inner(n)[i..]
    ensures forall k :: 0 <= k < |n| - 1 ==> (n[..i] + n[i + 1..])[k] == if k < i then n[k] else n[k + 1]
  {
  }

  class List {
    const head: Elem
    const tail: Elem
    ghost var nodes: seq<Elem>  // the head, the elements, the tail

    /** The links run through `nodes` in both directions and no node occurs twice. */
    ghost predicate Valid()
      reads this, nodes
    {
      && |nodes| >= 2 && nodes[0] == head && nodes[|nodes| - 1] == tail
      && (forall i, j :: 0 <= i < j < |nodes| ==> nodes[i] != nodes[j])
      && (forall i :: 0 <= i < |nodes| - 1 ==> nodes[i].next == nodes[i + 1])
      && (forall i :: 1 <= i < |nodes| ==> nodes[i].front == nodes[i - 1])
    }

    ghost function Elements(): seq<Elem>
      requires Valid()
      reads this, nodes
    {
      Inner(nodes)
    }

    /** list_init. */
    constructor ()
      ensures Valid() && Elements() == [] && fresh(nodes)
    {
      head := new Elem();
      tail := new Elem();
      new;
      head.front, head.next := null, tail;
      tail.front, tail.next := head, null;
      nodes := [head, tail];
    }

    /** list_insert_before for the element `before` at place i. */
    method InsertBefore(before: Elem, e: Elem, ghost i: nat)
      requires Valid() && 1 <= i < |nodes| && before == nodes[i] && e !in nodes
      modifies this`nodes, nodes, e
      ensures Valid() && nodes == old(nodes)[..i] + [e] + old(nodes)[i..]
      ensures Elements() == old(Elements())[..i - 1] + [e] + old(Elements())[i - 1..]
    {
      hide Inner;
      assert nodes[i].front == nodes[i - 1];
      ghost var was := nodes;
      e.front := before.front;
      e.front.next := e;
      e.next := before;
      before.front := e;
      Inserted(was, i, e);
      nodes := was[..i] + [e] + was[i..];
      forall k | 0 <= k < |nodes| - 1 ensures nodes[k].next == nodes[k + 1] {
        if k < i - 1 { assert was[k].next == was[k + 1]; } else if k > i { assert was[k - 1].next == was[k]; }
      }
      forall k | 1 <= k < |nodes| ensures nodes[k].front == nodes[k - 1] {
        if k < i { assert was[k].front == was[k - 1]; } else if k > i + 1 { assert was[k - 1].front == was[k - 2]; }
      }
    }

    /** list_push: a stack with its top at the head. */
    method Push(e: Elem)
      requires Valid() && e !in nodes
      modifies this`nodes, nodes, e
      ensures Valid() && Elements() == [e] + old(Elements())
    {
      assert nodes[0].next == nodes[1];
      InsertBefore(head.next, e, 1);
    }

    /** list_append. */
    method Append(e: Elem)
      requires Valid() && e !in nodes
      modifies this`nodes, nodes, e
      ensures Valid() && Elements() == old(Elements()) + [e]
    {
      hide Inner;
      ghost var n := |nodes| - 1;
      assert nodes[n].front == nodes[n - 1];
      e.front := tail.front;
      e.front.next := e;
      e.next := tail;
      tail.front := e;
      Inserted(nodes, n, e);
      nodes := nodes[..n] + [e] + nodes[n..];
    }

    /** list_remove of the element at place i. */
    method Remove(e: Elem, ghost i: nat)
      requires Valid() && 1 <= i < |nodes| - 1 && e == nodes[i]
      modifies this`nodes, nodes
      ensures Valid() && Elements() == old(Elements())[..i - 1] + old(Elements())[i..] && e !in nodes
    {
      hide Inner;
      assert nodes[i].front == nodes[i - 1] && nodes[i].next == nodes[i + 1];
      ghost var was := nodes;
      e.front.next := e.next;
      e.next.front := e.front;
      assert was[i - 1].next == was[i + 1] && was[i + 1].front == was[i - 1];
      assert forall k :: 0 <= k < |was| - 1 && k != i - 1 ==> was[k].next == was[k + 1];
      assert forall k :: 1 <= k < |was| && k != i + 1 ==> was[k].front == was[k - 1];
      Dropped(was, i);
      nodes := was[..i] + was[i + 1..];
      forall j, k | 0 <= j < k < |nodes| ensures nodes[j] != nodes[k] {
        assert was[if j < i then j else j + 1] != was[if k < i then k else k + 1];
      }
      forall k | 0 <= k < |nodes| - 1 ensures nodes[k].next == nodes[k + 1] {
        if k < i - 1 { assert was[k].next == was[k + 1]; } else if k >= i { assert was[k + 1].next == was[k + 2]; }
      }
      forall k | 1 <= k < |nodes| ensures nodes[k].front == nodes[k - 1] {
        if k < i { assert was[k].front == was[k - 1]; } else if k > i { assert was[k + 1].front == was[k]; }
      }
    }

    /** list_pop of a list that is not empty, as its callers ensure. */
    method Pop() returns (e: Elem)
      requires Valid() && Elements() != []
      modifies this`nodes, nodes
      ensures Valid() && [e] + Elements() == old(Elements()) && e !in nodes
    {
      assert nodes[0].next == nodes[1];
      e := head.next;
      Remove(e, 1);
    }

    /** list_empty. */
    method Empty() returns (r: bool)
      requires Valid()
      ensures r <==> Elements() == []
    {
      r := head.next == tail;
      assert nodes[0].next == nodes[1];
    }

    /** list_search. */
    method Search(target: Elem) returns (r: bool)
      requires Valid()
      ensures r <==> target in Elements()
    {
      var item := head.next;
      ghost var i := 1;
      while item != tail
        invariant 1 <= i < |nodes| && item == nodes[i] && target !in nodes[1..i]
        decreases |nodes| - i
      {
        if item == target {
          return true;
        }
        item := item.next;
        i := i + 1;
      }
      r := false;
    }

    /** list_len. */
    method Len() returns (n: nat)
      requires Valid()
      ensures n == |Elements()|
    {
      var item := head.next;
      n := 0;
      while item != tail
        invariant 0 <= n < |nodes| - 1 && item == nodes[n + 1]
        decreases |nodes| - n
      {
        item := item.next;
        n := n + 1;
      }
    }

    /** Following `front` from the tail visits the elements in reverse. */
    method Backward() returns (l: seq<Elem>)
      requires Valid()
      ensures |l| == |Elements()| && forall k :: 0 <= k < |l| ==> l[k] == Elements()[|l| - 1 - k]
    {
      l := [];
      var item := tail.front;
      while item != head
        invariant |l| <= |nodes| - 2 && item == nodes[|nodes| - 2 - |l|]
        invariant forall k :: 0 <= k < |l| ==> l[k] == nodes[|nodes| - 2 - k]
        decreases |nodes| - |l|
      {
        l := l + [item];
        item := item.front;
      }
      assert |l| == |nodes| - 2;
    }
  }
}
