/** The doubly linked lists of mocha-ril (`struct list_head`, mocha-ril/util.c), with the
    register and unregister loops that every user of them repeats. */
module LinkedList {
  import opened Options

  class ListHead<T> {
    var prev: ListHead?<T>
    var next: ListHead?<T>
    var data: T

    /** `list_head_alloc`. */
    constructor (data: T, prev: ListHead?<T>, next: ListHead?<T>)
      modifies if prev != null then {prev} else {}
      modifies if next != null then {next} else {}
      ensures this.data == data && this.prev == prev && this.next == next
      ensures prev != null ==> prev.next == this && prev.data == old(prev.data)
      ensures prev != null && prev != next ==> prev.prev == old(prev.prev)
      ensures next != null ==> next.prev == this && next.data == old(next.data)
      ensures next != null && prev != next ==> next.next == old(next.next)
    {
      this.data, this.prev, this.next := data, prev, next;
      new;
      if prev != null {
        prev.next := this;
      }
      if next != null {
        next.prev := this;
      }
    }
  }

  /** s without its first x. */
  function RemoveFirst<T(==)>(s: seq<T>, x: T): seq<T> {
    if s == [] then [] else if s[0] == x then s[1..] else [s[0]] + RemoveFirst(s[1..], x)
  }

  lemma {:induction false} RemoveFirstAt<T>(s: seq<T>, x: T, k: nat)
    requires k <= |s| && x !in s[..k] && (k < |s| ==> s[k] == x)
    ensures RemoveFirst(s, x) == if k < |s| then s[..k] + s[k + 1..] else s
  {
    if k == 0 {
    } else {
      assert s[1..][..k - 1] == s[..k][1..];
      assert s[0] in s[..k];
      RemoveFirstAt(s[1..], x, k - 1);
    }
  }

  /** Exactly one x is gone, if there was one. */
  lemma {:induction false} RemoveFirstCounts<T>(s: seq<T>, x: T)
    ensures multiset(RemoveFirst(s, x)) == multiset(s) - multiset{x}
  {
    if s != [] {
      assert s == [s[0]] + s[1..];
      if s[0] != x {
        RemoveFirstCounts(s[1..], x);
      }
    }
  }

  class List<T(==)> {
    var head: ListHead?<T>
    ghost var nodes: seq<ListHead<T>>

    /** next and prev are inverse to each other along a chain without repetition. */
    ghost predicate Valid()
      reads this, nodes
    {
      && (forall i, j :: 0 <= i < j < |nodes| ==> nodes[i] != nodes[j])
      && head == (if nodes == [] then null else nodes[0])
      && (forall i {:trigger nodes[i].prev} :: 0 <= i < |nodes| ==> nodes[i].prev == if i == 0 then null else nodes[i - 1])
      && (forall i {:trigger nodes[i].next} :: 0 <= i < |nodes| ==> nodes[i].next == if i + 1 == |nodes| then null else nodes[i + 1])
    }

    ghost function Contents(): (s: seq<T>)
      reads this, nodes
      ensures |s| == |nodes|
    {
      seq(|nodes|, i requires 0 <= i < |nodes| reads this, nodes => nodes[i].data)
    }

    constructor ()
      ensures Valid() && Contents() == [] && nodes == []
    {
      head, nodes := null, [];
    }

    /** Walks to the last node and links a new one behind it. */
    method Register(data: T)
      requires Valid()
      modifies this, nodes
      ensures Valid() && Contents() == old(Contents()) + [data]
      ensures |nodes| == |old(nodes)| + 1 && nodes[..|old(nodes)|] == old(nodes) && fresh(nodes[|old(nodes)|])
    {
      var end := head;
      ghost var k := 0;
      while end != null && end.next != null
        invariant end != null ==> k < |nodes| && end == nodes[k]
        invariant end == null ==> nodes == []
        decreases |nodes| - k
      {
        end := end.next;
        k := k + 1;
      }
      var list := new ListHead(data, end, null);
      if head == null {
        head := list;
      }
      nodes := nodes + [list];
    }

    /** Unlinks the first node that holds the data. */
    method Unregister(data: T)
      requires Valid()
      modifies this, nodes
      ensures Valid() && Contents() == RemoveFirst(old(Contents()), data)
      ensures forall n :: n in nodes ==> n in old(nodes)
    {
      var list := head;
      ghost var k := 0;
      while list != null
        invariant k <= |nodes| && list == if k < |nodes| then nodes[k] else null
        invariant data !in Contents()[..k]
        decreases |nodes| - k
      {
        if list.data == data {
          RemoveFirstAt(Contents(), data, k);
          if list == head {
            head := list.next;
          }
          Free(list, k);
          return;
        }
        list := list.next;
        k := k + 1;
      }
      RemoveFirstAt(Contents(), data, |nodes|);
    }

    /** `list_head_free` on node k, the head pointer already moved on. */
    method Free(list: ListHead<T>, ghost k: nat)
      requires k < |nodes| && list == nodes[k]
      requires forall i, j :: 0 <= i < j < |nodes| ==> nodes[i] != nodes[j]
      requires head == if k > 0 then nodes[0] else if |nodes| > 1 then nodes[1] else null
      requires forall i {:trigger nodes[i].prev} :: 0 <= i < |nodes| ==> nodes[i].prev == if i == 0 then null else nodes[i - 1]
      requires forall i {:trigger nodes[i].next} :: 0 <= i < |nodes| ==> nodes[i].next == if i + 1 == |nodes| then null else nodes[i + 1]
      modifies this`nodes, nodes
      ensures Valid() && Contents() == old(Contents())[..k] + old(Contents())[k + 1..]
      ensures nodes == old(nodes[..k] + nodes[k + 1..])
    {
      if list.next != null {
        list.next.prev := list.prev;
      }
      if list.prev != null {
        list.prev.next := list.next;
      }
      list.prev, list.next := null, null;
      nodes := nodes[..k] + nodes[k + 1..];
    }

    /** The data of the first node, as the `_info_find` functions look it up. */
    method First() returns (first: Option<T>)
      requires Valid()
      ensures first == if Contents() == [] then None else Some(Contents()[0])
    {
      first := if head == null then None else Some(head.data);
    }
  }
}
