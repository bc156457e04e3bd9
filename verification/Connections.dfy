/** Data connections and their ids (mocha-ril/gprs.c). */
module Connections {
  import opened Options
  import opened LinkedList

  // ---------------------------------------------------------------- the ids in use

  /** The least id from c on, up to the bound, that is not in use, or 0. */
  function Least(cids: seq<nat>, bound: nat, c: nat): (r: nat)
    requires 1 <= c <= bound + 1
    ensures r != 0 ==> c <= r <= bound && r !in cids
    ensures forall i :: c <= i < (if r == 0 then bound + 1 else r) ==> i in cids
    decreases bound + 1 - c
  {
    if c == bound + 1 then 0 else if c !in cids then c else Least(cids, bound, c + 1)
  }

  datatype Event = Start(iface: int) | Stop(cid: nat)

  function Step(bound: nat, cids: seq<nat>, e: Event): seq<nat> {
    match e
    case Start(iface) =>
      var cid := Least(cids, bound, 1);
      if cid == 0 || iface < 0 then cids else cids + [cid]
    case Stop(cid) => RemoveFirst(cids, cid)
  }

  // ---------------------------------------------------------------- the connections

  class GprsConnection {
    const cid: nat
    var iface: int

    constructor (cid: nat)
      ensures this.cid == cid && iface == -1
    {
      this.cid, iface := cid, -1;
    }
  }

  ghost function CidsOf(connections: seq<GprsConnection>): (cids: seq<nat>)
    ensures |cids| == |connections|
    ensures forall i :: 0 <= i < |cids| ==> cids[i] == connections[i].cid
  {
    seq(|connections|, i requires 0 <= i < |connections| => connections[i].cid)
  }

  class Connections {
    const bound: nat
    const list: List<GprsConnection>

    ghost predicate Valid()
      reads list, list.nodes
    {
      list.Valid() && Distinct(Cids())
    }

    ghost function Cids(): (cids: seq<nat>)
      reads list, list.nodes
      ensures |cids| == |list.nodes|
    {
      CidsOf(list.Contents())
    }

    constructor (bound: nat)
      ensures this.bound == bound && Valid() && Cids() == []
    {
      this.bound := bound;
      list := new List();
    }

    /** The inner loop of `ril_gprs_connection_start` and `ril_gprs_connection_find_cid`: the
        first connection with the id. */
    method FindCid(cid: nat) returns (found: Option<GprsConnection>)
      requires list.Valid()
      ensures found == None <==> cid !in Cids()
      ensures found.Some? ==> found.value in list.Contents() && found.value.cid == cid
    {
      var node := list.head;
      ghost var k := 0;
      while node != null
        invariant k <= |list.nodes| && node == if k < |list.nodes| then list.nodes[k] else null
        invariant forall i :: 0 <= i < k ==> Cids()[i] != cid
        decreases |list.nodes| - k
      {
        if node.data.cid == cid {
          assert Cids()[k] == cid && list.Contents()[k] == node.data;
          return Some(node.data);
        }
        node := node.next;
        k := k + 1;
      }
      return None;
    }

    /** The search of `ril_gprs_connection_start` for an unused id. */
    method UnusedCid() returns (cid: nat)
      requires list.Valid()
      ensures cid == Least(Cids(), bound, 1)
    {
      cid := 0;
      var i := 0;
      while i < bound
        invariant i <= bound && cid == 0
        invariant Least(Cids(), bound, 1) == Least(Cids(), bound, i + 1)
      {
        var used := FindCid(i + 1);
        if used == None {
          return i + 1;
        }
        i := i + 1;
      }
    }

    /** `ril_gprs_connection_register`. */
    method Register(cid: nat) returns (added: GprsConnection)
      requires Valid() && cid !in Cids()
      modifies list, list.nodes
      ensures Valid() && list.Contents() == old(list.Contents()) + [added] && added.cid == cid && fresh(added)
      ensures Cids() == old(Cids()) + [cid]
      ensures |list.nodes| == |old(list.nodes)| + 1 && list.nodes[..|old(list.nodes)|] == old(list.nodes)
      ensures fresh(list.nodes[|old(list.nodes)|])
    {
      added := new GprsConnection(cid);
      list.Register(added);
    }

    /** Gives the connection its interface, or takes it off the list again. */
    method OpenInterface(connection: GprsConnection, iface: int, ghost before: seq<GprsConnection>)
      requires Valid() && list.Contents() == before + [connection] && connection !in before
      modifies list, list.nodes, connection
      ensures Valid() && connection.iface == iface
      ensures list.Contents() == if iface < 0 then before else before + [connection]
    {
      connection.iface := iface;
      if iface < 0 {
        list.Unregister(connection);
        RemoveLast(before, connection);
        assert CidsOf(before + [connection])[..|before|] == CidsOf(before);
      }
    }

    /** `ril_gprs_connection_start`; iface is what creating the interface gives. */
    method StartConnection(iface: int) returns (connection: Option<GprsConnection>)
      requires Valid()
      modifies list, list.nodes
      ensures Valid() && Cids() == Step(bound, old(Cids()), Start(iface))
      ensures connection.Some? <==> Least(old(Cids()), bound, 1) != 0 && iface >= 0
      ensures connection.Some? ==>
                && connection.value.cid == Least(old(Cids()), bound, 1) && connection.value.iface == iface
                && list.Contents() == old(list.Contents()) + [connection.value]
      ensures connection == None ==> list.Contents() == old(list.Contents())
    {
      var cid := UnusedCid();
      if cid == 0 {
        return None;
      }
      ghost var before := list.Contents();
      var added := Register(cid);
      var found := FindCid(cid);
      OneWith(before, added, found.value);
      OpenInterface(found.value, iface, before);
      return if iface < 0 then None else found;
    }

    /** `ril_gprs_connection_stop`. */
    method StopConnection(connection: GprsConnection)
      requires Valid() && connection in list.Contents()
      modifies list, list.nodes
      ensures Valid() && Cids() == Step(bound, old(Cids()), Stop(connection.cid))
      ensures list.Contents() == RemoveFirst(old(list.Contents()), connection)
    {
      ghost var k :| 0 <= k < |list.Contents()| && list.Contents()[k] == connection;
      RemoveByCid(list.Contents(), connection, k);
      RemoveKeepsDistinct(Cids(), connection.cid);
      list.Unregister(connection);
    }
  }

  /** A new connection is the only one with its id. */
  lemma {:induction false} OneWith(before: seq<GprsConnection>, added: GprsConnection, found: GprsConnection)
    requires added.cid !in CidsOf(before) && found in before + [added] && found.cid == added.cid
    ensures found == added && added !in before
  {
    forall k | 0 <= k < |before|
      ensures before[k].cid != added.cid
    {
      assert CidsOf(before)[k] in CidsOf(before);
    }
  }

  lemma {:induction false} RemoveLast<T>(s: seq<T>, x: T)
    requires x !in s
    ensures RemoveFirst(s + [x], x) == s
  {
    RemoveFirstAt(s + [x], x, |s|);
  }

  lemma {:induction false} CidsWithout(connections: seq<GprsConnection>, k: nat)
    requires k < |connections|
    ensures CidsOf(connections[..k] + connections[k + 1..]) == CidsOf(connections)[..k] + CidsOf(connections)[k + 1..]
  {
  }

  /** Removing a connection removes its id. */
  lemma {:induction false} RemoveByCid(connections: seq<GprsConnection>, connection: GprsConnection, k: nat)
    requires k < |connections| && connections[k] == connection && Distinct(CidsOf(connections))
    ensures CidsOf(RemoveFirst(connections, connection)) == RemoveFirst(CidsOf(connections), connection.cid)
  {
    var cids := CidsOf(connections);
    assert forall i :: 0 <= i < k ==> cids[i] == connections[i].cid && cids[i] != cids[k];
    RemoveFirstAt(connections, connection, k);
    RemoveFirstAt(cids, connection.cid, k);
    CidsWithout(connections, k);
  }

  // ---------------------------------------------------------------- whole runs

  predicate Distinct(s: seq<nat>) {
    forall i, j :: 0 <= i < j < |s| ==> s[i] != s[j]
  }

  /** Pairwise distinct ids from 1 to the bound. */
  predicate Proper(bound: nat, cids: seq<nat>) {
    Distinct(cids) && forall i :: 0 <= i < |cids| ==> 1 <= cids[i] <= bound
  }

  function Run(bound: nat, events: seq<Event>): seq<nat> {
    if events == [] then [] else Step(bound, Run(bound, events[..|events| - 1]), events[|events| - 1])
  }

  lemma {:induction false} RemoveKeepsDistinct(s: seq<nat>, x: nat)
    requires Distinct(s)
    ensures Distinct(RemoveFirst(s, x))
    ensures forall y :: y in RemoveFirst(s, x) <==> y in s && y != x
  {
    if s != [] {
      assert s == [s[0]] + s[1..];
      if s[0] != x {
        RemoveKeepsDistinct(s[1..], x);
        assert s[0] !in s[1..];
      }
    }
  }

  lemma {:induction false} StepProper(bound: nat, cids: seq<nat>, e: Event)
    requires Proper(bound, cids)
    ensures Proper(bound, Step(bound, cids, e))
  {
    if e.Stop? {
      RemoveKeepsDistinct(cids, e.cid);
      var r := RemoveFirst(cids, e.cid);
      assert forall i :: 0 <= i < |r| ==> r[i] in r;
    }
  }

  /** The ids up to the bound. */
  function Range(bound: nat): (s: set<nat>)
    ensures |s| == bound && forall c :: c in s <==> 1 <= c <= bound
  {
    if bound == 0 then {}
    else
      var below := Range(bound - 1);
      assert bound !in below;
      below + {bound}
  }

  function Elements(s: seq<nat>): (r: set<nat>)
    ensures forall x :: x in r <==> x in s
  {
    if s == [] then {} else Elements(s[..|s| - 1]) + {s[|s| - 1]}
  }

  lemma {:induction false} ElementCount(s: seq<nat>)
    requires Distinct(s)
    ensures |Elements(s)| == |s|
  {
    if s != [] {
      var n := |s| - 1;
      ElementCount(s[..n]);
      assert s[n] !in s[..n];
    }
  }

  lemma {:induction false} SubsetSize(a: set<nat>, b: set<nat>)
    requires a <= b
    ensures |a| <= |b| && (|a| == |b| <==> a == b)
  {
    assert b == a + (b - a);
    assert |b| == |a| + |b - a|;
  }

  /** No id is free exactly when as many connections live as there may be. */
  lemma {:induction false} FullWhenAllLive(bound: nat, cids: seq<nat>)
    requires Proper(bound, cids)
    ensures |cids| <= bound && (Least(cids, bound, 1) == 0 <==> |cids| == bound)
  {
    var live, all := Elements(cids), Range(bound);
    ElementCount(cids);
    assert forall c :: c in live ==> c in cids && c in all;
    SubsetSize(live, all);
    if Least(cids, bound, 1) == 0 {
      assert forall c :: c in all ==> c in cids;
    } else {
      assert Least(cids, bound, 1) in all && Least(cids, bound, 1) !in live;
    }
  }

  /** Over every run of starts and stops, whatever the bound: live ids are distinct and in
      1..bound, the next start takes the least free one, and there is none exactly if bound
      connections live. */
  lemma {:induction false} CidsAllocated(bound: nat, events: seq<Event>)
    ensures var cids := Run(bound, events); var cid := Least(cids, bound, 1);
            && Proper(bound, cids) && |cids| <= bound
            && (cid == 0 <==> |cids| == bound)
            && (cid != 0 ==> 1 <= cid <= bound && cid !in cids && forall c :: 1 <= c < cid ==> c in cids)
  {
    if events != [] {
      CidsAllocated(bound, events[..|events| - 1]);
      StepProper(bound, Run(bound, events[..|events| - 1]), events[|events| - 1]);
    }
    FullWhenAllLive(bound, Run(bound, events));
  }
}
