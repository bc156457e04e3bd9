/** The list of networks found by a search, and PLMN numbers (mocha-ril/network.c). */
module NetSearch {
  import opened Options
  import opened Octets
  import opened LinkedList

  type u16 = x: int | 0 <= x < 65536

  /** tapiNetSearchCnf. */
  datatype Entry = Entry(systemType: octet, mnc: u16, mcc: u16, bForbidden: bool, bCurrent: bool, bAvailable: bool, name: string)

  /** MCC and MNC as one number: two decimal places for an MNC up to 99, else three. */
  function PlmnNumber(mcc: nat, mnc: nat): nat {
    if mnc > 99 then mcc * 1000 + mnc else mcc * 100 + mnc
  }

  /** A number printed with "%d". */
  function Decimal(n: nat): string {
    (if n < 10 then "" else Decimal(n / 10)) + ['0' + (n % 10) as char]
  }

  function Plmn(e: Entry): string {
    Decimal(PlmnNumber(e.mcc, e.mnc))
  }

  /** Different numbers print differently. */
  lemma {:induction false} DecimalInjective(m: nat, n: nat)
    ensures Decimal(m) == Decimal(n) <==> m == n
  {
    var a, b := Decimal(m), Decimal(n);
    if a == b {
      assert a[|a| - 1] == b[|b| - 1];
      assert a[..|a| - 1] == b[..|b| - 1];
      assert m >= 10 ==> |Decimal(m / 10)| > 0;
      assert n >= 10 ==> |Decimal(n / 10)| > 0;
      if m >= 10 && n >= 10 {
        DecimalInjective(m / 10, n / 10);
      }
    }
  }

  // ---------------------------------------------------------------- the list

  /** A PLMN and an entry for it. */
  type Item = (string, Entry)

  /** The entries of a search result, each with its PLMN. */
  function Items(entries: seq<Entry>): (items: seq<Item>)
    ensures |items| == |entries|
    ensures forall i :: 0 <= i < |items| ==> items[i] == (Plmn(entries[i]), entries[i])
  {
    seq(|entries|, i requires 0 <= i < |entries| => (Plmn(entries[i]), entries[i]))
  }

  /** The first position with the PLMN, or |found|. */
  function PlmnPosition(found: seq<Item>, plmn: string): (k: nat)
    ensures k <= |found| && (k < |found| ==> found[k].0 == plmn)
    ensures forall i :: 0 <= i < k ==> found[i].0 != plmn
  {
    if found == [] || found[0].0 == plmn then 0 else 1 + PlmnPosition(found[1..], plmn)
  }

  /** What one entry of the search result does to the list. */
  function Add(found: seq<Item>, item: Item): seq<Item> {
    var k := PlmnPosition(found, item.0);
    if k == |found| then found + [item]
    else if found[k].1.systemType < item.1.systemType then found[k := item]
    else found
  }

  function AddAll(items: seq<Item>): seq<Item> {
    if items == [] then [] else Add(AddAll(items[..|items| - 1]), items[|items| - 1])
  }

  class NetSelect {
    const plmn: string
    var entry: Entry

    constructor (plmn: string, entry: Entry)
      ensures this.plmn == plmn && this.entry == entry
    {
      this.plmn, this.entry := plmn, entry;
    }
  }

  class Networks {
    const list: List<NetSelect>

    ghost predicate Valid()
      reads list, list.nodes, list.Contents()
    {
      list.Valid() && forall i, j :: 0 <= i < j < |list.Contents()| ==> list.Contents()[i] != list.Contents()[j]
    }

    ghost function Found(): (f: seq<Item>)
      reads list, list.nodes, list.Contents()
      ensures |f| == |list.Contents()|
    {
      var c := list.Contents();
      seq(|c|, i requires 0 <= i < |c| reads c => (c[i].plmn, c[i].entry))
    }

    constructor ()
      ensures Valid() && Found() == []
    {
      list := new List();
    }

    /** `ril_net_select_find_plmn`. */
    method FindPlmn(plmn: string) returns (found: Option<NetSelect>)
      requires Valid()
      ensures var k := PlmnPosition(Found(), plmn);
              found == if k == |Found()| then None else Some(list.Contents()[k])
    {
      var node := list.head;
      ghost var k := 0;
      while node != null
        invariant k <= |list.nodes| && node == if k < |list.nodes| then list.nodes[k] else null
        invariant forall i :: 0 <= i < k ==> Found()[i].0 != plmn
        decreases |list.nodes| - k
      {
        if node.data.plmn == plmn {
          PlmnPositionIs(Found(), plmn, k);
          return Some(node.data);
        }
        node := node.next;
        k := k + 1;
      }
      PlmnPositionIs(Found(), plmn, k);
      return None;
    }

    /** `ril_net_select_unregister`: unlinks the head until there is none. */
    method Clear()
      requires Valid()
      modifies list, list.nodes
      ensures Valid() && Found() == [] && list.nodes == []
    {
      while list.head != null
        invariant Valid() && forall i :: 0 <= i < |list.nodes| ==> list.nodes[i] in old(list.nodes)
        decreases |list.nodes|
      {
        ghost var before := list.nodes;
        list.Unregister(list.head.data);
        assert forall i :: 0 <= i < |list.nodes| ==> list.nodes[i] in before;
      }
    }

    /** One round of the search loop. */
    method AddEntry(e: Entry)
      requires Valid()
      modifies list, list.nodes, list.Contents()
      ensures Valid() && Found() == Add(old(Found()), (Plmn(e), e))
      ensures forall k :: 0 <= k < |list.nodes| ==> list.nodes[k] in old(list.nodes) || fresh(list.nodes[k])
      ensures forall k :: 0 <= k < |list.Contents()| ==>
                list.Contents()[k] in old(list.Contents()) || fresh(list.Contents()[k])
    {
      var plmn := Plmn(e);
      var known := FindPlmn(plmn);
      if known.Some? {
        if known.value.entry.systemType < e.systemType {
          Replace(known.value, e, PlmnPosition(Found(), plmn));
        }
      } else {
        Register(plmn, e);
      }
    }

    /** `ril_net_select_register`. */
    method Register(plmn: string, e: Entry)
      requires Valid()
      modifies list, list.nodes
      ensures Valid() && Found() == old(Found()) + [(plmn, e)]
      ensures |list.Contents()| == |old(list.Contents())| + 1
      ensures list.Contents()[..|old(list.Contents())|] == old(list.Contents())
      ensures fresh(list.Contents()[|old(list.Contents())|])
      ensures |list.nodes| == |old(list.nodes)| + 1
      ensures list.nodes[..|old(list.nodes)|] == old(list.nodes) && fresh(list.nodes[|old(list.nodes)|])
    {
      var netSelect := new NetSelect(plmn, e);
      list.Register(netSelect);
    }

    method Replace(netSelect: NetSelect, e: Entry, ghost k: nat)
      requires Valid() && k < |list.Contents()| && list.Contents()[k] == netSelect
      modifies netSelect
      ensures Valid() && Found() == old(Found())[k := (netSelect.plmn, e)]
    {
      netSelect.entry := e;
    }

    /** The list building of `ipc_network_search_cnf`. */
    method Search(entries: seq<Entry>)
      requires Valid()
      modifies list, list.nodes
      ensures Valid() && Found() == AddAll(Items(entries)) && Selection(Items(entries), Found())
    {
      Clear();
      ghost var items := Items(entries);
      for i := 0 to |entries|
        invariant Valid() && Found() == AddAll(items[..i])
        invariant forall k :: 0 <= k < |list.nodes| ==> fresh(list.nodes[k])
        invariant forall k :: 0 <= k < |list.Contents()| ==> fresh(list.Contents()[k])
      {
        AddNext(items, i);
        AddEntry(entries[i]);
      }
      assert items[..|entries|] == items;
      SearchSelects(items);
    }
  }

  lemma {:induction false} AddNext(items: seq<Item>, i: nat)
    requires i < |items|
    ensures AddAll(items[..i + 1]) == Add(AddAll(items[..i]), items[i])
  {
    assert items[..i + 1][..i] == items[..i];
  }

  lemma {:induction false} PlmnPositionIs(found: seq<Item>, plmn: string, k: nat)
    requires k <= |found| && (k < |found| ==> found[k].0 == plmn)
    requires forall i :: 0 <= i < k ==> found[i].0 != plmn
    ensures PlmnPosition(found, plmn) == k
  {
    if k > 0 {
      PlmnPositionIs(found[1..], plmn, k - 1);
    }
  }

  // ---------------------------------------------------------------- what the list is

  /** Item i is the first one of the greatest system type for its PLMN. */
  ghost predicate Best(items: seq<Item>, i: nat) {
    && i < |items|
    && forall j :: 0 <= j < |items| && items[j].0 == items[i].0 ==>
         items[j].1.systemType < items[i].1.systemType || (i <= j && items[j].1.systemType == items[i].1.systemType)
  }

  ghost predicate BestOf(items: seq<Item>, item: Item) {
    exists i :: 0 <= i < |items| && Best(items, i) && item == items[i]
  }

  ghost predicate Selection(items: seq<Item>, found: seq<Item>) {
    // each listed PLMN has its best entry
    && (forall k :: 0 <= k < |found| ==> BestOf(items, found[k]))
    // PLMNs are listed in order of first appearance, so each of them once
    && (forall k, l :: 0 <= k < l < |found| ==> PlmnPosition(items, found[k].0) < PlmnPosition(items, found[l].0))
    // every PLMN of the search is listed
    && (forall i :: 0 <= i < |items| ==> PlmnPosition(found, items[i].0) < |found|)
  }

  lemma {:induction false} PlmnPositionKept(items: seq<Item>, item: Item, plmn: string)
    ensures PlmnPosition(items + [item], plmn)
         == var k := PlmnPosition(items, plmn);
            if k < |items| then k else if item.0 == plmn then |items| else |items| + 1
  {
    var k := PlmnPosition(items, plmn);
    PlmnPositionIs(items + [item], plmn, if k < |items| then k else if item.0 == plmn then |items| else |items| + 1);
  }

  lemma {:induction false} BestKept(items: seq<Item>, item: Item, held: Item)
    requires BestOf(items, held) && (item.0 != held.0 || item.1.systemType <= held.1.systemType)
    ensures BestOf(items + [item], held)
  {
    var i :| 0 <= i < |items| && Best(items, i) && held == items[i];
    var more := items + [item];
    assert forall j :: 0 <= j < |items| ==> more[j] == items[j];
    assert Best(more, i);
  }

  lemma {:induction false} BestReplaced(items: seq<Item>, item: Item, held: Item)
    requires BestOf(items, held) && item.0 == held.0 && item.1.systemType > held.1.systemType
    ensures BestOf(items + [item], item)
  {
    var i :| 0 <= i < |items| && Best(items, i) && held == items[i];
    var more := items + [item];
    assert forall j :: 0 <= j < |items| ==> more[j] == items[j];
    assert more[|items|] == item;
    assert Best(more, |items|);
  }

  lemma {:induction false} BestAdded(items: seq<Item>, item: Item)
    requires forall i :: 0 <= i < |items| ==> items[i].0 != item.0
    ensures BestOf(items + [item], item)
  {
    var more := items + [item];
    assert forall j :: 0 <= j < |items| ==> more[j] == items[j];
    assert more[|items|] == item;
    assert Best(more, |items|);
  }

  /** The best entry of a PLMN changes only for a better one. */
  lemma {:induction false} AddKeepsBest(items: seq<Item>, found: seq<Item>, item: Item, k: nat)
    requires Selection(items, found) && k < |Add(found, item)|
    ensures BestOf(items + [item], Add(found, item)[k])
  {
    var p := PlmnPosition(found, item.0);
    if k == |found| {
      NewPlmn(items, found, item.0);
      BestAdded(items, item);
    } else if k == p && found[k].1.systemType < item.1.systemType {
      BestReplaced(items, item, found[k]);
    } else {
      ListedOnce(items, found, k);
      BestKept(items, item, found[k]);
    }
  }

  lemma {:induction false} ListedOnce(items: seq<Item>, found: seq<Item>, k: nat)
    requires Selection(items, found) && k < |found|
    ensures PlmnPosition(found, found[k].0) == k
  {
    forall i | 0 <= i < k
      ensures found[i].0 != found[k].0
    {
      assert PlmnPosition(items, found[i].0) < PlmnPosition(items, found[k].0);
    }
    PlmnPositionIs(found, found[k].0, k);
  }

  lemma {:induction false} NewPlmn(items: seq<Item>, found: seq<Item>, plmn: string)
    requires Selection(items, found) && PlmnPosition(found, plmn) == |found|
    ensures PlmnPosition(items, plmn) == |items| && forall i :: 0 <= i < |items| ==> items[i].0 != plmn
  {
    forall i | 0 <= i < |items|
      ensures items[i].0 != plmn
    {
    }
  }

  lemma {:induction false} ListedAppears(items: seq<Item>, item: Item)
    requires BestOf(items, item)
    ensures PlmnPosition(items, item.0) < |items|
  {
    var i :| 0 <= i < |items| && Best(items, i) && item == items[i];
    assert PlmnPosition(items, item.0) <= i;
  }

  lemma {:induction false} AddKeepsPlmns(found: seq<Item>, item: Item)
    ensures |found| <= |Add(found, item)| <= |found| + 1
    ensures forall k :: 0 <= k < |Add(found, item)| ==> Add(found, item)[k].0 == if k < |found| then found[k].0 else item.0
    ensures |Add(found, item)| > |found| ==> PlmnPosition(found, item.0) == |found|
  {
  }

  lemma {:induction false} AddKeepsOrder(items: seq<Item>, found: seq<Item>, item: Item, k: nat, l: nat)
    requires Selection(items, found) && k < l < |Add(found, item)|
    ensures PlmnPosition(items + [item], Add(found, item)[k].0) < PlmnPosition(items + [item], Add(found, item)[l].0)
  {
    AddKeepsPlmns(found, item);
    ListedAppears(items, found[k]);
    PlmnPositionKept(items, item, found[k].0);
    if l < |found| {
      ListedAppears(items, found[l]);
      PlmnPositionKept(items, item, found[l].0);
    } else {
      NewPlmn(items, found, item.0);
      PlmnPositionKept(items, item, item.0);
    }
  }

  lemma {:induction false} AddKeepsAll(items: seq<Item>, found: seq<Item>, item: Item, i: nat)
    requires Selection(items, found) && i < |items + [item]|
    ensures PlmnPosition(Add(found, item), (items + [item])[i].0) < |Add(found, item)|
  {
    AddKeepsPlmns(found, item);
    var r, plmn := Add(found, item), (items + [item])[i].0;
    var k := PlmnPosition(found, plmn);
    assert i < |items| ==> PlmnPosition(found, items[i].0) < |found|;
    assert k < |r| && r[k].0 == plmn;
  }

  /** For every search result, the list holds each PLMN once, in order of first appearance,
      each with its first entry of the greatest system type. */
  lemma {:induction false} SearchSelects(items: seq<Item>)
    ensures Selection(items, AddAll(items))
  {
    if items != [] {
      var before, item := items[..|items| - 1], items[|items| - 1];
      SearchSelects(before);
      assert before + [item] == items;
      AddKeepsSelection(before, AddAll(before), item);
    }
  }

  lemma {:induction false} AddKeepsSelection(items: seq<Item>, found: seq<Item>, item: Item)
    requires Selection(items, found)
    ensures Selection(items + [item], Add(found, item))
  {
    var more, r := items + [item], Add(found, item);
    forall k | 0 <= k < |r|
      ensures BestOf(more, r[k])
    {
      AddKeepsBest(items, found, item, k);
    }
    forall k, l | 0 <= k < l < |r|
      ensures PlmnPosition(more, r[k].0) < PlmnPosition(more, r[l].0)
    {
      AddKeepsOrder(items, found, item, k, l);
    }
    forall i | 0 <= i < |more|
      ensures PlmnPosition(r, more[i].0) < |r|
    {
      AddKeepsAll(items, found, item, i);
    }
  }

  // ---------------------------------------------------------------- PLMN numbers

  /** Printed PLMNs tell networks apart: MCC 100 to 999, MNC up to three digits. */
  lemma {:induction false} PlmnTellsApart(mcc: nat, mnc: nat, mcc2: nat, mnc2: nat)
    requires 100 <= mcc <= 999 && 100 <= mcc2 <= 999 && mnc <= 999 && mnc2 <= 999
    ensures Decimal(PlmnNumber(mcc, mnc)) == Decimal(PlmnNumber(mcc2, mnc2)) <==> mcc == mcc2 && mnc == mnc2
  {
    DecimalInjective(PlmnNumber(mcc, mnc), PlmnNumber(mcc2, mnc2));
  }

  /** An MNC of more than three digits, which the field has room for, shares its PLMN with another
      network. */
  lemma {:induction false} LongMncCollides(mcc: nat, mnc: nat) returns (mcc2: nat, mnc2: nat)
    requires mcc > 0 && mnc > 999
    ensures mcc2 != mcc && Decimal(PlmnNumber(mcc2, mnc2)) == Decimal(PlmnNumber(mcc, mnc))
  {
    mcc2, mnc2 := if mnc < 1100 then mcc - 1 else mcc + 1, if mnc < 1100 then mnc + 1000 else mnc - 1000;
  }

  /** The number a text of decimal digits stands for. */
  function Value(text: string): int {
    if text == "" then 0 else 10 * Value(text[..|text| - 1]) + (text[|text| - 1] as int - '0' as int)
  }

  predicate AllDecimal(text: string) {
    forall i :: 0 <= i < |text| ==> '0' <= text[i] <= '9'
  }

  lemma {:induction false} ValueMore(text: string, d: nat)
    requires d < 10
    ensures Value(text + ['0' + d as char]) == 10 * Value(text) + d
  {
    assert (text + ['0' + d as char])[..|text|] == text;
  }

  /** A printed number stands for the number. */
  lemma {:induction false} DecimalBack(n: nat)
    ensures Decimal(n) != "" && AllDecimal(Decimal(n)) && Value(Decimal(n)) == n
  {
    if n >= 10 {
      DecimalBack(n / 10);
    }
    ValueMore(if n < 10 then "" else Decimal(n / 10), n % 10);
  }

  /** A number below 100 in two digits, and one below 1000 in three. */
  function Two(d: nat): string
    requires d < 100
  {
    ['0' + (d / 10) as char] + ['0' + (d % 10) as char]
  }

  function Three(d: nat): string
    requires d < 1000
  {
    Two(d / 10) + ['0' + (d % 10) as char]
  }

  lemma {:induction false} TwoValue(d: nat)
    requires d < 100
    ensures Value(Two(d)) == d
  {
    ValueMore("", d / 10);
    assert "" + ['0' + (d / 10) as char] == ['0' + (d / 10) as char];
    ValueMore(['0' + (d / 10) as char], d % 10);
  }

  lemma {:induction false} ThreeValue(d: nat)
    requires d < 1000
    ensures Value(Three(d)) == d
  {
    TwoValue(d / 10);
    ValueMore(Two(d / 10), d % 10);
  }

  lemma {:induction false} DecimalTwo(n: nat, d: nat)
    requires n > 0 && d < 100
    ensures Decimal(100 * n + d) == Decimal(n) + Two(d)
  {
    assert (100 * n + d) / 10 == 10 * n + d / 10;
    assert Decimal(10 * n + d / 10) == Decimal(n) + ['0' + (d / 10) as char];
  }

  lemma {:induction false} DecimalThree(n: nat, d: nat)
    requires n > 0 && d < 1000
    ensures Decimal(1000 * n + d) == Decimal(n) + Three(d)
  {
    DecimalTwo(n, d / 10);
    assert (1000 * n + d) / 10 == 100 * n + d / 10;
  }

  /** The text reads: the MCC, and then the MNC in so many digits. */
  predicate Reads(text: string, mcc: nat, mnc: nat, digits: nat) {
    digits <= |text| && AllDecimal(text)
    && Value(text[..|text| - digits]) == mcc && Value(text[|text| - digits..]) == mnc
  }

  lemma {:induction false} ReadsParts(front: string, tail: string, mcc: nat, mnc: nat)
    requires AllDecimal(front + tail) && Value(front) == mcc && Value(tail) == mnc
    ensures Reads(front + tail, mcc, mnc, |tail|)
  {
    assert (front + tail)[..|front|] == front && (front + tail)[|front|..] == tail;
  }

  lemma {:induction false} ShortReads(mcc: nat, mnc: nat)
    requires 0 < mcc && mnc <= 99
    ensures Reads(Decimal(100 * mcc + mnc), mcc, mnc, 2)
  {
    DecimalBack(mcc);
    DecimalBack(100 * mcc + mnc);
    DecimalTwo(mcc, mnc);
    TwoValue(mnc);
    ReadsParts(Decimal(mcc), Two(mnc), mcc, mnc);
  }

  lemma {:induction false} LongReads(mcc: nat, mnc: nat)
    requires 0 < mcc && mnc <= 999
    ensures Reads(Decimal(1000 * mcc + mnc), mcc, mnc, 3)
  {
    DecimalBack(mcc);
    DecimalBack(1000 * mcc + mnc);
    DecimalThree(mcc, mnc);
    ThreeValue(mnc);
    ReadsParts(Decimal(mcc), Three(mnc), mcc, mnc);
  }

  /** A PLMN reads: the MCC, and then the MNC in two digits up to 99, else in three. */
  lemma {:induction false} PlmnSpells(e: Entry)
    requires 0 < e.mcc && e.mnc <= 999
    ensures Reads(Plmn(e), e.mcc, e.mnc, if e.mnc > 99 then 3 else 2)
  {
    if e.mnc > 99 {
      LongReads(e.mcc, e.mnc);
    } else {
      ShortReads(e.mcc, e.mnc);
    }
  }

  function LowNibble(b: octet): nat {
    b % 16
  }

  function HighNibble(b: octet): nat {
    b / 16
  }

  /** `ipc_cell_info`: the PLMN number read from three octets of BCD. */
  function CellPlmn(id: seq<octet>): nat
    requires |id| == 3
  {
    var mcc := LowNibble(id[0]) * 100 + HighNibble(id[0]) * 10 + LowNibble(id[1]);
    if HighNibble(id[1]) == 15 then
      var mnc := LowNibble(id[2]) * 10 + HighNibble(id[2]);
      mcc * 100 + mnc
    else
      var mnc := LowNibble(id[2]) * 100 + HighNibble(id[2]) * 10 + HighNibble(id[1]);
      mcc * 1000 + mnc
  }

  /** Decimal digit i of a number, counted from the last. */
  function DecimalPlace(n: nat, i: nat): (d: nat)
    ensures d < 10
  {
    if i == 0 then n % 10 else DecimalPlace(n / 10, i - 1)
  }

  function Pair(low: nat, high: nat): (b: octet)
    requires low < 16 && high < 16
    ensures LowNibble(b) == low && HighNibble(b) == high
  {
    low + 16 * high
  }

  /** A PLMN in BCD, MNC in two digits or three (3GPP TS 24.008, section 10.5.1.13). */
  function BcdPlmn(mcc: nat, mnc: nat, three: bool): (id: seq<octet>)
    ensures |id| == 3
  {
    if three then
      [Pair(DecimalPlace(mcc, 2), DecimalPlace(mcc, 1)), Pair(DecimalPlace(mcc, 0), DecimalPlace(mnc, 0)), Pair(DecimalPlace(mnc, 2), DecimalPlace(mnc, 1))]
    else
      [Pair(DecimalPlace(mcc, 2), DecimalPlace(mcc, 1)), Pair(DecimalPlace(mcc, 0), 15), Pair(DecimalPlace(mnc, 1), DecimalPlace(mnc, 0))]
  }

  lemma {:induction false} DecimalPlaces(n: nat)
    requires n <= 999
    ensures n == DecimalPlace(n, 2) * 100 + DecimalPlace(n, 1) * 10 + DecimalPlace(n, 0)
    ensures n <= 99 ==> DecimalPlace(n, 2) == 0
  {
    assert DecimalPlace(n, 1) == DecimalPlace(n / 10, 0) == n / 10 % 10;
    assert DecimalPlace(n, 2) == DecimalPlace(n / 10, 1) == DecimalPlace(n / 10 / 10, 0) == n / 10 / 10 % 10;
  }

  /** Cell info and search agree on a network exactly when its MNC is broadcast in three
      digits only from 100 on: a three-digit MNC such as 012 is counted differently. */
  lemma {:induction false} CellInfoAgrees(mcc: nat, mnc: nat, three: bool)
    requires 100 <= mcc <= 999 && mnc <= if three then 999 else 99
    ensures CellPlmn(BcdPlmn(mcc, mnc, three)) == PlmnNumber(mcc, mnc) <==> (three <==> mnc > 99)
  {
    DecimalPlaces(mcc);
    DecimalPlaces(mnc);
  }
}
