/** List literals of integers and nested lists: their canonical keys, and how they are collected for emission. */
module ListLiterals {
  import opened Decimals
  import opened MachineWords

  datatype Item = Int(n: int) | Nested(items: seq<Item>)

  // ----- canonical keys -----

  function ItemKey(item: Item): string
    decreases item, 1
  {
    match item
    case Int(n) => "int(" + Decimal(n) + ")"
    case Nested(items) => ListKey(items)
  }

  function ListKey(items: seq<Item>): string
    decreases items, 1
  {
    "list[" + ItemKeys(items, true) + "]"
  }

  /** The items, with a comma before each but the first. */
  function ItemKeys(items: seq<Item>, first: bool): string
    decreases items, 0
  {
    if items == [] then "" else (if first then "" else ",") + ItemKey(items[0]) + ItemKeys(items[1..], false)
  }

  lemma ItemKeyStart(item: Item)
    ensures ItemKey(item) != "" && ItemKey(item)[0] == if item.Int? then 'i' else 'l'
  {
  }

  /** Keys are read from the front in one way only. */
  lemma {:induction false} ItemKeyUnique(a: Item, b: Item, x: string, y: string)
    requires ItemKey(a) + x == ItemKey(b) + y
    ensures a == b && x == y
    decreases a, 1
  {
    ItemKeyStart(a);
    ItemKeyStart(b);
    assert (ItemKey(a) + x)[0] == (ItemKey(b) + y)[0];
    match a
    case Int(m) =>
      var n := b.n;
      assert ItemKey(a) + x == "int(" + (Decimal(m) + (")" + x));
      assert ItemKey(b) + y == "int(" + (Decimal(n) + (")" + y));
      Cancel("int(", Decimal(m) + (")" + x), Decimal(n) + (")" + y));
      DecimalPrefix(m, n, ")" + x, ")" + y);
      Cancel(")", x, y);
    case Nested(items) =>
      assert ItemKey(a) + x == "list[" + (ItemKeys(items, true) + ("]" + x));
      assert ItemKey(b) + y == "list[" + (ItemKeys(b.items, true) + ("]" + y));
      Cancel("list[", ItemKeys(items, true) + ("]" + x), ItemKeys(b.items, true) + ("]" + y));
      ItemKeysUnique(items, b.items, true, x, y);
  }

  lemma {:induction false} ItemKeysUnique(a: seq<Item>, b: seq<Item>, first: bool, x: string, y: string)
    requires ItemKeys(a, first) + ("]" + x) == ItemKeys(b, first) + ("]" + y)
    ensures a == b && x == y
    decreases a, 0
  {
    hide ItemKey;
    KeysSplit(a, first, "]" + x);
    KeysSplit(b, first, "]" + y);
    if a == [] {
      Cancel("]", x, y);
    } else {
      var restA, restB := ItemKeys(a[1..], false) + ("]" + x), ItemKeys(b[1..], false) + ("]" + y);
      Cancel(Separator(first), ItemKey(a[0]) + restA, ItemKey(b[0]) + restB);
      ItemKeyUnique(a[0], b[0], restA, restB);
      ItemKeysUnique(a[1..], b[1..], false, x, y);
      assert a == [a[0]] + a[1..] && b == [b[0]] + b[1..];
    }
  }

  function Separator(first: bool): string {
    if first then "" else ","
  }

  lemma Reassociate(a: string, b: string, c: string, d: string)
    ensures a + b + c + d == a + (b + (c + d))
  {
  }

  /** What a list of keys starts with, and what comes after its first item. */
  lemma KeysSplit(items: seq<Item>, first: bool, rest: string)
    requires rest != "" && rest[0] == ']'
    ensures
      var s := ItemKeys(items, first) + rest;
      s != "" &&
      if items == [] then s == rest
      else s[0] != ']' && s == Separator(first) + (ItemKey(items[0]) + (ItemKeys(items[1..], false) + rest))
  {
    if items == [] {
      assert "" + rest == rest;
    } else {
      ItemKeyStart(items[0]);
      hide ItemKey;
      Reassociate(Separator(first), ItemKey(items[0]), ItemKeys(items[1..], false), rest);
    }
  }

  /** Equal keys come from equal literals, so sharing an emitted literal by its key is sound. */
  lemma ListKeyInjective(a: seq<Item>, b: seq<Item>)
    requires ListKey(a) == ListKey(b)
    ensures a == b
  {
    assert ItemKey(Nested(a)) + "" == ItemKey(Nested(b)) + "";
    ItemKeyUnique(Nested(a), Nested(b), "", "");
  }

  // ----- collecting -----

  /** A node to be emitted: its value is the 64 bits, or the address of the list `pointer`. */
  datatype Node = Node(symbol: string, tag: nat, isPointer: bool, bits: nat, pointer: string, next: string)

  datatype ListInfo = ListInfo(id: nat, header: string, nodes: seq<Node>, length: nat)

  datatype Collected = Collected(infos: seq<ListInfo>, memo: map<string, string>, nextId: nat)

  function BaseLabel(id: nat): string {
    "L_list" + Decimal(id)
  }

  function HeaderLabel(id: nat): string {
    BaseLabel(id) + "_header"
  }

  function NodeLabel(id: nat, i: nat): string {
    BaseLabel(id) + "_node_" + Decimal(i)
  }

  function NextLabel(id: nat, i: nat, length: nat): string {
    if i + 1 < length then NodeLabel(id, i + 1) else ""
  }

  function AddList(g: Collected, items: seq<Item>): (r: (Collected, string))
    decreases items, 1
  {
    var key := ListKey(items);
    if key in g.memo then (g, g.memo[key])
    else
      var id := g.nextId;
      var (g1, nodes) := AddNodes(g.(nextId := id + 1), id, items, |items|);
      (Collected(g1.infos + [ListInfo(id, HeaderLabel(id), nodes, |items|)], g1.memo[key := HeaderLabel(id)], g1.nextId), HeaderLabel(id))
  }

  /** The nodes of the first n items; nested lists are collected on the way. */
  function AddNodes(g: Collected, id: nat, items: seq<Item>, n: nat): (r: (Collected, seq<Node>))
    requires n <= |items|
    decreases items, 0, n
  {
    if n == 0 then (g, [])
    else
      var (g1, nodes) := AddNodes(g, id, items, n - 1);
      var symbol, next := NodeLabel(id, n - 1), NextLabel(id, n - 1, |items|);
      match items[n - 1]
      case Int(v) => (g1, nodes + [Node(symbol, 1, false, Bits64(v), "", next)])
      case Nested(inner) =>
        var (g2, pointer) := AddList(g1, inner);
        (g2, nodes + [Node(symbol, 4, true, 0, pointer, next)])
  }

  // ----- what is collected stands for the literal -----

  ghost predicate Holds(infos: seq<ListInfo>, symbol: string, items: seq<Item>)
    decreases items, 2
  {
    exists k :: 0 <= k < |infos| && infos[k].header == symbol && InfoMatches(infos, infos[k], items)
  }

  ghost predicate InfoMatches(infos: seq<ListInfo>, info: ListInfo, items: seq<Item>)
    decreases items, 1
  {
    && |info.nodes| == |items| == info.length
    && forall i :: 0 <= i < |items| ==> NodeMatches(infos, info.nodes[i], items[i])
  }

  ghost predicate NodeMatches(infos: seq<ListInfo>, node: Node, item: Item)
    decreases item
  {
    match item
    case Int(v) => !node.isPointer && node.tag == 1 && node.bits == Bits64(v)
    case Nested(inner) => node.isPointer && node.tag == 4 && Holds(infos, node.pointer, inner)
  }

  /** The labels of a list are made from its number; its nodes are linked in order. */
  predicate Labelled(info: ListInfo) {
    && info.header == HeaderLabel(info.id)
    && info.length == |info.nodes|
    && forall i :: 0 <= i < |info.nodes| ==>
         info.nodes[i].symbol == NodeLabel(info.id, i) && info.nodes[i].next == NextLabel(info.id, i, |info.nodes|)
  }

  ghost predicate Numbered(infos: seq<ListInfo>, below: nat) {
    && (forall k :: 0 <= k < |infos| ==> Labelled(infos[k]) && infos[k].id < below)
    && (forall j, k :: 0 <= j < k < |infos| ==> infos[j].id != infos[k].id)
  }

  ghost predicate Remembered(infos: seq<ListInfo>, key: string, symbol: string) {
    exists items :: ListKey(items) == key && Holds(infos, symbol, items)
  }

  ghost predicate Sound(g: Collected) {
    Numbered(g.infos, g.nextId) && forall key :: key in g.memo ==> Remembered(g.infos, key, g.memo[key])
  }

  lemma {:induction false} HoldsMore(infos: seq<ListInfo>, more: seq<ListInfo>, symbol: string, items: seq<Item>)
    requires Holds(infos, symbol, items) && infos <= more
    ensures Holds(more, symbol, items)
    decreases items, 1
  {
    var k :| 0 <= k < |infos| && infos[k].header == symbol && InfoMatches(infos, infos[k], items);
    InfoMore(infos, more, infos[k], items);
    assert more[k] == infos[k];
  }

  lemma {:induction false} InfoMore(infos: seq<ListInfo>, more: seq<ListInfo>, info: ListInfo, items: seq<Item>)
    requires InfoMatches(infos, info, items) && infos <= more
    ensures InfoMatches(more, info, items)
    decreases items, 0
  {
    forall i | 0 <= i < |items| ensures NodeMatches(more, info.nodes[i], items[i]) {
      assert NodeMatches(infos, info.nodes[i], items[i]);
      if items[i].Nested? { HoldsMore(infos, more, info.nodes[i].pointer, items[i].items); }
    }
  }

  lemma SoundMore(g: Collected, r: Collected)
    requires Sound(g) && g.infos <= r.infos && Numbered(r.infos, r.nextId)
    requires forall key :: key in r.memo ==> (key in g.memo && r.memo[key] == g.memo[key]) || Remembered(r.infos, key, r.memo[key])
    ensures Sound(r)
  {
    forall key | key in r.memo ensures Remembered(r.infos, key, r.memo[key]) {
      if key in g.memo && r.memo[key] == g.memo[key] {
        var items :| ListKey(items) == key && Holds(g.infos, g.memo[key], items);
        HoldsMore(g.infos, r.infos, g.memo[key], items);
      }
    }
  }

  /** Collecting a literal leaves a list under the returned label that stands for it, shared or new. */
  lemma {:induction false} AddListHolds(g: Collected, items: seq<Item>)
    requires Sound(g)
    ensures var (r, symbol) := AddList(g, items); Sound(r) && g.infos <= r.infos && g.nextId <= r.nextId && Holds(r.infos, symbol, items)
    decreases items, 1
  {
    hide Holds, ListKey, Labelled;
    var key := ListKey(items);
    if key in g.memo {
      var same :| ListKey(same) == key && Holds(g.infos, g.memo[key], same);
      ListKeyInjective(same, items);
    } else {
      var id := g.nextId;
      AddNodesMatch(g.(nextId := id + 1), id, items, |items|);
      var (g1, nodes) := AddNodes(g.(nextId := id + 1), id, items, |items|);
      var r := AddList(g, items).0;
      var info := r.infos[|r.infos| - 1];
      LabelledNew(info, id, nodes, items);
      assert InfoMatches(g1.infos, info, items);
      InfoMore(g1.infos, r.infos, info, items);
      HoldsLast(r.infos, items);
      SoundMore(g1, r);
    }
  }

  lemma HoldsLast(infos: seq<ListInfo>, items: seq<Item>)
    requires infos != [] && InfoMatches(infos, infos[|infos| - 1], items)
    ensures Holds(infos, infos[|infos| - 1].header, items)
  {
  }

  ghost predicate LabelledNodes(nodes: seq<Node>, id: nat, length: nat) {
    forall i :: 0 <= i < |nodes| ==> nodes[i].symbol == NodeLabel(id, i) && nodes[i].next == NextLabel(id, i, length)
  }

  lemma LabelledNew(info: ListInfo, id: nat, nodes: seq<Node>, items: seq<Item>)
    requires info == ListInfo(id, HeaderLabel(id), nodes, |items|) && |nodes| == |items| && LabelledNodes(nodes, id, |items|)
    ensures Labelled(info)
  {
  }

  lemma {:induction false} AddNodesMatch(g: Collected, id: nat, items: seq<Item>, n: nat)
    requires n <= |items| && Sound(g) && id < g.nextId && forall k :: 0 <= k < |g.infos| ==> g.infos[k].id != id
    ensures
      var (r, nodes) := AddNodes(g, id, items, n);
      && Sound(r) && g.infos <= r.infos && g.nextId <= r.nextId && |nodes| == n && LabelledNodes(nodes, id, |items|)
      && (forall i :: 0 <= i < n ==> NodeMatches(r.infos, nodes[i], items[i]))
      && (forall k :: 0 <= k < |r.infos| ==> r.infos[k].id != id)
    decreases items, 0, n
  {
    hide Holds, ListKey, NodeLabel, NextLabel, Labelled;
    if n > 0 {
      AddNodesMatch(g, id, items, n - 1);
      var (g1, nodes) := AddNodes(g, id, items, n - 1);
      if items[n - 1].Nested? {
        AddListHolds(g1, items[n - 1].items);
        var (g2, pointer) := AddList(g1, items[n - 1].items);
        NewIds(g1, items[n - 1].items, id);
        forall i | 0 <= i < n - 1 ensures NodeMatches(g2.infos, nodes[i], items[i]) {
          assert NodeMatches(g1.infos, nodes[i], items[i]);
          if items[i].Nested? { HoldsMore(g1.infos, g2.infos, nodes[i].pointer, items[i].items); }
        }
      }
    }
  }

  /** Collecting takes numbers from the counter only. */
  lemma {:induction false} NewIds(g: Collected, items: seq<Item>, id: nat)
    requires id < g.nextId && forall k :: 0 <= k < |g.infos| ==> g.infos[k].id != id
    ensures var r := AddList(g, items).0; g.nextId <= r.nextId && forall k :: 0 <= k < |r.infos| ==> r.infos[k].id != id
    decreases items, 1
  {
    hide ListKey, HeaderLabel;
    if ListKey(items) !in g.memo {
      NewIdsNodes(g.(nextId := g.nextId + 1), g.nextId, items, |items|, id);
    }
  }

  lemma {:induction false} NewIdsNodes(g: Collected, own: nat, items: seq<Item>, n: nat, id: nat)
    requires n <= |items| && id < g.nextId && forall k :: 0 <= k < |g.infos| ==> g.infos[k].id != id
    ensures var r := AddNodes(g, own, items, n).0; g.nextId <= r.nextId && forall k :: 0 <= k < |r.infos| ==> r.infos[k].id != id
    decreases items, 0, n
  {
    hide ListKey, HeaderLabel, NodeLabel, NextLabel;
    if n > 0 {
      NewIdsNodes(g, own, items, n - 1, id);
      if items[n - 1].Nested? { NewIds(AddNodes(g, own, items, n - 1).0, items[n - 1].items, id); }
    }
  }

  // ----- all literals of a program -----

  const NO_LISTS := Collected([], map[], 0)

  /** Collects literals one after the other. */
  function AddAll(g: Collected, literals: seq<seq<Item>>): (r: (Collected, seq<string>))
    ensures |r.1| == |literals|
    decreases |literals|
  {
    if literals == [] then (g, [])
    else
      var (g1, symbols) := AddAll(g, literals[..|literals| - 1]);
      var (g2, symbol) := AddList(g1, literals[|literals| - 1]);
      (g2, symbols + [symbol])
  }

  lemma {:induction false} AddAllHolds(g: Collected, literals: seq<seq<Item>>)
    requires Sound(g)
    ensures
      var (r, symbols) := AddAll(g, literals);
      Sound(r) && g.infos <= r.infos && forall k :: 0 <= k < |literals| ==> Holds(r.infos, symbols[k], literals[k])
    decreases |literals|
  {
    hide Sound, Holds, AddList;
    if literals != [] {
      var before := literals[..|literals| - 1];
      AddAllHolds(g, before);
      var (g1, symbols) := AddAll(g, before);
      AddListHolds(g1, literals[|literals| - 1]);
      var g2 := AddList(g1, literals[|literals| - 1]).0;
      forall k | 0 <= k < |before| ensures Holds(g2.infos, symbols[k], literals[k]) {
        HoldsMore(g1.infos, g2.infos, symbols[k], before[k]);
      }
    }
  }

  // ----- one list for equal literals -----

  /** Every key is remembered under the label of one list, and different keys under different ones. */
  ghost predicate Sharp(g: Collected) {
    && (forall key :: key in g.memo ==> exists id: nat :: id < g.nextId && g.memo[key] == HeaderLabel(id))
    && forall key, other :: key in g.memo && other in g.memo && g.memo[key] == g.memo[other] ==> key == other
  }

  ghost predicate Unused(g: Collected, id: nat) {
    forall key :: key in g.memo ==> g.memo[key] != HeaderLabel(id)
  }

  lemma HeaderUnique(id: nat, other: nat)
    requires HeaderLabel(id) == HeaderLabel(other)
    ensures id == other
  {
    OwnerUnique(HeaderLabel(id), id, other);
  }

  ghost predicate KeepsMemo(g: Collected, r: Collected) {
    g.nextId <= r.nextId && forall key :: key in g.memo ==> key in r.memo && r.memo[key] == g.memo[key]
  }

  /** Collecting a literal remembers it under its label, and forgets and mixes up nothing. */
  lemma {:induction false} AddListShares(g: Collected, items: seq<Item>)
    requires Sharp(g)
    ensures
      var (r, symbol) := AddList(g, items);
      && Sharp(r) && KeepsMemo(g, r) && ListKey(items) in r.memo && r.memo[ListKey(items)] == symbol
      && forall id: nat :: id < g.nextId && Unused(g, id) ==> Unused(r, id)
    decreases items, 1
  {
    hide ListKey, HeaderLabel;
    if ListKey(items) !in g.memo {
      var (own, g0) := (g.nextId, g.(nextId := g.nextId + 1));
      forall key | key in g.memo ensures g.memo[key] != HeaderLabel(own) {
        var id: nat :| id < g.nextId && g.memo[key] == HeaderLabel(id);
        if HeaderLabel(id) == HeaderLabel(own) { HeaderUnique(id, own); }
      }
      AddNodesShare(g0, own, items, |items|);
      var g1 := AddNodes(g0, own, items, |items|).0;
      var r := AddList(g, items).0;
      forall id: nat | id < g.nextId && Unused(g, id) ensures Unused(r, id) {
        assert Unused(g0, id) && Unused(g1, id);
        if HeaderLabel(id) == HeaderLabel(own) { HeaderUnique(id, own); }
      }
      assert Unused(g1, own);
    }
  }

  lemma {:induction false} AddNodesShare(g: Collected, own: nat, items: seq<Item>, n: nat)
    requires n <= |items| && Sharp(g)
    ensures
      var r := AddNodes(g, own, items, n).0;
      Sharp(r) && KeepsMemo(g, r) && forall id: nat :: id < g.nextId && Unused(g, id) ==> Unused(r, id)
    decreases items, 0, n
  {
    hide ListKey, HeaderLabel, NodeLabel, NextLabel, Unused, Sharp;
    if n > 0 {
      AddNodesShare(g, own, items, n - 1);
      if items[n - 1].Nested? { AddListShares(AddNodes(g, own, items, n - 1).0, items[n - 1].items); }
    }
  }

  lemma {:induction false} AddAllShares(g: Collected, literals: seq<seq<Item>>)
    requires Sharp(g)
    ensures
      var (r, symbols) := AddAll(g, literals);
      Sharp(r) && forall i :: 0 <= i < |literals| ==> ListKey(literals[i]) in r.memo && r.memo[ListKey(literals[i])] == symbols[i]
    decreases |literals|
  {
    hide Sharp, AddList, ListKey;
    if literals != [] {
      var n := |literals| - 1;
      AddAllShares(g, literals[..n]);
      AddListShares(AddAll(g, literals[..n]).0, literals[n]);
      assert forall i :: 0 <= i < n ==> literals[..n][i] == literals[i];
    }
  }

  /** Two literals of a program have one label if and only if they are equal. */
  lemma SharedExactly(literals: seq<seq<Item>>, i: nat, j: nat)
    requires i < |literals| && j < |literals|
    ensures var symbols := AddAll(NO_LISTS, literals).1; symbols[i] == symbols[j] <==> literals[i] == literals[j]
  {
    hide ListKey, AddAll;
    AddAllShares(NO_LISTS, literals);
    var (r, symbols) := AddAll(NO_LISTS, literals);
    if symbols[i] == symbols[j] {
      assert ListKey(literals[i]) == ListKey(literals[j]);
      ListKeyInjective(literals[i], literals[j]);
    }
  }

  // ----- labels -----

  /** The labels of list number id. */
  ghost predicate OwnedBy(name: string, id: nat) {
    name == HeaderLabel(id) || exists i: nat :: name == NodeLabel(id, i)
  }

  /** A label tells its list. */
  lemma OwnerUnique(name: string, id: nat, other: nat)
    requires OwnedBy(name, id) && OwnedBy(name, other)
    ensures id == other
  {
    var x := Rest(name, id);
    var y := Rest(name, other);
    Cancel("L_list", Decimal(id) + x, Decimal(other) + y);
    DecimalPrefix(id, other, x, y);
  }

  lemma Rest(name: string, id: nat) returns (x: string)
    requires OwnedBy(name, id)
    ensures x != "" && x[0] == '_' && name == "L_list" + (Decimal(id) + x)
  {
    if name == HeaderLabel(id) {
      x := "_header";
      assert name == "L_list" + (Decimal(id) + x);
    } else {
      var i: nat :| name == NodeLabel(id, i);
      x := "_node_" + Decimal(i);
      assert name == "L_list" + (Decimal(id) + x);
    }
  }

  /** Within one list every label is used once. */
  lemma LabelsWithin(id: nat, i: nat, j: nat)
    ensures NodeLabel(id, i) != HeaderLabel(id)
    ensures NodeLabel(id, i) == NodeLabel(id, j) ==> i == j
  {
    if NodeLabel(id, i) == NodeLabel(id, j) {
      Cancel(BaseLabel(id) + "_node_", Decimal(i), Decimal(j));
      DecimalInjective(i, j);
    }
    assert NodeLabel(id, i)[|BaseLabel(id)| + 1] == 'n';
    assert HeaderLabel(id)[|BaseLabel(id)| + 1] == 'h';
  }
}
