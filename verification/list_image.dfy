/** From a list literal to the linked words a program walks. */
module ListImage {
  import opened MachineWords
  import opened Linking
  import opened StaticData
  import opened ListLiterals

  // ----- emission -----

  function PointerOrNull(name: string): (entries: seq<Instruction>)
    ensures |entries| == 2
  {
    if name == "" then Words64(0) else Pointer(name)
  }

  function NodeValue(node: Node): (entries: seq<Instruction>)
    ensures |entries| == 2
  {
    if node.isPointer then Pointer(node.pointer) else Words64(node.bits)
  }

  /** A node: tag, padding, value, next. */
  function EmitNode(node: Node): (entries: seq<Instruction>)
    ensures |entries| == 7
  {
    [LabelEntry(node.symbol), Word(node.tag), Word(0)] + NodeValue(node) + PointerOrNull(node.next)
  }

  function EmitNodes(nodes: seq<Node>): (entries: seq<Instruction>)
    ensures |entries| == 7 * |nodes|
  {
    if nodes == [] then [] else EmitNodes(nodes[..|nodes| - 1]) + EmitNode(nodes[|nodes| - 1])
  }

  /** A header: type, padding, tail, head, length. */
  function EmitHeader(info: ListInfo): (entries: seq<Instruction>)
    ensures |entries| == 9
  {
    var n := |info.nodes|;
    [LabelEntry(info.header), Word(ATOM_SENTINEL), Word(0)]
    + (if n > 0 then Pointer(info.nodes[n - 1].symbol) else Words64(0))
    + (if n > 0 then Pointer(info.nodes[0].symbol) else Words64(0))
    + Words64(info.length)
  }

  function EmitList(info: ListInfo): (entries: seq<Instruction>)
    ensures |entries| == 9 + 7 * |info.nodes|
  {
    EmitHeader(info) + EmitNodes(info.nodes)
  }

  function EmitLists(infos: seq<ListInfo>): seq<Instruction> {
    if infos == [] then [] else EmitLists(infos[..|infos| - 1]) + EmitList(infos[|infos| - 1])
  }

  // ----- what memory has to look like -----

  const ATOM_SENTINEL: nat := 0
  const ATOM_INT: nat := 1
  const ATOM_LIST_POINTER: nat := 4

  /** The list at address a: tail, head and length in the header, then a node per item, none at address 0. */
  ghost predicate Represents(mem: map<nat, nat>, a: nat, items: seq<Item>)
    decreases items, 1
  {
    exists nodes: seq<nat> :: HeaderAt(mem, a, nodes) && NodesAt(mem, nodes, items)
  }

  ghost predicate HeaderAt(mem: map<nat, nat>, a: nat, nodes: seq<nat>) {
    && a in mem && mem[a] == 0
    && Loaded(mem, a + 8, if nodes == [] then 0 else nodes[|nodes| - 1])
    && Loaded(mem, a + 16, if nodes == [] then 0 else nodes[0])
    && Loaded(mem, a + 24, Bits64(|nodes|))
  }

  ghost predicate NodesAt(mem: map<nat, nat>, nodes: seq<nat>, items: seq<Item>)
    decreases items, 0
  {
    |nodes| == |items| && forall i :: 0 <= i < |nodes| ==> NodeAt(mem, nodes, i, items[i])
  }

  /** A node: its link leads to the next one, or is 0 in the last one. */
  ghost predicate NodeAt(mem: map<nat, nat>, nodes: seq<nat>, i: nat, item: Item)
    requires i < |nodes|
    decreases item, 1
  {
    nodes[i] != 0 && Loaded(mem, nodes[i] + 16, if i + 1 < |nodes| then nodes[i + 1] else 0) && ItemAt(mem, nodes[i], item)
  }

  /** The tag and the value of a node; the value of a nested list is the address of its header. */
  ghost predicate ItemAt(mem: map<nat, nat>, node: nat, item: Item)
    decreases item, 0
  {
    match item
    case Int(n) => node in mem && mem[node] == ATOM_INT && Loaded(mem, node + 8, Bits64(n))
    case Nested(inner) =>
      node in mem && mem[node] == ATOM_LIST_POINTER && exists q :: Loaded(mem, node + 8, q) && Represents(mem, q, inner)
  }

  // ----- finding a list in the stream -----

  ghost predicate Sub(stream: seq<Instruction>, o: nat, part: seq<Instruction>) {
    o + |part| <= |stream| && stream[o..o + |part|] == part
  }

  lemma SubSplit(stream: seq<Instruction>, o: nat, a: seq<Instruction>, b: seq<Instruction>)
    requires Sub(stream, o, a + b)
    ensures Sub(stream, o, a) && Sub(stream, o + |a|, b)
  {
    var part := stream[o..o + |a + b|];
    assert a == part[..|a|] == stream[o..o + |a|];
    assert b == part[|a|..] == stream[o + |a|..o + |a| + |b|];
  }

  lemma SubAt(stream: seq<Instruction>, o: nat, part: seq<Instruction>, i: nat)
    requires Sub(stream, o, part) && i < |part|
    ensures stream[o + i] == part[i]
  {
    assert stream[o..o + |part|][i] == stream[o + i];
  }

  lemma {:induction false} ListIn(stream: seq<Instruction>, at: nat, infos: seq<ListInfo>, k: nat) returns (o: nat)
    requires Sub(stream, at, EmitLists(infos)) && k < |infos|
    ensures Sub(stream, o, EmitList(infos[k]))
    decreases |infos|
  {
    hide EmitList;
    var n := |infos| - 1;
    SubSplit(stream, at, EmitLists(infos[..n]), EmitList(infos[n]));
    if k == n {
      o := at + |EmitLists(infos[..n])|;
    } else {
      o := ListIn(stream, at, infos[..n], k);
    }
  }

  lemma {:induction false} NodeIn(stream: seq<Instruction>, at: nat, nodes: seq<Node>, i: nat) returns (o: nat)
    requires Sub(stream, at, EmitNodes(nodes)) && i < |nodes|
    ensures Sub(stream, o, EmitNode(nodes[i]))
    decreases |nodes|
  {
    hide EmitNode;
    var n := |nodes| - 1;
    SubSplit(stream, at, EmitNodes(nodes[..n]), EmitNode(nodes[n]));
    if i == n {
      o := at + |EmitNodes(nodes[..n])|;
    } else {
      o := NodeIn(stream, at, nodes[..n], i);
    }
  }

  // ----- the words of one header or node -----

  /** The addresses that labels of lists may have: real ones, of 64 bits, and no runtime function's. */
  ghost predicate Ordinary(l: Linked, name: string) {
    name != "" && name !in l.runtime && (name in l.labels ==> l.labels[name] < TWO_64)
  }

  function AddressOf(l: Linked, name: string): nat {
    if name in l.labels then l.labels[name] else 0
  }

  lemma BlockOf(stream: seq<Instruction>, o: nat, part: seq<Instruction>, name: string)
    requires Sub(stream, o, part) && |part| >= 2 && part[0] == LabelEntry(name)
    requires forall j :: 1 <= j < |part| ==> DataEntry(part[j])
    ensures BlockAt(stream, o, name, |part| - 1)
  {
    SubAt(stream, o, part, 0);
    forall i | o < i <= o + |part| - 1 ensures DataEntry(stream[i]) {
      SubAt(stream, o, part, i - o);
    }
  }

  /** A pointer that may be null, at entry i. */
  lemma NullableLoaded(l: Linked, i: nat, name: string)
    requires Consistent(l) && PairAt(l.stream, i, PointerOrNull(name)) && (name != "" ==> Ordinary(l, name) && name in l.labels)
    ensures Loaded(Memory(l), l.out[i].address, if name == "" then 0 else AddressOf(l, name))
  {
    hide Memory, Consistent, Words64, Pointer, Loaded;
    if name == "" { ValueLoaded(l, i, 0); } else { PointerLoaded(l, i, name); }
  }

  lemma SubPair(stream: seq<Instruction>, o: nat, part: seq<Instruction>, j: nat, pair: seq<Instruction>)
    requires Sub(stream, o, part) && j + 2 <= |part| && |pair| == 2 && part[j..j + 2] == pair
    ensures PairAt(stream, o + j, pair)
  {
    SubAt(stream, o, part, j);
    SubAt(stream, o, part, j + 1);
    assert part[j..j + 2] == [part[j], part[j + 1]];
    assert stream[o + j..o + j + 2] == [part[j], part[j + 1]];
  }

  lemma HeaderBlock(info: ListInfo)
    ensures
      var part := EmitHeader(info);
      var n := |info.nodes|;
      && part[0] == LabelEntry(info.header) && part[1] == Word(ATOM_SENTINEL)
      && (forall j :: 1 <= j < 9 ==> DataEntry(part[j]))
      && part[3..5] == (if n > 0 then Pointer(info.nodes[n - 1].symbol) else Words64(0))
      && part[5..7] == (if n > 0 then Pointer(info.nodes[0].symbol) else Words64(0))
      && part[7..9] == Words64(info.length)
  {
  }

  lemma NodeBlock(node: Node)
    ensures
      var part := EmitNode(node);
      && part[0] == LabelEntry(node.symbol) && part[1] == Word(node.tag)
      && (forall j :: 1 <= j < 7 ==> DataEntry(part[j]))
      && part[3..5] == NodeValue(node) && part[5..7] == PointerOrNull(node.next)
  {
  }

  lemma FirstWordIs(l: Linked, o: nat, name: string, m: nat, encoding: nat)
    requires Consistent(l) && BlockAt(l.stream, o, name, m) && m >= 1 && l.stream[o + 1] == Word(encoding)
    ensures name in l.labels && l.labels[name] > 0 && l.labels[name] in Memory(l) && Memory(l)[l.labels[name]] == encoding
  {
    BlockAddresses(l, o, name, m, 1);
    WordInMemory(l, o + 1);
    assert EntryLinked(l, o + 1);
  }

  lemma HeaderLoaded(l: Linked, o: nat, info: ListInfo)
    requires Consistent(l) && Sub(l.stream, o, EmitHeader(info)) && info.length < TWO_64
    requires forall i :: 0 <= i < |info.nodes| ==> Ordinary(l, info.nodes[i].symbol) && info.nodes[i].symbol in l.labels
    ensures
      var (mem, a, n) := (Memory(l), AddressOf(l, info.header), |info.nodes|);
      && info.header in l.labels && a in mem && mem[a] == 0
      && Loaded(mem, a + 8, if n > 0 then AddressOf(l, info.nodes[n - 1].symbol) else 0)
      && Loaded(mem, a + 16, if n > 0 then AddressOf(l, info.nodes[0].symbol) else 0)
      && Loaded(mem, a + 24, info.length)
  {
    hide Memory, Consistent, EmitHeader, BlockAt, Loaded, Words64, Pointer, Sub;
    var part, n := EmitHeader(info), |info.nodes|;
    HeaderBlock(info);
    BlockOf(l.stream, o, part, info.header);
    SubAt(l.stream, o, part, 1);
    FirstWordIs(l, o, info.header, 8, ATOM_SENTINEL);
    SubPair(l.stream, o, part, 3, part[3..5]);
    if n > 0 { PointerLoaded(l, o + 3, info.nodes[n - 1].symbol); } else { ValueLoaded(l, o + 3, 0); }
    BlockAddresses(l, o, info.header, 8, 3);
    SubPair(l.stream, o, part, 5, part[5..7]);
    if n > 0 { PointerLoaded(l, o + 5, info.nodes[0].symbol); } else { ValueLoaded(l, o + 5, 0); }
    BlockAddresses(l, o, info.header, 8, 5);
    SubPair(l.stream, o, part, 7, Words64(info.length));
    ValueLoaded(l, o + 7, info.length);
    BlockAddresses(l, o, info.header, 8, 7);
  }

  lemma NodeLoaded(l: Linked, o: nat, node: Node)
    requires Consistent(l) && Sub(l.stream, o, EmitNode(node)) && node.bits < TWO_64
    requires node.isPointer ==> Ordinary(l, node.pointer) && node.pointer in l.labels
    requires node.next != "" ==> Ordinary(l, node.next) && node.next in l.labels
    ensures
      var (mem, a) := (Memory(l), AddressOf(l, node.symbol));
      && node.symbol in l.labels && a != 0 && a in mem && mem[a] == node.tag
      && Loaded(mem, a + 8, if node.isPointer then AddressOf(l, node.pointer) else node.bits)
      && Loaded(mem, a + 16, if node.next == "" then 0 else AddressOf(l, node.next))
  {
    hide Memory, Consistent, EmitNode, BlockAt, Loaded, PointerOrNull, Words64, Pointer, Sub;
    var part := EmitNode(node);
    NodeBlock(node);
    BlockOf(l.stream, o, part, node.symbol);
    SubAt(l.stream, o, part, 1);
    FirstWordIs(l, o, node.symbol, 6, node.tag);
    SubPair(l.stream, o, part, 3, NodeValue(node));
    if node.isPointer { PointerLoaded(l, o + 3, node.pointer); } else { ValueLoaded(l, o + 3, node.bits); }
    BlockAddresses(l, o, node.symbol, 6, 3);
    SubPair(l.stream, o, part, 5, PointerOrNull(node.next));
    NullableLoaded(l, o + 5, node.next);
    BlockAddresses(l, o, node.symbol, 6, 5);
  }

  // ----- the image of a literal -----

  /** The labels of the lists are ordinary. */
  ghost predicate OrdinaryLists(l: Linked, infos: seq<ListInfo>) {
    forall k :: 0 <= k < |infos| ==> OrdinaryList(l, infos[k])
  }

  ghost predicate OrdinaryList(l: Linked, info: ListInfo) {
    Ordinary(l, info.header) && info.length < TWO_64 && forall i :: 0 <= i < |info.nodes| ==> Ordinary(l, info.nodes[i].symbol)
  }

  /** The stream holds the emitted lists. */
  ghost predicate Carries(l: Linked, at: nat, infos: seq<ListInfo>) {
    Consistent(l) && Sub(l.stream, at, EmitLists(infos)) && OrdinaryLists(l, infos)
  }

  function NodeAddresses(l: Linked, info: ListInfo): (nodes: seq<nat>)
    ensures |nodes| == |info.nodes| && forall i :: 0 <= i < |nodes| ==> nodes[i] == AddressOf(l, info.nodes[i].symbol)
  {
    seq(|info.nodes|, i requires 0 <= i < |info.nodes| => AddressOf(l, info.nodes[i].symbol))
  }

  /** Emitted labels are labels of the linked stream. */
  lemma ListLabels(l: Linked, at: nat, infos: seq<ListInfo>, k: nat)
    requires Carries(l, at, infos) && k < |infos|
    ensures infos[k].header in l.labels && forall i :: 0 <= i < |infos[k].nodes| ==> infos[k].nodes[i].symbol in l.labels
  {
    hide Consistent, EmitHeader, EmitNodes, EmitLists, EmitNode, BlockAt, Sub;
    var info := infos[k];
    var o := ListIn(l.stream, at, infos, k);
    SubSplit(l.stream, o, EmitHeader(info), EmitNodes(info.nodes));
    HeaderBlock(info);
    BlockOf(l.stream, o, EmitHeader(info), info.header);
    BlockAddresses(l, o, info.header, 8, 1);
    forall i | 0 <= i < |info.nodes| ensures info.nodes[i].symbol in l.labels {
      var q := NodeIn(l.stream, o + 9, info.nodes, i);
      NodeBlock(info.nodes[i]);
      BlockOf(l.stream, q, EmitNode(info.nodes[i]), info.nodes[i].symbol);
      BlockAddresses(l, q, info.nodes[i].symbol, 6, 1);
    }
  }

  /** A collected list, once linked, represents its literal. */
  lemma {:induction false} InfoRepresents(l: Linked, at: nat, infos: seq<ListInfo>, k: nat, items: seq<Item>)
    requires Carries(l, at, infos) && k < |infos| && Labelled(infos[k]) && InfoMatches(infos, infos[k], items)
    requires forall j :: 0 <= j < |infos| ==> Labelled(infos[j])
    ensures Represents(Memory(l), AddressOf(l, infos[k].header), items)
    decreases items, 1
  {
    hide Memory, Consistent, EmitHeader, EmitNodes, EmitLists, Loaded, Sub, NodeLabel, NextLabel, Ordinary;
    var info := infos[k];
    var nodes := NodeAddresses(l, info);
    ListLabels(l, at, infos, k);
    var o := ListIn(l.stream, at, infos, k);
    SubSplit(l.stream, o, EmitHeader(info), EmitNodes(info.nodes));
    assert OrdinaryList(l, info);
    HeaderLoaded(l, o, info);
    LengthFits(info);
    assert HeaderAt(Memory(l), AddressOf(l, info.header), nodes);
    forall i | 0 <= i < |nodes| ensures NodeAt(Memory(l), nodes, i, items[i]) {
      NodeRepresents(l, at, infos, k, o, items, i);
    }
    assert |nodes| == |items|;
    assert NodesAt(Memory(l), nodes, items);
  }

  lemma LengthFits(info: ListInfo)
    requires info.length < TWO_64
    ensures Bits64(info.length) == info.length
  {
  }

  /** The next label of a node is its successor's, or empty at the end. */
  lemma NextSymbol(info: ListInfo, i: nat)
    requires Labelled(info) && i < |info.nodes|
    ensures info.nodes[i].next == if i + 1 < |info.nodes| then info.nodes[i + 1].symbol else ""
    ensures info.nodes[i].symbol != "" && (i + 1 < |info.nodes| ==> info.nodes[i + 1].symbol != "")
  {
    assert i + 1 < |info.nodes| ==> info.nodes[i + 1].symbol == NodeLabel(info.id, i + 1);
    assert info.nodes[i].next == NextLabel(info.id, i, |info.nodes|);
  }

  lemma {:induction false} NodeRepresents(l: Linked, at: nat, infos: seq<ListInfo>, k: nat, o: nat, items: seq<Item>, i: nat)
    requires Carries(l, at, infos) && k < |infos| && InfoMatches(infos, infos[k], items) && i < |items|
    requires forall j :: 0 <= j < |infos| ==> Labelled(infos[j])
    requires Sub(l.stream, o + 9, EmitNodes(infos[k].nodes))
    ensures NodeAt(Memory(l), NodeAddresses(l, infos[k]), i, items[i])
    decreases items, 0
  {
    hide Memory, Consistent, EmitNodes, EmitLists, EmitNode, Loaded, Sub, Labelled, Ordinary;
    var info := infos[k];
    var node := info.nodes[i];
    ListLabels(l, at, infos, k);
    assert OrdinaryList(l, info);
    NextSymbol(info, i);
    var q := NodeIn(l.stream, o + 9, info.nodes, i);
    assert NodeMatches(infos, node, items[i]);
    match items[i]
    case Int(n) =>
      NodeLoaded(l, q, node);
    case Nested(inner) =>
      var j := InnerList(l, at, infos, node.pointer, inner);
      NodeLoadedPointer(l, q, node);
      InfoRepresents(l, at, infos, j, inner);
  }

  /** A pointer's node whatever its unused bits. */
  lemma NodeLoadedPointer(l: Linked, o: nat, node: Node)
    requires Consistent(l) && Sub(l.stream, o, EmitNode(node)) && node.isPointer && Ordinary(l, node.pointer) && node.pointer in l.labels
    requires node.next != "" ==> Ordinary(l, node.next) && node.next in l.labels
    ensures
      var (mem, a) := (Memory(l), AddressOf(l, node.symbol));
      && node.symbol in l.labels && a != 0 && a in mem && mem[a] == node.tag
      && Loaded(mem, a + 8, AddressOf(l, node.pointer))
      && Loaded(mem, a + 16, if node.next == "" then 0 else AddressOf(l, node.next))
  {
    hide Memory, Consistent, Sub, Loaded, Ordinary;
    assert EmitNode(node) == EmitNode(node.(bits := 0));
    NodeLoaded(l, o, node.(bits := 0));
  }

  /** Where a nested list was collected. */
  lemma InnerList(l: Linked, at: nat, infos: seq<ListInfo>, pointer: string, inner: seq<Item>) returns (j: nat)
    requires Carries(l, at, infos) && Holds(infos, pointer, inner)
    ensures j < |infos| && infos[j].header == pointer && InfoMatches(infos, infos[j], inner)
    ensures Ordinary(l, pointer) && pointer in l.labels
  {
    hide Consistent, Sub, EmitLists, InfoMatches, Ordinary;
    j :| 0 <= j < |infos| && infos[j].header == pointer && InfoMatches(infos, infos[j], inner);
    ListLabels(l, at, infos, j);
    assert OrdinaryList(l, infos[j]);
  }

  /**
    Every literal of a program, collected, emitted and linked: at the address of its label stands a list
    that represents it, nested lists included, whatever was shared between them.
   */
  lemma LiteralsRepresented(l: Linked, at: nat, literals: seq<seq<Item>>, k: nat)
    requires k < |literals|
    requires Carries(l, at, AddAll(NO_LISTS, literals).0.infos)
    ensures
      var symbol := AddAll(NO_LISTS, literals).1[k];
      symbol in l.labels && Represents(Memory(l), l.labels[symbol], literals[k])
  {
    hide Carries, AddAll, Holds, InfoMatches, Labelled, Represents;
    var (r, symbols) := AddAll(NO_LISTS, literals);
    AddAllHolds(NO_LISTS, literals);
    assert forall j :: 0 <= j < |r.infos| ==> Labelled(r.infos[j]);
    var j := InnerList(l, at, r.infos, symbols[k], literals[k]);
    InfoRepresents(l, at, r.infos, j, literals[k]);
  }

  // ----- the section's labels -----

  lemma LabelsOnceConcat(a: seq<Instruction>, b: seq<Instruction>)
    requires LabelsOnce(a, |a|) && LabelsOnce(b, |b|)
    requires forall name :: !(DefinedIn(a, |a|, name) && DefinedIn(b, |b|, name))
    ensures LabelsOnce(a + b, |a + b|)
    ensures forall name :: DefinedIn(a + b, |a + b|, name) ==> DefinedIn(a, |a|, name) || DefinedIn(b, |b|, name)
  {
    var s := a + b;
    forall i, j | 0 <= i < j < |s| && s[i].isLabel && s[j].isLabel ensures s[i].target != s[j].target {
      if i < |a| <= j {
        assert a[i] == s[i] && b[j - |a|] == s[j];
        assert DefinedIn(a, |a|, s[i].target) && DefinedIn(b, |b|, s[j].target);
      } else if j < |a| {
        assert a[i] == s[i] && a[j] == s[j];
      } else {
        assert b[i - |a|] == s[i] && b[j - |a|] == s[j];
      }
    }
    forall name | DefinedIn(s, |s|, name) ensures DefinedIn(a, |a|, name) || DefinedIn(b, |b|, name) {
      var i :| 0 <= i < |s| && s[i].isLabel && s[i].target == name;
      if i < |a| { assert a[i].isLabel && a[i].target == name; } else { assert b[i - |a|].isLabel && b[i - |a|].target == name; }
    }
  }

  lemma NodeLabels(node: Node)
    ensures LabelsOnce(EmitNode(node), 7)
    ensures forall name :: DefinedIn(EmitNode(node), 7, name) ==> name == node.symbol
  {
    var part := EmitNode(node);
    assert forall j :: 1 <= j < 7 ==> !part[j].isLabel;
  }

  lemma HeaderLabels(info: ListInfo)
    ensures LabelsOnce(EmitHeader(info), 9)
    ensures forall name :: DefinedIn(EmitHeader(info), 9, name) ==> name == info.header
  {
    var part := EmitHeader(info);
    assert forall j :: 1 <= j < 9 ==> !part[j].isLabel;
  }

  lemma {:induction false} NodesLabels(nodes: seq<Node>, id: nat)
    requires forall i :: 0 <= i < |nodes| ==> nodes[i].symbol == NodeLabel(id, i)
    ensures LabelsOnce(EmitNodes(nodes), |EmitNodes(nodes)|)
    ensures forall name :: DefinedIn(EmitNodes(nodes), |EmitNodes(nodes)|, name) ==> exists i: nat :: i < |nodes| && name == NodeLabel(id, i)
    decreases |nodes|
  {
    hide NodeLabel, EmitNode;
    if nodes != [] {
      var n := |nodes| - 1;
      NodesLabels(nodes[..n], id);
      NodeLabels(nodes[n]);
      forall i: nat | i < n ensures NodeLabel(id, i) != NodeLabel(id, n) {
        LabelsWithin(id, i, n);
      }
      LabelsOnceConcat(EmitNodes(nodes[..n]), EmitNode(nodes[n]));
    }
  }

  lemma ListLabelsOnce(info: ListInfo)
    requires Labelled(info)
    ensures LabelsOnce(EmitList(info), |EmitList(info)|)
    ensures forall name :: DefinedIn(EmitList(info), |EmitList(info)|, name) ==> OwnedBy(name, info.id)
  {
    hide NodeLabel, HeaderLabel, EmitHeader, EmitNodes;
    HeaderLabels(info);
    NodesLabels(info.nodes, info.id);
    forall i: nat ensures NodeLabel(info.id, i) != HeaderLabel(info.id) {
      LabelsWithin(info.id, i, i);
    }
    LabelsOnceConcat(EmitHeader(info), EmitNodes(info.nodes));
  }

  /** The labels of all lists differ, so placing the section never fails. */
  lemma {:induction false} SectionLabelsOnce(infos: seq<ListInfo>, below: nat)
    requires Numbered(infos, below)
    ensures LabelsOnce(EmitLists(infos), |EmitLists(infos)|)
    ensures forall name :: DefinedIn(EmitLists(infos), |EmitLists(infos)|, name) ==> exists k :: 0 <= k < |infos| && OwnedBy(name, infos[k].id)
    decreases |infos|
  {
    hide Labelled, OwnedBy, EmitList;
    if infos != [] {
      var n := |infos| - 1;
      SectionLabelsOnce(infos[..n], below);
      ListLabelsOnce(infos[n]);
      var a, b := EmitLists(infos[..n]), EmitList(infos[n]);
      forall name ensures !(DefinedIn(a, |a|, name) && DefinedIn(b, |b|, name)) {
        if DefinedIn(a, |a|, name) && DefinedIn(b, |b|, name) {
          var k :| 0 <= k < n && OwnedBy(name, infos[..n][k].id);
          OwnerUnique(name, infos[k].id, infos[n].id);
        }
      }
      LabelsOnceConcat(a, b);
    }
  }
}
