/** The generator of static data and the linker as objects, and the walk over a linked list. */
module DataGeneration {
  import opened MachineWords
  import opened Linking
  import opened StaticData
  import opened ListLiterals
  import opened ListImage

  class InstructionStream {
    var instructions: seq<Instruction>

    constructor ()
      ensures instructions == []
    {
      instructions := [];
    }

    method Add(instr: Instruction)
      modifies this
      ensures instructions == old(instructions) + [instr.(address := 0)]
    {
      instructions := instructions + [instr.(address := 0)];
    }

    method AddData32(data: nat)
      modifies this
      ensures instructions == old(instructions) + [Word(data)]
    {
      Add(Word(data));
    }

    method AddData64(data: nat)
      modifies this
      ensures instructions == old(instructions) + Words64(data)
    {
      Add(Word(data % TWO_32));
      Add(Word(data / TWO_32 % TWO_32));
    }

    method AddLabel(name: string)
      modifies this
      ensures instructions == old(instructions) + [LabelEntry(name)]
    {
      Add(LabelEntry(name));
    }

    method EmitAbsolutePointer(name: string)
      modifies this
      ensures instructions == old(instructions) + Pointer(name)
    {
      Add(Pointer(name)[0]);
      Add(Pointer(name)[1]);
    }
  }

  class DataGenerator {
    var listLiterals: seq<ListInfo>
    var listLabels: map<string, string>
    var nextListId: nat

    ghost function State(): Collected
      reads this
    {
      Collected(listLiterals, listLabels, nextListId)
    }

    constructor ()
      ensures State() == NO_LISTS
    {
      listLiterals, listLabels, nextListId := [], map[], 0;
    }

    /** The label of a list literal, collected on first sight. */
    method AddListLiteral(items: seq<Item>) returns (symbol: string)
      modifies this
      ensures (State(), symbol) == AddList(old(State()), items)
      decreases items, 1
    {
      hide ListKey, HeaderLabel;
      var key := ListKey(items);
      if key in listLabels {
        return listLabels[key];
      }
      var id := nextListId;
      nextListId := nextListId + 1;
      var nodes := CollectNodes(id, items);
      listLabels := listLabels[key := HeaderLabel(id)];
      listLiterals := listLiterals + [ListInfo(id, HeaderLabel(id), nodes, |items|)];
      return HeaderLabel(id);
    }

    method CollectNodes(id: nat, items: seq<Item>) returns (nodes: seq<Node>)
      modifies this
      ensures (State(), nodes) == AddNodes(old(State()), id, items, |items|)
      decreases items, 0
    {
      hide NodeLabel, NextLabel, Bits64;
      nodes := [];
      var i := 0;
      while i < |items|
        invariant 0 <= i <= |items|
        invariant (State(), nodes) == AddNodes(old(State()), id, items, i)
      {
        var node := Node(NodeLabel(id, i), 0, false, 0, "", NextLabel(id, i, |items|));
        match items[i] {
          case Int(n) =>
            node := node.(tag := 1, bits := Bits64(n));
          case Nested(inner) =>
            var pointer := AddListLiteral(inner);
            node := node.(tag := 4, isPointer := true, pointer := pointer);
        }
        nodes := nodes + [node];
        i := i + 1;
      }
    }

    /** Emits every collected list behind what the stream holds already. */
    method GenerateLists(stream: InstructionStream)
      modifies stream
      ensures stream.instructions == old(stream.instructions) + EmitLists(listLiterals)
    {
      hide EmitList;
      var k := 0;
      assert listLiterals[..0] == [];
      while k < |listLiterals|
        invariant 0 <= k <= |listLiterals|
        invariant stream.instructions == old(stream.instructions) + EmitLists(listLiterals[..k])
      {
        GenerateList(stream, listLiterals[k]);
        assert listLiterals[..k + 1][..k] == listLiterals[..k];
        k := k + 1;
      }
      assert listLiterals[..k] == listLiterals;
    }

    method GenerateList(stream: InstructionStream, info: ListInfo)
      modifies stream
      ensures stream.instructions == old(stream.instructions) + EmitList(info)
    {
      hide EmitNode;
      GenerateHeader(stream, info);
      var i := 0;
      assert info.nodes[..0] == [];
      while i < |info.nodes|
        invariant 0 <= i <= |info.nodes|
        invariant stream.instructions == old(stream.instructions) + EmitHeader(info) + EmitNodes(info.nodes[..i])
      {
        GenerateNode(stream, info.nodes[i]);
        assert info.nodes[..i + 1][..i] == info.nodes[..i];
        i := i + 1;
      }
      assert info.nodes[..i] == info.nodes;
    }

    method GenerateHeader(stream: InstructionStream, info: ListInfo)
      modifies stream
      ensures stream.instructions == old(stream.instructions) + EmitHeader(info)
    {
      hide Words64, Pointer, Word, LabelEntry;
      stream.AddLabel(info.header);
      stream.AddData32(ATOM_SENTINEL);
      stream.AddData32(0);
      if info.nodes != [] {
        stream.EmitAbsolutePointer(info.nodes[|info.nodes| - 1].symbol);
      } else {
        stream.AddData64(0);
      }
      if info.nodes != [] {
        stream.EmitAbsolutePointer(info.nodes[0].symbol);
      } else {
        stream.AddData64(0);
      }
      stream.AddData64(info.length);
    }

    method GenerateNode(stream: InstructionStream, node: Node)
      modifies stream
      ensures stream.instructions == old(stream.instructions) + EmitNode(node)
    {
      hide Words64, Pointer, Word, LabelEntry;
      stream.AddLabel(node.symbol);
      stream.AddData32(node.tag);
      stream.AddData32(0);
      if node.isPointer {
        stream.EmitAbsolutePointer(node.pointer);
      } else {
        stream.AddData64(node.bits);
      }
      if node.next != "" {
        stream.EmitAbsolutePointer(node.next);
      } else {
        stream.AddData64(0);
      }
    }
  }

  // ----- walking a linked list -----

  function Load32(mem: map<nat, nat>, a: nat): nat {
    if a in mem then mem[a] else 0
  }

  function Load64(mem: map<nat, nat>, a: nat): nat {
    Load32(mem, a) + Load32(mem, a + 4) * TWO_32
  }

  /** The numbers a program can tell apart: 64-bit ones. */
  predicate Fits(items: seq<Item>)
    decreases items, 1
  {
    forall i :: 0 <= i < |items| ==> FitsItem(items[i])
  }

  predicate FitsItem(item: Item)
    decreases item, 0
  {
    match item
    case Int(n) => IsInt64(n)
    case Nested(inner) => Fits(inner)
  }

  /** From the head at header + 16, node by node through the link at node + 16, until the link is 0. */
  method ReadList(mem: map<nat, nat>, header: nat, ghost literal: seq<Item>) returns (items: seq<Item>)
    requires Represents(mem, header, literal) && Fits(literal)
    ensures items == literal
    decreases literal, 1
  {
    hide Bits64, Signed64, Fits;
    ghost var nodes: seq<nat> :| HeaderAt(mem, header, nodes) && NodesAt(mem, nodes, literal);
    items := [];
    var cursor := Load64(mem, header + 16);
    ghost var i := 0;
    assert 0 < |nodes| ==> NodeAt(mem, nodes, 0, literal[0]);
    while cursor != 0
      invariant 0 <= i <= |nodes| == |literal|
      invariant cursor == (if i < |nodes| then nodes[i] else 0) && (cursor == 0 ==> i == |nodes|)
      invariant items == literal[..i]
      decreases |nodes| - i
    {
      FitsAt(literal, i);
      assert NodeAt(mem, nodes, i, literal[i]);
      var item := ReadItem(mem, cursor, literal[i]);
      items := items + [item];
      cursor := Load64(mem, cursor + 16);
      i := i + 1;
      assert i < |nodes| ==> NodeAt(mem, nodes, i, literal[i]);
    }
  }

  lemma FitsAt(items: seq<Item>, i: nat)
    requires Fits(items) && i < |items|
    ensures FitsItem(items[i])
  {
  }

  /** The value at node + 8, read as the tag says. */
  method ReadItem(mem: map<nat, nat>, node: nat, ghost literal: Item) returns (item: Item)
    requires ItemAt(mem, node, literal) && FitsItem(literal)
    ensures item == literal
    decreases literal, 0
  {
    hide Bits64, Signed64;
    var value := Load64(mem, node + 8);
    if Load32(mem, node) == ATOM_LIST_POINTER {
      ghost var q :| Loaded(mem, node + 8, q) && Represents(mem, q, literal.items);
      var inner := ReadList(mem, value, literal.items);
      item := Nested(inner);
    } else {
      SignedOfBits(literal.n);
      item := Int(Signed64(value));
    }
  }
}
