/** Vtables in memory: dispatching through an object's vtable finds the code of the most derived accepted definition. */
module Vtables {
  import opened Linking
  import opened StaticData
  import opened ListImage
  import opened ClassLayout
  import opened ClassTheorems
  import opened DataGeneration

  function VtableLabel(c: string): string {
    c + "_vtable"
  }

  /** A slot: the address of a method's code, or null. */
  function EmitSlot(name: string): (entries: seq<Instruction>)
    ensures |entries| == 2
  {
    PointerOrNull(name)
  }

  function EmitSlots(vtable: seq<string>): (entries: seq<Instruction>)
    ensures |entries| == 2 * |vtable|
  {
    if vtable == [] then [] else EmitSlots(vtable[..|vtable| - 1]) + EmitSlot(vtable[|vtable| - 1])
  }

  function EmitVtable(c: string, vtable: seq<string>): (entries: seq<Instruction>)
    ensures |entries| == 1 + 2 * |vtable|
  {
    [LabelEntry(VtableLabel(c))] + EmitSlots(vtable)
  }

  method GenerateVtable(stream: InstructionStream, c: string, vtable: seq<string>)
    modifies stream
    ensures stream.instructions == old(stream.instructions) + EmitVtable(c, vtable)
  {
    hide Words64, Pointer, LabelEntry;
    stream.AddLabel(VtableLabel(c));
    var i := 0;
    assert vtable[..0] == [];
    while i < |vtable|
      invariant 0 <= i <= |vtable|
      invariant stream.instructions == old(stream.instructions) + [LabelEntry(VtableLabel(c))] + EmitSlots(vtable[..i])
    {
      if vtable[i] == "" {
        stream.AddData64(0);
      } else {
        stream.EmitAbsolutePointer(vtable[i]);
      }
      assert vtable[..i + 1][..i] == vtable[..i];
      i := i + 1;
    }
    assert vtable[..i] == vtable;
  }

  lemma {:induction false} SlotEntries(vtable: seq<string>, k: nat)
    requires k < |vtable|
    ensures EmitSlots(vtable)[2 * k..2 * k + 2] == EmitSlot(vtable[k])
    decreases |vtable|
  {
    hide EmitSlot;
    var n := |vtable| - 1;
    var before := EmitSlots(vtable[..n]);
    if k == n {
      assert EmitSlots(vtable)[2 * k..2 * k + 2] == EmitSlot(vtable[n]);
    } else {
      SlotEntries(vtable[..n], k);
      assert EmitSlots(vtable)[2 * k..2 * k + 2] == before[2 * k..2 * k + 2];
    }
  }

  lemma {:induction false} SlotsAreData(vtable: seq<string>)
    ensures forall j :: 0 <= j < |EmitSlots(vtable)| ==> DataEntry(EmitSlots(vtable)[j])
    decreases |vtable|
  {
    if vtable != [] { SlotsAreData(vtable[..|vtable| - 1]); }
  }

  /** Slot k of a linked vtable holds the address of the label it names. */
  lemma SlotLoaded(l: Linked, o: nat, c: string, vtable: seq<string>, k: nat)
    requires Consistent(l) && Sub(l.stream, o, EmitVtable(c, vtable)) && k < |vtable|
    requires vtable[k] != "" && Ordinary(l, vtable[k]) && vtable[k] in l.labels
    ensures VtableLabel(c) in l.labels
    ensures Loaded(Memory(l), l.labels[VtableLabel(c)] + 8 * k, l.labels[vtable[k]])
  {
    hide Memory, Consistent, BlockAt, Loaded, Words64, Pointer, Sub, EmitSlots, LabelEntry;
    var part := EmitVtable(c, vtable);
    SlotsAreData(vtable);
    BlockOf(l.stream, o, part, VtableLabel(c));
    BlockAddresses(l, o, VtableLabel(c), 2 * |vtable|, 2 * k + 1);
    SlotEntries(vtable, k);
    SlotInPart(c, vtable, k);
    SubPair(l.stream, o, part, 2 * k + 1, EmitSlot(vtable[k]));
    PointerLoaded(l, o + (2 * k + 1), vtable[k]);
  }

  lemma SlotInPart(c: string, vtable: seq<string>, k: nat)
    requires k < |vtable|
    ensures EmitVtable(c, vtable)[2 * k + 1..2 * k + 3] == EmitSlots(vtable)[2 * k..2 * k + 2]
  {
    hide EmitSlots, LabelEntry;
    BehindFirst(LabelEntry(VtableLabel(c)), EmitSlots(vtable), 2 * k);
  }

  lemma BehindFirst(a: Instruction, b: seq<Instruction>, i: nat)
    requires i + 2 <= |b|
    ensures ([a] + b)[i + 1..i + 3] == b[i..i + 2]
  {
  }

  /**
    A call of method m through the slot it has in any ancestor lands in the most derived accepted definition:
    that is the code whose address the object's class has in its linked vtable.
   */
  lemma DispatchInMemory(l: Linked, o: nat, d: Classes, chain: seq<string>, k: nat, m: string)
    requires WellDeclared(d) && IsChain(d, chain) && k < |chain| && IsChain(d, chain[k..]) && m in Layout(d, chain[k..]).simple
    requires Consistent(l) && Sub(l.stream, o, EmitVtable(chain[0], Layout(d, chain).vtable))
    requires forall q :: q in Layout(d, chain).vtable ==> Ordinary(l, q) && q in l.labels
    ensures Accepted(d, chain, m).Some? && VtableLabel(chain[0]) in l.labels
    ensures
      var code := Mangle(Accepted(d, chain, m).value.owner, m);
      var slot := Layout(d, chain[k..]).simple[m].slot;
      code in l.labels && Loaded(Memory(l), l.labels[VtableLabel(chain[0])] + 8 * slot, l.labels[code])
  {
    hide Layout, Memory, Consistent, Loaded, Sub, EmitVtable, Accepted, Mangle;
    VtableDispatch(d, chain, k, m);
    var vtable := Layout(d, chain).vtable;
    var slot := Layout(d, chain[k..]).simple[m].slot;
    assert vtable[slot] in vtable;
    SlotLoaded(l, o, chain[0], vtable, slot);
  }
}
