/** The words emitted for static data, and what they are once the stream is linked. */
module StaticData {
  import opened MachineWords
  import opened Linking
  import opened LinkingTheorems

  // ----- entries -----

  function Word(encoding: nat): Instruction {
    Instruction(encoding, "", false, true, true, RoData, NoRelocation, 0)
  }

  function LabelEntry(name: string): Instruction {
    Instruction(0, name, true, false, false, RoData, NoRelocation, 0)
  }

  /** A 64-bit value, lower half first. */
  function Words64(v: nat): (entries: seq<Instruction>)
    ensures |entries| == 2
  {
    [Word(v % TWO_32), Word(v / TWO_32 % TWO_32)]
  }

  /** A 64-bit address to be filled in by the linker, lower half first. */
  function Pointer(name: string): (entries: seq<Instruction>)
    ensures |entries| == 2
  {
    [Instruction(0, name, false, true, true, RoData, AbsoluteLo32, 0), Instruction(0, name, false, true, true, RoData, AbsoluteHi32, 0)]
  }

  /** A word of read-only data. */
  predicate DataEntry(instr: Instruction) {
    InSegment(instr, RoData) && !instr.isLabel
  }

  // ----- memory -----

  /** The read-only words of the first n linked entries, by address. */
  function Image(out: seq<Instruction>, n: nat): map<nat, nat>
    requires n <= |out|
  {
    if n == 0 then map[]
    else
      var before := Image(out, n - 1);
      if InSegment(out[n - 1], RoData) then before[out[n - 1].address := out[n - 1].encoding] else before
  }

  lemma {:induction false} ImageHas(out: seq<Instruction>, n: nat, i: nat)
    requires i < n <= |out| && InSegment(out[i], RoData)
    requires forall k :: i < k < n && InSegment(out[k], RoData) ==> out[k].address != out[i].address
    ensures out[i].address in Image(out, n) && Image(out, n)[out[i].address] == out[i].encoding
    decreases n
  {
    if i < n - 1 { ImageHas(out, n - 1, i); }
  }

  /** The 64-bit value v stands at address a. */
  ghost predicate Loaded(mem: map<nat, nat>, a: nat, v: nat) {
    a in mem && a + 4 in mem && v == mem[a] + mem[a + 4] * TWO_32
  }

  // ----- a linked stream -----

  /** A stream, its addresses, and the memory that linking it produces. */
  datatype Linked = Linked(
    stream: seq<Instruction>,
    runtime: map<string, nat>,
    labels: map<string, nat>,
    out: seq<Instruction>)

  function Memory(l: Linked): map<nat, nat> {
    Image(l.out, |l.out|)
  }

  /** The outcome of a successful link, as far as data is concerned. */
  ghost predicate Consistent(l: Linked) {
    && |l.stream| <= |l.out|
    && (forall i :: |l.stream| <= i < |l.out| ==> l.out[i].segment == Code)
    && (forall i :: 0 <= i < |l.stream| ==> EntryLinked(l, i))
    && (forall i, j :: 0 <= i < j < |l.stream| && InSegment(l.stream[i], RoData) && InSegment(l.stream[j], RoData) ==>
          l.out[i].address + 4 <= l.out[j].address)
    && (forall i: nat, j: nat :: FirstWord(l.stream, i, j) && l.stream[i].isLabel ==> LabelledAt(l, i, l.out[j].address))
    && (forall i :: 0 <= i < |l.stream| - 1 && InSegment(l.stream[i], RoData) && InSegment(l.stream[i + 1], RoData) ==>
          l.out[i + 1].address == l.out[i].address + 4)
    && (forall i :: 0 <= i < |l.stream| && InSegment(l.stream[i], RoData) ==> l.out[i].address > 0)
  }

  ghost predicate LabelledAt(l: Linked, i: nat, address: nat)
    requires i < |l.stream|
  {
    l.stream[i].target in l.labels && l.labels[l.stream[i].target] == address
  }

  ghost predicate EntryLinked(l: Linked, i: nat)
    requires i < |l.stream| <= |l.out|
  {
    var instr, linked := l.stream[i], l.out[i];
    && (InSegment(instr, RoData) <==> InSegment(linked, RoData))
    && (instr.isLabel ==> instr.target in l.labels)
    && (InSegment(instr, RoData) && instr.relocation == NoRelocation ==> linked.encoding == instr.encoding)
    && (InSegment(instr, RoData) && instr.target in l.labels && instr.target !in l.runtime && instr.target != "" ==>
          && (instr.relocation == AbsoluteLo32 ==> linked.encoding == l.labels[instr.target] % TWO_32)
          && (instr.relocation == AbsoluteHi32 ==> linked.encoding == l.labels[instr.target] / TWO_32 % TWO_32))
  }

  /** A link that succeeds is consistent. */
  lemma LinkConsistent(patch: Patcher, runtime: map<string, nat>, stream: seq<Instruction>, base: nat, dataBase: nat) returns (labels: map<string, nat>)
    requires Link(patch, runtime, stream, base, dataBase).Ok?
    ensures
      var r := Link(patch, runtime, stream, base, dataBase).value;
      Consistent(Linked(stream, runtime, labels, r.out)) && forall name :: name in labels ==> name in r.labels && r.labels[name] == labels[name]
  {
    hide Arranged, Settled, PlacedAt, Link, RodataStart;
    var p, s := LinkResult(patch, runtime, stream, base, dataBase);
    var r := Link(patch, runtime, stream, base, dataBase).value;
    labels := p.labels;
    var l := Linked(stream, runtime, labels, r.out);
    var start := Start(stream, base, dataBase);
    TailIsCode(s, r);
    forall i | 0 <= i < |stream|
      ensures EntryLinked(l, i) && l.out[i].address == p.out[i].address
      ensures InSegment(stream[i], RoData) ==> p.out[i].address > 0
    {
      PlacedWord(stream, start, |stream|, p, i);
      EntryIsLinked(patch, stream, start, p, r, i, runtime);
    }
    forall i, j | 0 <= i < j < |stream| && InSegment(stream[i], RoData) && InSegment(stream[j], RoData)
      ensures l.out[i].address + 4 <= l.out[j].address
      ensures j == i + 1 ==> l.out[j].address == l.out[i].address + 4
    {
      WordsDisjoint(stream, start, p, i, j, RoData);
    }
    forall i: nat, j: nat | FirstWord(stream, i, j) && stream[i].isLabel ensures LabelledAt(l, i, l.out[j].address) {
      LabelAddress(stream, start, p, i, j);
    }
  }

  lemma TailIsCode(s: LinkState, r: LinkState)
    requires Arranged(s, r)
    ensures |s.out| <= |r.out| && forall i :: |s.out| <= i < |r.out| ==> r.out[i].segment == Code
  {
    hide FirstVeneer, VeneerWords;
    forall i | |s.out| <= i < |r.out| ensures r.out[i].segment == Code {
      var k := (i - |s.out|) / 5;
      var at := |s.out| + 5 * k;
      assert WordsAt(r.out, at, r.veneers[k]);
      assert r.out[i] == r.out[at..at + 5][i - at];
    }
  }

  lemma EntryIsLinked(patch: Patcher, stream: seq<Instruction>, start: Cursors, p: Placement, r: LinkState, i: nat, runtime: map<string, nat>)
    requires PlacedAt(stream, start, |stream|, p) && i < |stream| == |p.out| <= |r.out|
    requires var s := LinkState(p.out, p.labels, map[], 0, []); Settled(patch, runtime, s, r, i) && Grown(s, r)
    ensures EntryLinked(Linked(stream, runtime, p.labels, r.out), i) && r.out[i].address == p.out[i].address
  {
    PlacedWord(stream, start, |stream|, p, i);
    hide PlacedAt, Cursor, InRange, Emits;
    SameEntry(stream[i], p.out[i], Cursor(stream, start, i, stream[i].segment));
    hide Located;
    SettledWord(patch, runtime, LinkState(p.out, p.labels, map[], 0, []), r, i);
  }

  lemma SameEntry(instr: Instruction, placed: Instruction, here: nat)
    requires placed == Located(instr, here)
    ensures placed == instr.(address := placed.address)
  {
  }

  lemma SettledWord(patch: Patcher, runtime: map<string, nat>, s: LinkState, r: LinkState, i: nat)
    requires i < |s.out| <= |r.out| && Settled(patch, runtime, s, r, i) && Grown(s, r)
    ensures SameButWord(s.out[i], r.out[i])
    ensures s.out[i].relocation == NoRelocation ==> r.out[i].encoding == s.out[i].encoding
    ensures s.out[i].target in s.labels && s.out[i].target !in runtime && s.out[i].target != "" ==>
      && (s.out[i].relocation == AbsoluteLo32 ==> r.out[i].encoding == s.labels[s.out[i].target] % TWO_32)
      && (s.out[i].relocation == AbsoluteHi32 ==> r.out[i].encoding == s.labels[s.out[i].target] / TWO_32 % TWO_32)
  {
    hide InRange;
  }

  // ----- blocks of words behind a label -----

  /** A label and then m words stand at entry o. */
  ghost predicate BlockAt(stream: seq<Instruction>, o: nat, name: string, m: nat) {
    && o + m < |stream| && stream[o] == LabelEntry(name)
    && forall i :: o < i <= o + m ==> DataEntry(stream[i])
  }

  /** The j-th word of a block lies 4 * (j - 1) bytes behind its label. */
  lemma {:induction false} BlockAddresses(l: Linked, o: nat, name: string, m: nat, j: nat)
    requires Consistent(l) && BlockAt(l.stream, o, name, m) && 1 <= j <= m
    ensures name in l.labels && l.out[o + j].address == l.labels[name] + 4 * (j - 1) && l.labels[name] > 0
    decreases j
  {
    hide EntryLinked;
    if j == 1 {
      BlockFirst(l.stream, o, name, m);
      assert LabelledAt(l, o, l.out[o + 1].address);
      assert DataEntry(l.stream[o + 1]);
    } else {
      BlockAddresses(l, o, name, m, j - 1);
      assert DataEntry(l.stream[o + (j - 1)]) && DataEntry(l.stream[o + j]);
      assert l.out[o + (j - 1) + 1].address == l.out[o + (j - 1)].address + 4;
    }
  }

  lemma BlockFirst(stream: seq<Instruction>, o: nat, name: string, m: nat)
    requires BlockAt(stream, o, name, m) && m >= 1
    ensures FirstWord(stream, o, o + 1)
  {
    assert DataEntry(stream[o + 1]);
  }

  /** A word of the stream is in memory at its address. */
  lemma WordInMemory(l: Linked, i: nat)
    requires Consistent(l) && i < |l.stream| && InSegment(l.stream[i], RoData)
    ensures l.out[i].address in Memory(l) && Memory(l)[l.out[i].address] == l.out[i].encoding
  {
    hide Image;
    assert EntryLinked(l, i);
    forall k | i < k < |l.out| && InSegment(l.out[k], RoData) ensures l.out[k].address != l.out[i].address {
      if k < |l.stream| { assert EntryLinked(l, k); }
    }
    ImageHas(l.out, |l.out|, i);
  }

  /** Two entries of a block that make up a pointer or a 64-bit value. */
  ghost predicate PairAt(stream: seq<Instruction>, i: nat, pair: seq<Instruction>) {
    i + 2 <= |stream| && stream[i..i + 2] == pair
  }

  lemma PairEntries(stream: seq<Instruction>, i: nat, pair: seq<Instruction>)
    requires PairAt(stream, i, pair)
    ensures |pair| == 2 && stream[i] == pair[0] && stream[i + 1] == pair[1]
  {
    assert stream[i..i + 2][0] == stream[i] && stream[i..i + 2][1] == stream[i + 1];
  }

  lemma ValueLoaded(l: Linked, i: nat, v: nat)
    requires Consistent(l) && PairAt(l.stream, i, Words64(v)) && v < TWO_64
    ensures Loaded(Memory(l), l.out[i].address, v)
  {
    hide Memory, Consistent;
    PairEntries(l.stream, i, Words64(v));
    PairLoaded(l, i);
  }

  lemma PointerLoaded(l: Linked, i: nat, name: string)
    requires Consistent(l) && PairAt(l.stream, i, Pointer(name)) && name in l.labels && name !in l.runtime && name != ""
    requires l.labels[name] < TWO_64
    ensures Loaded(Memory(l), l.out[i].address, l.labels[name])
  {
    hide Memory, Consistent;
    PairEntries(l.stream, i, Pointer(name));
    PairLoaded(l, i);
  }

  lemma PairLoaded(l: Linked, i: nat)
    requires Consistent(l) && i + 2 <= |l.stream| && InSegment(l.stream[i], RoData) && InSegment(l.stream[i + 1], RoData)
    ensures Loaded(Memory(l), l.out[i].address, l.out[i].encoding + l.out[i + 1].encoding * TWO_32)
    ensures EntryLinked(l, i) && EntryLinked(l, i + 1)
  {
    hide Memory, EntryLinked;
    WordInMemory(l, i);
    WordInMemory(l, i + 1);
  }
}
