/** Where the branches of a linked program go once the words are patched as the linker patches them. */
module PatchedLinks {
  import opened Wrappers
  import opened MachineWords
  import opened Bitfields
  import opened Linking
  import opened LinkingTheorems
  import opened VeneerCode
  import opened Relocations

  /** The address entry i's target name resolves to at the end. */
  function TargetOf(runtime: map<string, nat>, stream: seq<Instruction>, r: LinkState, i: nat): Option<nat>
    requires i < |stream|
  {
    Resolve(stream[i].target, runtime, r.labels)
  }

  ghost predicate IsBranch(stream: seq<Instruction>, i: nat) {
    i < |stream| && stream[i].relocation == PcRelative26 && stream[i].target != ""
  }

  /** A branch that is in range by the linker's test is patched with its own target. */
  lemma DirectEntry(
    patch: Patcher, runtime: map<string, nat>, stream: seq<Instruction>, base: nat, dataBase: nat, r: LinkState, i: nat)
    requires Link(patch, runtime, stream, base, dataBase) == Ok(r) && IsBranch(stream, i)
    ensures i < |r.out| && TargetOf(runtime, stream, r, i).Some?
    ensures
      var (from, to) := (r.out[i].address, TargetOf(runtime, stream, r, i).value);
      InRange(from, to) ==> r.out[i].encoding == patch(PcRelative26, stream[i].encoding, from, to)
  {
    hide Link, PlacedAt, Aimed, Arranged, InRange;
    var p, s := LinkResult(patch, runtime, stream, base, dataBase);
    PlacedEntry(stream, base, dataBase, p, i);
    assert Settled(patch, runtime, s, r, i);
  }

  /**
    A branch in range by the linker's test goes to its own target exactly if that is in the machine's range, a quarter
    of the linker's.
   */
  lemma DirectBranch(runtime: map<string, nat>, stream: seq<Instruction>, base: nat, dataBase: nat, r: LinkState, i: nat)
    requires Link(Apply, runtime, stream, base, dataBase) == Ok(r) && IsBranch(stream, i)
    ensures i < |r.out| && TargetOf(runtime, stream, r, i).Some?
    ensures
      var (from, to) := (r.out[i].address, TargetOf(runtime, stream, r, i).value);
      InRange(from, to) ==> (Branch(r.out[i].encoding, from) == to <==> Within(from, to, 0x800_0000))
  {
    hide Link, Apply, Branch, Within, InRange, TargetOf;
    DirectEntry(Apply, runtime, stream, base, dataBase, r, i);
    BranchReaches(stream[i].encoding, r.out[i].address, TargetOf(runtime, stream, r, i).value);
  }

  /** A branch out of range goes to its veneer exactly if that is in the machine's range; the veneer goes on to the target. */
  lemma VeneeredBranch(
    runtime: map<string, nat>, stream: seq<Instruction>, base: nat, dataBase: nat, r: LinkState, i: nat, x: nat) returns (at: nat)
    requires Link(Apply, runtime, stream, base, dataBase) == Ok(r) && IsBranch(stream, i) && i < |r.out|
    requires var target := TargetOf(runtime, stream, r, i); target.Some? ==> target.value < TWO_64 && !InRange(r.out[i].address, target.value)
    ensures at + 5 <= |r.out| && Leads(r.out, at, TargetOf(runtime, stream, r, i), x)
    ensures
      var (from, to) := (r.out[i].address, r.out[at].address);
      Branch(r.out[i].encoding, from) == to <==> Within(from, to, 0x800_0000)
  {
    hide Link, Apply, Branch, Within, InRange, Leads;
    at := BranchArrives(Apply, runtime, stream, base, dataBase, r, i, x);
    BranchReaches(stream[i].encoding, r.out[i].address, r.out[at].address);
  }

  /** So every call from aligned code reaches its veneer while code and veneers together are shorter than the range. */
  lemma VeneersReached(
    patch: Patcher, runtime: map<string, nat>, stream: seq<Instruction>, base: nat, dataBase: nat, r: LinkState, i: nat, k: nat)
    requires Link(patch, runtime, stream, base, dataBase) == Ok(r) && PureLabels(stream) && base % 4 == 0
    requires forall j :: 0 <= j < |stream| ==> stream[j].address == 0
    requires i < |stream| && InSegment(stream[i], Code) && k < |r.veneers|
    requires CodeSize(stream, |stream|) + VENEER_SIZE * |r.veneers| <= 0x800_0000
    ensures i < |r.out| && Within(r.out[i].address, r.veneers[k].address, 0x800_0000)
  {
    hide Link, CodeSize, VeneerInstructions, RodataStart, Emitted, PureLabels;
    VeneersFit(patch, runtime, stream, base, dataBase, k);
    VeneersNear(patch, runtime, stream, base, dataBase, k);
    BranchPlaced(patch, runtime, stream, base, dataBase, r, i);
    Fours(r.veneers[k].address, r.veneers[0].address, k);
  }

  lemma Fours(v: nat, first: nat, k: nat)
    requires v == first + VENEER_SIZE * k && first % 16 == 0
    ensures v % 4 == 0
  {
    Remainder(v, 4 * (first / 16) + 5 * k, 4, 0);
  }

  lemma BranchPlaced(
    patch: Patcher, runtime: map<string, nat>, stream: seq<Instruction>, base: nat, dataBase: nat, r: LinkState, i: nat)
    requires Link(patch, runtime, stream, base, dataBase) == Ok(r) && i < |stream| && InSegment(stream[i], Code)
    ensures i < |r.out| && r.out[i].address == base + 4 * Emitted(stream, i, Code)
  {
    hide Link, Aimed, Arranged, Emitted;
    var p, s := LinkResult(patch, runtime, stream, base, dataBase);
    PlacedWord(stream, Start(stream, base, dataBase), |stream|, p, i);
    assert Settled(patch, runtime, s, r, i);
  }

  /** A call of a function 128 MiB ahead links without a veneer and goes 128 MiB back. */
  lemma DistantCall()
    ensures
      var call := Instruction(0x9400_0000, "f", false, false, true, Code, PcRelative26, 0);
      match Link(Apply, map["f" := 0x1_0800_0000], [call], 0x1_0000_0000, 0)
      case Err(_) => false
      case Ok(r) => r.veneers == [] && |r.out| == 1 && Branch(r.out[0].encoding, r.out[0].address) == 0xF800_0000
  {
    var call := Instruction(0x9400_0000, "f", false, false, true, Code, PcRelative26, 0);
    var (runtime, stream, base) := (map["f" := 0x1_0800_0000], [call], 0x1_0000_0000);
    var start := Start(stream, base, 0);
    var placed := call.(address := base);
    assert Place(stream, start, 0) == Ok(Placement([], start, map[]));
    assert [] + [placed] == [placed];
    assert Place(stream, start, 1) == Ok(Placement([placed], start.(code := base + 4), map[]));
    var s := LinkState([placed], map[], map[], 0, []);
    assert Relocate(Apply, runtime, s, 0) == Ok(s);
    var w := Apply(PcRelative26, call.encoding, base, 0x1_0800_0000);
    assert Relocate(Apply, runtime, s, 1) == Ok(Linking.Patched(s, 0, w));
    Powers();
    PutGet(call.encoding, 0x200_0000, 0, 26);
  }

  // ----- addresses in four moves -----

  lemma MovePatched(word: nat, position: nat, from: nat, to: nat)
    requires word < Power2(WORD) && position < 4
    ensures Decode(Apply(MovImmediate(16 * position), word, from, to)) == Decode(word).(immediate := Chunk(to, position))
  {
    hide Put, Get, Chunk;
    Powers();
    ChunkShifted(to, position);
    PutGet(word, Chunk(to, position), 5, 16);
    FieldsOfMove(word);
    FieldsOfMove(Apply(MovImmediate(16 * position), word, from, to));
  }

  lemma ChunkShifted(to: nat, position: nat)
    requires position < 4
    ensures to / Power2(16 * position) % 0x1_0000 == Chunk(to, position)
  {
    Powers();
    PowerSum(16, 16);
    PowerSum(16, 32);
  }

  /** The fields of a move in terms of its bits. */
  lemma FieldsOfMove(word: nat)
    requires word < Power2(WORD)
    ensures Decode(word) == MoveWide(Get(word, 23, 9), Get(word, 21, 2), Get(word, 5, 16), Get(word, 0, 5))
  {
    hide Get;
    GetQuotient(word, 23, 9);
    GetQuotient(word, 21, 2);
    GetQuotient(word, 5, 16);
    GetQuotient(word, 0, 5);
    Powers();
    PowerSum(19, 4);
    PowerSum(19, 2);
    PowerSum(4, 1);
    PowerSum(16, 16);
    PowerSum(8, 1);
    assert word / 0x80_0000 < 0x200;
    assert word / 0x80_0000 % 0x200 == word / 0x80_0000;
  }

  /** A MOVZ and three MOVKs of one register, each patched with its own part of an address, load that address. */
  lemma PatchedMovesLoad(words: seq<nat>, register: nat, from: nat, to: nat, x: nat)
    requires |words| == 4 && to < TWO_64 && forall k :: 0 <= k < 4 ==> words[k] < Power2(WORD)
    requires forall k :: 0 <= k < 4 ==>
      Decode(words[k]) == MoveWide(if k == 0 then MOVZ else MOVK, k, Decode(words[k]).immediate, register)
    ensures
      ExecuteAll(seq(4, k requires 0 <= k < 4 => Apply(MovImmediate(16 * k), words[k], from + 4 * k, to)), register, x) == Some(to)
  {
    hide Apply, Chunk, Decode, ExecuteAll, Power2;
    var patched := seq(4, k requires 0 <= k < 4 => Apply(MovImmediate(16 * k), words[k], from + 4 * k, to));
    forall k | 0 <= k < 4
      ensures Decode(patched[k]) == MoveWide(if k == 0 then MOVZ else MOVK, k, Chunk(to, k), register)
    {
      MovePatched(words[k], k, from + 4 * k, to);
    }
    MovesLoad(patched, register, to, x);
  }
}
