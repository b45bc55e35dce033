/** What the words of a veneer do on the machine (section C6.2, MOVZ and MOVK, of the Arm Architecture Reference Manual, DDI 0487). */
module VeneerCode {
  import opened Wrappers
  import opened MachineWords
  import opened Linking
  import opened LinkingTheorems

  const X16: nat := 16

  /** The fields of a 64-bit move-wide word: operation, position of the 16-bit chunk, immediate, register. */
  datatype MoveWide = MoveWide(operation: nat, position: nat, immediate: nat, register: nat)

  function Decode(word: nat): MoveWide {
    MoveWide(word / 0x80_0000, word / 0x20_0000 % 4, word / 32 % 0x1_0000, word % 32)
  }

  const MOVZ: nat := 0x1A5
  const MOVK: nat := 0x1E5

  function Power(position: nat): (p: nat)
    requires position < 4
    ensures p > 0
  {
    match position case 0 => 1 case 1 => 0x1_0000 case 2 => 0x1_0000_0000 case 3 => 0x1_0000_0000_0000
  }

  /** MOVZ clears the register but for one chunk; MOVK replaces one chunk and keeps the others. */
  function Execute(word: nat, register: nat, x: nat): Option<nat> {
    var w := Decode(word);
    if w.register != register || w.position >= 4 then None
    else if w.operation == MOVZ then Some(w.immediate * Power(w.position))
    else if w.operation == MOVK && Chunk(x, w.position) * Power(w.position) <= x then
      Some(x - Chunk(x, w.position) * Power(w.position) + w.immediate * Power(w.position))
    else None
  }

  function ExecuteAll(words: seq<nat>, register: nat, x: nat): Option<nat> {
    if words == [] then Some(x)
    else
      match Execute(words[0], register, x)
      case None => None
      case Some(y) => ExecuteAll(words[1..], register, y)
  }

  lemma DecodeMove(base: nat, position: nat, operation: nat, immediate: nat)
    requires position < 4 && base == operation * 0x80_0000 + position * 0x20_0000 + X16 && immediate < 0x1_0000
    ensures Decode(base + immediate * 32) == MoveWide(operation, position, immediate, X16)
  {
    var word := base + immediate * 32;
    Quotient(word, operation, position * 0x20_0000 + immediate * 32 + X16);
    Middle(word, operation * 4 + position, immediate * 32 + X16);
    Field(word, (operation * 4 + position) * 0x1_0000 + immediate, X16);
    LowHalf(operation * 4 + position, immediate);
    LowPair(operation, position);
  }

  lemma Quotient(n: nat, q: nat, r: nat)
    requires n == q * 0x80_0000 + r && r < 0x80_0000
    ensures n / 0x80_0000 == q
  {
  }

  lemma Middle(n: nat, q: nat, r: nat)
    requires n == q * 0x20_0000 + r && r < 0x20_0000
    ensures n / 0x20_0000 == q
  {
  }

  lemma Field(n: nat, q: nat, r: nat)
    requires n == q * 32 + r && r < 32
    ensures n / 32 == q && n % 32 == r
  {
  }

  lemma LowHalf(q: nat, r: nat)
    requires r < 0x1_0000
    ensures (q * 0x1_0000 + r) % 0x1_0000 == r
  {
  }

  lemma LowPair(q: nat, r: nat)
    requires r < 4
    ensures (q * 4 + r) % 4 == r
  {
  }

  lemma ChunksSum(n: nat)
    requires n < TWO_64
    ensures n == Chunk(n, 0) + Chunk(n, 1) * 0x1_0000 + Chunk(n, 2) * 0x1_0000_0000 + Chunk(n, 3) * 0x1_0000_0000_0000
  {
  }

  lemma ChunkAbove(n: nat, k: nat)
    requires k < 4 && n < Power(k)
    ensures Chunk(n, k) == 0
  {
  }

  /** A MOVZ and three MOVKs of one register that carry the four chunks of a number load that number. */
  lemma MovesLoad(words: seq<nat>, register: nat, target: nat, x: nat)
    requires |words| == 4 && target < TWO_64
    requires Decode(words[0]) == MoveWide(MOVZ, 0, Chunk(target, 0), register)
    requires forall k :: 1 <= k < 4 ==> Decode(words[k]) == MoveWide(MOVK, k, Chunk(target, k), register)
    ensures ExecuteAll(words, register, x) == Some(target)
  {
    hide Decode, Chunk;
    ChunksSum(target);
    var x1 := Chunk(target, 0);
    var x2 := x1 + Chunk(target, 1) * 0x1_0000;
    var x3 := x2 + Chunk(target, 2) * 0x1_0000_0000;
    ChunkAbove(x1, 1);
    ChunkAbove(x2, 2);
    ChunkAbove(x3, 3);
    assert Execute(words[0], register, x) == Some(x1);
    assert Execute(words[1], register, x1) == Some(x2);
    assert Execute(words[2], register, x2) == Some(x3);
    assert Execute(words[3], register, x3) == Some(target);
    FourSteps(words, register, x, x1, x2, x3, target);
  }

  /** Whatever X16 held before, after the four moves it holds the full 64-bit target, and the last word branches to X16. */
  lemma VeneerLoadsTarget(target: nat, x: nat)
    requires target < TWO_64
    ensures ExecuteAll(VeneerWords(target)[..4], X16, x) == Some(target)
    ensures VeneerWords(target)[4] == 0xD63F0000 + X16 * 32
  {
    hide Decode, Chunk;
    DecodeMove(0xD2800010, 0, MOVZ, Chunk(target, 0));
    DecodeMove(0xF2A00010, 1, MOVK, Chunk(target, 1));
    DecodeMove(0xF2C00010, 2, MOVK, Chunk(target, 2));
    DecodeMove(0xF2E00010, 3, MOVK, Chunk(target, 3));
    MovesLoad(VeneerWords(target)[..4], X16, target, x);
  }

  /**
    A branch out of range, in any successful link: it is patched to lead to five words which, whatever X16 held,
    leave in it the address that the branch's own target name resolves to, and branch there.
   */
  lemma BranchArrives(
    patch: Patcher, runtime: map<string, nat>, stream: seq<Instruction>, base: nat, dataBase: nat, r: LinkState, i: nat, x: nat)
    returns (at: nat)
    requires Link(patch, runtime, stream, base, dataBase) == Ok(r) && i < |stream| && i < |r.out|
    requires stream[i].relocation == PcRelative26 && stream[i].target != ""
    requires
      var target := Resolve(stream[i].target, runtime, r.labels);
      target.Some? ==> target.value < TWO_64 && !InRange(r.out[i].address, target.value)
    ensures |stream| <= at && at + 5 <= |r.out|
    ensures r.out[i].encoding == patch(PcRelative26, stream[i].encoding, r.out[i].address, r.out[at].address)
    ensures Leads(r.out, at, Resolve(stream[i].target, runtime, r.labels), x)
  {
    hide Link, Leads, InRange, PlacedAt, Aimed, Arranged, VeneerInstructions;
    var p, s := LinkResult(patch, runtime, stream, base, dataBase);
    PlacedEntry(stream, base, dataBase, p, i);
    assert Settled(patch, runtime, s, r, i);
    var k := VeneerOf(s, r, stream[i].target);
    AimedAt(runtime, r, k);
    at := |stream| + 5 * k;
    ArrangedVeneerAt(s, r, k);
    VeneerArrives(r.out, at, r.veneers[k], x);
    assert r.out[i].encoding == Relocated(patch, s.out[i], r.addresses[stream[i].target]);
  }

  /** Five code words in a row which, whatever X16 holds, load the target into it and branch there. */
  ghost predicate Leads(out: seq<Instruction>, at: nat, target: Option<nat>, x: nat)
    requires at + 5 <= |out|
  {
    && (forall j :: 0 <= j < 5 ==>
          out[at + j] == Instruction(out[at + j].encoding, "", false, false, true, Code, NoRelocation, out[at].address + 4 * j))
    && ExecuteAll([out[at].encoding, out[at + 1].encoding, out[at + 2].encoding, out[at + 3].encoding], X16, x) == target
    && target.Some? && out[at + 4].encoding == 0xD63F0000 + X16 * 32
  }

  /** The five words of a veneer, where they stand. */
  lemma VeneerArrives(out: seq<Instruction>, at: nat, v: Veneer, x: nat)
    requires at + 5 <= |out| && out[at..at + 5] == VeneerInstructions(v) && v.target < TWO_64
    ensures out[at].address == v.address && Leads(out, at, Some(v.target), x)
  {
    hide ExecuteAll, VeneerWords, VeneerInstructions;
    var words := VeneerWords(v.target);
    forall j | 0 <= j < 5 ensures out[at + j] == CodeWord(words[j], v.address + 4 * j) {
      assert out[at + j] == out[at..at + 5][j];
    }
    VeneerLoadsTarget(v.target, x);
    assert words[..4] == [words[0], words[1], words[2], words[3]];
  }

  /** Placing changes no more of an entry than its address. */
  lemma PlacedEntry(stream: seq<Instruction>, base: nat, dataBase: nat, p: Placement, i: nat)
    requires PlacedAt(stream, Start(stream, base, dataBase), |stream|, p) && i < |stream|
    ensures |p.out| == |stream| && p.out[i] == stream[i].(address := p.out[i].address)
  {
    PlacedLength(stream, Start(stream, base, dataBase), p);
  }

  lemma AimedAt(runtime: map<string, nat>, r: LinkState, k: nat)
    requires Aimed(runtime, r) && k < |r.veneers|
    ensures Resolve(r.veneers[k].name, runtime, r.labels) == Some(r.veneers[k].target)
  {
  }

  lemma VeneerOf(s: LinkState, r: LinkState, name: string) returns (k: nat)
    requires Arranged(s, r) && name in r.addresses
    ensures k < |r.veneers| && r.veneers[k].name == name && r.veneers[k].address == r.addresses[name]
  {
    assert Veneered(r.veneers, name);
    k :| 0 <= k < |r.veneers| && r.veneers[k].name == name;
  }

  lemma FourSteps(words: seq<nat>, register: nat, x: nat, x1: nat, x2: nat, x3: nat, x4: nat)
    requires |words| == 4
    requires Execute(words[0], register, x) == Some(x1) && Execute(words[1], register, x1) == Some(x2)
    requires Execute(words[2], register, x2) == Some(x3) && Execute(words[3], register, x3) == Some(x4)
    ensures ExecuteAll(words, register, x) == Some(x4)
  {
    hide Execute;
    assert words[1..][0] == words[1] && words[1..][1..][0] == words[2] && words[1..][1..][1..][0] == words[3];
    assert words[1..][1..][1..][1..] == [];
    assert ExecuteAll([], register, x4) == Some(x4);
    assert ExecuteAll(words[1..][1..][1..], register, x3) == Some(x4);
    assert ExecuteAll(words[1..][1..], register, x2) == Some(x4);
    assert ExecuteAll(words[1..], register, x1) == Some(x4);
  }
}
