/** What the linker computes: addresses for all words and labels, then the relocated words and the veneers. */
module Linking {
  import opened Wrappers
  import opened MachineWords

  datatype Segment = Code | RoData | Data

  datatype Relocation =
    | NoRelocation
    | PcRelative19
    | PcRelative26
    | Page21
    | Add12
    | Add12Plus8
    | MovImmediate(shift: nat)
    | AbsoluteLo32
    | AbsoluteHi32

  /** One entry of the instruction stream: a label definition, a machine word, or a data word. */
  datatype Instruction = Instruction(
    encoding: nat,
    target: string,
    isLabel: bool,
    isData: bool,
    hasText: bool,
    segment: Segment,
    relocation: Relocation,
    address: nat)

  datatype LinkError = DuplicateLabel(name: string) | UndefinedLabel(name: string)

  const PAGE: nat := 0x1000
  const GAP: nat := 0x4000

  predicate Emits(instr: Instruction) {
    instr.hasText || instr.isData
  }

  // ----- pass 1: addresses -----

  datatype Cursors = Cursors(code: nat, rodata: nat, data: nat)

  function At(c: Cursors, segment: Segment): nat {
    match segment
    case Code => c.code
    case RoData => c.rodata
    case Data => c.data
  }

  function Advance(c: Cursors, segment: Segment): Cursors {
    match segment
    case Code => c.(code := c.code + 4)
    case RoData => c.(rodata := c.rodata + 4)
    case Data => c.(data := c.data + 4)
  }

  /** The size of the code segment: four bytes for every entry that is no label. */
  function CodeSize(stream: seq<Instruction>, n: nat): nat
    requires n <= |stream|
  {
    if n == 0 then 0
    else CodeSize(stream, n - 1) + if stream[n - 1].segment == Code && !stream[n - 1].isLabel then 4 else 0
  }

  lemma {:induction false} CodeSizeCounts(stream: seq<Instruction>, n: nat)
    requires n <= |stream|
    ensures CodeSize(stream, n) == 4 * |set i | 0 <= i < n && stream[i].segment == Code && !stream[i].isLabel|
    decreases n
  {
    var counted := set i | 0 <= i < n && stream[i].segment == Code && !stream[i].isLabel;
    if n == 0 {
      assert counted == {};
    } else {
      CodeSizeCounts(stream, n - 1);
      var before := set i | 0 <= i < n - 1 && stream[i].segment == Code && !stream[i].isLabel;
      assert counted == if n - 1 in counted then before + {n - 1} else before;
    }
  }

  function PageDown(a: nat): (r: nat)
    ensures r % PAGE == 0 && r <= a < r + PAGE
  {
    a - a % PAGE
  }

  function Down16(a: nat): (r: nat)
    ensures r % 16 == 0 && r <= a < r + 16
  {
    a - a % 16
  }

  /** Read-only data starts on a page boundary after the code and a gap. */
  function RodataStart(base: nat, codeSize: nat): (r: nat)
    ensures r % PAGE == 0 && base + codeSize + GAP <= r < base + codeSize + GAP + PAGE
  {
    PageDown(base + codeSize + GAP + (PAGE - 1))
  }

  function Start(stream: seq<Instruction>, base: nat, dataBase: nat): Cursors {
    Cursors(base, RodataStart(base, CodeSize(stream, |stream|)), dataBase)
  }

  datatype Placement = Placement(out: seq<Instruction>, cursors: Cursors, labels: map<string, nat>)

  function Located(instr: Instruction, here: nat): Instruction {
    if Emits(instr) then instr.(address := here) else instr
  }

  function PlaceOne(p: Placement, instr: Instruction): Result<Placement, LinkError> {
    if instr.isLabel && instr.target in p.labels then Err(DuplicateLabel(instr.target))
    else
      var here := At(p.cursors, instr.segment);
      Ok(Placement(
           p.out + [Located(instr, here)],
           if Emits(instr) then Advance(p.cursors, instr.segment) else p.cursors,
           if instr.isLabel then p.labels[instr.target := here] else p.labels))
  }

  /** An entry with text or data takes four bytes of its own segment, any other none of any. */
  lemma BytesTaken(p: Placement, instr: Instruction, segment: Segment)
    requires PlaceOne(p, instr).Ok?
    ensures
      At(PlaceOne(p, instr).value.cursors, segment) - At(p.cursors, segment)
      == if segment == instr.segment && (instr.hasText || instr.isData) then 4 else 0
  {
  }

  /** The first n entries placed. */
  function Place(stream: seq<Instruction>, start: Cursors, n: nat): Result<Placement, LinkError>
    requires n <= |stream|
  {
    if n == 0 then Ok(Placement([], start, map[]))
    else
      match Place(stream, start, n - 1)
      case Err(e) => Err(e)
      case Ok(p) => PlaceOne(p, stream[n - 1])
  }

  /** How many of the first n entries emit a word in the segment. */
  function Emitted(stream: seq<Instruction>, n: nat, segment: Segment): nat
    requires n <= |stream|
  {
    if n == 0 then 0
    else Emitted(stream, n - 1, segment) + if InSegment(stream[n - 1], segment) then 1 else 0
  }

  /** The address of the next word of a segment when n entries have been placed. */
  function Cursor(stream: seq<Instruction>, start: Cursors, n: nat, segment: Segment): nat
    requires n <= |stream|
  {
    At(start, segment) + 4 * Emitted(stream, n, segment)
  }

  /** The addresses that placing the first n entries gives out. */
  ghost predicate PlacedAt(stream: seq<Instruction>, start: Cursors, n: nat, p: Placement)
    requires n <= |stream|
  {
    && |p.out| == n
    && (forall i :: 0 <= i < n ==> p.out[i] == Located(stream[i], Cursor(stream, start, i, stream[i].segment)))
    && (forall i :: 0 <= i < n && stream[i].isLabel ==>
          stream[i].target in p.labels && p.labels[stream[i].target] == Cursor(stream, start, i, stream[i].segment))
    && (forall name :: name in p.labels ==> DefinedIn(stream, n, name))
    && LabelsOnce(stream, n)
  }

  ghost predicate DefinedIn(stream: seq<Instruction>, n: nat, name: string)
    requires n <= |stream|
  {
    exists i :: 0 <= i < n && stream[i].isLabel && stream[i].target == name
  }

  ghost predicate LabelsOnce(stream: seq<Instruction>, n: nat)
    requires n <= |stream|
  {
    forall i, j :: 0 <= i < j < n && stream[i].isLabel && stream[j].isLabel ==> stream[i].target != stream[j].target
  }

  lemma LabelsOnceStep(stream: seq<Instruction>, n: nat)
    requires 0 < n <= |stream|
    ensures LabelsOnce(stream, n) <==> LabelsOnce(stream, n - 1) && (stream[n - 1].isLabel ==> !DefinedIn(stream, n - 1, stream[n - 1].target))
  {
  }

  lemma DefinedStep(stream: seq<Instruction>, n: nat, name: string)
    requires 0 < n <= |stream|
    ensures DefinedIn(stream, n, name) <==> DefinedIn(stream, n - 1, name) || (stream[n - 1].isLabel && stream[n - 1].target == name)
  {
    if stream[n - 1].isLabel && stream[n - 1].target == name {
      assert DefinedIn(stream, n, name);
    }
  }

  lemma {:induction false} PlaceResult(stream: seq<Instruction>, start: Cursors, n: nat)
    requires n <= |stream| && Place(stream, start, n).Ok?
    ensures PlacedAt(stream, start, n, Place(stream, start, n).value)
    ensures forall segment :: At(Place(stream, start, n).value.cursors, segment) == Cursor(stream, start, n, segment)
    decreases n
  {
    hide Located, DefinedIn, LabelsOnce;
    if n == 0 {
      assert LabelsOnce(stream, 0) by { NoLabels(stream); }
    } else {
      PlaceResult(stream, start, n - 1);
      PlacedStep(stream, start, n, Place(stream, start, n - 1).value);
    }
  }

  lemma NoLabels(stream: seq<Instruction>)
    ensures LabelsOnce(stream, 0)
  {
  }

  lemma PlacedStep(stream: seq<Instruction>, start: Cursors, n: nat, p: Placement)
    requires 0 < n <= |stream| && PlacedAt(stream, start, n - 1, p) && PlaceOne(p, stream[n - 1]).Ok?
    requires forall segment :: At(p.cursors, segment) == Cursor(stream, start, n - 1, segment)
    ensures
      var r := PlaceOne(p, stream[n - 1]).value;
      PlacedAt(stream, start, n, r) && forall segment :: At(r.cursors, segment) == Cursor(stream, start, n, segment)
  {
    hide Located, DefinedIn, LabelsOnce, At, Advance, Emitted, Cursor;
    LabelsOnceStep(stream, n);
    DefinedLabelled(stream, start, n - 1, p, stream[n - 1].target);
    forall name { DefinedStep(stream, n, name); }
    CursorStep(stream, start, n, p);
  }

  lemma CursorStep(stream: seq<Instruction>, start: Cursors, n: nat, p: Placement)
    requires 0 < n <= |stream| && PlaceOne(p, stream[n - 1]).Ok?
    requires forall segment :: At(p.cursors, segment) == Cursor(stream, start, n - 1, segment)
    ensures forall segment :: At(PlaceOne(p, stream[n - 1]).value.cursors, segment) == Cursor(stream, start, n, segment)
  {
    hide Located;
    forall segment ensures At(PlaceOne(p, stream[n - 1]).value.cursors, segment) == Cursor(stream, start, n, segment) {
      assert At(p.cursors, segment) == Cursor(stream, start, n - 1, segment);
    }
  }

  lemma DefinedLabelled(stream: seq<Instruction>, start: Cursors, n: nat, p: Placement, name: string)
    requires n <= |stream| && PlacedAt(stream, start, n, p)
    ensures DefinedIn(stream, n, name) <==> name in p.labels
  {
    hide Located, LabelsOnce, Cursor;
  }

  /** Placing fails exactly when some label is defined twice. */
  lemma {:induction false} PlaceFails(stream: seq<Instruction>, start: Cursors, n: nat)
    requires n <= |stream|
    ensures Place(stream, start, n).Ok? <==> LabelsOnce(stream, n)
    decreases n
  {
    hide Located, DefinedIn, LabelsOnce, PlacedAt;
    if n == 0 {
      NoLabels(stream);
    } else {
      PlaceFails(stream, start, n - 1);
      LabelsOnceStep(stream, n);
      if Place(stream, start, n - 1).Ok? {
        PlaceResult(stream, start, n - 1);
        DefinedLabelled(stream, start, n - 1, Place(stream, start, n - 1).value, stream[n - 1].target);
      }
    }
  }

  lemma {:induction false} EmittedGrows(stream: seq<Instruction>, m: nat, n: nat, segment: Segment)
    requires m <= n <= |stream|
    ensures Emitted(stream, m, segment) <= Emitted(stream, n, segment)
    ensures Emitted(stream, m, segment) == Emitted(stream, n, segment) <==>
      forall i :: m <= i < n ==> !InSegment(stream[i], segment)
    decreases n
  {
    if m < n { EmittedGrows(stream, m, n - 1, segment); }
  }

  lemma PlacedWord(stream: seq<Instruction>, start: Cursors, n: nat, p: Placement, i: nat)
    requires n <= |stream| && PlacedAt(stream, start, n, p) && i < n
    ensures |p.out| == n
    ensures p.out[i] == Located(stream[i], Cursor(stream, start, i, stream[i].segment))
    ensures stream[i].isLabel ==> stream[i].target in p.labels && p.labels[stream[i].target] == Cursor(stream, start, i, stream[i].segment)
  {
  }

  /** Words of one segment lie four bytes apart or more: no two overlap. */
  lemma WordsDisjoint(stream: seq<Instruction>, start: Cursors, p: Placement, i: nat, j: nat, segment: Segment)
    requires PlacedAt(stream, start, |stream|, p) && i < j < |stream| && InSegment(stream[i], segment) && InSegment(stream[j], segment)
    ensures |p.out| == |stream| && p.out[i].address + 4 <= p.out[j].address
    ensures (forall k :: i < k < j ==> !InSegment(stream[k], segment)) ==> p.out[i].address + 4 == p.out[j].address
  {
    hide PlacedAt, At;
    assert Emitted(stream, i + 1, segment) == Emitted(stream, i, segment) + 1;
    hide Emitted;
    PlacedWord(stream, start, |stream|, p, i);
    PlacedWord(stream, start, |stream|, p, j);
    EmittedGrows(stream, i + 1, j, segment);
  }

  /** Entry j is the first word after entry i in i's segment. */
  ghost predicate FirstWord(stream: seq<Instruction>, i: nat, j: nat) {
    && i < j < |stream| && stream[j].segment == stream[i].segment && Emits(stream[j])
    && forall k :: i <= k < j ==> !InSegment(stream[k], stream[i].segment)
  }

  predicate InSegment(instr: Instruction, segment: Segment) {
    instr.segment == segment && Emits(instr)
  }

  lemma SameCursor(stream: seq<Instruction>, start: Cursors, i: nat, j: nat)
    requires FirstWord(stream, i, j)
    ensures Cursor(stream, start, i, stream[i].segment) == Cursor(stream, start, j, stream[i].segment)
  {
    hide At, Emits;
    EmittedGrows(stream, i, j, stream[i].segment);
  }

  /** A label is the address of the next word its segment gets. */
  lemma LabelAddress(stream: seq<Instruction>, start: Cursors, p: Placement, i: nat, j: nat)
    requires PlacedAt(stream, start, |stream|, p) && FirstWord(stream, i, j) && stream[i].isLabel
    ensures |p.out| == |stream| && stream[i].target in p.labels && p.labels[stream[i].target] == p.out[j].address
  {
    hide PlacedAt, Cursor;
    PlacedWord(stream, start, |stream|, p, i);
    PlacedWord(stream, start, |stream|, p, j);
    SameCursor(stream, start, i, j);
  }

  /** Label definitions are nothing but labels. */
  predicate PureLabels(stream: seq<Instruction>) {
    forall i :: 0 <= i < |stream| && stream[i].isLabel ==> !Emits(stream[i])
  }

  lemma {:induction false} CodeFits(stream: seq<Instruction>, n: nat)
    requires n <= |stream| && PureLabels(stream)
    ensures 4 * Emitted(stream, n, Code) <= CodeSize(stream, n)
    decreases n
  {
    if n > 0 { CodeFits(stream, n - 1); }
  }

  lemma {:induction false} CodeSizeGrows(stream: seq<Instruction>, m: nat, n: nat)
    requires m <= n <= |stream|
    ensures CodeSize(stream, m) <= CodeSize(stream, n)
    decreases n
  {
    if m < n { CodeSizeGrows(stream, m, n - 1); }
  }

  /** Code ends at least 16 KiB before the read-only data, which starts on a page. */
  lemma GapKept(stream: seq<Instruction>, base: nat, dataBase: nat, p: Placement, i: nat, j: nat)
    requires PureLabels(stream) && PlacedAt(stream, Start(stream, base, dataBase), |stream|, p)
    requires i < |stream| && j < |stream| && InSegment(stream[i], Code) && InSegment(stream[j], RoData)
    ensures |p.out| == |stream| && p.out[i].address + 4 + GAP <= p.out[j].address
    ensures var start := Start(stream, base, dataBase).rodata; start % PAGE == 0 && start <= p.out[j].address
  {
    PlacedWord(stream, Start(stream, base, dataBase), |stream|, p, i);
    PlacedWord(stream, Start(stream, base, dataBase), |stream|, p, j);
    hide PlacedAt;
    CodeBelow(stream, i);
  }

  lemma CodeBelow(stream: seq<Instruction>, i: nat)
    requires PureLabels(stream) && i < |stream| && InSegment(stream[i], Code)
    ensures 4 * Emitted(stream, i, Code) + 4 <= CodeSize(stream, |stream|)
  {
    CodeFits(stream, i + 1);
    CodeSizeGrows(stream, i + 1, |stream|);
  }

  // ----- pass 2: relocations -----

  /** How the other relocations patch a word: kind, word, its address, the target's address. */
  type Patcher = (Relocation, nat, nat, nat) -> nat

  function Relocated(patch: Patcher, instr: Instruction, target: nat): nat {
    match instr.relocation
    case NoRelocation => instr.encoding
    case AbsoluteLo32 => target % TWO_32
    case AbsoluteHi32 => target / TWO_32 % TWO_32
    case r => patch(r, instr.encoding, instr.address, target)
  }

  /** Runtime functions come before labels of the same name. */
  function Resolve(name: string, runtime: map<string, nat>, labels: map<string, nat>): Option<nat> {
    if name in runtime then Some(runtime[name]) else if name in labels then Some(labels[name]) else None
  }

  const MAX_BRANCH: int := 0x7FFFFFF * 4

  predicate InRange(from: nat, to: nat) {
    -MAX_BRANCH <= to - from <= MAX_BRANCH
  }

  /** Of the distances between words, the test accepts those below 512 MiB in either direction. */
  lemma RangeTested(from: nat, to: nat)
    requires (to - from) % 4 == 0
    ensures InRange(from, to) <==> to < from + 0x2000_0000 && from < to + 0x2000_0000
  {
  }

  // ----- veneers -----

  datatype Veneer = Veneer(name: string, target: nat, address: nat)

  const VENEER_SIZE: nat := 20

  /** The 16 bits of a number from bit 16 * k on. */
  function Chunk(n: nat, k: nat): (r: nat)
    requires k < 4
    ensures r < 0x1_0000
  {
    (match k case 0 => n case 1 => n / 0x1_0000 case 2 => n / 0x1_0000_0000 case 3 => n / 0x1_0000_0000_0000) % 0x1_0000
  }

  /** MOVZ X16, then three MOVK X16, then BLR X16; the immediate goes into bits that are zero. */
  function VeneerWords(target: nat): (words: seq<nat>)
    ensures |words| == 5
  {
    [0xD2800010 + Chunk(target, 0) * 32,
     0xF2A00010 + Chunk(target, 1) * 32,
     0xF2C00010 + Chunk(target, 2) * 32,
     0xF2E00010 + Chunk(target, 3) * 32,
     0xD63F0200]
  }

  function CodeWord(encoding: nat, address: nat): Instruction {
    Instruction(encoding, "", false, false, true, Code, NoRelocation, address)
  }

  function VeneerInstructions(v: Veneer): (instrs: seq<Instruction>)
    ensures |instrs| == 5
    ensures forall k :: 0 <= k < 5 ==> instrs[k] == CodeWord(VeneerWords(v.target)[k], v.address + 4 * k)
  {
    var words := VeneerWords(v.target);
    [CodeWord(words[0], v.address), CodeWord(words[1], v.address + 4), CodeWord(words[2], v.address + 8),
     CodeWord(words[3], v.address + 12), CodeWord(words[4], v.address + 16)]
  }

  /** The highest address of a code entry among the first n. */
  function MaxCode(out: seq<Instruction>, n: nat): (m: nat)
    requires n <= |out|
    ensures forall i :: 0 <= i < n && out[i].segment == Code ==> out[i].address <= m
  {
    if n == 0 then 0
    else
      var m := MaxCode(out, n - 1);
      if out[n - 1].segment == Code && out[n - 1].address > m then out[n - 1].address else m
  }

  datatype LinkState = LinkState(
    out: seq<Instruction>,
    labels: map<string, nat>,
    addresses: map<string, nat>,
    next: nat,
    veneers: seq<Veneer>)

  function NextVeneer(s: LinkState): nat {
    if s.next == 0 then Down16(MaxCode(s.out, |s.out|) + 4 + 15) else s.next
  }

  function VeneerLabel(name: string): string {
    "__veneer_" + name
  }

  /** The veneer of a target, made on first use. */
  function GetVeneer(s: LinkState, name: string, target: nat): Result<(LinkState, nat), LinkError> {
    if name in s.addresses then Ok((s, s.addresses[name]))
    else
      var at := NextVeneer(s);
      var v := Veneer(name, target, at);
      if VeneerLabel(name) in s.labels then Err(DuplicateLabel(VeneerLabel(name)))
      else
        Ok((LinkState(s.out + VeneerInstructions(v), s.labels[VeneerLabel(name) := at], s.addresses[name := at],
                      at + VENEER_SIZE, s.veneers + [v]),
            at))
  }

  function Patched(s: LinkState, i: nat, encoding: nat): LinkState
    requires i < |s.out|
  {
    s.(out := s.out[i := s.out[i].(encoding := encoding)])
  }

  /** One relocation. */
  function RelocateOne(patch: Patcher, runtime: map<string, nat>, s: LinkState, i: nat): (r: Result<LinkState, LinkError>)
    requires i < |s.out|
    ensures r.Ok? ==> |r.value.out| >= |s.out|
  {
    var instr := s.out[i];
    if instr.relocation == NoRelocation || instr.target == "" then Ok(s)
    else
      match Resolve(instr.target, runtime, s.labels)
      case None => Err(UndefinedLabel(instr.target))
      case Some(target) =>
        if instr.relocation == PcRelative26 && !InRange(instr.address, target) then
          match GetVeneer(s, instr.target, target)
          case Err(e) => Err(e)
          case Ok((s1, at)) => Ok(Patched(s1, i, Relocated(patch, instr, at)))
        else Ok(Patched(s, i, Relocated(patch, instr, target)))
  }

  /** The first n entries relocated; veneers are appended behind everything else. */
  function Relocate(patch: Patcher, runtime: map<string, nat>, s: LinkState, n: nat): (r: Result<LinkState, LinkError>)
    requires n <= |s.out|
    ensures r.Ok? ==> |r.value.out| >= |s.out|
  {
    if n == 0 then Ok(s)
    else
      match Relocate(patch, runtime, s, n - 1)
      case Err(e) => Err(e)
      case Ok(s1) => RelocateOne(patch, runtime, s1, n - 1)
  }

  /** Both passes. */
  function Link(patch: Patcher, runtime: map<string, nat>, stream: seq<Instruction>, base: nat, dataBase: nat): Result<LinkState, LinkError> {
    match Place(stream, Start(stream, base, dataBase), |stream|)
    case Err(e) => Err(e)
    case Ok(p) => Relocate(patch, runtime, LinkState(p.out, p.labels, map[], 0, []), |p.out|)
  }
}
