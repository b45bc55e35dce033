/** The linker's two passes over a growing vector of instructions. */
module LinkerPasses {
  import opened Wrappers
  import opened Linking

  class LabelManager {
    var definedLabels: map<string, nat>

    constructor ()
      ensures definedLabels == map[]
    {
      definedLabels := map[];
    }

    predicate IsLabelDefined(name: string)
      reads this
    {
      name in definedLabels
    }

    /** Defining a label again is an error. */
    method DefineLabel(name: string, address: nat) returns (ok: bool)
      modifies this
      ensures ok <==> name !in old(definedLabels)
      ensures definedLabels == if ok then old(definedLabels)[name := address] else old(definedLabels)
    {
      if IsLabelDefined(name) {
        return false;
      }
      definedLabels := definedLabels[name := address];
      return true;
    }

    method GetLabelAddress(name: string) returns (address: Result<nat, LinkError>)
      ensures address == if name in definedLabels then Ok(definedLabels[name]) else Err(UndefinedLabel(name))
    {
      if name !in definedLabels {
        return Err(UndefinedLabel(name));
      }
      return Ok(definedLabels[name]);
    }
  }

  class Linker {
    const patch: Patcher
    var veneerMap: map<string, nat>
    var nextVeneerAddress: nat
    var veneers: seq<Veneer>

    constructor (patch: Patcher)
      ensures this.patch == patch && veneerMap == map[] && nextVeneerAddress == 0 && veneers == []
    {
      this.patch := patch;
      veneerMap, nextVeneerAddress, veneers := map[], 0, [];
    }

    ghost function State(out: seq<Instruction>, manager: LabelManager): LinkState
      reads this, manager
    {
      LinkState(out, manager.definedLabels, veneerMap, nextVeneerAddress, veneers)
    }

    method MeasureCode(stream: seq<Instruction>) returns (size: nat)
      ensures size == CodeSize(stream, |stream|)
    {
      size := 0;
      var i := 0;
      while i < |stream|
        invariant 0 <= i <= |stream| && size == CodeSize(stream, i)
      {
        if stream[i].segment == Code && !stream[i].isLabel {
          size := size + 4;
        }
        i := i + 1;
      }
    }

    /** Pass 1: three cursors, one per segment. */
    method AssignAddresses(stream: seq<Instruction>, manager: LabelManager, base: nat, dataBase: nat) returns (r: Result<seq<Instruction>, LinkError>)
      requires manager.definedLabels == map[]
      modifies manager
      ensures
        match Place(stream, Start(stream, base, dataBase), |stream|)
        case Err(e) => r == Err(e)
        case Ok(p) => r == Ok(p.out) && manager.definedLabels == p.labels
    {
      hide RodataStart, CodeSize;
      var codeSize := MeasureCode(stream);
      var cursors := Cursors(base, RodataStart(base, codeSize), dataBase);
      var out: seq<Instruction> := [];
      var i := 0;
      while i < |stream|
        invariant 0 <= i <= |stream|
        invariant Place(stream, Start(stream, base, dataBase), i) == Ok(Placement(out, cursors, manager.definedLabels))
      {
        var instr := stream[i];
        var here := At(cursors, instr.segment);
        if instr.isLabel {
          var ok := manager.DefineLabel(instr.target, here);
          if !ok {
            FailedEarly(stream, Start(stream, base, dataBase), i + 1, |stream|);
            return Err(DuplicateLabel(instr.target));
          }
        }
        if Emits(instr) {
          instr := instr.(address := here);
          cursors := Advance(cursors, instr.segment);
        }
        out := out + [instr];
        i := i + 1;
      }
      return Ok(out);
    }

    method CreateVeneer(name: string, target: nat, address: nat) returns (v: Veneer, instructions: seq<Instruction>)
      ensures v == Veneer(name, target, address) && instructions == VeneerInstructions(v)
    {
      v := Veneer(name, target, address);
      var movz := CodeWord(0xD2800010 + Chunk(target, 0) * 32, address);
      var movk1 := CodeWord(0xF2A00010 + Chunk(target, 1) * 32, address + 4);
      var movk2 := CodeWord(0xF2C00010 + Chunk(target, 2) * 32, address + 8);
      var movk3 := CodeWord(0xF2E00010 + Chunk(target, 3) * 32, address + 12);
      var blr := CodeWord(0xD63F0200, address + 16);
      instructions := [movz, movk1, movk2, movk3, blr];
    }

    method HighestCode(instructions: seq<Instruction>) returns (m: nat)
      ensures m == MaxCode(instructions, |instructions|)
    {
      m := 0;
      var i := 0;
      while i < |instructions|
        invariant 0 <= i <= |instructions| && m == MaxCode(instructions, i)
      {
        if instructions[i].segment == Code && instructions[i].address > m {
          m := instructions[i].address;
        }
        i := i + 1;
      }
    }

    /** The veneer of a target, appended to the instructions on first use. */
    method GetOrCreateVeneer(name: string, target: nat, instructions: seq<Instruction>, manager: LabelManager)
      returns (r: Result<(seq<Instruction>, nat), LinkError>)
      modifies this, manager
      ensures
        match GetVeneer(old(State(instructions, manager)), name, target)
        case Err(e) => r == Err(e)
        case Ok((s, at)) => r.Ok? && r.value.1 == at && State(r.value.0, manager) == s
    {
      hide VeneerInstructions, MaxCode;
      if name in veneerMap {
        return Ok((instructions, veneerMap[name]));
      }
      if nextVeneerAddress == 0 {
        var m := HighestCode(instructions);
        nextVeneerAddress := Down16(m + 4 + 15);
      }
      var at := nextVeneerAddress;
      var v, words := CreateVeneer(name, target, at);
      nextVeneerAddress := nextVeneerAddress + VENEER_SIZE;
      veneers := veneers + [v];
      veneerMap := veneerMap[name := at];
      var ok := manager.DefineLabel(VeneerLabel(name), at);
      if !ok {
        return Err(DuplicateLabel(VeneerLabel(name)));
      }
      return Ok((instructions + words, at));
    }

    /** One relocation of pass 2. */
    method RelocateInstruction(instructions: seq<Instruction>, i: nat, manager: LabelManager, runtime: map<string, nat>)
      returns (r: Result<seq<Instruction>, LinkError>)
      requires i < |instructions|
      modifies this, manager
      ensures
        match RelocateOne(patch, runtime, old(State(instructions, manager)), i)
        case Err(e) => r == Err(e)
        case Ok(s) => r.Ok? && State(r.value, manager) == s
    {
      hide GetVeneer, Relocated;
      var instr := instructions[i];
      if instr.relocation == NoRelocation || instr.target == "" {
        return Ok(instructions);
      }
      var target;
      if instr.target in runtime {
        target := runtime[instr.target];
      } else if manager.IsLabelDefined(instr.target) {
        target := manager.definedLabels[instr.target];
      } else {
        return Err(UndefinedLabel(instr.target));
      }
      var out := instructions;
      if instr.relocation == PcRelative26 && !InRange(instr.address, target) {
        GetVeneerKeeps(State(instructions, manager), instr.target, target);
        var made := GetOrCreateVeneer(instr.target, target, instructions, manager);
        if made.Err? {
          return Err(made.error);
        }
        out, target := made.value.0, made.value.1;
      }
      return Ok(out[i := out[i].(encoding := Relocated(patch, instr, target))]);
    }

    /** Pass 2 over the vector as it grows: the veneers behind its end need no relocation themselves. */
    method PerformRelocations(instructions: seq<Instruction>, manager: LabelManager, runtime: map<string, nat>)
      returns (r: Result<seq<Instruction>, LinkError>)
      modifies this, manager
      ensures
        match Relocate(patch, runtime, old(State(instructions, manager)), |instructions|)
        case Err(e) => r == Err(e)
        case Ok(s) => r.Ok? && State(r.value, manager) == s
    {
      hide RelocateOne;
      ghost var (s0, n) := (State(instructions, manager), |instructions|);
      var out := instructions;
      var i := 0;
      while i < |out|
        invariant 0 <= i <= |out| && n <= |out|
        invariant Relocate(patch, runtime, s0, if i < n then i else n) == Ok(State(out, manager))
        invariant forall k :: n <= k < |out| ==> out[k].relocation == NoRelocation
        decreases if i < n then n - i else 0, |out| - i
      {
        if i < n {
          TailKept(patch, runtime, State(out, manager), i, n);
        } else {
          NothingToDo(patch, runtime, State(out, manager), i);
        }
        var next := RelocateInstruction(out, i, manager, runtime);
        if next.Err? {
          RelocateFailed(patch, runtime, s0, i + 1, n);
          return Err(next.error);
        }
        out := next.value;
        i := i + 1;
      }
      return Ok(out);
    }

    /** Addresses, then relocations. */
    method Process(stream: seq<Instruction>, manager: LabelManager, runtime: map<string, nat>, base: nat, dataBase: nat)
      returns (r: Result<seq<Instruction>, LinkError>)
      requires manager.definedLabels == map[] && veneerMap == map[] && nextVeneerAddress == 0 && veneers == []
      modifies this, manager
      ensures
        match Link(patch, runtime, stream, base, dataBase)
        case Err(e) => r == Err(e)
        case Ok(s) => r.Ok? && State(r.value, manager) == s
    {
      hide Place, Relocate;
      var placed := AssignAddresses(stream, manager, base, dataBase);
      if placed.Err? {
        return Err(placed.error);
      }
      r := PerformRelocations(placed.value, manager, runtime);
    }
  }

  lemma {:induction false} FailedEarly(stream: seq<Instruction>, start: Cursors, m: nat, n: nat)
    requires m <= n <= |stream| && Place(stream, start, m).Err?
    ensures Place(stream, start, n) == Place(stream, start, m)
    decreases n
  {
    if m < n { FailedEarly(stream, start, m, n - 1); }
  }

  lemma {:induction false} RelocateFailed(patch: Patcher, runtime: map<string, nat>, s: LinkState, m: nat, n: nat)
    requires m <= n <= |s.out| && Relocate(patch, runtime, s, m).Err?
    ensures Relocate(patch, runtime, s, n) == Relocate(patch, runtime, s, m)
    decreases n
  {
    hide RelocateOne;
    if m < n { RelocateFailed(patch, runtime, s, m, n - 1); }
  }

  lemma GetVeneerKeeps(s: LinkState, name: string, target: nat)
    ensures GetVeneer(s, name, target).Ok? ==> s.out <= GetVeneer(s, name, target).value.0.out
  {
    hide VeneerInstructions, NextVeneer;
  }

  lemma NothingToDo(patch: Patcher, runtime: map<string, nat>, s: LinkState, i: nat)
    requires i < |s.out| && s.out[i].relocation == NoRelocation
    ensures RelocateOne(patch, runtime, s, i) == Ok(s)
  {
  }

  /** What stands behind the original entries never needs a relocation. */
  lemma TailKept(patch: Patcher, runtime: map<string, nat>, s: LinkState, i: nat, n: nat)
    requires i < n <= |s.out| && forall k :: n <= k < |s.out| ==> s.out[k].relocation == NoRelocation
    ensures
      match RelocateOne(patch, runtime, s, i)
      case Err(_) => true
      case Ok(r) => n <= |r.out| && forall k :: n <= k < |r.out| ==> r.out[k].relocation == NoRelocation
  {
    hide Relocated, NextVeneer, VeneerWords, InRange;
  }
}
