/** What linking guarantees: every word patched with the address it names, and veneers that fit. */
module LinkingTheorems {
  import opened Wrappers
  import opened Linking

  // ----- every word is patched with its own target -----

  predicate SameButWord(a: Instruction, b: Instruction) {
    b == a.(encoding := b.encoding)
  }

  /** Where a branch goes: to its target, or to the target's veneer when that is out of range. */
  function BranchTarget(instr: Instruction, target: nat, addresses: map<string, nat>): nat {
    if instr.relocation == PcRelative26 && !InRange(instr.address, target) && instr.target in addresses
    then addresses[instr.target] else target
  }

  /** What relocating entry i makes of it: its target is resolved, veneers' labels included. */
  ghost predicate Settled(patch: Patcher, runtime: map<string, nat>, s: LinkState, r: LinkState, i: nat)
    requires i < |s.out| <= |r.out|
  {
    var instr := s.out[i];
    && SameButWord(instr, r.out[i])
    && (instr.relocation == NoRelocation || instr.target == "" ==> r.out[i] == instr)
    && (instr.relocation != NoRelocation && instr.target != "" ==>
          match Resolve(instr.target, runtime, r.labels)
          case None => false
          case Some(target) =>
            && r.out[i].encoding == Relocated(patch, instr, BranchTarget(instr, target, r.addresses))
            && (instr.relocation == PcRelative26 && !InRange(instr.address, target) ==> instr.target in r.addresses))
  }

  ghost predicate Grown(s: LinkState, r: LinkState) {
    && |s.out| <= |r.out|
    && (forall name :: name in s.labels ==> name in r.labels && r.labels[name] == s.labels[name])
    && (forall name :: name in s.addresses ==> name in r.addresses && r.addresses[name] == s.addresses[name])
  }

  lemma GetVeneerGrown(s: LinkState, name: string, target: nat)
    requires GetVeneer(s, name, target).Ok?
    ensures
      var (r, at) := GetVeneer(s, name, target).value;
      Grown(s, r) && s.out <= r.out && name in r.addresses && r.addresses[name] == at
  {
    hide VeneerInstructions, NextVeneer;
  }

  /** One step touches its own entry and what lies behind the original entries. */
  lemma RelocateOneFrame(patch: Patcher, runtime: map<string, nat>, s: LinkState, i: nat)
    requires i < |s.out| && RelocateOne(patch, runtime, s, i).Ok?
    ensures
      var r := RelocateOne(patch, runtime, s, i).value;
      Grown(s, r) && Settled(patch, runtime, s, r, i) && forall k :: 0 <= k < |s.out| && k != i ==> r.out[k] == s.out[k]
  {
    hide GetVeneer, Relocated, InRange;
    var instr := s.out[i];
    if instr.relocation != NoRelocation && instr.target != "" {
      var target := Resolve(instr.target, runtime, s.labels).value;
      if instr.relocation == PcRelative26 && !InRange(instr.address, target) {
        GetVeneerGrown(s, instr.target, target);
      }
    }
  }

  /** A resolved target stays what it is while veneers are added. */
  lemma SettledLater(patch: Patcher, runtime: map<string, nat>, s: LinkState, r: LinkState, t: LinkState, i: nat)
    requires i < |s.out| <= |r.out| && Settled(patch, runtime, s, r, i) && Grown(r, t) && t.out[i] == r.out[i]
    ensures Settled(patch, runtime, s, t, i)
  {
    hide Relocated, InRange;
  }

  lemma SettledEarlier(patch: Patcher, runtime: map<string, nat>, s: LinkState, r: LinkState, t: LinkState, i: nat)
    requires i < |s.out| <= |r.out| && Grown(s, r) && r.out[i] == s.out[i] && |r.out| <= |t.out| && Settled(patch, runtime, r, t, i)
    ensures Settled(patch, runtime, s, t, i)
  {
    hide Relocated, InRange;
  }

  lemma GrownTrans(s: LinkState, r: LinkState, t: LinkState)
    requires Grown(s, r) && Grown(r, t)
    ensures Grown(s, t)
  {
  }

  lemma {:induction false} RelocateSettles(patch: Patcher, runtime: map<string, nat>, s: LinkState, n: nat)
    requires n <= |s.out| && Relocate(patch, runtime, s, n).Ok?
    ensures
      var r := Relocate(patch, runtime, s, n).value;
      && Grown(s, r)
      && (forall i :: 0 <= i < n ==> Settled(patch, runtime, s, r, i))
      && (forall i :: n <= i < |s.out| ==> r.out[i] == s.out[i])
    decreases n
  {
    hide Settled, RelocateOne, Grown;
    if n == 0 {
      GrownSelf(s);
    } else {
      RelocateSettles(patch, runtime, s, n - 1);
      var r := Relocate(patch, runtime, s, n - 1).value;
      var t := Relocate(patch, runtime, s, n).value;
      RelocateOneFrame(patch, runtime, r, n - 1);
      GrownTrans(s, r, t);
      forall i | 0 <= i < n ensures Settled(patch, runtime, s, t, i) {
        if i == n - 1 {
          SettledEarlier(patch, runtime, s, r, t, i);
        } else {
          SettledLater(patch, runtime, s, r, t, i);
        }
      }
    }
  }

  lemma GrownSelf(s: LinkState)
    ensures Grown(s, s)
  {
  }

  // ----- veneers -----

  function FirstVeneer(out: seq<Instruction>): (a: nat)
    ensures a % 16 == 0 && forall i :: 0 <= i < |out| && out[i].segment == Code ==> out[i].address + 4 <= a
  {
    Down16(MaxCode(out, |out|) + 4 + 15)
  }

  /** The veneers so far: one per name, back to back from the first address above all code, each with its words. */
  ghost predicate Arranged(s: LinkState, r: LinkState) {
    && |r.out| == |s.out| + 5 * |r.veneers|
    && (forall i :: 0 <= i < |s.out| ==> SameButWord(s.out[i], r.out[i]))
    && (forall k :: 0 <= k < |r.veneers| ==> r.veneers[k].address == FirstVeneer(s.out) + VENEER_SIZE * k)
    && (forall j, k :: 0 <= j < k < |r.veneers| ==> r.veneers[j].name != r.veneers[k].name)
    && (forall k :: 0 <= k < |r.veneers| ==> r.veneers[k].name in r.addresses && r.addresses[r.veneers[k].name] == r.veneers[k].address)
    && (forall name :: name in r.addresses ==> Veneered(r.veneers, name))
    && (forall k :: 0 <= k < |r.veneers| ==> WordsAt(r.out, |s.out| + 5 * k, r.veneers[k]))
    && r.next == if r.veneers == [] then 0 else FirstVeneer(s.out) + VENEER_SIZE * |r.veneers|
  }

  ghost predicate Veneered(veneers: seq<Veneer>, name: string) {
    exists k :: 0 <= k < |veneers| && veneers[k].name == name
  }

  ghost predicate WordsAt(out: seq<Instruction>, at: nat, v: Veneer) {
    at + 5 <= |out| && out[at..at + 5] == VeneerInstructions(v)
  }

  lemma {:induction false} MaxCodeSame(a: seq<Instruction>, b: seq<Instruction>, n: nat)
    requires n <= |a| && n <= |b| && forall i :: 0 <= i < n ==> SameButWord(a[i], b[i])
    ensures MaxCode(a, n) == MaxCode(b, n)
    decreases n
  {
    if n > 0 { MaxCodeSame(a, b, n - 1); }
  }

  lemma ArrangedPatched(s: LinkState, r: LinkState, i: nat, encoding: nat)
    requires Arranged(s, r) && i < |s.out|
    ensures Arranged(s, Patched(r, i, encoding))
  {
    hide VeneerInstructions, FirstVeneer;
    var t := Patched(r, i, encoding);
    forall k | 0 <= k < |t.veneers| ensures WordsAt(t.out, |s.out| + 5 * k, t.veneers[k]) {
      assert WordsAt(r.out, |s.out| + 5 * k, r.veneers[k]);
      assert t.out[|s.out| + 5 * k..|s.out| + 5 * k + 5] == r.out[|s.out| + 5 * k..|s.out| + 5 * k + 5];
    }
  }

  lemma ArrangedVeneer(s: LinkState, r: LinkState, name: string, target: nat)
    requires Arranged(s, r) && GetVeneer(r, name, target).Ok?
    ensures Arranged(s, GetVeneer(r, name, target).value.0)
  {
    hide VeneerInstructions, FirstVeneer, MaxCode, WordsAt, Veneered, NextVeneer;
    if name !in r.addresses {
      NextIsFirst(s, r);
      var v := Veneer(name, target, NextVeneer(r));
      NoVeneer(r, name);
      var t := GetVeneer(r, name, target).value.0;
      VeneeredMore(r.veneers, v);
      forall k | 0 <= k < |t.veneers| ensures WordsAt(t.out, |s.out| + 5 * k, t.veneers[k]) {
        WordsMore(r.out, |s.out| + 5 * k, t.veneers[k], v);
      }
    }
  }

  lemma VeneeredMore(veneers: seq<Veneer>, v: Veneer)
    ensures forall x :: Veneered(veneers, x) || x == v.name ==> Veneered(veneers + [v], x)
  {
    var more := veneers + [v];
    forall x | Veneered(veneers, x) || x == v.name ensures Veneered(more, x) {
      if x == v.name {
        assert more[|veneers|].name == x;
      } else {
        var k :| 0 <= k < |veneers| && veneers[k].name == x;
        assert more[k].name == x;
      }
    }
  }

  /** Words stay where they are when another veneer is appended, and the new one's come last. */
  lemma WordsMore(out: seq<Instruction>, at: nat, w: Veneer, v: Veneer)
    requires WordsAt(out, at, w) || (at == |out| && w == v)
    ensures WordsAt(out + VeneerInstructions(v), at, w)
  {
    hide VeneerInstructions;
    var more := out + VeneerInstructions(v);
    if WordsAt(out, at, w) {
      assert more[at..at + 5] == out[at..at + 5];
    } else {
      assert more[at..at + 5] == VeneerInstructions(v);
    }
  }

  lemma NoVeneer(r: LinkState, name: string)
    requires name !in r.addresses && forall k :: 0 <= k < |r.veneers| ==> r.veneers[k].name in r.addresses
    ensures forall k :: 0 <= k < |r.veneers| ==> r.veneers[k].name != name
  {
  }

  lemma NextIsFirst(s: LinkState, r: LinkState)
    requires Arranged(s, r)
    ensures NextVeneer(r) == FirstVeneer(s.out) + VENEER_SIZE * |r.veneers|
  {
    if r.veneers == [] {
      MaxCodeSame(s.out, r.out, |s.out|);
    }
  }

  lemma {:induction false} RelocateArranges(patch: Patcher, runtime: map<string, nat>, s: LinkState, n: nat)
    requires n <= |s.out| && Relocate(patch, runtime, s, n).Ok? && s.veneers == [] && s.addresses == map[] && s.next == 0
    ensures Arranged(s, Relocate(patch, runtime, s, n).value)
    decreases n
  {
    hide Arranged, GetVeneer, Relocated, Patched, InRange;
    if n == 0 {
      ArrangedStart(s);
    } else {
      RelocateArranges(patch, runtime, s, n - 1);
      ArrangedStep(patch, runtime, s, Relocate(patch, runtime, s, n - 1).value, n - 1);
    }
  }

  lemma ArrangedStart(s: LinkState)
    requires s.veneers == [] && s.addresses == map[] && s.next == 0
    ensures Arranged(s, s)
  {
  }

  lemma ArrangedStep(patch: Patcher, runtime: map<string, nat>, s: LinkState, r: LinkState, i: nat)
    requires Arranged(s, r) && i < |s.out| <= |r.out| && RelocateOne(patch, runtime, r, i).Ok?
    ensures Arranged(s, RelocateOne(patch, runtime, r, i).value)
  {
    hide Arranged, GetVeneer, Relocated, Patched, InRange;
    var instr := r.out[i];
    if instr.relocation != NoRelocation && instr.target != "" {
      var target := Resolve(instr.target, runtime, r.labels).value;
      if instr.relocation == PcRelative26 && !InRange(instr.address, target) {
        ArrangedVeneer(s, r, instr.target, target);
        GetVeneerGrown(r, instr.target, target);
        var (r1, at) := GetVeneer(r, instr.target, target).value;
        ArrangedPatched(s, r1, i, Relocated(patch, instr, at));
      } else {
        ArrangedPatched(s, r, i, Relocated(patch, instr, target));
      }
    }
  }

  // ----- what veneers lead to -----

  /** Every veneer is for what its name resolves to. */
  ghost predicate Aimed(runtime: map<string, nat>, r: LinkState) {
    forall k :: 0 <= k < |r.veneers| ==>
      var v := r.veneers[k];
      && Resolve(v.name, runtime, r.labels) == Some(v.target)
      && "__veneer_" + v.name in r.labels && r.labels["__veneer_" + v.name] == v.address
  }

  lemma AimedStep(patch: Patcher, runtime: map<string, nat>, r: LinkState, i: nat)
    requires Aimed(runtime, r) && i < |r.out| && RelocateOne(patch, runtime, r, i).Ok?
    ensures Aimed(runtime, RelocateOne(patch, runtime, r, i).value)
  {
    hide Relocated, InRange, NextVeneer, VeneerInstructions;
    RelocateOneFrame(patch, runtime, r, i);
  }

  lemma {:induction false} RelocateAims(patch: Patcher, runtime: map<string, nat>, s: LinkState, n: nat)
    requires n <= |s.out| && Relocate(patch, runtime, s, n).Ok? && s.veneers == []
    ensures Aimed(runtime, Relocate(patch, runtime, s, n).value)
    decreases n
  {
    hide RelocateOne;
    if n > 0 {
      RelocateAims(patch, runtime, s, n - 1);
      AimedStep(patch, runtime, Relocate(patch, runtime, s, n - 1).value, n - 1);
    }
  }

  // ----- a whole link -----

  /** What both passes make of a stream. */
  lemma LinkResult(patch: Patcher, runtime: map<string, nat>, stream: seq<Instruction>, base: nat, dataBase: nat) returns (p: Placement, s: LinkState)
    requires Link(patch, runtime, stream, base, dataBase).Ok?
    ensures PlacedAt(stream, Start(stream, base, dataBase), |stream|, p) && s == LinkState(p.out, p.labels, map[], 0, []) && |p.out| == |stream|
    ensures
      var r := Link(patch, runtime, stream, base, dataBase).value;
      Grown(s, r) && Arranged(s, r) && Aimed(runtime, r) && forall i :: 0 <= i < |stream| ==> Settled(patch, runtime, s, r, i)
  {
    hide Settled, Arranged, Aimed, Grown, PlacedAt;
    PlaceResult(stream, Start(stream, base, dataBase), |stream|);
    p := Place(stream, Start(stream, base, dataBase), |stream|).value;
    PlacedLength(stream, Start(stream, base, dataBase), p);
    s := LinkState(p.out, p.labels, map[], 0, []);
    RelocateSettles(patch, runtime, s, |p.out|);
    RelocateArranges(patch, runtime, s, |p.out|);
    RelocateAims(patch, runtime, s, |p.out|);
  }

  lemma PlacedLength(stream: seq<Instruction>, start: Cursors, p: Placement)
    requires PlacedAt(stream, start, |stream|, p)
    ensures |p.out| == |stream|
  {
  }

  const SAFE_VENEERS: nat := 818

  /** Veneers lie above all code, apart from each other, and the first 818 end before the read-only data. */
  lemma VeneersFit(patch: Patcher, runtime: map<string, nat>, stream: seq<Instruction>, base: nat, dataBase: nat, k: nat)
    requires Link(patch, runtime, stream, base, dataBase).Ok? && PureLabels(stream)
    requires forall i :: 0 <= i < |stream| ==> stream[i].address == 0
    requires k < |Link(patch, runtime, stream, base, dataBase).value.veneers|
    ensures
      var r := Link(patch, runtime, stream, base, dataBase).value;
      var v := r.veneers[k];
      && |r.out| == |stream| + 5 * |r.veneers| && r.out[|stream| + 5 * k..|stream| + 5 * k + 5] == VeneerInstructions(v)
      && v.address == r.veneers[0].address + VENEER_SIZE * k && r.veneers[0].address % 16 == 0
      && (forall i :: 0 <= i < |stream| && stream[i].segment == Code ==> r.out[i].address + 4 <= v.address)
      && (k < SAFE_VENEERS ==> v.address + VENEER_SIZE <= RodataStart(base, CodeSize(stream, |stream|)))
  {
    hide Settled, Grown, Aimed, VeneerInstructions, PlacedAt;
    var p, s := LinkResult(patch, runtime, stream, base, dataBase);
    var r := Link(patch, runtime, stream, base, dataBase).value;
    hide Link, CodeSize;
    MaxCodeBelow(stream, base, dataBase, p);
    ArrangedVeneerAt(s, r, k);
    assert FirstVeneer(s.out) <= MaxCode(p.out, |p.out|) + 19;
    hide MaxCode, FirstVeneer;
    forall i | 0 <= i < |stream| && stream[i].segment == Code ensures r.out[i].address + 4 <= r.veneers[k].address {
      PlacedWord(stream, Start(stream, base, dataBase), |stream|, p, i);
      assert SameButWord(s.out[i], r.out[i]);
    }
  }

  /** The last veneer ends little more behind the code than the veneers are long. */
  lemma VeneersNear(patch: Patcher, runtime: map<string, nat>, stream: seq<Instruction>, base: nat, dataBase: nat, k: nat)
    requires Link(patch, runtime, stream, base, dataBase).Ok? && PureLabels(stream)
    requires forall i :: 0 <= i < |stream| ==> stream[i].address == 0
    requires k < |Link(patch, runtime, stream, base, dataBase).value.veneers|
    ensures
      Link(patch, runtime, stream, base, dataBase).value.veneers[k].address
        <= base + CodeSize(stream, |stream|) + 19 + VENEER_SIZE * k
  {
    hide Settled, Grown, Aimed, VeneerInstructions, PlacedAt, Arranged, Link, CodeSize;
    var p, s := LinkResult(patch, runtime, stream, base, dataBase);
    MaxCodeBelow(stream, base, dataBase, p);
    ArrangedVeneerAt(s, Link(patch, runtime, stream, base, dataBase).value, k);
  }

  lemma ArrangedVeneerAt(s: LinkState, r: LinkState, k: nat)
    requires Arranged(s, r) && k < |r.veneers|
    ensures |r.out| == |s.out| + 5 * |r.veneers| && r.out[|s.out| + 5 * k..|s.out| + 5 * k + 5] == VeneerInstructions(r.veneers[k])
    ensures r.veneers[k].address == FirstVeneer(s.out) + VENEER_SIZE * k && r.veneers[0].address == FirstVeneer(s.out)
    ensures forall i :: 0 <= i < |s.out| ==> SameButWord(s.out[i], r.out[i])
  {
    hide VeneerInstructions, FirstVeneer;
    assert WordsAt(r.out, |s.out| + 5 * k, r.veneers[k]);
  }

  lemma CodeWordBelow(stream: seq<Instruction>, base: nat, dataBase: nat, p: Placement, i: nat)
    requires PureLabels(stream) && PlacedAt(stream, Start(stream, base, dataBase), |stream|, p) && i < |stream| && stream[i].address == 0
    ensures |p.out| == |stream|
    ensures p.out[i].segment == Code ==> p.out[i].address == 0 || p.out[i].address + 4 <= base + CodeSize(stream, |stream|)
  {
    PlacedWord(stream, Start(stream, base, dataBase), |stream|, p, i);
    hide PlacedAt, CodeSize;
    if InSegment(stream[i], Code) { CodeBelow(stream, i); }
  }

  lemma {:induction false} MaxBounded(out: seq<Instruction>, n: nat, end: nat)
    requires n <= |out|
    requires forall i :: 0 <= i < n && out[i].segment == Code ==> out[i].address == 0 || out[i].address + 4 <= end
    ensures MaxCode(out, n) == 0 || MaxCode(out, n) + 4 <= end
    decreases n
  {
    if n > 0 { MaxBounded(out, n - 1, end); }
  }

  lemma MaxCodeBelow(stream: seq<Instruction>, base: nat, dataBase: nat, p: Placement)
    requires PureLabels(stream) && PlacedAt(stream, Start(stream, base, dataBase), |stream|, p)
    requires forall i :: 0 <= i < |stream| ==> stream[i].address == 0
    ensures |p.out| == |stream|
    ensures MaxCode(p.out, |p.out|) == 0 || MaxCode(p.out, |p.out|) + 4 <= base + CodeSize(stream, |stream|)
  {
    PlacedLength(stream, Start(stream, base, dataBase), p);
    var end := base + CodeSize(stream, |stream|);
    forall i | 0 <= i < |stream| && p.out[i].segment == Code ensures p.out[i].address == 0 || p.out[i].address + 4 <= end {
      CodeWordBelow(stream, base, dataBase, p, i);
    }
    MaxBounded(p.out, |p.out|, end);
  }
}
