/**
  The layout of a class: field offsets and vtable slots, computed along its chain of ancestors.
  `ClassPass` fills in the same layouts in place.
 */
module ClassLayout {
  import opened Wrappers

  datatype MethodInfo = MethodInfo(name: string, qualified: string, slot: nat, isVirtual: bool, isFinal: bool)

  /** A member of a class declaration: the variables of a LET, or a function or routine. */
  datatype Member = Variables(names: seq<string>) | Method(name: string, isVirtual: bool, isFinal: bool)

  datatype Entry = Entry(
    fields: map<string, nat>,
    methods: map<string, MethodInfo>,
    simple: map<string, MethodInfo>,
    vtable: seq<string>,
    size: nat)

  const EMPTY_ENTRY := Entry(map[], map[], map[], [], 0)

  const WORD: nat := 8

  // ----- names -----

  /** An identifier; in particular it holds no colon. */
  predicate Plain(s: string) {
    s != "" && forall i :: 0 <= i < |s| ==> s[i] != ':'
  }

  predicate IsQualified(s: string) {
    exists i :: 0 <= i < |s| - 1 && s[i] == ':' && s[i + 1] == ':'
  }

  /** A name counts as qualified if it has a double colon anywhere. */
  lemma QualifiedExactly(s: string)
    ensures IsQualified(s) <==> exists a: string, b: string :: s == a + "::" + b
  {
    if IsQualified(s) {
      var i :| 0 <= i < |s| - 1 && s[i] == ':' && s[i + 1] == ':';
      assert s == s[..i] + "::" + s[i + 2..];
    }
    if a: string, b: string :| s == a + "::" + b {
      assert s[|a|] == (a + "::")[|a|] == ':' && s[|a| + 1] == (a + "::")[|a| + 1] == ':';
    }
  }

  function Mangle(c: string, m: string): string {
    if IsQualified(m) then m else c + "::" + m
  }

  lemma PlainNotQualified(m: string)
    requires Plain(m)
    ensures !IsQualified(m)
  {
  }

  /** A qualified name tells its class and its method. */
  lemma MangleInjective(c: string, m: string, c': string, m': string)
    requires Plain(c) && Plain(m) && Plain(c') && Plain(m') && Mangle(c, m) == Mangle(c', m')
    ensures c == c' && m == m'
  {
    PlainNotQualified(m);
    PlainNotQualified(m');
    var q := c + "::" + m;
    assert q == c' + "::" + m';
    FirstColon(c, m);
    FirstColon(c', m');
    assert c == q[..|c|] == c' && m == q[|c| + 2..] == m';
  }

  /** The class part of a qualified name ends at the first colon. */
  lemma FirstColon(c: string, m: string)
    requires Plain(c)
    ensures var q := c + "::" + m; q[|c|] == ':' && forall i :: 0 <= i < |c| ==> q[i] != ':'
  {
  }

  // ----- adding members -----

  function AddVariable(e: Entry, name: string, offset: nat): Entry {
    var at := if offset < WORD then WORD else offset;
    e.(fields := e.fields[name := at], size := if at + WORD > e.size then at + WORD else e.size)
  }

  /** A field stands at its offset, behind the vtable pointer at least, and the object is just long enough for all of them. */
  lemma VariableFits(e: Entry, name: string, offset: nat)
    ensures
      var r := AddVariable(e, name, offset);
      && r == e.(fields := r.fields, size := r.size) && r.fields == e.fields[name := r.fields[name]]
      && r.fields[name] >= 8 && (offset >= 8 ==> r.fields[name] == offset)
      && e.size <= r.size && r.fields[name] + 8 <= r.size && (r.size == e.size || r.size == r.fields[name] + 8)
  {
  }

  /** Stores a method, and lets it take over the slot of the parent's method of the same name. */
  function AddMethod(e: Entry, parent: Option<Entry>, info: MethodInfo): Entry {
    if parent.Some? && info.name in parent.value.simple then
      var slot := parent.value.simple[info.name].slot;
      var placed := info.(slot := slot);
      e.(methods := e.methods[info.qualified := placed],
         simple := e.simple[info.name := placed],
         vtable := if |e.vtable| > slot then e.vtable[slot := info.qualified] else e.vtable)
    else
      e.(methods := e.methods[info.qualified := info], simple := e.simple[info.name := info])
  }

  predicate Reserved(m: string) {
    m == "CREATE" || m == "RELEASE"
  }

  /** CREATE and RELEASE have slots of their own, an override takes its parent's, anything else a new one. */
  function SlotFor(e: Entry, m: string): nat {
    if m == "CREATE" then 0 else if m == "RELEASE" then 1
    else if m in e.simple then e.simple[m].slot else |e.vtable|
  }

  function Place(vtable: seq<string>, slot: nat, q: string): seq<string> {
    if slot < |vtable| then vtable[slot := q] else vtable + [q]
  }

  predicate Rejected(e: Entry, m: string) {
    !Reserved(m) && m in e.simple && e.simple[m].isFinal
  }

  /** One method declaration of class c; an override of a final method is turned down. */
  function Process(e: Entry, parent: Option<Entry>, c: string, m: string, isVirtual: bool, isFinal: bool): Entry {
    if Rejected(e, m) then e
    else
      var q, slot := Mangle(c, m), SlotFor(e, m);
      AddMethod(e.(vtable := Place(e.vtable, slot, q)), parent, MethodInfo(m, q, slot, isVirtual, isFinal))
  }

  /** The variables of one LET: each new name takes the next word. */
  function AddVariables(e: Entry, offset: nat, names: seq<string>): (r: (Entry, nat))
    decreases |names|
  {
    if names == [] then (e, offset)
    else if names[0] in e.fields then AddVariables(e, offset, names[1..])
    else AddVariables(AddVariable(e, names[0], offset), offset + WORD, names[1..])
  }

  // ----- what holds of an entry at every step -----

  /** Slot 0 is CREATE's, slot 1 is RELEASE's, and no other method has one of them. */
  predicate SlotFits(m: string, slot: nat) {
    (slot == 0 <==> m == "CREATE") && (slot == 1 <==> m == "RELEASE")
  }

  /** The vtable is an index of the methods by slot: each name has a slot of its own, holding its qualified name. */
  ghost predicate Indexed(e: Entry) {
    && |e.vtable| >= 2
    && (forall m :: m in e.simple ==>
          && e.simple[m].name == m && e.simple[m].slot < |e.vtable| && SlotFits(m, e.simple[m].slot)
          && e.vtable[e.simple[m].slot] == e.simple[m].qualified)
    && (forall m, n :: m in e.simple && n in e.simple && m != n ==> e.simple[m].slot != e.simple[n].slot)
    && (forall i :: 0 <= i < |e.vtable| && (i >= 2 || e.vtable[i] != "") ==> Held(e, i))
  }

  ghost predicate Held(e: Entry, i: nat) {
    exists m :: m in e.simple && e.simple[m].slot == i
  }

  ghost predicate Owned(q: string, m: string) {
    Plain(m) && exists c :: Plain(c) && q == Mangle(c, m)
  }

  /** Every method is stored under its qualified name, and its simple name finds a method too. */
  ghost predicate Catalogued(e: Entry) {
    && (forall q :: q in e.methods ==> e.methods[q].qualified == q && Owned(q, e.methods[q].name) && e.methods[q].name in e.simple)
    && (forall m :: m in e.simple ==> Plain(m) && e.simple[m].name == m && Owned(e.simple[m].qualified, m))
  }

  /** What the class declares itself is what its simple names find. */
  ghost predicate OwnFirst(e: Entry, c: string) {
    forall q :: q in e.methods && q == Mangle(c, e.methods[q].name) ==> e.methods[q].name in e.simple && e.simple[e.methods[q].name] == e.methods[q]
  }

  /** A child's table starts with its parent's: same names, same slots, and no method forgotten. */
  ghost predicate Covers(parent: Entry, e: Entry) {
    && |parent.vtable| <= |e.vtable|
    && parent.methods.Keys <= e.methods.Keys
    && forall m :: m in parent.simple ==> m in e.simple && e.simple[m].slot == parent.simple[m].slot
  }

  ghost predicate Inherits(parent: Option<Entry>, e: Entry) {
    parent.Some? ==> Covers(parent.value, e)
  }

  ghost predicate Sane(e: Entry, parent: Option<Entry>, c: string) {
    Indexed(e) && Catalogued(e) && OwnFirst(e, c) && Inherits(parent, e)
  }

  /** What an accepted declaration leaves: the parent's slot is the one chosen already. */
  function Installed(e: Entry, info: MethodInfo): Entry {
    e.(vtable := Place(e.vtable, info.slot, info.qualified),
       methods := e.methods[info.qualified := info],
       simple := e.simple[info.name := info])
  }

  lemma ProcessInstalls(e: Entry, parent: Option<Entry>, c: string, m: string, isVirtual: bool, isFinal: bool)
    requires Indexed(e) && Inherits(parent, e) && !Rejected(e, m)
    ensures Process(e, parent, c, m, isVirtual, isFinal) == Installed(e, MethodInfo(m, Mangle(c, m), SlotFor(e, m), isVirtual, isFinal))
  {
    hide Mangle, Held;
    var q, slot := Mangle(c, m), SlotFor(e, m);
    if parent.Some? && m in parent.value.simple {
      assert e.simple[m].slot == parent.value.simple[m].slot == slot < |e.vtable|;
      assert Place(e.vtable, slot, q)[slot := q] == Place(e.vtable, slot, q);
    }
  }

  lemma SlotForFits(e: Entry, m: string)
    requires Indexed(e)
    ensures SlotFits(m, SlotFor(e, m)) && SlotFor(e, m) <= |e.vtable|
    ensures forall n :: n in e.simple && n != m ==> e.simple[n].slot != SlotFor(e, m)
    ensures m in e.simple ==> SlotFor(e, m) == e.simple[m].slot
  {
    hide Held;
  }

  lemma InstalledIndexed(e: Entry, info: MethodInfo)
    requires Indexed(e) && info.slot == SlotFor(e, info.name) && info.qualified != ""
    ensures Indexed(Installed(e, info))
  {
    hide SlotFor, SlotFits;
    SlotForFits(e, info.name);
    var r := Installed(e, info);
    forall i | 0 <= i < |r.vtable| && (i >= 2 || r.vtable[i] != "") ensures Held(r, i) {
      if i == info.slot {
        assert info.name in r.simple && r.simple[info.name].slot == i;
      } else {
        assert Held(e, i);
        var n :| n in e.simple && e.simple[n].slot == i;
        assert n in r.simple && r.simple[n].slot == i;
      }
    }
  }

  lemma InstalledCatalogued(e: Entry, parent: Option<Entry>, c: string, info: MethodInfo)
    requires Catalogued(e) && OwnFirst(e, c) && Inherits(parent, e) && Plain(c) && Plain(info.name)
    requires info.qualified == Mangle(c, info.name) && (info.name in e.simple ==> info.slot == e.simple[info.name].slot)
    ensures var r := Installed(e, info); Catalogued(r) && OwnFirst(r, c) && Inherits(parent, r)
  {
    hide Mangle, Plain;
    var r := Installed(e, info);
    assert Owned(info.qualified, info.name);
    forall k | k in r.methods && k == Mangle(c, r.methods[k].name)
      ensures r.methods[k].name in r.simple && r.simple[r.methods[k].name] == r.methods[k]
    {
      if k != info.qualified { assert e.methods[k] == r.methods[k]; }
    }
  }

  lemma ProcessSane(e: Entry, parent: Option<Entry>, c: string, m: string, isVirtual: bool, isFinal: bool)
    requires Sane(e, parent, c) && Plain(c) && Plain(m)
    ensures Sane(Process(e, parent, c, m, isVirtual, isFinal), parent, c)
  {
    hide Indexed, Catalogued, OwnFirst, Inherits, Place, Installed, SlotFor;
    if !Rejected(e, m) {
      var info := MethodInfo(m, Mangle(c, m), SlotFor(e, m), isVirtual, isFinal);
      PlainNotQualified(m);
      SlotForFits(e, m);
      ProcessInstalls(e, parent, c, m, isVirtual, isFinal);
      InstalledIndexed(e, info);
      InstalledCatalogued(e, parent, c, info);
    }
  }

  lemma {:induction false} VariablesKeepMethods(e: Entry, offset: nat, names: seq<string>)
    ensures var r := AddVariables(e, offset, names).0; r.methods == e.methods && r.simple == e.simple && r.vtable == e.vtable
    decreases |names|
  {
    if names != [] {
      if names[0] in e.fields { VariablesKeepMethods(e, offset, names[1..]); }
      else { VariablesKeepMethods(AddVariable(e, names[0], offset), offset + WORD, names[1..]); }
    }
  }

  /** A class's own members, in the order of declaration. */
  function ProcessMembers(e: Entry, offset: nat, parent: Option<Entry>, c: string, members: seq<Member>): (r: (Entry, nat))
    requires Sane(e, parent, c) && Plain(c) && WellNamed(members)
    ensures Sane(r.0, parent, c)
    decreases |members|
  {
    if members == [] then (e, offset)
    else
      match members[0]
      case Variables(names) =>
        var (e1, offset1) := AddVariables(e, offset, names);
        VariablesKeepMethods(e, offset, names);
        SaneSame(e, e1, parent, c);
        ProcessMembers(e1, offset1, parent, c, members[1..])
      case Method(m, isVirtual, isFinal) =>
        ProcessSane(e, parent, c, m, isVirtual, isFinal);
        ProcessMembers(Process(e, parent, c, m, isVirtual, isFinal), offset, parent, c, members[1..])
  }

  lemma SaneSame(e: Entry, r: Entry, parent: Option<Entry>, c: string)
    requires Sane(e, parent, c) && r.methods == e.methods && r.simple == e.simple && r.vtable == e.vtable
    ensures Sane(r, parent, c)
  {
    assert forall i :: Held(e, i) ==> Held(r, i);
  }

  predicate WellNamed(members: seq<Member>) {
    forall i :: 0 <= i < |members| && members[i].Method? ==> Plain(members[i].name)
  }

  // ----- one class -----

  /** The class starts with all its parent has, and with two reserved slots. */
  function Seed(parent: Option<Entry>): Entry {
    var e := if parent.Some? then parent.value.(size := 0) else EMPTY_ENTRY;
    if |e.vtable| >= 2 then e else e.(vtable := e.vtable + seq(2 - |e.vtable|, _ => ""))
  }

  /** The names an ancestor made up are not this class's. */
  ghost predicate Foreign(e: Entry, c: string) {
    forall q :: q in e.methods ==> q != Mangle(c, e.methods[q].name)
  }

  ghost predicate Finished(e: Entry) {
    Indexed(e) && Catalogued(e) && e.vtable[0] != "" && e.vtable[1] != ""
  }

  lemma SeedSane(parent: Option<Entry>, c: string)
    requires parent.Some? ==> Finished(parent.value) && Foreign(parent.value, c)
    ensures Sane(Seed(parent), parent, c)
  {
    if parent.Some? {
      SaneSeed(parent.value, Seed(parent));
    }
  }

  lemma SaneSeed(parent: Entry, e: Entry)
    requires Finished(parent) && e == parent.(size := 0)
    ensures Indexed(e) && Catalogued(e)
  {
    assert forall i :: Held(parent, i) ==> Held(e, i);
  }

  /** A default CREATE or RELEASE for a class that neither declares nor inherits one. */
  function Synthesize(e: Entry, parent: Option<Entry>, c: string, slot: nat, m: string): Entry
    requires slot < |e.vtable|
  {
    if e.vtable[slot] == "" then Process(e, parent, c, m, false, false) else e
  }

  lemma SynthesizeSane(e: Entry, parent: Option<Entry>, c: string, slot: nat, m: string)
    requires Sane(e, parent, c) && Plain(c) && ((slot == 0 && m == "CREATE") || (slot == 1 && m == "RELEASE"))
    ensures
      var r := Synthesize(e, parent, c, slot, m);
      Sane(r, parent, c) && r.vtable[slot] != "" && r.fields == e.fields && forall i :: 0 <= i < 2 && e.vtable[i] != "" ==> r.vtable[i] != ""
  {
    hide Indexed, Catalogued, OwnFirst, Inherits;
    assert Plain(m);
    ProcessSane(e, parent, c, m, false, false);
    SaneSlots(e, parent, c);
    if e.vtable[slot] == "" {
      ProcessFills(e, parent, c, m);
    }
  }

  lemma ProcessFills(e: Entry, parent: Option<Entry>, c: string, m: string)
    requires Indexed(e) && Inherits(parent, e) && Reserved(m) && Plain(m)
    ensures
      var r := Process(e, parent, c, m, false, false);
      r.vtable == e.vtable[SlotFor(e, m) := Mangle(c, m)] && r.fields == e.fields && Mangle(c, m) != ""
  {
    PlainNotQualified(m);
    ProcessInstalls(e, parent, c, m, false, false);
  }

  /** The finished layout of class c under its parent's. */
  function Derive(parent: Option<Entry>, c: string, members: seq<Member>): (r: Entry)
    requires (parent.Some? ==> Finished(parent.value) && Foreign(parent.value, c)) && Plain(c) && WellNamed(members)
    ensures Finished(r) && OwnFirst(r, c) && Inherits(parent, r)
  {
    hide Indexed, Catalogued, OwnFirst, Inherits, Seed, Synthesize;
    SeedSane(parent, c);
    var (e1, size) := ProcessMembers(Seed(parent), if parent.Some? then parent.value.size else WORD, parent, c, members);
    SaneSlots(e1, parent, c);
    SynthesizeSane(e1, parent, c, 0, "CREATE");
    var e2 := Synthesize(e1, parent, c, 0, "CREATE");
    SaneSlots(e2, parent, c);
    SynthesizeSane(e2, parent, c, 1, "RELEASE");
    var e3 := Synthesize(e2, parent, c, 1, "RELEASE");
    SaneSame(e3, e3.(size := size), parent, c);
    e3.(size := size)
  }

  lemma SaneSlots(e: Entry, parent: Option<Entry>, c: string)
    requires Sane(e, parent, c)
    ensures |e.vtable| >= 2
  {
  }

  // ----- the inheritance forest -----

  /** What is declared: the parent of every class ("" for none) and its members. */
  datatype Classes = Classes(parents: map<string, string>, members: map<string, seq<Member>>)

  predicate WellDeclared(d: Classes) {
    && d.parents.Keys == d.members.Keys
    && forall c :: c in d.members ==> Plain(c) && WellNamed(d.members[c])
  }

  /** A class followed by its ancestors, up to one without a parent. */
  predicate IsChain(d: Classes, chain: seq<string>) {
    && chain != [] && (forall i :: 0 <= i < |chain| ==> chain[i] in d.parents && chain[i] in d.members)
    && (forall i :: 0 <= i < |chain| - 1 ==> d.parents[chain[i]] == chain[i + 1])
    && d.parents[chain[|chain| - 1]] == ""
  }

  lemma ChainTail(d: Classes, chain: seq<string>)
    requires IsChain(d, chain) && |chain| > 1
    ensures IsChain(d, chain[1..])
  {
  }

  lemma RootAlone(d: Classes, chain: seq<string>)
    requires WellDeclared(d) && IsChain(d, chain)
    ensures d.parents[chain[0]] == "" <==> |chain| == 1
  {
    assert !Plain("");
    assert |chain| > 1 ==> chain[0 + 1] != "";
  }

  lemma {:induction false} ChainUnique(d: Classes, a: seq<string>, b: seq<string>)
    requires WellDeclared(d) && IsChain(d, a) && IsChain(d, b) && a[0] == b[0]
    ensures a == b
    decreases |a|
  {
    if |a| > 1 && |b| > 1 {
      ChainTail(d, a);
      ChainTail(d, b);
      assert a[1] == b[1];
      ChainUnique(d, a[1..], b[1..]);
      assert a == [a[0]] + a[1..] && b == [b[0]] + b[1..];
    } else {
      RootAlone(d, a);
      RootAlone(d, b);
      assert a == [a[0]] && b == [b[0]];
    }
  }

  /** A chain passes no class twice. */
  lemma ChainDistinct(d: Classes, chain: seq<string>, k: nat)
    requires WellDeclared(d) && IsChain(d, chain) && 0 < k < |chain|
    ensures chain[k] != chain[0]
  {
    if chain[k] == chain[0] {
      ChainSuffix(d, chain, k);
      ChainUnique(d, chain, chain[k..]);
    }
  }

  lemma ChainSuffix(d: Classes, chain: seq<string>, k: nat)
    requires IsChain(d, chain) && k < |chain|
    ensures IsChain(d, chain[k..])
  {
  }

  /** The methods of a chain's layout are all owned by its classes. */
  ghost predicate OwnedWithin(e: Entry, chain: seq<string>) {
    forall q :: q in e.methods ==> exists i :: 0 <= i < |chain| && q == Mangle(chain[i], e.methods[q].name)
  }

  /** The layout of the first class of a chain. */
  ghost function Layout(d: Classes, chain: seq<string>): (r: Entry)
    requires WellDeclared(d) && IsChain(d, chain)
    ensures Finished(r) && OwnFirst(r, chain[0]) && OwnedWithin(r, chain)
    decreases |chain|
  {
    hide Finished, OwnFirst, Derive, OwnedWithin;
    var c := chain[0];
    if |chain| == 1 then
      DeriveOwned(None, c, d.members[c], chain);
      Derive(None, c, d.members[c])
    else
      ChainTail(d, chain);
      var up := Layout(d, chain[1..]);
      OwnedForeign(d, chain, up);
      DeriveOwned(Some(up), c, d.members[c], chain);
      Derive(Some(up), c, d.members[c])
  }

  ghost predicate OwnOrUp(e: Entry, parent: Option<Entry>, c: string) {
    forall q :: q in e.methods ==>
      q == Mangle(c, e.methods[q].name) || (parent.Some? && q in parent.value.methods && parent.value.methods[q].name == e.methods[q].name)
  }

  lemma ProcessOwned(e: Entry, parent: Option<Entry>, c: string, m: string, isVirtual: bool, isFinal: bool)
    requires Indexed(e) && Inherits(parent, e) && OwnOrUp(e, parent, c)
    ensures OwnOrUp(Process(e, parent, c, m, isVirtual, isFinal), parent, c)
  {
    hide Indexed, Inherits, Mangle;
    if !Rejected(e, m) { ProcessInstalls(e, parent, c, m, isVirtual, isFinal); }
  }

  lemma {:induction false} MembersOwned(e: Entry, offset: nat, parent: Option<Entry>, c: string, members: seq<Member>)
    requires Sane(e, parent, c) && Plain(c) && WellNamed(members) && OwnOrUp(e, parent, c)
    ensures OwnOrUp(ProcessMembers(e, offset, parent, c, members).0, parent, c)
    decreases |members|
  {
    hide Indexed, Catalogued, OwnFirst, Inherits, Process;
    if members != [] {
      match members[0]
      case Variables(names) =>
        var (e1, offset1) := AddVariables(e, offset, names);
        VariablesKeepMethods(e, offset, names);
        SaneSame(e, e1, parent, c);
        MembersOwned(e1, offset1, parent, c, members[1..]);
      case Method(m, isVirtual, isFinal) =>
        ProcessSane(e, parent, c, m, isVirtual, isFinal);
        ProcessOwned(e, parent, c, m, isVirtual, isFinal);
        MembersOwned(Process(e, parent, c, m, isVirtual, isFinal), offset, parent, c, members[1..]);
    }
  }

  /** A method of a derived class belongs to it or to one of its ancestors. */
  lemma DeriveOwned(parent: Option<Entry>, c: string, members: seq<Member>, chain: seq<string>)
    requires (parent.Some? ==> Finished(parent.value) && Foreign(parent.value, c)) && Plain(c) && WellNamed(members)
    requires chain != [] && chain[0] == c && (parent.Some? ==> OwnedWithin(parent.value, chain[1..]))
    ensures OwnedWithin(Derive(parent, c, members), chain)
  {
    hide Indexed, Catalogued, OwnFirst, Inherits, Process, ProcessMembers;
    SeedSane(parent, c);
    var (e1, size) := ProcessMembers(Seed(parent), if parent.Some? then parent.value.size else WORD, parent, c, members);
    MembersOwned(Seed(parent), if parent.Some? then parent.value.size else WORD, parent, c, members);
    SaneSlots(e1, parent, c);
    SynthesizeSane(e1, parent, c, 0, "CREATE");
    ProcessOwned(e1, parent, c, "CREATE", false, false);
    var e2 := Synthesize(e1, parent, c, 0, "CREATE");
    SaneSlots(e2, parent, c);
    ProcessOwned(e2, parent, c, "RELEASE", false, false);
    var r := Derive(parent, c, members);
    assert OwnOrUp(r, parent, c);
    OwnOrUpWithin(r, parent, chain);
  }

  lemma OwnOrUpWithin(e: Entry, parent: Option<Entry>, chain: seq<string>)
    requires chain != [] && OwnOrUp(e, parent, chain[0]) && (parent.Some? ==> OwnedWithin(parent.value, chain[1..]))
    ensures OwnedWithin(e, chain)
  {
    hide Mangle;
    forall q | q in e.methods ensures exists i :: 0 <= i < |chain| && q == Mangle(chain[i], e.methods[q].name) {
      if q == Mangle(chain[0], e.methods[q].name) {
      } else {
        var i :| 0 <= i < |chain[1..]| && q == Mangle(chain[1..][i], parent.value.methods[q].name);
        assert q == Mangle(chain[i + 1], e.methods[q].name);
      }
    }
  }

  lemma OwnedForeign(d: Classes, chain: seq<string>, up: Entry)
    requires WellDeclared(d) && IsChain(d, chain) && |chain| > 1 && Finished(up) && OwnedWithin(up, chain[1..])
    ensures Foreign(up, chain[0])
  {
    hide Mangle, Plain, Indexed;
    forall q | q in up.methods ensures q != Mangle(chain[0], up.methods[q].name) {
      var m := up.methods[q].name;
      assert Owned(q, m);
      var i :| 0 <= i < |chain[1..]| && q == Mangle(chain[1..][i], m);
      ChainDistinct(d, chain, i + 1);
      if q == Mangle(chain[0], m) { MangleInjective(chain[0], m, chain[i + 1], m); }
    }
  }
}
