/** The pass that fills in the class table in place, one class after its parent. */
module ClassFinalization {
  import opened Wrappers
  import opened ClassLayout
  import opened ClassChecks

  predicate EndsWith(s: string, suffix: string) {
    |suffix| <= |s| && s[|s| - |suffix|..] == suffix
  }

  /**
    What a lookup may return along a chain of entries: by simple name, by qualified name, by any
    qualified name that ends in the name, or else from the parent.
   */
  ghost predicate Finds(es: seq<Entry>, name: string, r: Option<MethodInfo>)
    requires es != []
    decreases |es|
  {
    if name in es[0].simple then r == Some(es[0].simple[name])
    else if name in es[0].methods then r == Some(es[0].methods[name])
    else
      || (exists q :: q in es[0].methods && EndsWith(q, "::" + name) && r == Some(es[0].methods[q]))
      || ((forall q :: q in es[0].methods ==> !EndsWith(q, "::" + name)) &&
          if |es| == 1 then r == None else Finds(es[1..], name, r))
  }

  ghost predicate CoveredInTurn(es: seq<Entry>) {
    (forall i :: 0 <= i < |es| ==> Catalogued(es[i])) && forall i :: 0 <= i < |es| - 1 ==> Covers(es[i + 1], es[i])
  }

  lemma SuffixName(q: string, m: string, name: string)
    requires Owned(q, m) && EndsWith(q, "::" + name)
    ensures name == m
  {
    PlainNotQualified(m);
    var c :| Plain(c) && q == Mangle(c, m);
    var k := |q| - |name| - 2;
    assert q[k..] == "::" + name;
    assert q[k] == ("::" + name)[0] == ':' && q[k + 1] == ("::" + name)[1] == ':';
    FirstColon(c, m);
    assert forall i :: |c| + 2 <= i < |q| ==> q[i] == m[i - |c| - 2];
    assert k == |c|;
    assert m == q[k + 2..] == name;
  }

  /** In a class table all those places agree: the simple names alone decide. */
  lemma {:induction false} FindsSimple(es: seq<Entry>, name: string, r: Option<MethodInfo>)
    requires es != [] && CoveredInTurn(es) && Finds(es, name, r)
    ensures
      r == if name in es[0].simple then Some(es[0].simple[name])
           else if name in es[0].methods then Some(es[0].methods[name])
           else None
    decreases |es|
  {
    hide Owned, EndsWith;
    var e := es[0];
    if name !in e.simple && name !in e.methods {
      assert Catalogued(e);
      forall q | q in e.methods ensures !EndsWith(q, "::" + name) {
        if EndsWith(q, "::" + name) { SuffixName(q, e.methods[q].name, name); }
      }
      if |es| > 1 {
        assert Covers(es[0 + 1], es[0]);
        CoveredTail(es);
        FindsSimple(es[1..], name, r);
      }
    }
  }

  lemma CoveredTail(es: seq<Entry>)
    requires |es| > 1 && CoveredInTurn(es)
    ensures CoveredInTurn(es[1..])
  {
    hide Catalogued, Covers;
    forall i | 0 <= i < |es[1..]| - 1 ensures Covers(es[1..][i + 1], es[1..][i]) {
      assert Covers(es[i + 1 + 1], es[i + 1]);
    }
  }

  class ClassTableEntry {
    const name: string
    const parentName: string
    var parent: ClassTableEntry?
    var fields: map<string, nat>
    var methods: map<string, MethodInfo>
    var simple: map<string, MethodInfo>
    var vtable: seq<string>
    var size: nat
    var finalized: bool

    ghost function State(): Entry
      reads this
    {
      Entry(fields, methods, simple, vtable, size)
    }

    ghost function ParentState(): Option<Entry>
      reads this, parent
    {
      if parent == null then None else Some(parent.State())
    }

    constructor (name: string, parentName: string)
      ensures this.name == name && this.parentName == parentName
      ensures State() == EMPTY_ENTRY && parent == null && !finalized
    {
      this.name, this.parentName := name, parentName;
      parent, finalized := null, false;
      fields, methods, simple, vtable, size := map[], map[], map[], [], 0;
    }

    method AddMemberVariable(variable: string, offset: nat)
      modifies this`fields, this`size
      ensures State() == AddVariable(old(State()), variable, offset)
    {
      var at := offset;
      if at < WORD {
        at := WORD;
      }
      fields := fields[variable := at];
      if at + WORD > size {
        size := at + WORD;
      }
    }

    method AddMemberMethod(info: MethodInfo)
      requires parent != this
      modifies this`methods, this`simple, this`vtable
      ensures State() == AddMethod(old(State()), old(ParentState()), info)
    {
      methods := methods[info.qualified := info];
      simple := simple[info.name := info];
      if parent != null && info.name in parent.simple {
        var slot := parent.simple[info.name].slot;
        methods := methods[info.qualified := info.(slot := slot)];
        simple := simple[info.name := info.(slot := slot)];
        if |vtable| > slot {
          vtable := vtable[slot := info.qualified];
        }
      }
    }

    /** Searches this entry, then its ancestors, which are the rest of `line`. */
    method LookupMethod(methodName: string, ghost line: seq<ClassTableEntry>) returns (r: Option<MethodInfo>)
      requires line != [] && line[0] == this && IsLine(line)
      ensures Finds(States(line), methodName, r)
      decreases |line|
    {
      hide EndsWith;
      assert States(line)[0] == State();
      if methodName in simple {
        return Some(simple[methodName]);
      }
      if methodName in methods {
        return Some(methods[methodName]);
      }
      var keys := methods.Keys;
      while keys != {}
        invariant keys <= methods.Keys
        invariant forall q :: q in methods && q !in keys ==> !EndsWith(q, "::" + methodName)
      {
        var q :| q in keys;
        if EndsWith(q, "::" + methodName) {
          return Some(methods[q]);
        }
        keys := keys - {q};
      }
      if parent == null {
        return None;
      }
      assert States(line)[1..] == States(line[1..]);
      r := parent.LookupMethod(methodName, line[1..]);
    }
  }

  /** An entry followed by what its parent pointers lead to. */
  ghost predicate IsLine(line: seq<ClassTableEntry>)
    reads line
  {
    && line != []
    && (forall i :: 0 <= i < |line| - 1 ==> line[i].parent == line[i + 1])
    && line[|line| - 1].parent == null
  }

  ghost function States(line: seq<ClassTableEntry>): (es: seq<Entry>)
    reads line
    ensures |es| == |line| && forall i :: 0 <= i < |line| ==> es[i] == line[i].State()
  {
    seq(|line|, i requires 0 <= i < |line| reads line => line[i].State())
  }

  lemma LineFrom(line: seq<ClassTableEntry>)
    requires line != [] && forall i :: 0 <= i < |line| ==> Catalogued(line[i].State())
    requires forall i :: 0 <= i < |line| - 1 ==> line[i].parent == line[i + 1] && Covers(line[i + 1].State(), line[i].State())
    requires line[|line| - 1].parent == null
    ensures IsLine(line) && CoveredInTurn(States(line))
  {
    hide Catalogued, Covers;
  }

  /** An entry under construction above the finished line of its ancestors. */
  ghost predicate Growing(entry: ClassTableEntry, up: seq<ClassTableEntry>)
    reads entry, up
  {
    && entry !in up
    && entry.parent == (if up == [] then null else up[0])
    && (up != [] ==> IsLine(up) && CoveredInTurn(States(up)))
  }

  ghost function Above(up: seq<ClassTableEntry>): Option<Entry>
    reads up
  {
    if up == [] then None else Some(up[0].State())
  }

  lemma GrowingLine(entry: ClassTableEntry, up: seq<ClassTableEntry>)
    requires Growing(entry, up) && Sane(entry.State(), Above(up), entry.name)
    ensures IsLine([entry] + up) && CoveredInTurn(States([entry] + up))
  {
    hide Catalogued, Covers, Indexed, OwnFirst;
    var line := [entry] + up;
    assert States(line) == [entry.State()] + States(up);
    forall i | 0 <= i < |line| - 1 ensures line[i].parent == line[i + 1] && Covers(States(line)[i + 1], States(line)[i]) {
      if i > 0 {
        assert line[i] == up[i - 1] && line[i + 1] == up[i - 1 + 1];
        assert Covers(States(up)[i - 1 + 1], States(up)[i - 1]);
      }
    }
  }

  // ----- members -----

  /** The branches of processing a method, as the state before decides them. */
  lemma ProcessCases(e: Entry, parent: Option<Entry>, c: string, m: string, isVirtual: bool, isFinal: bool)
    requires Indexed(e)
    ensures |e.vtable| >= 2
    ensures
      var q, r := Mangle(c, m), Process(e, parent, c, m, isVirtual, isFinal);
      if Rejected(e, m) then r == e
      else
        var slot := SlotFor(e, m);
        && slot <= |e.vtable|
        && r == AddMethod(e.(vtable := if slot < |e.vtable| then e.vtable[slot := q] else e.vtable + [q]), parent,
                          MethodInfo(m, q, slot, isVirtual, isFinal))
  {
    SlotForFits(e, m);
  }

  /** A plain name is not the qualified name of any method. */
  lemma FoundSimple(e: Entry, m: string)
    requires Indexed(e) && Catalogued(e) && Plain(m)
    ensures m !in e.methods && (m in e.simple ==> e.simple[m].slot < |e.vtable|)
  {
    if m in e.methods {
      assert Owned(m, e.methods[m].name);
      PlainNotQualified(e.methods[m].name);
      var c :| Plain(c) && m == Mangle(c, e.methods[m].name);
      FirstColon(c, e.methods[m].name);
    }
  }

  method ProcessMethod(entry: ClassTableEntry, name: string, isVirtual: bool, isFinal: bool, ghost up: seq<ClassTableEntry>)
    requires Growing(entry, up) && Sane(entry.State(), Above(up), entry.name)
    requires Plain(entry.name) && Plain(name)
    modifies entry`methods, entry`simple, entry`vtable
    ensures entry.State() == Process(old(entry.State()), Above(up), entry.name, name, isVirtual, isFinal)
    ensures Growing(entry, up) && Sane(entry.State(), Above(up), entry.name)
  {
    hide Indexed, Catalogued, OwnFirst, Inherits, CoveredInTurn, Finds, Process, IsLine, Mangle;
    SaneSlots(entry.State(), Above(up), entry.name);
    ProcessSane(entry.State(), Above(up), entry.name, name, isVirtual, isFinal);
    ProcessCases(entry.State(), Above(up), entry.name, name, isVirtual, isFinal);
    var q := Mangle(entry.name, name);
    var info := MethodInfo(name, q, 0, isVirtual, isFinal);
    if name == "CREATE" {
      entry.vtable := entry.vtable[0 := q];
    } else if name == "RELEASE" {
      info := info.(slot := 1);
      entry.vtable := entry.vtable[1 := q];
    } else {
      GrowingLine(entry, up);
      var found := entry.LookupMethod(name, [entry] + up);
      FindsSimple(States([entry] + up), name, found);
      FoundSimple(entry.State(), name);
      if found.Some? {
        if found.value.isFinal {
          return;
        }
        info := info.(slot := found.value.slot);
        entry.vtable := entry.vtable[info.slot := q];
      } else {
        info := info.(slot := |entry.vtable|);
        entry.vtable := entry.vtable + [q];
      }
    }
    entry.AddMemberMethod(info);
  }

  method AddMemberVariables(entry: ClassTableEntry, names: seq<string>, offset: nat) returns (end: nat)
    modifies entry`fields, entry`size
    ensures (entry.State(), end) == AddVariables(old(entry.State()), offset, names)
  {
    end := offset;
    var i := 0;
    assert names[0..] == names;
    while i < |names|
      invariant 0 <= i <= |names|
      invariant AddVariables(entry.State(), end, names[i..]) == AddVariables(old(entry.State()), offset, names)
    {
      assert names[i..][0] == names[i] && names[i..][1..] == names[i + 1..];
      if names[i] !in entry.fields {
        entry.AddMemberVariable(names[i], end);
        end := end + WORD;
      }
      i := i + 1;
    }
  }

  method ProcessOwnMembers(entry: ClassTableEntry, members: seq<Member>, offset: nat, ghost up: seq<ClassTableEntry>) returns (end: nat)
    requires Growing(entry, up) && Sane(entry.State(), Above(up), entry.name)
    requires Plain(entry.name) && WellNamed(members)
    modifies entry`fields, entry`methods, entry`simple, entry`vtable, entry`size
    ensures (entry.State(), end) == ProcessMembers(old(entry.State()), offset, Above(up), entry.name, members)
    ensures Growing(entry, up) && Sane(entry.State(), Above(up), entry.name)
  {
    hide Indexed, Catalogued, OwnFirst, Inherits, CoveredInTurn, Process, IsLine, AddVariables;
    end := offset;
    var i := 0;
    ghost var parent := Above(up);
    assert members[0..] == members;
    while i < |members|
      invariant 0 <= i <= |members|
      invariant Growing(entry, up) && Above(up) == parent && Sane(entry.State(), parent, entry.name)
      invariant ProcessMembers(entry.State(), end, parent, entry.name, members[i..]) ==
        ProcessMembers(old(entry.State()), offset, parent, entry.name, members)
    {
      assert members[i..][0] == members[i] && members[i..][1..] == members[i + 1..];
      ghost var e := entry.State();
      match members[i] {
        case Variables(names) =>
          VariablesKeepMethods(e, end, names);
          end := AddMemberVariables(entry, names, end);
          SaneSame(e, entry.State(), parent, entry.name);
        case Method(name, isVirtual, isFinal) =>
          ProcessMethod(entry, name, isVirtual, isFinal, up);
      }
      i := i + 1;
    }
    assert members[i..] == [];
  }

  /** Copies the parent's tables and reserves the two special slots. */
  method InheritFrom(entry: ClassTableEntry, parent: ClassTableEntry?)
    requires parent != entry && entry.State() == EMPTY_ENTRY && (parent != null ==> |parent.vtable| >= 2)
    modifies entry`parent, entry`fields, entry`methods, entry`simple, entry`vtable
    ensures entry.parent == if parent != null then parent else old(entry.parent)
    ensures entry.State() == Seed(if parent == null then None else Some(parent.State()))
  {
    if parent != null {
      entry.parent := parent;
      entry.fields := parent.fields;
      entry.methods := parent.methods;
      entry.vtable := parent.vtable;
      entry.simple := parent.simple;
    }
    if |entry.vtable| < 2 {
      entry.vtable := entry.vtable + seq(2 - |entry.vtable|, _ => "");
    }
  }

  /** Inherits, processes the members, and supplies the missing special methods. */
  method BuildLayout(entry: ClassTableEntry, parent: ClassTableEntry?, members: seq<Member>, ghost up: seq<ClassTableEntry>)
    requires entry.State() == EMPTY_ENTRY && Plain(entry.name) && WellNamed(members)
    requires entry !in up && parent == (if up == [] then null else up[0]) && (parent == null ==> entry.parent == null)
    requires up != [] ==> IsLine(up) && CoveredInTurn(States(up)) && Finished(up[0].State()) && Foreign(up[0].State(), entry.name)
    modifies entry`parent, entry`fields, entry`methods, entry`simple, entry`vtable, entry`size
    ensures entry.State() == Derive(Above(up), entry.name, members)
    ensures entry.parent == parent
  {
    hide Indexed, Catalogued, OwnFirst, Inherits, CoveredInTurn, ProcessMembers, Process, Seed, IsLine;
    ghost var above := Above(up);
    SeedSane(above, entry.name);
    if up != [] { FinishedSlots(up[0].State()); }
    InheritFrom(entry, parent);
    var offset := WORD;
    if parent != null {
      offset := parent.size;
    }
    offset := ProcessOwnMembers(entry, members, offset, up);
    ghost var e1 := entry.State();
    SaneSlots(e1, above, entry.name);
    if entry.vtable[0] == "" {
      ProcessMethod(entry, "CREATE", false, false, up);
    }
    SynthesizeSane(e1, above, entry.name, 0, "CREATE");
    SaneSlots(entry.State(), above, entry.name);
    ghost var e2 := entry.State();
    assert e2 == Synthesize(e1, above, entry.name, 0, "CREATE");
    if entry.vtable[1] == "" {
      ProcessMethod(entry, "RELEASE", false, false, up);
    }
    entry.size := offset;
  }

  lemma FinishedSlots(e: Entry)
    requires Finished(e)
    ensures |e.vtable| >= 2
  {
  }

  // ----- the pass -----

  datatype LayoutError = CircularInheritance(c: string) | ParentNotFound(c: string)

  datatype Declaration = Declaration(name: string, parentName: string, members: seq<Member>)

  /** The n-th ancestor of a class, as far as the declarations lead. */
  ghost function Up(d: Classes, c: string, n: nat): Option<string>
    decreases n
  {
    if n == 0 then Some(c) else if c in d.parents then Up(d, d.parents[c], n - 1) else None
  }

  lemma {:induction false} UpStep(d: Classes, c: string, n: nat, x: string)
    requires Up(d, c, n) == Some(x) && x in d.parents
    ensures Up(d, c, n + 1) == Some(d.parents[x])
    decreases n
  {
    if n > 0 { UpStep(d, d.parents[c], n - 1, x); }
  }

  /** x is c's proper ancestor's descendant: following parents from x leads to c after at least one step. */
  ghost predicate DescendsFrom(d: Classes, x: string, c: string) {
    exists n: nat :: n > 0 && Up(d, x, n) == Some(c)
  }

  ghost predicate HasChain(d: Classes, c: string) {
    exists chain :: IsChain(d, chain) && chain[0] == c
  }

  lemma {:induction false} UpOnChain(d: Classes, chain: seq<string>, n: nat)
    requires WellDeclared(d) && IsChain(d, chain)
    ensures n < |chain| ==> Up(d, chain[0], n) == Some(chain[n])
    ensures n >= |chain| && Up(d, chain[0], n).Some? ==> Up(d, chain[0], n) == Some("")
    decreases n
  {
    assert !Plain("");
    RootAlone(d, chain);
    if n > 0 {
      if |chain| > 1 {
        ChainTail(d, chain);
        assert d.parents[chain[0]] == chain[0 + 1];
        UpOnChain(d, chain[1..], n - 1);
      }
    }
  }

  /** A class that is its own ancestor has no chain. */
  lemma CycleNoChain(d: Classes, c: string)
    requires WellDeclared(d) && c in d.parents && DescendsFrom(d, c, c)
    ensures !HasChain(d, c)
  {
    assert !Plain("");
    if HasChain(d, c) {
      var chain :| IsChain(d, chain) && chain[0] == c;
      var n: nat :| n > 0 && Up(d, c, n) == Some(c);
      UpOnChain(d, chain, n);
      if n < |chain| { ChainDistinct(d, chain, n); }
    }
  }

  lemma ChainOfParent(d: Classes, c: string)
    requires WellDeclared(d) && c in d.parents && d.parents[c] != ""
    ensures HasChain(d, c) <==> HasChain(d, d.parents[c])
  {
    if HasChain(d, c) {
      var chain :| IsChain(d, chain) && chain[0] == c;
      RootAlone(d, chain);
      ChainTail(d, chain);
      assert chain[1..][0] == d.parents[chain[0]];
    }
    if HasChain(d, d.parents[c]) {
      var chain :| IsChain(d, chain) && chain[0] == d.parents[c];
      var longer := [c] + chain;
      assert forall i :: 0 < i < |longer| ==> longer[i] == chain[i - 1];
      assert IsChain(d, longer) && longer[0] == c;
    }
  }

  /** With an undeclared parent there is no chain. */
  lemma NoChainBeyond(d: Classes, c: string)
    requires WellDeclared(d) && c in d.parents && d.parents[c] != "" && d.parents[c] !in d.parents
    ensures !HasChain(d, c)
  {
    ChainOfParent(d, c);
  }

  lemma RootChain(d: Classes, c: string)
    requires WellDeclared(d) && c in d.parents && d.parents[c] == ""
    ensures IsChain(d, [c])
  {
  }

  /** The chain of a class; there is only one. */
  ghost function ChainOf(d: Classes, c: string): (chain: seq<string>)
    requires HasChain(d, c)
    ensures IsChain(d, chain) && chain[0] == c
  {
    var chain :| IsChain(d, chain) && chain[0] == c;
    chain
  }

  lemma ChainOfIs(d: Classes, chain: seq<string>)
    requires WellDeclared(d) && IsChain(d, chain)
    ensures HasChain(d, chain[0]) && ChainOf(d, chain[0]) == chain
  {
    ChainUnique(d, ChainOf(d, chain[0]), chain);
  }

  lemma ChainOfChild(d: Classes, c: string)
    requires WellDeclared(d) && c in d.parents && d.parents[c] != "" && HasChain(d, d.parents[c])
    ensures HasChain(d, c) && ChainOf(d, c) == [c] + ChainOf(d, d.parents[c])
  {
    var chain := ChainOf(d, d.parents[c]);
    var longer := [c] + chain;
    assert forall i :: 0 < i < |longer| ==> longer[i] == chain[i - 1];
    assert IsChain(d, longer) && longer[0] == c;
    ChainOfIs(d, longer);
  }

  lemma LayoutIs(d: Classes, chain: seq<string>)
    requires WellDeclared(d) && IsChain(d, chain)
    ensures
      if |chain| == 1 then Layout(d, chain) == Derive(None, chain[0], d.members[chain[0]])
      else
        IsChain(d, chain[1..]) && Finished(Layout(d, chain[1..])) && Foreign(Layout(d, chain[1..]), chain[0]) &&
        Layout(d, chain) == Derive(Some(Layout(d, chain[1..])), chain[0], d.members[chain[0]])
  {
    hide Derive, Indexed, Catalogued, OwnFirst, OwnedWithin;
    if |chain| > 1 {
      ChainTail(d, chain);
      OwnedForeign(d, chain, Layout(d, chain[1..]));
    }
  }

  /** What some declarations declare: a class's first parent, and its last list of members. */
  ghost function DeclaredBy(decls: seq<Declaration>): Classes
    decreases |decls|
  {
    if decls == [] then Classes(map[], map[]) else Declaring(DeclaredBy(decls[..|decls| - 1]), decls[|decls| - 1])
  }

  function Declaring(d: Classes, decl: Declaration): Classes {
    Classes(
      if decl.name in d.parents then d.parents else d.parents[decl.name := decl.parentName],
      d.members[decl.name := decl.members])
  }

  lemma DeclaredNext(decls: seq<Declaration>, i: nat)
    requires i < |decls|
    ensures DeclaredBy(decls[..i + 1]) == Declaring(DeclaredBy(decls[..i]), decls[i])
  {
    assert decls[..i + 1][..i] == decls[..i];
  }

  predicate Named(decls: seq<Declaration>) {
    forall i :: 0 <= i < |decls| ==> Plain(decls[i].name) && WellNamed(decls[i].members)
  }

  ghost predicate NamesOf(line: seq<ClassTableEntry>, names: seq<string>) {
    |line| == |names| && forall i :: 0 <= i < |line| ==> line[i].name == names[i]
  }

  lemma LineTail(line: seq<ClassTableEntry>)
    requires IsLine(line) && |line| > 1
    ensures IsLine(line[1..])
  {
    assert forall i :: 0 <= i < |line[1..]| - 1 ==> line[1..][i].parent == line[i + 1 + 1];
  }

  /** Follows the parent pointers in search of a name. */
  method WalkUp(start: ClassTableEntry?, name: string, ghost line: seq<ClassTableEntry>) returns (found: bool)
    requires if line == [] then start == null else start == line[0] && IsLine(line)
    ensures found <==> exists i :: 0 <= i < |line| && line[i].name == name
  {
    var current := start;
    ghost var i := 0;
    while current != null
      invariant 0 <= i <= |line| && current == (if i == |line| then null else line[i])
      invariant forall k :: 0 <= k < i ==> line[k].name != name
      decreases |line| - i
    {
      if current.name == name {
        return true;
      }
      current := current.parent;
      i := i + 1;
    }
    return false;
  }

  // ----- the validator's checks -----

  method CheckAbove(fields: map<string, nat>) returns (ok: bool)
    ensures ok <==> forall f :: f in fields ==> fields[f] >= WORD
  {
    ok := true;
    var todo := fields.Keys;
    while todo != {}
      invariant todo <= fields.Keys
      invariant ok <==> forall f :: f in fields && f !in todo ==> fields[f] >= WORD
    {
      var f :| f in todo;
      if fields[f] < WORD {
        ok := false;
      }
      todo := todo - {f};
    }
  }

  method CheckFit(fields: map<string, nat>, size: nat) returns (ok: bool)
    ensures ok <==> forall f :: f in fields ==> fields[f] + WORD <= size
  {
    ok := true;
    var todo := fields.Keys;
    while todo != {}
      invariant todo <= fields.Keys
      invariant ok <==> forall f :: f in fields && f !in todo ==> fields[f] + WORD <= size
    {
      var f :| f in todo;
      if fields[f] + WORD > size {
        ok := false;
      }
      todo := todo - {f};
    }
  }

  method CheckInherited(inherited: map<string, nat>, fields: map<string, nat>) returns (ok: bool)
    ensures ok <==> forall f :: f in inherited ==> f in fields
  {
    ok := true;
    var todo := inherited.Keys;
    while todo != {}
      invariant todo <= inherited.Keys
      invariant ok <==> forall f :: f in inherited && f !in todo ==> f in fields
    {
      var f :| f in todo;
      if f !in fields {
        ok := false;
      }
      todo := todo - {f};
    }
  }

  method NameSlots(vtable: seq<string>) returns (slots: map<string, nat>)
    ensures slots == SlotsByName(vtable, |vtable|)
  {
    slots := map[];
    var i := 0;
    while i < |vtable|
      invariant 0 <= i <= |vtable| && slots == SlotsByName(vtable, i)
    {
      var name := SimpleName(vtable[i]);
      if name.Some? {
        slots := slots[name.value := i];
      }
      i := i + 1;
    }
  }

  method CheckOverrides(c: string, methods: map<string, MethodInfo>, vtable: seq<string>, slots: map<string, nat>, ghost e: Entry)
    returns (ok: bool)
    requires methods == e.methods && vtable == e.vtable
    ensures ok <==> forall q :: q in e.methods ==> OverridePlaced(c, e, slots, q)
  {
    ok := true;
    var todo := methods.Keys;
    while todo != {}
      invariant todo <= methods.Keys
      invariant ok <==> forall q :: q in e.methods && q !in todo ==> OverridePlaced(c, e, slots, q)
    {
      var q :| q in todo;
      if StartsWith(q, c + "::") && methods[q].name in slots {
        var slot := slots[methods[q].name];
        if slot >= |vtable| || vtable[slot] != q {
          ok := false;
        }
      }
      todo := todo - {q};
    }
  }

  /** What an entry of class c holds before and after it is finished. */
  ghost predicate Holds(d: Classes, c: string, e: Entry, finalized: bool, rootless: bool)
    requires WellDeclared(d) && c in d.parents
  {
    if finalized then HasChain(d, c) && e == Layout(d, ChainOf(d, c))
    else e == EMPTY_ENTRY && (d.parents[c] == "" ==> rootless)
  }

  class ClassPass {
    var entries: map<string, ClassTableEntry>
    var nodes: map<string, seq<Member>>
    var resolutionPath: set<string>

    ghost function Declared(): Classes
      reads this`entries, this`nodes
    {
      Classes(map c | c in entries :: entries[c].parentName, nodes)
    }

    /** What belongs to a class of the table. */
    ghost predicate Tabled()
      reads this`entries, this`nodes
    {
      && WellDeclared(Declared())
      && (forall c :: c in entries ==> entries[c].name == c)
      && forall c, x :: c in entries && x in entries && c != x ==> entries[c] != entries[x]
    }

    /** A finished entry holds the layout of its class's chain and points to its parent's finished entry. */
    ghost predicate Settled(c: string)
      requires Tabled() && c in entries
      reads this`entries, this`nodes, entries.Values
    {
      var e := entries[c];
      Holds(Declared(), c, e.State(), e.finalized, e.parent == null) && (e.finalized ==> Linked(c))
    }

    ghost predicate Linked(c: string)
      requires c in entries
      reads this`entries, entries.Values
    {
      var e := entries[c];
      if e.parentName == "" then e.parent == null
      else e.parentName in entries && e.parent == entries[e.parentName] && e.parent.finalized
    }

    ghost predicate Valid()
      reads this`entries, this`nodes, entries.Values
    {
      Tabled() && forall c :: c in entries ==> Settled(c)
    }
  
    /** The entries along the chain of a class. */
    ghost function Line(chain: seq<string>): (line: seq<ClassTableEntry>)
      requires Tabled() && IsChain(Declared(), chain)
      reads this`entries, this`nodes
      ensures |line| == |chain| && forall i :: 0 <= i < |line| ==> line[i] == entries[chain[i]]
    {
      assert forall i :: 0 <= i < |chain| ==> chain[i] in Declared().parents;
      var table := entries;
      seq(|chain|, i requires 0 <= i < |chain| && chain[i] in table => table[chain[i]])
    }

    lemma {:induction false} AncestorsSettled(c: string, i: nat)
      requires Valid() && c in entries && entries[c].finalized && i < |ChainOf(Declared(), c)|
      ensures
        var chain := ChainOf(Declared(), c);
        entries[chain[i]].finalized && IsChain(Declared(), chain[i..]) && entries[chain[i]].State() == Layout(Declared(), chain[i..])
      decreases i
    {
      hide Layout;
      var d, chain := Declared(), ChainOf(Declared(), c);
      assert Settled(c);
      RootAlone(d, chain);
      if i == 0 {
        assert chain[0..] == chain;
      } else {
        var p := d.parents[c];
        ChainTail(d, chain);
        assert chain[0 + 1] == p;
        ChainOfIs(d, chain[1..]);
        AncestorsSettled(p, i - 1);
        assert chain[1..][i - 1..] == chain[i..];
      }
    }

    /** One link of the line of a finished class. */
    lemma LinkSettled(c: string, i: nat)
      requires Valid() && c in entries && entries[c].finalized && i < |ChainOf(Declared(), c)|
      ensures
        var chain := ChainOf(Declared(), c);
        var e := entries[chain[i]];
        && e.finalized && Catalogued(e.State())
        && (if i == |chain| - 1 then e.parent == null
            else e.parent == entries[chain[i + 1]] && Covers(e.parent.State(), e.State()))
    {
      hide Layout, Catalogued, Covers, Indexed, OwnFirst, OwnedWithin;
      var d, chain := Declared(), ChainOf(Declared(), c);
      AncestorsSettled(c, i);
      assert Settled(chain[i]);
      RootAlone(d, chain[i..]);
      if i < |chain| - 1 {
        AncestorsSettled(c, i + 1);
        ClassTheorems.LayoutCovers(d, chain[i..]);
        assert chain[i..][1..] == chain[i + 1..];
      }
    }

    /** The line of a finished class is a chain of pointers whose tables cover each other. */
    lemma LineSettled(c: string) returns (line: seq<ClassTableEntry>)
      requires Valid() && c in entries && entries[c].finalized
      ensures IsLine(line) && CoveredInTurn(States(line)) && line[0] == entries[c]
      ensures forall i :: 0 <= i < |line| ==> line[i].finalized
    {
      assert Settled(c);
      line := Line(ChainOf(Declared(), c));
      hide Layout, Catalogued, Covers, Settled, HasChain, ChainOf, WellDeclared;
      forall i | 0 <= i < |line|
        ensures line[i].finalized && Catalogued(line[i].State())
        ensures i < |line| - 1 ==> line[i].parent == line[i + 1] && Covers(line[i + 1].State(), line[i].State())
        ensures i == |line| - 1 ==> line[i].parent == null
      {
        LinkSettled(c, i);
      }
      LineFrom(line);
    }

    /** Who is being finalized: unfinished classes, each a descendant of the one about to be. */
    ghost predicate Resolving(c: string)
      requires Tabled()
      reads this, entries.Values
    {
      forall x :: x in resolutionPath ==> x in entries && !entries[x].finalized && DescendsFrom(Declared(), x, c)
    }

    lemma ResolvingParent(c: string, path: set<string>)
      requires Tabled() && Resolving(c) && c in entries && !entries[c].finalized && entries[c].parentName in entries
      requires path == resolutionPath + {c}
      ensures forall x :: x in path ==> x in entries && !entries[x].finalized && DescendsFrom(Declared(), x, entries[c].parentName)
    {
      var d, p := Declared(), entries[c].parentName;
      forall x | x in path ensures DescendsFrom(d, x, p) {
        if x == c {
          assert Up(d, p, 0) == Some(p);
          assert Up(d, c, 1) == Some(p);
        } else {
          var n: nat :| n > 0 && Up(d, x, n) == Some(c);
          UpStep(d, x, n, c);
          assert Up(d, x, n + 1) == Some(p);
        }
      }
    }

    /** The line of a class's parent, with all that building on top of it asks for. */
    lemma ParentLine(c: string, parent: ClassTableEntry?) returns (up: seq<ClassTableEntry>)
      requires Valid() && c in entries && !entries[c].finalized && ParentReady(c, parent)
      ensures entries[c] !in up && parent == (if up == [] then null else up[0])
      ensures up != [] ==> IsLine(up) && CoveredInTurn(States(up)) && Finished(up[0].State()) && Foreign(up[0].State(), c)
      ensures HasChain(Declared(), c)
      ensures up == [] ==> ChainOf(Declared(), c) == [c]
      ensures up != [] ==>
        var chain := ChainOf(Declared(), c);
        |chain| > 1 && IsChain(Declared(), chain[1..]) && up[0].State() == Layout(Declared(), chain[1..])
    {
      hide Layout, CoveredInTurn, States, Indexed, Catalogued, OwnFirst, OwnedWithin, Foreign;
      var d := Declared();
      if parent == null {
        up := [];
        RootChain(d, c);
        ChainOfIs(d, [c]);
      } else {
        var p := entries[c].parentName;
        assert Settled(p);
        up := LineSettled(p);
        assert forall i :: 0 <= i < |up| ==> up[i] != entries[c];
        ChainOfChild(d, c);
        assert ChainOf(d, c)[1..] == ChainOf(d, p);
        OwnedForeign(d, ChainOf(d, c), Layout(d, ChainOf(d, p)));
      }
    }

    /** Builds one layout on top of its parent's finished one. */
    method BuildClass(c: string, parent: ClassTableEntry?)
      requires Valid() && c in entries && !entries[c].finalized && ParentReady(c, parent)
      modifies entries[c]
      ensures entries[c].finalized && entries[c].parent == parent
      ensures HasChain(Declared(), c) && entries[c].State() == Layout(Declared(), ChainOf(Declared(), c))
    {
      hide Layout, Derive, CoveredInTurn, IsLine, States, OwnedWithin, Finished, Foreign, OwnFirst, HasChain, ChainOf;
      var entry := entries[c];
      assert Settled(c);
      ghost var up := ParentLine(c, parent);
      LayoutIs(Declared(), ChainOf(Declared(), c));
      BuildLayout(entry, parent, nodes[c], up);
      entry.finalized := true;
    }

    ghost predicate ParentReady(c: string, parent: ClassTableEntry?)
      requires c in entries
      reads this`entries, entries.Values
    {
      var p := entries[c].parentName;
      if p == "" then parent == null else p in entries && parent == entries[p] && entries[p].finalized
    }

    /** Entries nobody touched stay settled while another one is finished. */
    twostate lemma SettledKept(c: string)
      requires old(Valid()) && entries == old(entries) && nodes == old(nodes) && c in entries && entries[c].finalized
      requires forall x :: x in entries && x != c ==> unchanged(entries[x])
      ensures Tabled() && forall x :: x in entries && x != c ==> Settled(x)
    {
      assert Declared() == old(Declared());
      assert forall x :: x in entries ==> x in Declared().parents;
      hide Holds, WellDeclared, Declared;
      forall x | x in entries && x != c ensures Settled(x) {
        assert old(Settled(x));
      }
    }

    method SettleClass(c: string, parent: ClassTableEntry?)
      requires Valid() && c in entries && !entries[c].finalized && ParentReady(c, parent)
      modifies entries[c]
      ensures Valid() && entries[c].finalized
    {
      hide Layout, HasChain, ChainOf, WellDeclared, Settled;
      BuildClass(c, parent);
      SettledKept(c);
      SettledNow(c, parent);
    }

    lemma SettledNow(c: string, parent: ClassTableEntry?)
      requires Tabled() && c in entries && ParentReady(c, parent) && entries[c].finalized && entries[c].parent == parent
      requires HasChain(Declared(), c) && entries[c].State() == Layout(Declared(), ChainOf(Declared(), c))
      ensures Settled(c)
    {
      hide Layout, HasChain, ChainOf, WellDeclared;
    }

    /** Finalizes a class, its unfinished ancestors first; a failure means that the class has no chain. */
    method FinalizeClassLayout(c: string) returns (failure: Option<LayoutError>)
      requires Valid() && Resolving(c)
      modifies this`resolutionPath, entries.Values
      ensures failure.None? ==> Valid() && resolutionPath == old(resolutionPath) && (c in entries ==> entries[c].finalized)
      ensures failure.None? ==> forall x :: x in entries && (x in resolutionPath || old(entries[x].finalized)) ==> unchanged(entries[x])
      ensures failure.Some? ==> c in entries && !HasChain(Declared(), c)
      decreases entries.Keys - resolutionPath
    {
      hide Layout, Settled, HasChain, ChainOf, WellDeclared, DescendsFrom;
      if c in resolutionPath {
        CycleNoChain(Declared(), c);
        return Some(CircularInheritance(c));
      }
      if c !in entries || entries[c].finalized {
        return None;
      }
      ghost var before := resolutionPath;
      if entries[c].parentName in entries {
        ResolvingParent(c, resolutionPath + {c});
      }
      resolutionPath := resolutionPath + {c};
      var entry := entries[c];
      var parent: ClassTableEntry? := null;
      if entry.parentName != "" {
        if entry.parentName !in entries {
          NoChainBeyond(Declared(), c);
          return Some(ParentNotFound(entry.parentName));
        }
        parent := entries[entry.parentName];
        if !parent.finalized {
          failure := FinalizeClassLayout(entry.parentName);
          if failure.Some? {
            ChainOfParent(Declared(), c);
            return;
          }
        }
      }
      SettleClass(c, parent);
      resolutionPath := resolutionPath - {c};
      assert resolutionPath == before;
      failure := None;
    }
  
    constructor ()
      ensures entries == map[] && nodes == map[] && resolutionPath == {}
    {
      entries, nodes, resolutionPath := map[], map[], {};
    }

    ghost predicate Fresh()
      reads this`entries, this`nodes, entries.Values
    {
      Tabled() && forall c :: c in entries ==> FreshEntry(entries[c])
    }

    ghost predicate FreshEntry(e: ClassTableEntry)
      reads e
    {
      !e.finalized && e.State() == EMPTY_ENTRY && (e.parentName == "" ==> e.parent == null)
    }

    method AddClass(name: string, parentName: string)
      requires name !in entries
      modifies this`entries
      ensures name in entries && fresh(entries[name]) && entries == old(entries)[name := entries[name]]
      ensures entries[name].name == name && entries[name].parentName == parentName && entries[name].State() == EMPTY_ENTRY
      ensures !entries[name].finalized && (parentName == "" ==> entries[name].parent == null)
    {
      var entry := new ClassTableEntry(name, parentName);
      entries := entries[name := entry];
      if parentName != "" && parentName in entries {
        entry.parent := entries[parentName];
      }
    }

    method VisitClass(decl: Declaration)
      requires Fresh() && Plain(decl.name) && WellNamed(decl.members)
      modifies this`entries, this`nodes
      ensures Fresh() && fresh(entries.Values - old(entries.Values))
      ensures Declared() == Declaring(old(Declared()), decl)
    {
      hide Plain, WellNamed;
      if decl.name !in entries {
        AddClass(decl.name, decl.parentName);
      }
      nodes := nodes[decl.name := decl.members];
      FreshVisited(decl);
    }

    /** The table after one declaration: the same entries, or one more. */
    twostate predicate Visited(decl: Declaration)
      reads this`entries, this`nodes, entries.Values
    {
      && decl.name in entries && nodes == old(nodes)[decl.name := decl.members]
      && (if decl.name in old(entries) then entries == old(entries)
          else entries == old(entries)[decl.name := entries[decl.name]] && NewEntry(decl))
    }

    twostate predicate NewEntry(decl: Declaration)
      requires decl.name in entries
      reads this`entries, entries.Values
    {
      var e := entries[decl.name];
      && fresh(e) && e.name == decl.name && e.parentName == decl.parentName && FreshEntry(e)
    }

    twostate lemma TabledVisited(decl: Declaration)
      requires old(Fresh()) && Plain(decl.name) && WellNamed(decl.members) && Visited(decl)
      ensures Tabled() && Declared() == Declaring(old(Declared()), decl)
    {
      hide Plain, WellNamed, FreshEntry;
      var before, now := old(Declared()), Declared();
      assert now.parents == Declaring(before, decl).parents;
      assert WellDeclared(now);
    }

    twostate lemma FreshVisited(decl: Declaration)
      requires old(Fresh()) && Plain(decl.name) && WellNamed(decl.members) && Visited(decl)
      requires forall c :: c in old(entries) ==> unchanged(old(entries)[c])
      ensures Fresh() && Declared() == Declaring(old(Declared()), decl)
    {
      TabledVisited(decl);
      hide Tabled, Plain, WellNamed;
    }

    method DiscoverClasses(decls: seq<Declaration>)
      requires entries == map[] && nodes == map[] && Named(decls)
      modifies this`entries, this`nodes
      ensures Fresh() && Declared() == DeclaredBy(decls) && fresh(entries.Values)
    {
      hide Plain, WellNamed;
      assert Fresh() && Declared() == DeclaredBy(decls[..0]);
      hide Fresh, Tabled, Declared, Declaring, DeclaredBy;
      var i := 0;
      while i < |decls|
        invariant 0 <= i <= |decls| && Fresh() && Declared() == DeclaredBy(decls[..i]) && fresh(entries.Values)
      {
        DeclaredNext(decls, i);
        VisitClass(decls[i]);
        i := i + 1;
      }
      assert decls[..i] == decls;
    }

    lemma FreshValid()
      requires Fresh()
      ensures Valid()
    {
    }

    /** Every class holds the layout of its chain. */
    ghost predicate Complete()
      reads this`entries, this`nodes, entries.Values
    {
      Valid() && forall c :: c in entries ==> entries[c].finalized
    }

    /** Whatever order the classes come in, the pass completes exactly when every class has a chain. */
    method FinalizeLayouts() returns (failure: Option<LayoutError>)
      requires Valid() && resolutionPath == {}
      modifies this`resolutionPath, entries.Values
      ensures failure.None? <==> forall c :: c in entries ==> HasChain(Declared(), c)
      ensures failure.None? ==> Complete() && resolutionPath == {}
    {
      hide HasChain;
      failure := FinalizeAll();
      if failure.None? {
        CompleteChains();
      }
    }

    method FinalizeAll() returns (failure: Option<LayoutError>)
      requires Valid() && resolutionPath == {}
      modifies this`resolutionPath, entries.Values
      ensures failure.Some? ==> exists c :: c in entries && !HasChain(Declared(), c)
      ensures failure.None? ==> Complete() && resolutionPath == {}
    {
      assert nodes.Keys == entries.Keys && Done(nodes.Keys);
      hide Valid, HasChain, WellDeclared, Tabled, Declared, Done;
      failure := None;
      var todo := nodes.Keys;
      while todo != {}
        invariant todo <= nodes.Keys && Valid() && resolutionPath == {} && Done(todo) && failure.None?
      {
        var c :| c in todo;
        failure := FinalizeLayout(c, todo);
        if failure.Some? {
          return;
        }
        todo := todo - {c};
      }
      AllDone();
    }

    lemma AllDone()
      requires Valid() && Done({})
      ensures Complete()
    {
    }

    /** All classes but these are finished. */
    ghost predicate Done(todo: set<string>)
      reads this`entries, entries.Values
    {
      forall c :: c in entries && c !in todo ==> entries[c].finalized
    }

    method FinalizeLayout(c: string, ghost todo: set<string>) returns (failure: Option<LayoutError>)
      requires Valid() && resolutionPath == {} && c in entries && Done(todo)
      modifies this`resolutionPath, entries.Values
      ensures failure.None? ==> Valid() && resolutionPath == {} && Done(todo - {c})
      ensures failure.Some? ==> !HasChain(Declared(), c)
    {
      hide Valid, HasChain, WellDeclared;
      failure := None;
      if !entries[c].finalized {
        failure := FinalizeClassLayout(c);
      }
    }

    lemma CompleteChains()
      requires Complete()
      ensures forall c :: c in entries ==> HasChain(Declared(), c)
    {
      hide Layout, HasChain;
      forall c | c in entries ensures HasChain(Declared(), c) {
        assert Settled(c);
      }
    }

    /** The whole pass: the table ends up a function of the declarations alone. */
    method Run(decls: seq<Declaration>) returns (failure: Option<LayoutError>)
      requires entries == map[] && nodes == map[] && resolutionPath == {} && Named(decls)
      modifies this
      ensures failure.None? <==> forall c :: c in DeclaredBy(decls).parents ==> HasChain(DeclaredBy(decls), c)
      ensures failure.None? ==> Complete() && Declared() == DeclaredBy(decls)
    {
      DiscoverClasses(decls);
      FreshValid();
      failure := FinalizeLayouts();
    }
  
    // ----- looking at the finished table -----

    ghost function ParentState(c: string): Option<Entry>
      requires c in entries
      reads this`entries, entries.Values
    {
      var p := entries[c].parentName;
      if p in entries then Some(entries[p].State()) else None
    }

    ghost predicate ParentFinal(c: string)
      requires c in entries
      reads this`entries, entries.Values
    {
      var p := entries[c].parentName;
      p in entries && entries[p].finalized
    }

    /** The separate check of one finished layout. */
    method ValidateClassLayout(c: string) returns (valid: bool)
      ensures valid <==> c in entries && Passes(c, entries[c].State(), entries[c].parentName, ParentState(c), ParentFinal(c))
    {
      hide SlotsByName, OverridePlaced;
      if c !in entries {
        return false;
      }
      var entry := entries[c];
      var above := CheckAbove(entry.fields);
      var placed, complete := true, true;
      if entry.parentName != "" {
        if entry.parentName !in entries {
          return false;
        }
        var parent := entries[entry.parentName];
        if parent.finalized {
          var slots := NameSlots(parent.vtable);
          placed := CheckOverrides(c, entry.methods, entry.vtable, slots, entry.State());
        }
        complete := CheckInherited(parent.fields, entry.fields);
        if entry.size < parent.size {
          complete := false;
        }
      }
      var fit := CheckFit(entry.fields, entry.size);
      valid := above && placed && complete && fit;
    }

    /** The validator accepts every class of a finished table. */
    lemma FinishedPasses(c: string)
      requires Complete() && c in entries
      ensures Passes(c, entries[c].State(), entries[c].parentName, ParentState(c), ParentFinal(c))
    {
      hide Layout, Passes, IsChain, WellDeclared, Finished, OwnFirst, OwnedWithin;
      var d := Declared();
      assert Settled(c);
      var chain := ChainOf(d, c);
      LayoutPasses(d, chain);
      RootOrParent(c);
      NoEmptyName();
    }

    lemma NoEmptyName()
      requires Tabled()
      ensures "" !in entries
    {
      assert !Plain("");
    }

    lemma RootOrParent(c: string)
      requires Complete() && c in entries
      ensures HasChain(Declared(), c)
      ensures
        var chain := ChainOf(Declared(), c);
        if |chain| == 1 then entries[c].parentName == ""
        else
          && entries[c].parentName == chain[1] && chain[1] in entries && IsChain(Declared(), chain[1..])
          && entries[chain[1]].State() == Layout(Declared(), chain[1..]) && entries[chain[1]].finalized
    {
      hide Layout, Finished, OwnFirst, OwnedWithin;
      var d := Declared();
      assert Settled(c);
      var chain := ChainOf(d, c);
      RootAlone(d, chain);
      if |chain| > 1 {
        assert d.parents[chain[0]] == chain[0 + 1];
        AncestorsSettled(c, 1);
      }
    }

    /** Validating a finished table finds nothing wrong with any class. */
    method ValidateAll() returns (valid: bool)
      requires Complete()
      ensures valid
    {
      hide Passes, Complete;
      valid := true;
      var todo := entries.Keys;
      while todo != {}
        invariant todo <= entries.Keys && valid
      {
        var c :| c in todo;
        var good := ValidateClassLayout(c);
        FinishedPasses(c);
        if !good {
          valid := false;
        }
        todo := todo - {c};
      }
    }

    /** Whether a class is another one or descends from it. */
    method IsDescendantOf(descendant: string, ancestor: string) returns (r: bool)
      requires Complete()
      ensures r <==> descendant == ancestor || (descendant in entries && HasChain(Declared(), descendant) && ancestor in ChainOf(Declared(), descendant))
    {
      hide Layout, WellDeclared, IsChain, Catalogued, Covers, Holds, CoveredInTurn, Valid;
      if descendant == ancestor {
        return true;
      }
      if descendant !in entries {
        return false;
      }
      ghost var chain, line := FinishedLine(descendant);
      r := WalkUp(entries[descendant].parent, ancestor, line[1..]);
      assert chain == [descendant] + chain[1..];
    }

    lemma FinishedLine(c: string) returns (chain: seq<string>, line: seq<ClassTableEntry>)
      requires Complete() && c in entries
      ensures HasChain(Declared(), c) && chain == ChainOf(Declared(), c) && chain != [] && chain[0] == c
      ensures IsLine(line) && line[0] == entries[c] && NamesOf(line, chain)
      ensures if |line| == 1 then entries[c].parent == null else IsLine(line[1..]) && entries[c].parent == line[1]
      ensures NamesOf(line[1..], chain[1..])
    {
      hide Layout, Finished, OwnFirst, OwnedWithin, Catalogued, Covers, Holds, WellDeclared, HasChain, ChainOf, IsChain;
      chain := LinkedChain(c);
      var table := entries;
      line := seq(|chain|, i requires 0 <= i < |chain| && chain[i] in table => table[chain[i]]);
      if |line| > 1 {
        assert line[0].parent == line[0 + 1];
        LineTail(line);
      }
    }

    /** The chain of a finished class, spelled out as pointers. */
    lemma LinkedChain(c: string) returns (chain: seq<string>)
      requires Complete() && c in entries
      ensures HasChain(Declared(), c) && chain == ChainOf(Declared(), c) && chain != [] && chain[0] == c
      ensures forall i :: 0 <= i < |chain| ==> chain[i] in entries && entries[chain[i]].name == chain[i]
      ensures forall i :: 0 <= i < |chain| - 1 ==> entries[chain[i]].parent == entries[chain[i + 1]]
      ensures entries[chain[|chain| - 1]].parent == null
    {
      hide Layout, Finished, OwnFirst, OwnedWithin, Catalogued, Covers;
      assert Settled(c);
      chain := ChainOf(Declared(), c);
      forall i | 0 <= i < |chain|
        ensures chain[i] in entries
        ensures if i == |chain| - 1 then entries[chain[i]].parent == null else entries[chain[i]].parent == entries[chain[i + 1]]
      {
        LinkSettled(c, i);
      }
    }
  }
}
