/** Dispatch through the vtable against lookup along the chain of ancestors, and how fields are packed. */
module ClassTheorems {
  import opened Wrappers
  import opened ClassLayout

  // ----- which definition counts -----

  /** The class whose definition of a method counts, and whether it is virtual and final. */
  datatype Definition = Definition(owner: string, isVirtual: bool, isFinal: bool)

  /** The declarations of m in class c, in order: a definition stands unless it would override a final one. */
  function AcceptIn(members: seq<Member>, c: string, m: string, cur: Option<Definition>): Option<Definition>
    decreases |members|
  {
    if members == [] then cur
    else
      var next :=
        if members[0].Method? && members[0].name == m && (Reserved(m) || cur.None? || !cur.value.isFinal)
        then Some(Definition(c, members[0].isVirtual, members[0].isFinal))
        else cur;
      AcceptIn(members[1..], c, m, next)
  }

  /** The most derived accepted definition of m on a chain; no table is involved. */
  function Accepted(d: Classes, chain: seq<string>, m: string): Option<Definition>
    requires IsChain(d, chain)
    decreases |chain|
  {
    var up := if |chain| == 1 then None else (ChainTail(d, chain); Accepted(d, chain[1..], m));
    var here := AcceptIn(d.members[chain[0]], chain[0], m, up);
    if here.None? && Reserved(m) then Some(Definition(chain[0], false, false)) else here
  }

  /** What an entry's tables say about m. */
  ghost predicate Agrees(e: Entry, m: string, def: Option<Definition>) {
    && (m in e.simple <==> def.Some?)
    && (def.Some? ==>
          && e.simple[m].qualified == Mangle(def.value.owner, m)
          && e.simple[m].isVirtual == def.value.isVirtual && e.simple[m].isFinal == def.value.isFinal)
  }

  lemma ProcessAgrees(e: Entry, parent: Option<Entry>, c: string, n: string, isVirtual: bool, isFinal: bool, m: string, def: Option<Definition>)
    requires Indexed(e) && Inherits(parent, e) && Agrees(e, m, def)
    ensures
      Agrees(Process(e, parent, c, n, isVirtual, isFinal), m,
             if n == m && (Reserved(m) || def.None? || !def.value.isFinal) then Some(Definition(c, isVirtual, isFinal)) else def)
  {
    hide Indexed, Inherits, Mangle, Place;
    if !Rejected(e, n) { ProcessInstalls(e, parent, c, n, isVirtual, isFinal); }
  }

  lemma {:induction false} MembersAgree(e: Entry, offset: nat, parent: Option<Entry>, c: string, members: seq<Member>, m: string, def: Option<Definition>)
    requires Sane(e, parent, c) && Plain(c) && WellNamed(members) && Agrees(e, m, def)
    ensures Agrees(ProcessMembers(e, offset, parent, c, members).0, m, AcceptIn(members, c, m, def))
    decreases |members|
  {
    hide Indexed, Catalogued, OwnFirst, Inherits, Process, Agrees;
    if members != [] {
      match members[0]
      case Variables(names) =>
        var (e1, offset1) := AddVariables(e, offset, names);
        VariablesKeepMethods(e, offset, names);
        SaneSame(e, e1, parent, c);
        AgreesSame(e, e1, m, def);
        MembersAgree(e1, offset1, parent, c, members[1..], m, def);
      case Method(n, isVirtual, isFinal) =>
        ProcessSane(e, parent, c, n, isVirtual, isFinal);
        ProcessAgrees(e, parent, c, n, isVirtual, isFinal, m, def);
        var next := if n == m && (Reserved(m) || def.None? || !def.value.isFinal) then Some(Definition(c, isVirtual, isFinal)) else def;
        MembersAgree(Process(e, parent, c, n, isVirtual, isFinal), offset, parent, c, members[1..], m, next);
    }
  }

  lemma AgreesSame(e: Entry, r: Entry, m: string, def: Option<Definition>)
    requires Agrees(e, m, def) && r.simple == e.simple
    ensures Agrees(r, m, def)
  {
  }

  /** A reserved slot is empty exactly as long as its method is missing. */
  lemma SlotEmpty(e: Entry, slot: nat, m: string)
    requires Indexed(e) && Catalogued(e) && ((slot == 0 && m == "CREATE") || (slot == 1 && m == "RELEASE"))
    ensures e.vtable[slot] == "" <==> m !in e.simple
  {
    hide Mangle;
    if m in e.simple {
      var c :| Plain(c) && e.simple[m].qualified == Mangle(c, m);
      MangledNonempty(c, m);
    }
    if e.vtable[slot] != "" {
      assert Held(e, slot);
    }
  }

  lemma MangledNonempty(c: string, m: string)
    requires Plain(m)
    ensures Mangle(c, m) != ""
  {
  }

  lemma SynthesizeAgrees(e: Entry, parent: Option<Entry>, c: string, slot: nat, n: string, m: string, def: Option<Definition>)
    requires Sane(e, parent, c) && Plain(c) && ((slot == 0 && n == "CREATE") || (slot == 1 && n == "RELEASE")) && Agrees(e, m, def)
    ensures |e.vtable| >= 2
    ensures Agrees(Synthesize(e, parent, c, slot, n), m, if def.None? && n == m then Some(Definition(c, false, false)) else def)
  {
    hide Indexed, Catalogued, OwnFirst, Inherits, Process;
    SaneSlots(e, parent, c);
    SlotEmpty(e, slot, n);
    ProcessAgrees(e, parent, c, n, false, false, m, def);
  }

  lemma DeriveAgrees(parent: Option<Entry>, c: string, members: seq<Member>, m: string, up: Option<Definition>)
    requires (parent.Some? ==> Finished(parent.value) && Foreign(parent.value, c)) && Plain(c) && WellNamed(members)
    requires if parent.Some? then Agrees(parent.value, m, up) else up.None?
    ensures
      var here := AcceptIn(members, c, m, up);
      Agrees(Derive(parent, c, members), m, if here.None? && Reserved(m) then Some(Definition(c, false, false)) else here)
  {
    hide Indexed, Catalogued, OwnFirst, Inherits, Process, ProcessMembers, AcceptIn;
    SeedSane(parent, c);
    var offset := if parent.Some? then parent.value.size else WORD;
    var here := AcceptIn(members, c, m, up);
    MembersAgree(Seed(parent), offset, parent, c, members, m, up);
    var e1 := ProcessMembers(Seed(parent), offset, parent, c, members).0;
    SynthesizeAgrees(e1, parent, c, 0, "CREATE", m, here);
    SynthesizeSane(e1, parent, c, 0, "CREATE");
    var e2 := Synthesize(e1, parent, c, 0, "CREATE");
    SynthesizeAgrees(e2, parent, c, 1, "RELEASE", m, if here.None? && m == "CREATE" then Some(Definition(c, false, false)) else here);
  }

  /** The tables of a class know exactly the accepted definitions of its chain. */
  lemma {:induction false} LayoutAgrees(d: Classes, chain: seq<string>, m: string)
    requires WellDeclared(d) && IsChain(d, chain)
    ensures Agrees(Layout(d, chain), m, Accepted(d, chain, m))
    decreases |chain|
  {
    hide Indexed, Catalogued, OwnFirst, Inherits, Derive, AcceptIn, Agrees, OwnedWithin;
    if |chain| == 1 {
      DeriveAgrees(None, chain[0], d.members[chain[0]], m, None);
    } else {
      ChainTail(d, chain);
      LayoutAgrees(d, chain[1..], m);
      OwnedForeign(d, chain, Layout(d, chain[1..]));
      DeriveAgrees(Some(Layout(d, chain[1..])), chain[0], d.members[chain[0]], m, Accepted(d, chain[1..], m));
    }
  }

  // ----- slots -----

  lemma LayoutCovers(d: Classes, chain: seq<string>)
    requires WellDeclared(d) && IsChain(d, chain) && |chain| > 1
    ensures IsChain(d, chain[1..]) && Covers(Layout(d, chain[1..]), Layout(d, chain))
  {
    hide Derive, Indexed, Catalogued, OwnFirst, OwnedWithin, Covers;
    ChainTail(d, chain);
    OwnedForeign(d, chain, Layout(d, chain[1..]));
  }

  lemma CoversTrans(a: Entry, b: Entry, c: Entry)
    requires Covers(a, b) && Covers(b, c)
    ensures Covers(a, c)
  {
  }

  lemma {:induction false} AncestorCovers(d: Classes, chain: seq<string>, k: nat)
    requires WellDeclared(d) && IsChain(d, chain) && k < |chain|
    ensures IsChain(d, chain[k..]) && Covers(Layout(d, chain[k..]), Layout(d, chain))
    decreases k
  {
    hide Layout, Finished, OwnFirst, OwnedWithin;
    ChainSuffix(d, chain, k);
    if k == 0 {
      assert chain[0..] == chain;
    } else {
      hide Covers;
      LayoutCovers(d, chain);
      AncestorCovers(d, chain[1..], k - 1);
      assert chain[1..][k - 1..] == chain[k..];
      CoversTrans(Layout(d, chain[k..]), Layout(d, chain[1..]), Layout(d, chain));
    }
  }

  /**
    Dispatch: every method of an ancestor has the same slot in the class itself, and what the class's
    vtable holds there is the most derived accepted definition of the method.
   */
  lemma VtableDispatch(d: Classes, chain: seq<string>, k: nat, m: string)
    requires WellDeclared(d) && IsChain(d, chain) && k < |chain|
    requires IsChain(d, chain[k..]) && m in Layout(d, chain[k..]).simple
    ensures
      var (a, e) := (Layout(d, chain[k..]), Layout(d, chain));
      var def := Accepted(d, chain, m);
      && def.Some? && m in e.simple && e.simple[m].slot == a.simple[m].slot < |e.vtable|
      && e.vtable[a.simple[m].slot] == Mangle(def.value.owner, m)
  {
    hide Layout, Accepted, Mangle, Held;
    AncestorCovers(d, chain, k);
    LayoutAgrees(d, chain, m);
  }

  /** Slots: different methods have different ones, every slot has its method, CREATE and RELEASE have 0 and 1. */
  lemma SlotsDistinct(d: Classes, chain: seq<string>)
    requires WellDeclared(d) && IsChain(d, chain)
    ensures
      var e := Layout(d, chain);
      && (forall m, n :: m in e.simple && n in e.simple && m != n ==> e.simple[m].slot != e.simple[n].slot)
      && (forall m :: m in e.simple ==> e.simple[m].slot < |e.vtable| && SlotFits(m, e.simple[m].slot))
      && (forall i :: 0 <= i < |e.vtable| ==> Held(e, i))
      && "CREATE" in e.simple && "RELEASE" in e.simple
  {
    hide Layout;
    var e := Layout(d, chain);
    SlotEmpty(e, 0, "CREATE");
    SlotEmpty(e, 1, "RELEASE");
  }

  lemma {:induction false} FinalStands(members: seq<Member>, c: string, m: string, cur: Option<Definition>)
    requires cur.Some? && cur.value.isFinal && !Reserved(m)
    ensures AcceptIn(members, c, m, cur) == cur
    decreases |members|
  {
    if members != [] { FinalStands(members[1..], c, m, cur); }
  }

  /** A final method is the same in every descendant. */
  lemma {:induction false} FinalKept(d: Classes, chain: seq<string>, k: nat, m: string)
    requires WellDeclared(d) && IsChain(d, chain) && k < |chain| && IsChain(d, chain[k..]) && !Reserved(m)
    requires Accepted(d, chain[k..], m).Some? && Accepted(d, chain[k..], m).value.isFinal
    ensures Accepted(d, chain, m) == Accepted(d, chain[k..], m)
    decreases k
  {
    if k == 0 {
      assert chain[0..] == chain;
    } else {
      ChainTail(d, chain);
      assert chain[1..][k - 1..] == chain[k..];
      FinalKept(d, chain[1..], k - 1, m);
      FinalStands(d.members[chain[0]], chain[0], m, Accepted(d, chain[1..], m));
    }
  }

  // ----- fields -----

  /** The names of a LET, each listed where it is declared first. */
  function Listing(order: seq<string>, names: seq<string>): seq<string>
    decreases |names|
  {
    if names == [] then order else Listing(if names[0] in order then order else order + [names[0]], names[1..])
  }

  function FieldNames(order: seq<string>, members: seq<Member>): seq<string>
    decreases |members|
  {
    if members == [] then order
    else FieldNames(if members[0].Variables? then Listing(order, members[0].names) else order, members[1..])
  }

  /** The fields of a class in order of declaration, those of its ancestors first; no table is involved. */
  function ChainFields(d: Classes, chain: seq<string>): seq<string>
    requires IsChain(d, chain)
    decreases |chain|
  {
    FieldNames(if |chain| == 1 then [] else (ChainTail(d, chain); ChainFields(d, chain[1..])), d.members[chain[0]])
  }

  /** The k-th field stands in the k-th word behind the vtable pointer. */
  ghost predicate Packed(fields: map<string, nat>, order: seq<string>, end: nat) {
    && end == 8 + 8 * |order|
    && (forall i, j :: 0 <= i < j < |order| ==> order[i] != order[j])
    && (forall f :: f in fields <==> f in order)
    && (forall k :: 0 <= k < |order| ==> fields[order[k]] == 8 + 8 * k)
  }

  lemma {:induction false} VariablesPacked(e: Entry, offset: nat, names: seq<string>, order: seq<string>)
    requires Packed(e.fields, order, offset)
    ensures var (r, end) := AddVariables(e, offset, names); Packed(r.fields, Listing(order, names), end)
    decreases |names|
  {
    hide Packed, AddVariable;
    if names != [] {
      VariablePacked(e, offset, names[0], order);
      if names[0] in e.fields {
        VariablesPacked(e, offset, names[1..], order);
      } else {
        VariablesPacked(AddVariable(e, names[0], offset), offset + WORD, names[1..], order + [names[0]]);
      }
    }
  }

  lemma VariablePacked(e: Entry, offset: nat, name: string, order: seq<string>)
    requires Packed(e.fields, order, offset)
    ensures name in e.fields <==> name in order
    ensures name !in order ==> Packed(AddVariable(e, name, offset).fields, order + [name], offset + WORD)
  {
    var more := order + [name];
    assert forall k :: 0 <= k < |order| ==> more[k] == order[k] && order[k] in order;
  }

  lemma {:induction false} MembersPacked(e: Entry, offset: nat, parent: Option<Entry>, c: string, members: seq<Member>, order: seq<string>)
    requires Sane(e, parent, c) && Plain(c) && WellNamed(members) && Packed(e.fields, order, offset)
    ensures var (r, end) := ProcessMembers(e, offset, parent, c, members); Packed(r.fields, FieldNames(order, members), end)
    decreases |members|
  {
    hide Indexed, Catalogued, OwnFirst, Inherits, Process, Packed;
    if members != [] {
      match members[0]
      case Variables(names) =>
        var (e1, offset1) := AddVariables(e, offset, names);
        VariablesKeepMethods(e, offset, names);
        SaneSame(e, e1, parent, c);
        VariablesPacked(e, offset, names, order);
        MembersPacked(e1, offset1, parent, c, members[1..], Listing(order, names));
      case Method(m, isVirtual, isFinal) =>
        ProcessSane(e, parent, c, m, isVirtual, isFinal);
        ProcessFields(e, parent, c, m, isVirtual, isFinal);
        MembersPacked(Process(e, parent, c, m, isVirtual, isFinal), offset, parent, c, members[1..], order);
    }
  }

  lemma ProcessFields(e: Entry, parent: Option<Entry>, c: string, m: string, isVirtual: bool, isFinal: bool)
    ensures Process(e, parent, c, m, isVirtual, isFinal).fields == e.fields
  {
  }

  lemma DerivePacked(parent: Option<Entry>, c: string, members: seq<Member>, order: seq<string>)
    requires (parent.Some? ==> Finished(parent.value) && Foreign(parent.value, c)) && Plain(c) && WellNamed(members)
    requires if parent.Some? then Packed(parent.value.fields, order, parent.value.size) else order == []
    ensures var r := Derive(parent, c, members); Packed(r.fields, FieldNames(order, members), r.size)
  {
    hide Indexed, Catalogued, OwnFirst, Inherits, Process, ProcessMembers;
    SeedSane(parent, c);
    var offset := if parent.Some? then parent.value.size else WORD;
    MembersPacked(Seed(parent), offset, parent, c, members, order);
    var e1 := ProcessMembers(Seed(parent), offset, parent, c, members).0;
    SaneSlots(e1, parent, c);
    SynthesizeSane(e1, parent, c, 0, "CREATE");
    var e2 := Synthesize(e1, parent, c, 0, "CREATE");
    SaneSlots(e2, parent, c);
    SynthesizeSane(e2, parent, c, 1, "RELEASE");
  }

  lemma {:induction false} ListingKeeps(order: seq<string>, names: seq<string>)
    ensures order <= Listing(order, names) && forall f :: f in Listing(order, names) <==> f in order || f in names
    decreases |names|
  {
    if names != [] {
      ListingKeeps(if names[0] in order then order else order + [names[0]], names[1..]);
      assert forall f :: f in names <==> f == names[0] || f in names[1..];
    }
  }

  predicate DeclaresField(members: seq<Member>, f: string) {
    exists i :: 0 <= i < |members| && members[i].Variables? && f in members[i].names
  }

  lemma DeclaresNext(members: seq<Member>, f: string)
    requires members != []
    ensures DeclaresField(members, f) <==> (members[0].Variables? && f in members[0].names) || DeclaresField(members[1..], f)
  {
    if DeclaresField(members, f) {
      var i :| 0 <= i < |members| && members[i].Variables? && f in members[i].names;
      if i > 0 { assert members[1..][i - 1] == members[i]; }
    }
    if DeclaresField(members[1..], f) {
      var i :| 0 <= i < |members[1..]| && members[1..][i].Variables? && f in members[1..][i].names;
      assert members[i + 1] == members[1..][i];
    }
  }

  lemma {:induction false} FieldNamesKeep(order: seq<string>, members: seq<Member>)
    ensures order <= FieldNames(order, members) && forall f :: f in FieldNames(order, members) <==> f in order || DeclaresField(members, f)
    decreases |members|
  {
    hide DeclaresField;
    if members == [] {
      assert forall f :: !DeclaresField(members, f) by { NoFields(); }
    } else {
      forall f { DeclaresNext(members, f); }
      if members[0].Variables? { ListingKeeps(order, members[0].names); }
      FieldNamesKeep(if members[0].Variables? then Listing(order, members[0].names) else order, members[1..]);
    }
  }

  lemma NoFields()
    ensures forall f :: !DeclaresField([], f)
  {
  }

  /**
    An object is the vtable pointer and one word per field, in order of declaration; what is listed are exactly the
    names declared on the chain, and a parent's fields come first, so they stay where they are.
   */
  lemma {:induction false} LayoutPacked(d: Classes, chain: seq<string>)
    requires WellDeclared(d) && IsChain(d, chain)
    ensures
      var (e, order) := (Layout(d, chain), ChainFields(d, chain));
      && Packed(e.fields, order, e.size)
      && (forall f :: f in order <==> exists i :: 0 <= i < |chain| && DeclaresField(d.members[chain[i]], f))
      && (|chain| > 1 ==> IsChain(d, chain[1..]) && ChainFields(d, chain[1..]) <= order)
    decreases |chain|
  {
    hide Derive, Indexed, Catalogued, OwnFirst, OwnedWithin, Packed, DeclaresField;
    var c := chain[0];
    if |chain| == 1 {
      DerivePacked(None, c, d.members[c], []);
      FieldNamesKeep([], d.members[c]);
    } else {
      ChainTail(d, chain);
      LayoutPacked(d, chain[1..]);
      var up := Layout(d, chain[1..]);
      var order := ChainFields(d, chain[1..]);
      OwnedForeign(d, chain, up);
      DerivePacked(Some(up), c, d.members[c], order);
      FieldNamesKeep(order, d.members[c]);
      forall f ensures (exists i :: 0 <= i < |chain| && DeclaresField(d.members[chain[i]], f))
        <==> DeclaresField(d.members[c], f) || exists i :: 0 <= i < |chain| - 1 && DeclaresField(d.members[chain[1..][i]], f)
      {
        if exists i :: 0 <= i < |chain| && DeclaresField(d.members[chain[i]], f) {
          var i :| 0 <= i < |chain| && DeclaresField(d.members[chain[i]], f);
          if i > 0 { assert chain[1..][i - 1] == chain[i]; }
        }
        if exists i :: 0 <= i < |chain| - 1 && DeclaresField(d.members[chain[1..][i]], f) {
          var i :| 0 <= i < |chain| - 1 && DeclaresField(d.members[chain[1..][i]], f);
          assert chain[i + 1] == chain[1..][i];
        }
      }
    }
  }
}
