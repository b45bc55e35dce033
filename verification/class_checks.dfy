/** What the layout validator looks at, and why every finished layout passes. */
module ClassChecks {
  import opened Wrappers
  import opened ClassLayout
  import opened ClassTheorems

  /** Where "::" occurs last among the first n characters. */
  function LastSeparator(q: string, n: nat): Option<nat>
    requires n <= |q|
  {
    if n < 2 then None
    else if q[n - 2] == ':' && q[n - 1] == ':' then Some(n - 2)
    else LastSeparator(q, n - 1)
  }

  function SimpleName(q: string): Option<string> {
    match LastSeparator(q, |q|)
    case None => None
    case Some(p) => if p + 2 <= |q| then Some(q[p + 2..]) else None
  }

  lemma {:induction false} SeparatorOfMangle(c: string, m: string, n: nat)
    requires Plain(c) && Plain(m) && |c| + 2 <= n <= |c| + 2 + |m|
    ensures LastSeparator(c + "::" + m, n) == Some(|c|)
    decreases n
  {
    var q := c + "::" + m;
    if n > |c| + 2 {
      assert q[n - 1] == m[n - |c| - 3];
      SeparatorOfMangle(c, m, n - 1);
    }
  }

  lemma SimpleOfMangle(c: string, m: string)
    requires Plain(c) && Plain(m)
    ensures SimpleName(Mangle(c, m)) == Some(m)
  {
    hide Plain, IsQualified, LastSeparator;
    PlainNotQualified(m);
    SeparatorOfMangle(c, m, |c| + 2 + |m|);
    assert (c + "::" + m)[|c| + 2..] == m;
  }

  ghost predicate SeparatorAt(q: string, p: int) {
    0 <= p < |q| - 1 && q[p] == ':' && q[p + 1] == ':'
  }

  lemma {:induction false} LastSeparatorExactly(q: string, n: nat)
    requires n <= |q|
    ensures
      match LastSeparator(q, n)
      case None => forall p :: p + 2 <= n ==> !SeparatorAt(q, p)
      case Some(l) => l + 2 <= n && SeparatorAt(q, l) && forall p :: l < p && p + 2 <= n ==> !SeparatorAt(q, p)
    decreases n
  {
    if n >= 2 {
      LastSeparatorExactly(q, n - 1);
      assert SeparatorAt(q, n - 2) <==> q[n - 2] == ':' && q[n - 1] == ':';
    }
  }

  /** The simple name is what follows the last "::"; a name without one has none. */
  lemma SimpleNameExactly(q: string)
    ensures SimpleName(q) == None <==> forall p :: !SeparatorAt(q, p)
    ensures forall p :: SeparatorAt(q, p) && (forall k :: p < k ==> !SeparatorAt(q, k)) ==> SimpleName(q) == Some(q[p + 2..])
  {
    LastSeparatorExactly(q, |q|);
    hide LastSeparator;
    if LastSeparator(q, |q|).Some? {
      assert SeparatorAt(q, LastSeparator(q, |q|).value);
    }
  }

  /** The methods named by the first n slots; a later slot wins. */
  function SlotsByName(vtable: seq<string>, n: nat): map<string, nat>
    requires n <= |vtable|
  {
    if n == 0 then map[]
    else
      var before := SlotsByName(vtable, n - 1);
      match SimpleName(vtable[n - 1])
      case None => before
      case Some(m) => before[m := n - 1]
  }

  /** A name is known if and only if some slot has it, and its slot is the last one that does. */
  lemma {:induction false} SlotsExactly(vtable: seq<string>, n: nat, m: string)
    requires n <= |vtable|
    ensures m in SlotsByName(vtable, n) <==> exists k :: 0 <= k < n && SimpleName(vtable[k]) == Some(m)
    ensures m in SlotsByName(vtable, n) ==>
      var slot := SlotsByName(vtable, n)[m];
      && slot < n && SimpleName(vtable[slot]) == Some(m)
      && forall k :: slot < k < n ==> SimpleName(vtable[k]) != Some(m)
    decreases n
  {
    hide SimpleName;
    if n > 0 { SlotsExactly(vtable, n - 1, m); }
  }

  predicate StartsWith(s: string, prefix: string) {
    |prefix| <= |s| && s[..|prefix|] == prefix
  }

  lemma StartsExactly(s: string, prefix: string)
    ensures StartsWith(s, prefix) <==> exists rest: string :: s == prefix + rest
  {
    if StartsWith(s, prefix) {
      assert s == prefix + s[|prefix|..];
    }
  }

  // ----- the checks -----

  predicate FieldsAbove(e: Entry) {
    forall f :: f in e.fields ==> e.fields[f] >= WORD
  }

  predicate FieldsFit(e: Entry) {
    forall f :: f in e.fields ==> e.fields[f] + WORD <= e.size
  }

  /** A method of the class itself sits in the slot its parent's vtable has for that name. */
  predicate OverridePlaced(c: string, e: Entry, slots: map<string, nat>, q: string)
    requires q in e.methods
  {
    StartsWith(q, c + "::") && e.methods[q].name in slots ==>
      var slot := slots[e.methods[q].name]; slot < |e.vtable| && e.vtable[slot] == q
  }

  predicate OverridesPlaced(c: string, e: Entry, parent: Entry) {
    forall q :: q in e.methods ==> OverridePlaced(c, e, SlotsByName(parent.vtable, |parent.vtable|), q)
  }

  predicate Extending(e: Entry, parent: Entry) {
    (forall f :: f in parent.fields ==> f in e.fields) && e.size >= parent.size
  }

  // ----- finished layouts pass -----

  lemma {:induction false} SlotsByNameSound(e: Entry, n: nat)
    requires Finished(e) && n <= |e.vtable|
    ensures forall m :: m in SlotsByName(e.vtable, n) ==> m in e.simple && e.simple[m].slot == SlotsByName(e.vtable, n)[m]
    decreases n
  {
    hide Mangle, Plain;
    if n > 0 {
      SlotsByNameSound(e, n - 1);
      assert Held(e, n - 1);
      var m :| m in e.simple && e.simple[m].slot == n - 1;
      assert Owned(e.simple[m].qualified, m);
      var c :| Plain(c) && e.simple[m].qualified == Mangle(c, m);
      SimpleOfMangle(c, m);
    }
  }

  lemma OwnPrefix(q: string, c: string, m: string)
    requires Owned(q, m) && Plain(c) && StartsWith(q, c + "::")
    ensures q == Mangle(c, m)
  {
    PlainNotQualified(m);
    var c' :| Plain(c') && q == Mangle(c', m);
    FirstColon(c', m);
    assert q[|c|] == (c + "::")[|c|] == ':';
    assert forall i :: 0 <= i < |c| ==> q[i] == (c + "::")[i] == c[i];
    assert |c| == |c'|;
    assert c == q[..|c|] == c';
  }

  lemma OverridesAlwaysPlaced(c: string, e: Entry, parent: Entry)
    requires Finished(e) && Finished(parent) && OwnFirst(e, c) && Covers(parent, e) && Plain(c)
    ensures OverridesPlaced(c, e, parent)
  {
    hide Mangle, Plain, StartsWith, SlotsByName, Held;
    SlotsByNameSound(parent, |parent.vtable|);
    var slots := SlotsByName(parent.vtable, |parent.vtable|);
    forall q | q in e.methods ensures OverridePlaced(c, e, slots, q) {
      var m := e.methods[q].name;
      assert Owned(q, m);
      if StartsWith(q, c + "::") && m in slots {
        OwnPrefix(q, c, m);
        assert e.simple[m] == e.methods[q];
      }
    }
  }

  /** All checks of the validator on one class. */
  ghost predicate Passes(c: string, e: Entry, parentName: string, parent: Option<Entry>, parentFinal: bool) {
    && FieldsAbove(e) && FieldsFit(e)
    && (parentName != "" ==>
          && parent.Some? && Extending(e, parent.value)
          && (parentFinal ==> OverridesPlaced(c, e, parent.value)))
  }

  /** But for overrides, what passes are the entries whose fields lie behind the vtable pointer, in the instance, and include the parent's. */
  lemma ChecksExactly(c: string, e: Entry, parentName: string, parent: Option<Entry>)
    ensures
      Passes(c, e, parentName, parent, false) <==>
        && (forall f :: f in e.fields ==> 8 <= e.fields[f] <= e.size - 8)
        && (parentName != "" ==> parent.Some? && parent.value.fields.Keys <= e.fields.Keys && parent.value.size <= e.size)
  {
    if parent.Some? {
      assert parent.value.fields.Keys <= e.fields.Keys <==> forall f :: f in parent.value.fields ==> f in e.fields;
    }
  }

  lemma LayoutPasses(d: Classes, chain: seq<string>)
    requires WellDeclared(d) && IsChain(d, chain)
    ensures
      var c := chain[0];
      if |chain| == 1 then Passes(c, Layout(d, chain), "", None, false)
      else IsChain(d, chain[1..]) && Passes(c, Layout(d, chain), d.parents[c], Some(Layout(d, chain[1..])), true)
  {
    hide Layout, Indexed, Catalogued, OwnFirst, OverridesPlaced;
    var e := Layout(d, chain);
    LayoutPacked(d, chain);
    PackedFits(e.fields, ChainFields(d, chain), e.size);
    if |chain| > 1 {
      LayoutCovers(d, chain);
      LayoutPacked(d, chain[1..]);
      OverridesAlwaysPlaced(chain[0], e, Layout(d, chain[1..]));
    }
  }

  lemma PackedFits(fields: map<string, nat>, order: seq<string>, end: nat)
    requires Packed(fields, order, end)
    ensures forall f :: f in fields ==> WORD <= fields[f] && fields[f] + WORD <= end
  {
    forall f | f in fields ensures WORD <= fields[f] && fields[f] + WORD <= end {
      var k :| 0 <= k < |order| && order[k] == f;
    }
  }
}
