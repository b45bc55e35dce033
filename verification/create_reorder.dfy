/** Constructors: assignments to members are moved before calls of SUPER.CREATE. */
module CreateReorder {
  import opened Wrappers

  /** What is assigned to: a member of some object, a plain name, or anything else. */
  datatype Target = Member(owner: string, field: string) | Name(x: string) | Elsewhere

  datatype Callee = Super(name: string) | Routine(name: string)

  /** Statements carry a number, so that equal ones can be told apart. */
  datatype Stmt =
    | Assign(targets: seq<Target>, id: nat)
    | Call(callee: Callee, id: nat)
    | Other(id: nat)

  /** The member variables of the class being visited; None outside a class, or when it is not in the table. */
  type Members = Option<set<string>>

  datatype Kind = ThisAssignment | SuperCreate | Rest

  predicate AssignsMember(members: Members, t: Target) {
    match t
    case Member(owner, _) => owner == "_this"
    case Name(x) => members.Some? && x in members.value
    case Elsewhere => false
  }

  predicate IsThisAssignment(members: Members, s: Stmt) {
    s.Assign? && exists i :: 0 <= i < |s.targets| && AssignsMember(members, s.targets[i])
  }

  predicate IsSuperCreate(s: Stmt) {
    s.Call? && s.callee == Super("CREATE")
  }

  function KindOf(members: Members, s: Stmt): Kind {
    if IsThisAssignment(members, s) then ThisAssignment else if IsSuperCreate(s) then SuperCreate else Rest
  }

  /** What the kinds are: assignments with a target `_this.f` or a member's bare name, calls of SUPER.CREATE, the rest. */
  lemma KindsExactly(members: Members, s: Stmt)
    ensures
      KindOf(members, s) == ThisAssignment <==>
        s.Assign? && exists t :: t in s.targets && ((t.Member? && t.owner == "_this") || (t.Name? && members.Some? && t.x in members.value))
    ensures KindOf(members, s) == SuperCreate <==> exists id :: s == Call(Super("CREATE"), id)
    ensures forall name, id :: name != "CREATE" ==> KindOf(members, Call(Super(name), id)) == Rest && KindOf(members, Call(Routine(name), id)) == Rest
  {
    if s.Call? && s.callee == Super("CREATE") { assert s == Call(Super("CREATE"), s.id); }
  }

  /** The statements of one kind, in their order. */
  function Of(members: Members, kind: Kind, ss: seq<Stmt>): (r: seq<Stmt>)
    ensures forall i :: 0 <= i < |r| ==> KindOf(members, r[i]) == kind
  {
    if ss == [] then []
    else
      var rest := Of(members, kind, ss[..|ss| - 1]);
      if KindOf(members, ss[|ss| - 1]) == kind then rest + [ss[|ss| - 1]] else rest
  }

  /** Some call of SUPER.CREATE stands before an assignment to a member. */
  ghost predicate Violated(members: Members, ss: seq<Stmt>) {
    exists i, j :: 0 <= i < j < |ss| && KindOf(members, ss[i]) == SuperCreate && KindOf(members, ss[j]) == ThisAssignment
  }

  function Sorted(members: Members, ss: seq<Stmt>): seq<Stmt> {
    Of(members, ThisAssignment, ss) + Of(members, SuperCreate, ss) + Of(members, Rest, ss)
  }

  /** The reordered body, and whether anything was reordered. */
  ghost function Reorder(members: Members, ss: seq<Stmt>): (seq<Stmt>, bool) {
    if Violated(members, ss) then (Sorted(members, ss), true) else (ss, false)
  }

  // ----- the pass -----

  method CheckMember(members: Members, s: Stmt) returns (r: bool)
    ensures r <==> IsThisAssignment(members, s)
  {
    if !s.Assign? {
      return false;
    }
    var i := 0;
    while i < |s.targets|
      invariant 0 <= i <= |s.targets| && forall j :: 0 <= j < i ==> !AssignsMember(members, s.targets[j])
    {
      if AssignsMember(members, s.targets[i]) {
        return true;
      }
      i := i + 1;
    }
    return false;
  }

  /** The statements at some indices. */
  function At(ss: seq<Stmt>, indices: seq<nat>): seq<Stmt>
    requires forall i :: 0 <= i < |indices| ==> indices[i] < |ss|
  {
    seq(|indices|, i requires 0 <= i < |indices| => ss[indices[i]])
  }

  /** Indices in rising order, all of them below n. */
  predicate Rising(indices: seq<nat>, n: nat) {
    (forall i :: 0 <= i < |indices| ==> indices[i] < n) && forall i, j :: 0 <= i < j < |indices| ==> indices[i] < indices[j]
  }

  ghost predicate Collected(members: Members, ss: seq<Stmt>, kind: Kind, indices: seq<nat>, n: nat)
    requires n <= |ss|
  {
    && Rising(indices, n) && At(ss, indices) == Of(members, kind, ss[..n])
    && forall i :: 0 <= i < n ==> (KindOf(members, ss[i]) == kind <==> i in indices)
  }

  lemma CollectedNext(members: Members, ss: seq<Stmt>, kind: Kind, indices: seq<nat>, n: nat)
    requires n < |ss| && Collected(members, ss, kind, indices, n)
    ensures KindOf(members, ss[n]) == kind ==> Collected(members, ss, kind, indices + [n], n + 1)
    ensures KindOf(members, ss[n]) != kind ==> Collected(members, ss, kind, indices, n + 1)
  {
    hide KindOf;
    assert ss[..n + 1][..n] == ss[..n] && ss[..n + 1][n] == ss[n];
    if KindOf(members, ss[n]) == kind {
      assert At(ss, indices + [n]) == At(ss, indices) + [ss[n]];
    }
  }

  /** The indices of the three kinds of statements. */
  method CollectIndices(members: Members, ss: seq<Stmt>) returns (assigns: seq<nat>, supers: seq<nat>, others: seq<nat>)
    ensures Collected(members, ss, ThisAssignment, assigns, |ss|)
    ensures Collected(members, ss, SuperCreate, supers, |ss|)
    ensures Collected(members, ss, Rest, others, |ss|)
  {
    hide KindOf, Rising;
    assigns, supers, others := [], [], [];
    var i := 0;
    assert Rising([], 0) by { NoIndices(); }
    while i < |ss|
      invariant 0 <= i <= |ss|
      invariant Collected(members, ss, ThisAssignment, assigns, i)
      invariant Collected(members, ss, SuperCreate, supers, i)
      invariant Collected(members, ss, Rest, others, i)
    {
      CollectedNext(members, ss, ThisAssignment, assigns, i);
      CollectedNext(members, ss, SuperCreate, supers, i);
      CollectedNext(members, ss, Rest, others, i);
      hide Collected;
      var isThis := CheckMember(members, ss[i]);
      KindTest(members, ss[i]);
      if isThis {
        assigns := assigns + [i];
      } else if IsSuperCreate(ss[i]) {
        supers := supers + [i];
      } else {
        others := others + [i];
      }
      i := i + 1;
    }
  }

  lemma NoIndices()
    ensures Rising([], 0)
  {
  }

  /** Three index vectors, a test of every pair, and the new vector. */
  method ReorderBody(members: Members, ss: seq<Stmt>) returns (r: seq<Stmt>, changed: bool)
    ensures (r, changed) == Reorder(members, ss)
  {
    hide KindOf, Violated, Of;
    var assigns, supers, others := CollectIndices(members, ss);
    var needed := SomeBefore(supers, assigns);
    BeforeIsViolated(members, ss, supers, assigns);
    if !needed {
      return ss, false;
    }
    assert ss[..|ss|] == ss;
    return At(ss, assigns) + At(ss, supers) + At(ss, others), true;
  }

  lemma KindTest(members: Members, s: Stmt)
    ensures KindOf(members, s) == if IsThisAssignment(members, s) then ThisAssignment else if IsSuperCreate(s) then SuperCreate else Rest
  {
  }

  /** Whether some index of the first vector is below one of the second. */
  method SomeBefore(a: seq<nat>, b: seq<nat>) returns (r: bool)
    ensures r <==> exists i, j :: 0 <= i < |a| && 0 <= j < |b| && a[i] < b[j]
  {
    var i := 0;
    while i < |a|
      invariant 0 <= i <= |a| && forall k, j :: 0 <= k < i && 0 <= j < |b| ==> a[k] >= b[j]
    {
      var j := 0;
      while j < |b|
        invariant 0 <= j <= |b| && forall l :: 0 <= l < j ==> a[i] >= b[l]
      {
        if a[i] < b[j] {
          return true;
        }
        j := j + 1;
      }
      i := i + 1;
    }
    return false;
  }

  lemma BeforeIsViolated(members: Members, ss: seq<Stmt>, supers: seq<nat>, assigns: seq<nat>)
    requires Collected(members, ss, SuperCreate, supers, |ss|) && Collected(members, ss, ThisAssignment, assigns, |ss|)
    ensures (exists i, j :: 0 <= i < |supers| && 0 <= j < |assigns| && supers[i] < assigns[j]) <==> Violated(members, ss)
  {
    hide KindOf;
    if Violated(members, ss) {
      var i, j :| 0 <= i < j < |ss| && KindOf(members, ss[i]) == SuperCreate && KindOf(members, ss[j]) == ThisAssignment;
      assert i in supers && j in assigns;
      var k :| 0 <= k < |supers| && supers[k] == i;
      var l :| 0 <= l < |assigns| && assigns[l] == j;
    }
    if exists i, j :: 0 <= i < |supers| && 0 <= j < |assigns| && supers[i] < assigns[j] {
      var i, j :| 0 <= i < |supers| && 0 <= j < |assigns| && supers[i] < assigns[j];
      assert supers[i] in supers && assigns[j] in assigns;
      assert KindOf(members, ss[supers[i]]) == SuperCreate && KindOf(members, ss[assigns[j]]) == ThisAssignment;
    }
  }

  // ----- what it guarantees -----

  lemma OfStep(members: Members, kind: Kind, ss: seq<Stmt>)
    requires ss != []
    ensures
      var n := |ss| - 1;
      multiset(Of(members, kind, ss)) == multiset(Of(members, kind, ss[..n])) + if KindOf(members, ss[n]) == kind then multiset{ss[n]} else multiset{}
  {
    hide KindOf;
  }

  lemma Sums(a: seq<Stmt>, b: seq<Stmt>, c: seq<Stmt>)
    ensures multiset(a + b + c) == multiset(a) + multiset(b) + multiset(c)
  {
  }

  lemma {:induction false} Partition(members: Members, ss: seq<Stmt>)
    ensures multiset(Sorted(members, ss)) == multiset(ss)
    decreases |ss|
  {
    hide KindOf, Of;
    Sums(Of(members, ThisAssignment, ss), Of(members, SuperCreate, ss), Of(members, Rest, ss));
    if ss == [] {
      EmptyOf(members);
    } else {
      var n := |ss| - 1;
      Partition(members, ss[..n]);
      Sums(Of(members, ThisAssignment, ss[..n]), Of(members, SuperCreate, ss[..n]), Of(members, Rest, ss[..n]));
      OfStep(members, ThisAssignment, ss);
      OfStep(members, SuperCreate, ss);
      OfStep(members, Rest, ss);
      assert ss == ss[..n] + [ss[n]];
      assert multiset(ss) == multiset(ss[..n]) + multiset{ss[n]};
    }
  }

  lemma EmptyOf(members: Members)
    ensures forall kind :: Of(members, kind, []) == []
  {
  }

  lemma {:induction false} OfConcat(members: Members, kind: Kind, a: seq<Stmt>, b: seq<Stmt>)
    ensures Of(members, kind, a + b) == Of(members, kind, a) + Of(members, kind, b)
    decreases |b|
  {
    hide KindOf;
    if b == [] {
      assert a + b == a;
    } else {
      var n := |b| - 1;
      OfConcat(members, kind, a, b[..n]);
      assert (a + b)[..|a + b| - 1] == a + b[..n] && (a + b)[|a + b| - 1] == b[n];
    }
  }

  lemma {:induction false} OfUniform(members: Members, kind: Kind, other: Kind, ss: seq<Stmt>)
    requires forall i :: 0 <= i < |ss| ==> KindOf(members, ss[i]) == other
    ensures Of(members, kind, ss) == if kind == other then ss else []
    decreases |ss|
  {
    hide KindOf;
    if ss != [] {
      var n := |ss| - 1;
      OfUniform(members, kind, other, ss[..n]);
      assert ss == ss[..n] + [ss[n]];
    }
  }

  /** Within each kind the order is what it was. */
  lemma SortedStable(members: Members, kind: Kind, ss: seq<Stmt>)
    ensures Of(members, kind, Sorted(members, ss)) == Of(members, kind, ss)
  {
    var (a, b, c) := (Of(members, ThisAssignment, ss), Of(members, SuperCreate, ss), Of(members, Rest, ss));
    hide Of, KindOf;
    OfConcat(members, kind, a + b, c);
    OfConcat(members, kind, a, b);
    OfUniform(members, kind, ThisAssignment, a);
    OfUniform(members, kind, SuperCreate, b);
    OfUniform(members, kind, Rest, c);
    match kind
    case ThisAssignment => assert a + [] + [] == a;
    case SuperCreate => assert [] + b + [] == b;
    case Rest => assert [] + [] + c == c;
  }

  lemma SortedInOrder(members: Members, ss: seq<Stmt>)
    ensures !Violated(members, Sorted(members, ss))
  {
    var (a, b, c) := (Of(members, ThisAssignment, ss), Of(members, SuperCreate, ss), Of(members, Rest, ss));
    hide Of, KindOf;
    var r := a + b + c;
    forall i | 0 <= i < |r|
      ensures KindOf(members, r[i]) == if i < |a| then ThisAssignment else if i < |a| + |b| then SuperCreate else Rest
    {
      KindAt(members, a, b, c, i);
    }
  }

  lemma KindAt(members: Members, a: seq<Stmt>, b: seq<Stmt>, c: seq<Stmt>, i: nat)
    requires i < |a| + |b| + |c| && (forall k :: 0 <= k < |a| ==> KindOf(members, a[k]) == ThisAssignment)
    requires (forall k :: 0 <= k < |b| ==> KindOf(members, b[k]) == SuperCreate) && forall k :: 0 <= k < |c| ==> KindOf(members, c[k]) == Rest
    ensures KindOf(members, (a + b + c)[i]) == if i < |a| then ThisAssignment else if i < |a| + |b| then SuperCreate else Rest
  {
    hide KindOf;
  }

  /**
    Reordering: a permutation that keeps the order within each kind, after which no SUPER.CREATE precedes an
    assignment to a member; it reports true exactly when one did before, and doing it again changes nothing.
   */
  lemma ReorderCorrect(members: Members, ss: seq<Stmt>)
    ensures
      var (r, changed) := Reorder(members, ss);
      && multiset(r) == multiset(ss) && (forall kind :: Of(members, kind, r) == Of(members, kind, ss))
      && !Violated(members, r) && (changed <==> Violated(members, ss)) && (!changed ==> r == ss)
      && Reorder(members, r) == (r, false)
  {
    hide Of, Sorted, Violated;
    Partition(members, ss);
    SortedInOrder(members, ss);
    forall kind { SortedStable(members, kind, ss); }
  }
}
