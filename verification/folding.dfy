/** Constant folding and propagation, as functions, and what they preserve. */
module Folding {
  import opened Wrappers
  import opened MachineWords

  /** A BCPL word. */
  type Int64 = n: int | IsInt64(n) witness 0

  datatype BinOp = Add | Sub | Mul | Div | Rem | Eq | Ne | Lt | Le | Gt | Ge | And | Or | OtherBin(id: nat)

  datatype UnOp = Negate | Not | OtherUn(id: nat)

  datatype Expr =
    | Lit(n: Int64)
    | Bool(b: bool)
    | Var(x: string)
    | Bin(op: BinOp, l: Expr, r: Expr)
    | Un(uop: UnOp, e: Expr)
    | Cond(c: Expr, t: Expr, f: Expr)

  datatype Stmt =
    | Assign(x: string, e: Expr)
    | Parallel(targets: seq<string>, values: seq<Expr>)
    | Call(routine: nat, args: seq<Expr>)
    | If(c: Expr, thn: Stmt)
    | Test(c: Expr, thn: Stmt, els: Stmt)
    | While(c: Expr, body: Stmt)
    | Compound(ss: seq<Stmt>)

  type State = map<string, Int64>

  type Known = map<string, Int64>

  /**
    What the machine does beyond the language: division by zero, operators that are not folded, and
    routines, each of which changes no more than the variables it may write.
   */
  datatype Env = Env(
    divZero: Int64 -> Int64,
    remZero: Int64 -> Int64,
    bin: (nat, Int64, Int64) -> Int64,
    un: (nat, Int64) -> Int64,
    call: (nat, seq<Int64>, State) -> State,
    writes: nat -> set<string>)

  ghost predicate Honest(env: Env) {
    forall routine, args, st, x :: x !in env.writes(routine) ==> Get(env.call(routine, args, st), x) == Get(st, x)
  }

  // ----- 64-bit arithmetic -----

  function Wrap(n: int): (r: Int64)
    ensures IsInt64(n) ==> r == n
  {
    Signed64(Bits64(n))
  }

  function Abs(n: int): nat {
    if n < 0 then -n else n
  }

  function Floor(m: nat, n: nat): (q: nat)
    requires n > 0
    ensures n * q <= m < n * q + n
  {
    m / n
  }

  /** Division rounds toward zero. */
  function Quotient(a: int, b: int): int
    requires b != 0
  {
    var q := Floor(Abs(a), Abs(b));
    if (a < 0) == (b < 0) then q else 0 - q
  }

  function Remainder(a: int, b: int): int
    requires b != 0
  {
    a - b * Quotient(a, b)
  }

  function Truth(b: bool): Int64 {
    if b then -1 else 0
  }

  /** The operators that are folded; None where folding gives up. */
  function Compute(op: BinOp, a: Int64, b: Int64): Option<Int64> {
    match op
    case Add => Some(Wrap(a + b))
    case Sub => Some(Wrap(a - b))
    case Mul => Some(Wrap(a * b))
    case Div => if b == 0 then None else Some(Wrap(Quotient(a, b)))
    case Rem => if b == 0 then None else Some(Wrap(Remainder(a, b)))
    case Eq => Some(Truth(a == b))
    case Ne => Some(Truth(a != b))
    case Lt => Some(Truth(a < b))
    case Le => Some(Truth(a <= b))
    case Gt => Some(Truth(a > b))
    case Ge => Some(Truth(a >= b))
    case And => Some(Truth(a != 0 && b != 0))
    case Or => Some(Truth(a != 0 || b != 0))
    case OtherBin(_) => None
  }

  // ----- what expressions and statements mean -----

  /** The same 64 bits. */
  ghost predicate Congruent(a: int, b: int) {
    exists k: int :: a - b == Times64(k)
  }

  function Times64(k: int): int {
    k * 0x1_0000_0000_0000_0000
  }

  /** q and m are quotient and remainder of a by b: the remainder is smaller than b and has the sign of a. */
  predicate Divides(a: int, b: int, q: int, m: int) {
    a == b * q + m && Abs(m) < Abs(b) && (m < 0 ==> a < 0) && (m > 0 ==> a > 0)
  }

  function Get(st: State, x: string): Int64 {
    if x in st then st[x] else 0
  }

  function Apply(env: Env, op: BinOp, a: Int64, b: Int64): Int64 {
    match op
    case Add => Wrap(a + b)
    case Sub => Wrap(a - b)
    case Mul => Wrap(a * b)
    case Div => if b == 0 then env.divZero(a) else Wrap(Quotient(a, b))
    case Rem => if b == 0 then env.remZero(a) else Wrap(Remainder(a, b))
    case Eq => if a == b then -1 else 0
    case Ne => if a == b then 0 else -1
    case Lt => if a < b then -1 else 0
    case Le => if b < a then 0 else -1
    case Gt => if b < a then -1 else 0
    case Ge => if a < b then 0 else -1
    case And => if a == 0 || b == 0 then 0 else -1
    case Or => if a == 0 && b == 0 then 0 else -1
    case OtherBin(id) => env.bin(id, a, b)
  }

  function ApplyUn(env: Env, op: UnOp, a: Int64): Int64 {
    match op
    case Negate => Wrap(0 - a)
    case Not => if a == 0 then -1 else 0
    case OtherUn(id) => env.un(id, a)
  }

  function Eval(env: Env, e: Expr, st: State): Int64 {
    match e
    case Lit(n) => n
    case Bool(b) => if b then -1 else 0
    case Var(x) => Get(st, x)
    case Bin(op, l, r) => Apply(env, op, Eval(env, l, st), Eval(env, r, st))
    case Un(op, a) => ApplyUn(env, op, Eval(env, a, st))
    case Cond(c, t, f) => if Eval(env, c, st) != 0 then Eval(env, t, st) else Eval(env, f, st)
  }

  function EvalAll(env: Env, es: seq<Expr>, st: State): (vs: seq<Int64>)
    ensures |vs| == |es|
  {
    if es == [] then [] else [Eval(env, es[0], st)] + EvalAll(env, es[1..], st)
  }

  function Update(st: State, targets: seq<string>, values: seq<Int64>): State
    decreases |targets|
  {
    if targets == [] || values == [] then st else Update(st[targets[0] := values[0]], targets[1..], values[1..])
  }

  /** None means that `fuel` rounds of some loop were not enough. */
  function Exec(env: Env, s: Stmt, st: State, fuel: nat): Option<State>
    decreases fuel, s, 1
  {
    match s
    case Assign(x, e) => Some(st[x := Eval(env, e, st)])
    case Parallel(targets, values) => Some(Update(st, targets, EvalAll(env, values, st)))
    case Call(routine, args) => Some(env.call(routine, EvalAll(env, args, st), st))
    case If(c, thn) => if Eval(env, c, st) != 0 then Exec(env, thn, st, fuel) else Some(st)
    case Test(c, thn, els) => if Eval(env, c, st) != 0 then Exec(env, thn, st, fuel) else Exec(env, els, st, fuel)
    case While(c, body) =>
      if Eval(env, c, st) == 0 then Some(st)
      else if fuel == 0 then None
      else
        (match Exec(env, body, st, fuel - 1)
         case None => None
         case Some(st1) => Exec(env, s, st1, fuel - 1))
    case Compound(ss) => ExecAll(env, ss, st, fuel)
  }

  function ExecAll(env: Env, ss: seq<Stmt>, st: State, fuel: nat): Option<State>
    decreases fuel, ss, 0
  {
    if ss == [] then Some(st)
    else
      match Exec(env, ss[0], st, fuel)
      case None => None
      case Some(st1) => ExecAll(env, ss[1..], st1, fuel)
  }

  // ----- what the operators compute -----

  lemma WrapCongruent(n: int)
    ensures Congruent(Wrap(n), n)
  {
    var k := n / TWO_64;
    assert n == TWO_64 * k + n % TWO_64;
    assert Wrap(n) - n == Times64(if n % TWO_64 < TWO_64 / 2 then -k else -k - 1);
  }

  lemma QuotientDivides(a: int, b: int)
    requires b != 0
    ensures Divides(a, b, Quotient(a, b), Remainder(a, b))
  {
    hide Floor, Divides;
    SignedDivision(a, b, Floor(Abs(a), Abs(b)));
  }

  lemma SignedDivision(a: int, b: int, q: nat)
    requires b != 0 && Abs(b) * q <= Abs(a) < Abs(b) * q + Abs(b)
    ensures var signed := if (a < 0) == (b < 0) then q else 0 - q; Divides(a, b, signed, a - b * signed)
  {
    assert b * (0 - q) == 0 - b * q && (0 - b) * q == 0 - b * q;
  }

  /** The only quotient that does not fit is that of the least number by -1. */
  lemma QuotientFits(a: Int64, b: Int64)
    requires b != 0 && (a != -0x8000_0000_0000_0000 || b != -1)
    ensures IsInt64(Quotient(a, b)) && IsInt64(Remainder(a, b))
  {
    hide Floor, Divides;
    assert IsInt64(a) && IsInt64(b);
    QuotientDivides(a, b);
    Shrinks(Abs(a), Abs(b), Floor(Abs(a), Abs(b)));
    hide Remainder;
    RemainderSmall(a, b, Quotient(a, b), Remainder(a, b));
  }

  lemma RemainderSmall(a: int, b: int, q: int, m: int)
    requires Divides(a, b, q, m)
    ensures Abs(m) < Abs(b)
  {
  }

  lemma Shrinks(m: nat, n: nat, q: nat)
    requires n > 0 && n * q <= m
    ensures q <= m && (q == m > 0 ==> n == 1)
  {
    assert n * q == q + (n - 1) * q;
    if n > 1 && q > 0 { Product(n - 1, q); }
  }

  lemma Product(x: nat, y: nat)
    requires x > 0 && y > 0
    ensures x * y > 0
  {
  }

  /** Sums, differences and products are right up to 64 bits, and exactly right when they fit. */
  lemma ArithmeticMeans(env: Env, a: Int64, b: Int64)
    ensures Congruent(Apply(env, Add, a, b), a + b) && (IsInt64(a + b) ==> Apply(env, Add, a, b) == a + b)
    ensures Congruent(Apply(env, Sub, a, b), a - b) && (IsInt64(a - b) ==> Apply(env, Sub, a, b) == a - b)
    ensures Congruent(Apply(env, Mul, a, b), a * b) && (IsInt64(a * b) ==> Apply(env, Mul, a, b) == a * b)
    ensures Congruent(ApplyUn(env, Negate, a), 0 - a) && (IsInt64(0 - a) ==> ApplyUn(env, Negate, a) == 0 - a)
  {
    hide Wrap, Congruent, IsInt64;
    WrapCongruent(a + b);
    WrapCongruent(a - b);
    WrapCongruent(a * b);
    WrapCongruent(0 - a);
  }

  /** Division rounds toward zero and the remainder has the dividend's sign, unless the quotient does not fit. */
  lemma DivisionMeans(env: Env, a: Int64, b: Int64)
    requires b != 0 && (a != -0x8000_0000_0000_0000 || b != -1)
    ensures Divides(a, b, Apply(env, Div, a, b), Apply(env, Rem, a, b))
  {
    hide Wrap, Quotient, Remainder;
    QuotientDivides(a, b);
    QuotientFits(a, b);
  }

  /** Exactly one of <, = and > is true, and the other comparisons and connectives are made from them. */
  lemma ComparisonMeans(env: Env, a: Int64, b: Int64)
    ensures Apply(env, Lt, a, b) == (if b - a > 0 then -1 else 0) && Apply(env, Eq, a, b) == (if b - a == 0 then -1 else 0)
    ensures Apply(env, Gt, a, b) == Apply(env, Lt, b, a)
    ensures Apply(env, Le, a, b) == ApplyUn(env, Not, Apply(env, Gt, a, b)) && Apply(env, Ge, a, b) == ApplyUn(env, Not, Apply(env, Lt, a, b))
    ensures Apply(env, Ne, a, b) == ApplyUn(env, Not, Apply(env, Eq, a, b))
    ensures Apply(env, And, a, b) == Apply(env, Mul, Apply(env, Ne, a, 0), ApplyUn(env, Negate, Apply(env, Ne, b, 0)))
    ensures Apply(env, Or, a, b) == ApplyUn(env, Not, Apply(env, And, ApplyUn(env, Not, a), ApplyUn(env, Not, b)))
    ensures ApplyUn(env, Not, 0) == -1 && (a != 0 ==> ApplyUn(env, Not, a) == 0)
  {
  }

  // ----- folding -----

  function AsInt(e: Expr): Option<Int64> {
    match e
    case Lit(n) => Some(n)
    case Bool(b) => Some(Truth(b))
    case _ => None
  }

  function AsBool(e: Expr): Option<bool> {
    match AsInt(e)
    case None => None
    case Some(n) => Some(n != 0)
  }

  /** The algebraic identities, in order. */
  function Simplify(op: BinOp, l: Expr, r: Expr): Expr {
    var (a, b) := (AsInt(l), AsInt(r));
    match op
    case Add => if a == Some(0) then r else if b == Some(0) then l else Bin(op, l, r)
    case Sub => if b == Some(0) then l else Bin(op, l, r)
    case Mul =>
      if a == Some(1) then r else if b == Some(1) then l
      else if a == Some(0) || b == Some(0) then Lit(0) else Bin(op, l, r)
    case Div => if b == Some(1) then l else Bin(op, l, r)
    case _ => Bin(op, l, r)
  }

  /** The operands are folded already; constants come first. */
  function FoldBin(op: BinOp, l: Expr, r: Expr): Expr {
    var (a, b) := (AsInt(l), AsInt(r));
    if a.Some? && b.Some? && Compute(op, a.value, b.value).Some? then Lit(Compute(op, a.value, b.value).value)
    else Simplify(op, l, r)
  }

  function FoldUn(op: UnOp, a: Expr): Expr {
    match AsInt(a)
    case None => Un(op, a)
    case Some(n) =>
      match op
      case Negate => Lit(Wrap(0 - n))
      case Not => Lit(Truth(n == 0))
      case OtherUn(_) => Un(op, a)
  }

  /** Known variables come before manifest constants. */
  function Fold(known: Known, manifests: Known, e: Expr): Expr {
    match e
    case Lit(_) => e
    case Bool(_) => e
    case Var(x) => if x in known then Lit(known[x]) else if x in manifests then Lit(manifests[x]) else e
    case Bin(op, l, r) => FoldBin(op, Fold(known, manifests, l), Fold(known, manifests, r))
    case Un(op, a) => FoldUn(op, Fold(known, manifests, a))
    case Cond(c, t, f) =>
      var c1 := Fold(known, manifests, c);
      match AsBool(c1)
      case Some(true) => Fold(known, manifests, t)
      case Some(false) => Fold(known, manifests, f)
      case None => Cond(c1, Fold(known, manifests, t), Fold(known, manifests, f))
  }

  function FoldAll(known: Known, manifests: Known, es: seq<Expr>): (r: seq<Expr>)
    ensures |r| == |es|
  {
    if es == [] then [] else [Fold(known, manifests, es[0])] + FoldAll(known, manifests, es[1..])
  }

  const NOP := Compound([])

  function Forget(known: Known, x: string): Known {
    map y | y in known && y != x :: known[y]
  }

  /** The folded statement and what is known afterwards. */
  function FoldStmt(known: Known, manifests: Known, s: Stmt): (Stmt, Known)
    decreases s, 1
  {
    match s
    case Assign(x, e) =>
      var e1 := Fold(known, manifests, e);
      (Assign(x, e1), if e1.Lit? then known[x := e1.n] else Forget(known, x))
    case Parallel(targets, values) =>
      var values1 := FoldAll(known, manifests, values);
      if |targets| == 1 && |values| == 1 then
        (Parallel(targets, values1), if values1[0].Lit? then known[targets[0] := values1[0].n] else Forget(known, targets[0]))
      else (Parallel(targets, values1), known)
    case Call(routine, args) => (Call(routine, FoldAll(known, manifests, args)), known)
    case If(c, thn) =>
      var c1 := Fold(known, manifests, c);
      (match AsBool(c1)
       case Some(true) => FoldStmt(known, manifests, thn)
       case Some(false) => (NOP, known)
       case None =>
         var (thn1, known1) := FoldStmt(known, manifests, thn);
         (If(c1, thn1), known1))
    case Test(c, thn, els) =>
      var c1 := Fold(known, manifests, c);
      (match AsBool(c1)
       case Some(true) => FoldStmt(known, manifests, thn)
       case Some(false) => FoldStmt(known, manifests, els)
       case None =>
         var (thn1, known1) := FoldStmt(known, manifests, thn);
         var (els1, known2) := FoldStmt(known1, manifests, els);
         (Test(c1, thn1, els1), known2))
    case While(c, body) =>
      var c1 := Fold(known, manifests, c);
      if AsBool(c1) == Some(false) then (NOP, known)
      else
        var (body1, known1) := FoldStmt(map[], manifests, body);
        (While(c1, body1), known1)
    case Compound(ss) =>
      var (ss1, known1) := FoldSeq(known, manifests, ss);
      (Compound(ss1), known1)
  }

  function FoldSeq(known: Known, manifests: Known, ss: seq<Stmt>): (seq<Stmt>, Known)
    decreases ss, 0
  {
    if ss == [] then ([], known)
    else
      var (s1, known1) := FoldStmt(known, manifests, ss[0]);
      var (rest, known2) := FoldSeq(known1, manifests, ss[1..]);
      ([s1] + rest, known2)
  }

  // ----- expressions keep their value -----

  /** The state has the values that are known, and the manifest constants where nothing else is known. */
  ghost predicate Agrees(st: State, known: Known, manifests: Known) {
    && (forall x :: x in known ==> Get(st, x) == known[x])
    && (forall x :: x in manifests && x !in known ==> Get(st, x) == manifests[x])
  }

  lemma Identities(env: Env, a: Int64)
    ensures Apply(env, Add, a, 0) == a && Apply(env, Add, 0, a) == a && Apply(env, Sub, a, 0) == a
    ensures Apply(env, Mul, a, 1) == a && Apply(env, Mul, 1, a) == a && Apply(env, Mul, a, 0) == 0 && Apply(env, Mul, 0, a) == 0
    ensures Apply(env, Div, a, 1) == a
  {
    assert Quotient(a, 1) == a;
  }

  lemma FoldBinValue(env: Env, op: BinOp, l: Expr, r: Expr, st: State)
    ensures Eval(env, FoldBin(op, l, r), st) == Apply(env, op, Eval(env, l, st), Eval(env, r, st))
  {
    hide Simplify, Compute, Apply;
    var (a, b) := (AsInt(l), AsInt(r));
    AsIntValue(env, l, st);
    AsIntValue(env, r, st);
    if a.Some? && b.Some? && Compute(op, a.value, b.value).Some? {
      ComputeApplies(env, op, a.value, b.value);
    } else {
      SimplifyValue(env, op, l, r, st);
    }
  }

  lemma SimplifyValue(env: Env, op: BinOp, l: Expr, r: Expr, st: State)
    ensures Eval(env, Simplify(op, l, r), st) == Apply(env, op, Eval(env, l, st), Eval(env, r, st))
  {
    hide Eval, Apply, AsInt;
    AsIntValue(env, l, st);
    AsIntValue(env, r, st);
    EvalStep(env, op, l, r, st);
    Identities(env, Eval(env, l, st));
    Identities(env, Eval(env, r, st));
  }

  lemma EvalStep(env: Env, op: BinOp, l: Expr, r: Expr, st: State)
    ensures Eval(env, Bin(op, l, r), st) == Apply(env, op, Eval(env, l, st), Eval(env, r, st))
    ensures forall n: Int64 :: Eval(env, Lit(n), st) == n
  {
    hide Apply;
  }

  lemma AsIntValue(env: Env, e: Expr, st: State)
    ensures AsInt(e).Some? ==> Eval(env, e, st) == AsInt(e).value
  {
  }

  lemma ComputeApplies(env: Env, op: BinOp, a: Int64, b: Int64)
    requires Compute(op, a, b).Some?
    ensures Apply(env, op, a, b) == Compute(op, a, b).value
  {
    hide Wrap, Quotient, Remainder;
  }

  lemma {:induction false} FoldValue(env: Env, known: Known, manifests: Known, e: Expr, st: State)
    requires Agrees(st, known, manifests)
    ensures Eval(env, Fold(known, manifests, e), st) == Eval(env, e, st)
  {
    hide Apply, FoldBin, Wrap;
    match e
    case Lit(_) =>
    case Bool(_) =>
    case Var(_) =>
    case Bin(op, l, r) =>
      FoldValue(env, known, manifests, l, st);
      FoldValue(env, known, manifests, r, st);
      FoldBinValue(env, op, Fold(known, manifests, l), Fold(known, manifests, r), st);
    case Un(op, a) =>
      FoldValue(env, known, manifests, a, st);
    case Cond(c, t, f) =>
      FoldValue(env, known, manifests, c, st);
      FoldValue(env, known, manifests, t, st);
      FoldValue(env, known, manifests, f, st);
  }

  /** The identities that are used, whatever the other operand is. */
  lemma IdentitiesFold(e: Expr)
    requires AsInt(e) == None
    ensures FoldBin(Add, e, Lit(0)) == FoldBin(Add, Lit(0), e) == FoldBin(Sub, e, Lit(0)) == e
    ensures FoldBin(Mul, e, Lit(1)) == FoldBin(Mul, Lit(1), e) == FoldBin(Div, e, Lit(1)) == e
    ensures FoldBin(Mul, e, Lit(0)) == FoldBin(Mul, Lit(0), e) == Lit(0)
  {
  }

  /** Operators on constants that are always folded. */
  predicate Certain(op: BinOp) {
    op != Div && op != Rem && !op.OtherBin?
  }

  predicate Certainly(known: Known, manifests: Known, e: Expr) {
    match e
    case Lit(_) => true
    case Bool(_) => true
    case Var(x) => x in known || x in manifests
    case Bin(op, l, r) => Certain(op) && Certainly(known, manifests, l) && Certainly(known, manifests, r)
    case Un(op, a) => !op.OtherUn? && Certainly(known, manifests, a)
    case Cond(c, t, f) => Certainly(known, manifests, c) && Certainly(known, manifests, t) && Certainly(known, manifests, f)
  }

  /** What is made of constants, known variables and such operators is folded to a constant. */
  lemma {:induction false} ConstantsFold(known: Known, manifests: Known, e: Expr)
    requires Certainly(known, manifests, e)
    ensures Fold(known, manifests, e).Lit? || Fold(known, manifests, e).Bool?
  {
    hide Wrap;
    match e
    case Lit(_) =>
    case Bool(_) =>
    case Var(_) =>
    case Bin(op, l, r) =>
      ConstantsFold(known, manifests, l);
      ConstantsFold(known, manifests, r);
    case Un(_, a) => ConstantsFold(known, manifests, a);
    case Cond(c, t, f) =>
      ConstantsFold(known, manifests, c);
      ConstantsFold(known, manifests, t);
      ConstantsFold(known, manifests, f);
  }

  /** An IF, TEST or WHILE with such a condition is replaced by the branch to be taken, if any; a loop that goes on stays. */
  lemma DeadBranches(env: Env, known: Known, manifests: Known, c: Expr, thn: Stmt, els: Stmt, st: State)
    requires Certainly(known, manifests, c) && Agrees(st, known, manifests)
    ensures
      var holds := Eval(env, c, st) != 0;
      && FoldStmt(known, manifests, If(c, thn)) == (if holds then FoldStmt(known, manifests, thn) else (NOP, known))
      && FoldStmt(known, manifests, Test(c, thn, els)) == FoldStmt(known, manifests, if holds then thn else els)
      && (holds ==> FoldStmt(known, manifests, While(c, thn)).0.While?)
      && (!holds ==> FoldStmt(known, manifests, While(c, thn)) == (NOP, known))
  {
    ConstantsFold(known, manifests, c);
    FoldValue(env, known, manifests, c, st);
  }

  /** A folded expression has nothing left to fold. */
  lemma {:induction false} FoldTwice(known: Known, manifests: Known, e: Expr)
    ensures Fold(known, manifests, Fold(known, manifests, e)) == Fold(known, manifests, e)
  {
    hide Compute, Wrap;
    match e
    case Lit(_) =>
    case Bool(_) =>
    case Var(_) =>
    case Bin(op, l, r) =>
      FoldTwice(known, manifests, l);
      FoldTwice(known, manifests, r);
    case Un(op, a) =>
      FoldTwice(known, manifests, a);
    case Cond(c, t, f) =>
      FoldTwice(known, manifests, c);
      FoldTwice(known, manifests, t);
      FoldTwice(known, manifests, f);
  }

  lemma {:induction false} FoldAllValues(env: Env, known: Known, manifests: Known, es: seq<Expr>, st: State)
    requires Agrees(st, known, manifests)
    ensures EvalAll(env, FoldAll(known, manifests, es), st) == EvalAll(env, es, st)
  {
    hide Agrees;
    if es != [] {
      FoldValue(env, known, manifests, es[0], st);
      FoldAllValues(env, known, manifests, es[1..], st);
    }
  }

  // ----- statements keep their effect -----

  /** Every state with the first knowledge has the second. */
  predicate Implies(known: Known, known1: Known, manifests: Known) {
    && (forall x :: x in known1 ==> x in known && known[x] == known1[x])
    && (forall x :: x in manifests && x !in known1 ==> x !in known)
  }

  lemma AgreesImplied(st: State, known: Known, known1: Known, manifests: Known)
    requires Agrees(st, known, manifests) && Implies(known, known1, manifests)
    ensures Agrees(st, known1, manifests)
  {
  }

  function Vars(e: Expr): set<string> {
    match e
    case Lit(_) => {}
    case Bool(_) => {}
    case Var(x) => {x}
    case Bin(_, l, r) => Vars(l) + Vars(r)
    case Un(_, a) => Vars(a)
    case Cond(c, t, f) => Vars(c) + Vars(t) + Vars(f)
  }

  /** The variables a statement may change. */
  function Writes(env: Env, s: Stmt): set<string>
    decreases s, 1
  {
    match s
    case Assign(x, _) => {x}
    case Parallel(targets, _) => set x | x in targets
    case Call(routine, _) => env.writes(routine)
    case If(_, thn) => Writes(env, thn)
    case Test(_, thn, els) => Writes(env, thn) + Writes(env, els)
    case While(_, body) => Writes(env, body)
    case Compound(ss) => WritesAll(env, ss)
  }

  function WritesAll(env: Env, ss: seq<Stmt>): set<string>
    decreases ss, 0
  {
    if ss == [] then {} else Writes(env, ss[0]) + WritesAll(env, ss[1..])
  }

  /** Assigning x something unknown uncovers no manifest constant of that name. */
  predicate SafeTarget(x: string, e: Expr, manifests: Known) {
    e.Lit? || x !in manifests
  }

  /**
    Where folding a statement is sound. What is learnt in a branch leaks out of it, so it has to be known
    before the branch already; a loop must not learn anything, nor change what its condition was folded
    with; and what is known must not change behind the folder's back.
   */
  predicate Safe(env: Env, known: Known, manifests: Known, s: Stmt)
    decreases s, 1
  {
    match s
    case Assign(x, e) => SafeTarget(x, Fold(known, manifests, e), manifests)
    case Parallel(targets, values) =>
      if |targets| == 1 && |values| == 1 then SafeTarget(targets[0], Fold(known, manifests, values[0]), manifests)
      else forall x :: x in targets ==> x !in known && x !in manifests
    case Call(routine, _) => forall x :: x in env.writes(routine) ==> x !in known && x !in manifests
    case If(c, thn) =>
      (match AsBool(Fold(known, manifests, c))
       case Some(true) => Safe(env, known, manifests, thn)
       case Some(false) => true
       case None => Safe(env, known, manifests, thn) && Implies(known, FoldStmt(known, manifests, thn).1, manifests))
    case Test(c, thn, els) =>
      (match AsBool(Fold(known, manifests, c))
       case Some(true) => Safe(env, known, manifests, thn)
       case Some(false) => Safe(env, known, manifests, els)
       case None =>
         var known1 := FoldStmt(known, manifests, thn).1;
         && Safe(env, known, manifests, thn) && Implies(known, known1, manifests)
         && Safe(env, known1, manifests, els) && Implies(known1, FoldStmt(known1, manifests, els).1, manifests))
    case While(c, body) =>
      var test := AsBool(Fold(known, manifests, c));
      var known1 := FoldStmt(map[], manifests, body).1;
      test == Some(false) ||
      (&& (forall x :: x in Vars(c) && (x in known || x in manifests) ==> x !in Writes(env, body))
       && Safe(env, map[], manifests, body)
       && Implies(known, map[], manifests) && Implies(known1, map[], manifests)
       && (test == Some(true) || known1 == map[]))
    case Compound(ss) => SafeAll(env, known, manifests, ss)
  }

  predicate SafeAll(env: Env, known: Known, manifests: Known, ss: seq<Stmt>)
    decreases ss, 0
  {
    ss == [] || (Safe(env, known, manifests, ss[0]) && SafeAll(env, FoldStmt(known, manifests, ss[0]).1, manifests, ss[1..]))
  }

  lemma {:induction false} UpdateFrame(st: State, targets: seq<string>, values: seq<Int64>, x: string)
    requires x !in targets
    ensures Get(Update(st, targets, values), x) == Get(st, x)
    decreases |targets|
  {
    if targets != [] && values != [] {
      assert x != targets[0] && x !in targets[1..];
      UpdateFrame(st[targets[0] := values[0]], targets[1..], values[1..], x);
    }
  }

  /** A statement changes no more than it may write. */
  lemma {:induction false} ExecFrame(env: Env, s: Stmt, st: State, fuel: nat, x: string)
    requires Honest(env) && x !in Writes(env, s) && Exec(env, s, st, fuel).Some?
    ensures Get(Exec(env, s, st, fuel).value, x) == Get(st, x)
    decreases fuel, s, 1
  {
    hide Eval;
    match s
    case Assign(_, _) =>
    case Parallel(targets, values) => UpdateFrame(st, targets, EvalAll(env, values, st), x);
    case Call(_, _) =>
    case If(c, thn) => if Eval(env, c, st) != 0 { ExecFrame(env, thn, st, fuel, x); }
    case Test(c, thn, els) => if Eval(env, c, st) != 0 { ExecFrame(env, thn, st, fuel, x); } else { ExecFrame(env, els, st, fuel, x); }
    case While(c, body) =>
      if Eval(env, c, st) != 0 {
        ExecFrame(env, body, st, fuel - 1, x);
        ExecFrame(env, s, Exec(env, body, st, fuel - 1).value, fuel - 1, x);
      }
    case Compound(ss) => ExecAllFrame(env, ss, st, fuel, x);
  }

  lemma {:induction false} ExecAllFrame(env: Env, ss: seq<Stmt>, st: State, fuel: nat, x: string)
    requires Honest(env) && x !in WritesAll(env, ss) && ExecAll(env, ss, st, fuel).Some?
    ensures Get(ExecAll(env, ss, st, fuel).value, x) == Get(st, x)
    decreases fuel, ss, 0
  {
    if ss != [] {
      ExecFrame(env, ss[0], st, fuel, x);
      ExecAllFrame(env, ss[1..], Exec(env, ss[0], st, fuel).value, fuel, x);
    }
  }

  /** Folding an expression needs agreement on its own variables only. */
  ghost predicate AgreesOn(st: State, known: Known, manifests: Known, xs: set<string>) {
    && (forall x :: x in xs && x in known ==> Get(st, x) == known[x])
    && (forall x :: x in xs && x in manifests && x !in known ==> Get(st, x) == manifests[x])
  }

  /** Knowing some values for sure, on the variables that matter. */
  function Restrict(known: Known, xs: set<string>): Known {
    map x | x in known && x in xs :: known[x]
  }

  lemma {:induction false} FoldRestricted(known: Known, manifests: Known, e: Expr, xs: set<string>)
    requires Vars(e) <= xs
    ensures Fold(Restrict(known, xs), Restrict(manifests, xs), e) == Fold(known, manifests, e)
  {
    hide FoldBin, FoldUn;
    match e
    case Lit(_) =>
    case Bool(_) =>
    case Var(_) =>
    case Bin(op, l, r) =>
      FoldRestricted(known, manifests, l, xs);
      FoldRestricted(known, manifests, r, xs);
    case Un(op, a) => FoldRestricted(known, manifests, a, xs);
    case Cond(c, t, f) =>
      FoldRestricted(known, manifests, c, xs);
      FoldRestricted(known, manifests, t, xs);
      FoldRestricted(known, manifests, f, xs);
  }

  lemma FoldValueOn(env: Env, known: Known, manifests: Known, e: Expr, st: State)
    requires AgreesOn(st, known, manifests, Vars(e))
    ensures Eval(env, Fold(known, manifests, e), st) == Eval(env, e, st)
  {
    FoldRestricted(known, manifests, e, Vars(e));
    FoldValue(env, Restrict(known, Vars(e)), Restrict(manifests, Vars(e)), e, st);
  }

  // ----- the theorem -----

  /** Same outcome, and what is known afterwards is true. */
  ghost predicate Preserved(env: Env, known1: Known, manifests: Known, before: Option<State>, after: Option<State>) {
    after == before && (before.Some? ==> Agrees(before.value, known1, manifests))
  }

  lemma AssignAgrees(st: State, known: Known, manifests: Known, x: string, e: Expr, n: Int64)
    requires Agrees(st, known, manifests) && SafeTarget(x, e, manifests) && (e.Lit? ==> e.n == n)
    ensures Agrees(st[x := n], if e.Lit? then known[x := e.n] else Forget(known, x), manifests)
  {
  }

  lemma {:induction false} UpdateAgrees(st: State, known: Known, manifests: Known, targets: seq<string>, values: seq<Int64>)
    requires Agrees(st, known, manifests) && forall x :: x in targets ==> x !in known && x !in manifests
    ensures Agrees(Update(st, targets, values), known, manifests)
  {
    forall x | x in known || x in manifests ensures Get(Update(st, targets, values), x) == Get(st, x) {
      UpdateFrame(st, targets, values, x);
    }
  }

  /**
    Folding a safe statement preserves it: from any state with the known values, for every amount of fuel,
    the folded statement ends like the original one or not at all like it, and the values known afterwards
    are right.
   */
  lemma {:induction false} FoldPreserves(env: Env, known: Known, manifests: Known, s: Stmt, st: State, fuel: nat)
    requires Honest(env) && Safe(env, known, manifests, s) && Agrees(st, known, manifests)
    ensures
      var (s1, known1) := FoldStmt(known, manifests, s);
      Preserved(env, known1, manifests, Exec(env, s, st, fuel), Exec(env, s1, st, fuel))
    decreases fuel, s, 2
  {
    hide Eval, Fold, Agrees, AsBool, Implies;
    match s
    case Assign(x, e) =>
      FoldValue(env, known, manifests, e, st);
      LitValue(env, Fold(known, manifests, e), st);
      AssignAgrees(st, known, manifests, x, Fold(known, manifests, e), Eval(env, e, st));
    case Parallel(targets, values) => ParallelPreserved(env, known, manifests, s, st, fuel);
    case Call(routine, args) =>
      FoldAllValues(env, known, manifests, args, st);
      CallAgrees(env, known, manifests, routine, EvalAll(env, args, st), st);
    case If(c, thn) => IfPreserved(env, known, manifests, s, st, fuel);
    case Test(c, thn, els) => TestPreserved(env, known, manifests, s, st, fuel);
    case While(c, body) => WhilePreserved(env, known, manifests, s, st, fuel);
    case Compound(ss) => SeqPreserved(env, known, manifests, ss, st, fuel);
  }

  lemma LitValue(env: Env, e: Expr, st: State)
    ensures e.Lit? ==> Eval(env, e, st) == e.n
    ensures AsBool(e).Some? ==> AsBool(e).value == (Eval(env, e, st) != 0)
  {
  }

  lemma CallAgrees(env: Env, known: Known, manifests: Known, routine: nat, args: seq<Int64>, st: State)
    requires Honest(env) && Agrees(st, known, manifests) && forall x :: x in env.writes(routine) ==> x !in known && x !in manifests
    ensures Agrees(env.call(routine, args, st), known, manifests)
  {
  }

  lemma ParallelPreserved(env: Env, known: Known, manifests: Known, s: Stmt, st: State, fuel: nat)
    requires s.Parallel? && Safe(env, known, manifests, s) && Agrees(st, known, manifests)
    ensures
      var (s1, known1) := FoldStmt(known, manifests, s);
      Preserved(env, known1, manifests, Exec(env, s, st, fuel), Exec(env, s1, st, fuel))
  {
    hide Eval, Fold, Agrees;
    FoldAllValues(env, known, manifests, s.values, st);
    if |s.targets| == 1 && |s.values| == 1 {
      var e := s.values[0];
      FoldValue(env, known, manifests, e, st);
      LitValue(env, Fold(known, manifests, e), st);
      AssignAgrees(st, known, manifests, s.targets[0], Fold(known, manifests, e), Eval(env, e, st));
      OneTarget(st, s.targets, EvalAll(env, s.values, st));
    } else {
      UpdateAgrees(st, known, manifests, s.targets, EvalAll(env, s.values, st));
    }
  }

  lemma OneTarget(st: State, targets: seq<string>, values: seq<Int64>)
    requires |targets| == 1 && |values| == 1
    ensures Update(st, targets, values) == st[targets[0] := values[0]]
  {
    assert targets[1..] == [];
    assert Update(st[targets[0] := values[0]], [], values[1..]) == st[targets[0] := values[0]];
  }

  lemma IfPreserved(env: Env, known: Known, manifests: Known, s: Stmt, st: State, fuel: nat)
    requires s.If? && Honest(env) && Safe(env, known, manifests, s) && Agrees(st, known, manifests)
    ensures
      var (s1, known1) := FoldStmt(known, manifests, s);
      Preserved(env, known1, manifests, Exec(env, s, st, fuel), Exec(env, s1, st, fuel))
    decreases fuel, s, 0
  {
    hide Eval, Fold, Agrees, AsBool, Implies;
    FoldValue(env, known, manifests, s.c, st);
    var c1 := Fold(known, manifests, s.c);
    LitValue(env, c1, st);
    if Eval(env, s.c, st) != 0 {
      FoldPreserves(env, known, manifests, s.thn, st, fuel);
    } else if AsBool(c1).None? {
      AgreesImplied(st, known, FoldStmt(known, manifests, s.thn).1, manifests);
    }
  }

  lemma TestPreserved(env: Env, known: Known, manifests: Known, s: Stmt, st: State, fuel: nat)
    requires s.Test? && Honest(env) && Safe(env, known, manifests, s) && Agrees(st, known, manifests)
    ensures
      var (s1, known1) := FoldStmt(known, manifests, s);
      Preserved(env, known1, manifests, Exec(env, s, st, fuel), Exec(env, s1, st, fuel))
    decreases fuel, s, 0
  {
    hide Eval, Fold, Agrees, AsBool, Implies;
    FoldValue(env, known, manifests, s.c, st);
    var c1 := Fold(known, manifests, s.c);
    LitValue(env, c1, st);
    if AsBool(c1).Some? {
      if Eval(env, s.c, st) != 0 {
        FoldPreserves(env, known, manifests, s.thn, st, fuel);
      } else {
        FoldPreserves(env, known, manifests, s.els, st, fuel);
      }
    } else {
      var known1 := FoldStmt(known, manifests, s.thn).1;
      if Eval(env, s.c, st) != 0 {
        FoldPreserves(env, known, manifests, s.thn, st, fuel);
        var r := Exec(env, s.thn, st, fuel);
        if r.Some? { AgreesImplied(r.value, known1, FoldStmt(known1, manifests, s.els).1, manifests); }
      } else {
        AgreesImplied(st, known, known1, manifests);
        FoldPreserves(env, known1, manifests, s.els, st, fuel);
      }
    }
  }

  lemma {:induction false} SeqPreserved(env: Env, known: Known, manifests: Known, ss: seq<Stmt>, st: State, fuel: nat)
    requires Honest(env) && SafeAll(env, known, manifests, ss) && Agrees(st, known, manifests)
    ensures
      var (ss1, known1) := FoldSeq(known, manifests, ss);
      Preserved(env, known1, manifests, ExecAll(env, ss, st, fuel), ExecAll(env, ss1, st, fuel))
    decreases fuel, ss, 0
  {
    hide Agrees, Exec, FoldStmt, Safe;
    if ss != [] {
      FoldPreserves(env, known, manifests, ss[0], st, fuel);
      var (s1, known1) := FoldStmt(known, manifests, ss[0]);
      var r := Exec(env, ss[0], st, fuel);
      var rest := FoldSeq(known1, manifests, ss[1..]).0;
      assert ([s1] + rest)[1..] == rest;
      if r.Some? { SeqPreserved(env, known1, manifests, ss[1..], r.value, fuel); }
    }
  }

  // ----- loops -----

  lemma TestAfterBody(env: Env, known: Known, manifests: Known, c: Expr, body: Stmt, st: State, fuel: nat)
    requires Honest(env) && AgreesOn(st, known, manifests, Vars(c)) && Exec(env, body, st, fuel).Some?
    requires forall x :: x in Vars(c) && (x in known || x in manifests) ==> x !in Writes(env, body)
    ensures AgreesOn(Exec(env, body, st, fuel).value, known, manifests, Vars(c))
  {
    forall x | x in Vars(c) && (x in known || x in manifests) ensures Get(Exec(env, body, st, fuel).value, x) == Get(st, x) {
      ExecFrame(env, body, st, fuel, x);
    }
  }

  lemma WhilePreserved(env: Env, known: Known, manifests: Known, s: Stmt, st: State, fuel: nat)
    requires s.While? && Honest(env) && Safe(env, known, manifests, s) && Agrees(st, known, manifests)
    ensures
      var (s1, known1) := FoldStmt(known, manifests, s);
      Preserved(env, known1, manifests, Exec(env, s, st, fuel), Exec(env, s1, st, fuel))
    decreases fuel, s, 1
  {
    hide Eval, Fold, AsBool;
    FoldValue(env, known, manifests, s.c, st);
    var c1 := Fold(known, manifests, s.c);
    LitValue(env, c1, st);
    if AsBool(c1) != Some(false) {
      AgreesImplied(st, known, map[], manifests);
      RoundsPreserved(env, known, manifests, s, st, fuel);
    }
  }

  /** From the test on, as long as nothing is known but what the condition was folded with. */
  lemma {:induction false} RoundsPreserved(env: Env, known: Known, manifests: Known, s: Stmt, st: State, fuel: nat)
    requires s.While? && Honest(env) && Safe(env, known, manifests, s) && AsBool(Fold(known, manifests, s.c)) != Some(false)
    requires Agrees(st, map[], manifests) && AgreesOn(st, known, manifests, Vars(s.c))
    ensures
      var (s1, known1) := FoldStmt(known, manifests, s);
      Preserved(env, known1, manifests, Exec(env, s, st, fuel), Exec(env, s1, st, fuel))
    decreases fuel, s, 0
  {
    hide Eval, Fold, Agrees, AgreesOn, AsBool, Implies, Vars, Writes;
    FoldValueOn(env, known, manifests, s.c, st);
    var c1 := Fold(known, manifests, s.c);
    LitValue(env, c1, st);
    if Eval(env, s.c, st) != 0 && fuel > 0 {
      FoldPreserves(env, map[], manifests, s.body, st, fuel - 1);
      var r := Exec(env, s.body, st, fuel - 1);
      if r.Some? {
        AgreesImplied(r.value, FoldStmt(map[], manifests, s.body).1, map[], manifests);
        TestAfterBody(env, known, manifests, s.c, s.body, st, fuel - 1);
        RoundsPreserved(env, known, manifests, s, r.value, fuel - 1);
      }
    }
  }

  // ----- where folding is not sound -----

  /** IF c THEN x := 1; y := x, with nothing known: y becomes 1 even when c is false. */
  lemma LeakFromIf(env: Env)
    ensures
      var s := Compound([If(Var("c"), Assign("x", Lit(1))), Assign("y", Var("x"))]);
      var s1 := FoldStmt(map[], map[], s).0;
      && !Safe(env, map[], map[], s)
      && Exec(env, s, map[], 0) == Some(map["y" := 0]) && Exec(env, s1, map[], 0) == Some(map["y" := 1])
  {
    var branch := If(Var("c"), Assign("x", Lit(1)));
    var last := Assign("y", Var("x"));
    var known: Known := map["x" := 1];
    assert FoldStmt(map[], map[], branch) == (branch, known);
    assert FoldStmt(known, map[], last).0 == Assign("y", Lit(1));
    var ss := [branch, last];
    assert ss[1..] == [last] && [last][1..] == [];
    assert FoldSeq(known, map[], [last]).0 == [Assign("y", Lit(1))];
    var ss1 := [branch, Assign("y", Lit(1))];
    assert FoldSeq(map[], map[], ss).0 == ss1;
    assert ss1[1..] == [Assign("y", Lit(1))] && [Assign("y", Lit(1))][1..] == [];
    assert ExecAll(env, [last], map[], 0) == Some(map["y" := 0]);
    assert ExecAll(env, [Assign("y", Lit(1))], map[], 0) == Some(map["y" := 1]);
  }

  const COUNT_UP := While(Bin(Lt, Var("i"), Lit(3)), Assign("i", Bin(Add, Var("i"), Lit(1))))
  const FOREVER := While(Lit(-1), Assign("i", Bin(Add, Var("i"), Lit(1))))

  /** WHILE i < 3 DO i := i + 1 with i known to be 0 before: the condition is folded to true, and the loop never ends. */
  lemma LeakIntoWhile(env: Env, fuel: nat)
    ensures !Safe(env, map["i" := 0], map[], COUNT_UP) && FoldStmt(map["i" := 0], map[], COUNT_UP).0 == FOREVER
    ensures Exec(env, COUNT_UP, map["i" := 0], 3) == Some(map["i" := 3])
    ensures Exec(env, FOREVER, map["i" := 0], fuel) == None
  {
    assert "i" in Vars(COUNT_UP.c) && "i" in Writes(env, COUNT_UP.body);
    assert Fold(map["i" := 0], map[], COUNT_UP.c) == Lit(-1);
    CountsUp(env, 0);
    Forever(env, map["i" := 0], fuel);
  }

  lemma {:induction false} CountsUp(env: Env, n: Int64)
    requires 0 <= n <= 3
    ensures Exec(env, COUNT_UP, map["i" := n], 3 - n) == Some(map["i" := 3])
    decreases 3 - n
  {
    var st: State := map["i" := n];
    assert Eval(env, Var("i"), st) == n && Eval(env, Lit(3), st) == 3 && Eval(env, Lit(1), st) == 1;
    assert Eval(env, COUNT_UP.c, st) == Truth(n < 3);
    if n < 3 {
      assert Eval(env, COUNT_UP.body.e, st) == n + 1;
      assert st["i" := n + 1] == map["i" := n + 1];
      assert Exec(env, COUNT_UP.body, st, 2 - n) == Some(map["i" := n + 1]);
      CountsUp(env, n + 1);
    }
  }

  lemma {:induction false} Forever(env: Env, st: State, fuel: nat)
    ensures Exec(env, FOREVER, st, fuel) == None
    decreases fuel
  {
    if fuel > 0 {
      var r := Exec(env, FOREVER.body, st, fuel - 1);
      if r.Some? { Forever(env, r.value, fuel - 1); }
    }
  }

  /** x, y := 2, 3 with x known to be 1: x is still taken for 1 afterwards. */
  lemma LeakFromParallel(env: Env)
    ensures
      var s := Parallel(["x", "y"], [Lit(2), Lit(3)]);
      var (s1, known1) := FoldStmt(map["x" := 1], map[], s);
      && !Safe(env, map["x" := 1], map[], s)
      && Exec(env, s, map["x" := 1], 0) == Some(map["x" := 2, "y" := 3])
      && !Agrees(map["x" := 2, "y" := 3], known1, map[])
  {
    var values := [Lit(2), Lit(3)];
    assert "x" in ["x", "y"];
    assert ["x", "y"][1..] == ["y"] && ["y"][1..] == [] && [2 as Int64, 3][1..] == [3] && [3 as Int64][1..] == [];
    assert values[1..] == [Lit(3)] && [Lit(3)][1..] == [];
    assert EvalAll(env, [Lit(3)], map["x" := 1]) == [3];
    assert EvalAll(env, values, map["x" := 1]) == [2, 3];
    var st: State := map["x" := 1];
    OneTarget(st["x" := 2], ["y"], [3]);
    assert Update(st, ["x", "y"], [2, 3]) == st["x" := 2]["y" := 3] == map["x" := 2, "y" := 3];
  }
}
