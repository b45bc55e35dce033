/** Canonical strings of pure expressions, and why equal strings mean equal values. */
module CanonicalKeys {
  import opened Decimals

  datatype BinOp =
    | Add | Subtract | Multiply | Divide | Remainder
    | Equal | NotEqual | Less | LessEqual | Greater | GreaterEqual
    | LogicalAnd | BitwiseAnd | LogicalOr | BitwiseOr | Equivalence | NotEquivalence
    | LeftShift | RightShift

  datatype Expr = Var(x: string) | Int(n: int) | Char(code: nat) | Bool(b: bool) | Bin(op: BinOp, l: Expr, r: Expr)

  type State = map<string, int>

  /** What the operators compute, and the value of TRUE. */
  datatype Machine = Machine(bin: (BinOp, int, int) -> int, truth: bool -> int)

  function Get(st: State, x: string): int {
    if x in st then st[x] else 0
  }

  function Eval(m: Machine, e: Expr, st: State): int {
    match e
    case Var(x) => Get(st, x)
    case Int(n) => n
    case Char(code) => code
    case Bool(b) => m.truth(b)
    case Bin(op, l, r) => m.bin(op, Eval(m, l, st), Eval(m, r, st))
  }

  predicate Commutative(op: BinOp) {
    op in {Add, Multiply, LogicalAnd, LogicalOr, Equal, NotEqual}
  }

  /** The operators whose operands are swapped really do commute. */
  ghost predicate Commutes(m: Machine) {
    forall op, a, b :: Commutative(op) ==> m.bin(op, a, b) == m.bin(op, b, a)
  }

  function Number(op: BinOp): nat {
    match op
    case Add => 0 case Subtract => 1 case Multiply => 2 case Divide => 3 case Remainder => 4
    case Equal => 5 case NotEqual => 6 case Less => 7 case LessEqual => 8 case Greater => 9 case GreaterEqual => 10
    case LogicalAnd => 11 case BitwiseAnd => 12 case LogicalOr => 13 case BitwiseOr => 14
    case Equivalence => 15 case NotEquivalence => 16 case LeftShift => 17 case RightShift => 18
  }

  lemma NumberInjective(a: BinOp, b: BinOp)
    requires Number(a) == Number(b)
    ensures a == b
  {
  }

  /** Whether a comes after b in dictionary order. */
  predicate After(a: string, b: string)
    decreases |a|
  {
    if a == "" then false
    else if b == "" then true
    else if a[0] != b[0] then a[0] > b[0]
    else After(a[1..], b[1..])
  }

  function Key(e: Expr): string {
    match e
    case Var(x) => "(VAR " + x + ")"
    case Int(n) => "(INT " + Decimal(n) + ")"
    case Char(code) => "(CHAR " + Decimal(code) + ")"
    case Bool(b) => if b then "(BOOL 1)" else "(BOOL 0)"
    case Bin(op, l, r) =>
      var (a, b) := (Key(l), Key(r));
      if Commutative(op) && After(a, b) then BinKey(op, b, a) else BinKey(op, a, b)
  }

  function BinKey(op: BinOp, a: string, b: string): string {
    "(BIN_OP " + Decimal(Number(op)) + " " + a + " " + b + ")"
  }

  /** Names are identifiers; in particular they hold no closing bracket. */
  predicate Named(e: Expr) {
    match e
    case Var(x) => PlainName(x)
    case Bin(_, l, r) => Named(l) && Named(r)
    case _ => true
  }

  predicate PlainName(x: string) {
    forall i :: 0 <= i < |x| ==> x[i] != ')'
  }

  /** Two expressions with the same value in every state, on every machine whose commutative operators commute. */
  ghost predicate SameValue(a: Expr, b: Expr) {
    forall m, st :: Commutes(m) ==> Eval(m, a, st) == Eval(m, b, st)
  }

  // ----- reading keys from the front -----

  /** The operands in the order in which they are written. */
  function Written(op: BinOp, l: Expr, r: Expr): (Expr, Expr) {
    if Commutative(op) && After(Key(l), Key(r)) then (r, l) else (l, r)
  }

  lemma NamePrefix(a: string, b: string, x: string, y: string)
    requires PlainName(a) && PlainName(b) && a + ")" + x == b + ")" + y
    ensures a == b && x == y
  {
    FirstBracket(a, x);
    FirstBracket(b, y);
    var s := a + ")" + x;
    assert a == s[..|a|] == (b + ")" + y)[..|b|] == b;
    assert x == s[|a| + 1..] == (b + ")" + y)[|b| + 1..] == y;
  }

  lemma FirstBracket(a: string, x: string)
    requires PlainName(a)
    ensures var s := a + ")" + x; s[|a|] == ')' && forall i :: 0 <= i < |a| ==> s[i] != ')'
  {
  }

  /** The tag and the rest of a key. */
  function Tag(e: Expr): string {
    match e
    case Var(_) => "(VAR "
    case Int(_) => "(INT "
    case Char(_) => "(CHAR "
    case Bool(_) => "(BOOL "
    case Bin(_, _, _) => "(BIN_OP "
  }

  function Body(e: Expr): string {
    match e
    case Var(x) => x + ")"
    case Int(n) => Decimal(n) + ")"
    case Char(code) => Decimal(code) + ")"
    case Bool(b) => if b then "1)" else "0)"
    case Bin(op, l, r) =>
      var (a, b) := Written(op, l, r);
      Decimal(Number(op)) + (" " + (Key(a) + (" " + (Key(b) + ")"))))
  }

  lemma KeyParts(e: Expr)
    ensures Key(e) == Tag(e) + Body(e)
  {
    if e.Bin? {
      var (a, b) := Written(e.op, e.l, e.r);
      assert Key(e) == BinKey(e.op, Key(a), Key(b));
      hide Key;
      SixParts("(BIN_OP ", Decimal(Number(e.op)), Key(a), Key(b));
    }
  }

  lemma SixParts(tag: string, d: string, a: string, b: string)
    ensures tag + d + " " + a + " " + b + ")" == tag + (d + (" " + (a + (" " + (b + ")")))))
  {
    Glue(tag, d, " ");
    Glue(tag, d + " ", a);
    Glue(tag, d + " " + a, " ");
    Glue(tag, d + " " + a + " ", b);
    Glue(tag, d + " " + a + " " + b, ")");
    Glue(d, " ", a);
    Glue(d, " " + a, " ");
    Glue(d, " " + a + " ", b);
    Glue(d, " " + a + " " + b, ")");
    Glue(" ", a, " ");
    Glue(" ", a + " ", b);
    Glue(" ", a + " " + b, ")");
    Glue(a, " ", b);
    Glue(a, " " + b, ")");
    Glue(" ", b, ")");
  }

  lemma Glue(a: string, b: string, c: string)
    ensures a + b + c == a + (b + c)
  {
  }

  /** Third letters differ, or the second ones: the tag tells the kind. */
  lemma TagsDiffer(a: Expr, b: Expr, x: string, y: string)
    requires Tag(a) + x == Tag(b) + y
    ensures Tag(a) == Tag(b) && x == y
    ensures a.Var? == b.Var? && a.Int? == b.Int? && a.Char? == b.Char? && a.Bool? == b.Bool? && a.Bin? == b.Bin?
  {
    var s, t := Tag(a) + x, Tag(b) + y;
    assert s[1] == Tag(a)[1] && s[2] == Tag(a)[2];
    assert t[1] == Tag(b)[1] && t[2] == Tag(b)[2];
    Cancel(Tag(a), x, y);
  }

  lemma SameBin(op: BinOp, l: Expr, r: Expr, l': Expr, r': Expr)
    requires SameValue(Written(op, l, r).0, Written(op, l', r').0) && SameValue(Written(op, l, r).1, Written(op, l', r').1)
    ensures SameValue(Bin(op, l, r), Bin(op, l', r'))
  {
    hide After, Key;
    forall m, st | Commutes(m) ensures Eval(m, Bin(op, l, r), st) == Eval(m, Bin(op, l', r'), st) {
      var (a, b) := Written(op, l, r);
      var (a', b') := Written(op, l', r');
      assert Eval(m, a, st) == Eval(m, a', st) && Eval(m, b, st) == Eval(m, b', st);
      assert Eval(m, Bin(op, l, r), st) == m.bin(op, Eval(m, a, st), Eval(m, b, st));
      assert Eval(m, Bin(op, l', r'), st) == m.bin(op, Eval(m, a', st), Eval(m, b', st));
    }
  }

  /** Keys are read from the front in one way only, up to the order of commuting operands. */
  lemma {:induction false} KeyFaithful(a: Expr, b: Expr, x: string, y: string)
    requires Named(a) && Named(b) && Key(a) + x == Key(b) + y
    ensures SameValue(a, b) && x == y
    decreases a
  {
    hide Key, Body, Tag, SameValue;
    KeyParts(a);
    KeyParts(b);
    Glue(Tag(a), Body(a), x);
    Glue(Tag(b), Body(b), y);
    TagsDiffer(a, b, Body(a) + x, Body(b) + y);
    if a.Bin? { BinFaithful(a, b, x, y); } else { LeafFaithful(a, b, x, y); }
  }

  lemma LeafFaithful(a: Expr, b: Expr, x: string, y: string)
    requires Named(a) && Named(b) && !a.Bin? && Body(a) + x == Body(b) + y
    requires a.Var? == b.Var? && a.Int? == b.Int? && a.Char? == b.Char? && a.Bool? == b.Bool?
    ensures a == b && SameValue(a, b) && x == y
  {
    match a
    case Var(u) => NamePrefix(u, b.x, x, y);
    case Int(n) => NumeralFaithful(n, b.n, x, y);
    case Char(n) => NumeralFaithful(n, b.code, x, y);
    case Bool(u) =>
      assert (Body(a) + x)[0] == (Body(b) + y)[0];
      Cancel(Body(a), x, y);
  }

  lemma NumeralFaithful(m: int, n: int, x: string, y: string)
    requires Decimal(m) + ")" + x == Decimal(n) + ")" + y
    ensures m == n && x == y
  {
    Glue(Decimal(m), ")", x);
    Glue(Decimal(n), ")", y);
    DecimalPrefix(m, n, ")" + x, ")" + y);
    Cancel(")", x, y);
  }

  /** The body of a binary operation, cut after the operator, after the first operand and after the second. */
  lemma BinParts(op: BinOp, a: string, b: string, x: string)
    ensures
      Decimal(Number(op)) + (" " + (a + (" " + (b + ")")))) + x
      == Decimal(Number(op)) + (" " + (a + (" " + (b + (")" + x)))))
  {
    assert b + ")" + x == b + (")" + x);
    assert " " + (b + ")") + x == " " + (b + (")" + x));
    assert a + (" " + (b + ")")) + x == a + (" " + (b + (")" + x)));
    assert " " + (a + (" " + (b + ")"))) + x == " " + (a + (" " + (b + (")" + x))));
  }

  lemma {:induction false} BinFaithful(a: Expr, b: Expr, x: string, y: string)
    requires a.Bin? && b.Bin? && Named(a) && Named(b) && Body(a) + x == Body(b) + y
    ensures SameValue(a, b) && x == y
    decreases a, 0
  {
    hide Key, SameValue;
    var (p, q) := Written(a.op, a.l, a.r);
    var (p', q') := Written(b.op, b.l, b.r);
    BinParts(a.op, Key(p), Key(q), x);
    BinParts(b.op, Key(p'), Key(q'), y);
    var restA, restB := " " + (Key(p) + (" " + (Key(q) + (")" + x)))), " " + (Key(p') + (" " + (Key(q') + (")" + y))));
    DecimalPrefix(Number(a.op), Number(b.op), restA, restB);
    NumberInjective(a.op, b.op);
    Cancel(" ", Key(p) + (" " + (Key(q) + (")" + x))), Key(p') + (" " + (Key(q') + (")" + y))));
    KeyFaithful(p, p', " " + (Key(q) + (")" + x)), " " + (Key(q') + (")" + y)));
    Cancel(" ", Key(q) + (")" + x), Key(q') + (")" + y));
    KeyFaithful(q, q', ")" + x, ")" + y);
    Cancel(")", x, y);
    SameBin(a.op, a.l, a.r, b.l, b.r);
  }

  /** Equal keys, equal values: what makes sharing by key sound. */
  lemma EqualKeys(a: Expr, b: Expr)
    requires Named(a) && Named(b) && Key(a) == Key(b)
    ensures SameValue(a, b)
  {
    assert Key(a) + "" == Key(b) + "";
    KeyFaithful(a, b, "", "");
  }
}
