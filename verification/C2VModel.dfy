/**
 The C-to-Verilog converter: the fragment of C it is given, the meaning of that C,
 the expression trees it produces, their meaning, and the conversion itself.

 Conversion is symbolic execution: statements update a table from variables to trees,
 bounded loops are unrolled, and the return value is one tree over the inputs.
 */
module C2VModel {
  import opened Bits

  const WORD := 0x1_0000_0000     // 32-bit values
  const HALF := 0x8000_0000
  const MAX_UNROLL := 1024

  // ---------- the C source ----------

  /** `int` and `unsigned int`; both are 32 bits wide and kept as bit patterns. */
  datatype CType = SInt | UInt

  datatype BinOp =
    | Add | Sub | Mul
    | BAnd | BOr | BXor | Shl | Shr
    | Lt | Gt | Le | Ge | Eq | Ne
    | LAnd | LOr

  datatype UnOp = BNot | LNot | Neg

  datatype Expr =
    | Lit(v: nat)
    | Var(x: string)
    | Elem(a: string, index: Expr)
    | Bin(op: BinOp, l: Expr, r: Expr)
    | Un(uop: UnOp, e: Expr)
    | Cond(c: Expr, t: Expr, f: Expr)
    | Paren(e: Expr)
    | Cast(ty: CType, e: Expr)

  datatype Option<T> = None | Some(value: T)

  /** `For` is `for (x = start; x cmp bound; x++) { body }` on a declared counter; a
      counter declared in the loop header is a block around it. */
  datatype Stmt =
    | Decl(x: string, ty: CType, init: Option<Expr>)
    | DeclArray(a: string, ty: CType, size: nat)
    | Assign(x: string, e: Expr)
    | AssignElem(a: string, index: Expr, e: Expr)
    | Compound(x: string, op: BinOp, e: Expr)
    | Block(body: seq<Stmt>)
    | For(x: string, start: nat, cmp: BinOp, bound: nat, body: seq<Stmt>)

  /** A function body: statements, then a return or an `if`/`else` of bodies. */
  datatype Body = Body(stmts: seq<Stmt>, tail: Tail)
  datatype Tail = Return(e: Expr) | IfElse(c: Expr, t: Body, f: Body)

  // ---------- what the C means ----------

  datatype Value = Value(bits: nat, ty: CType)
  datatype Array = Array(elems: seq<nat>, ty: CType)
  datatype Store = Store(vars: map<string, Value>, arrays: map<string, Array>)

  function Wrap(x: int): (r: nat)
    ensures r < WORD
  {
    x % WORD
  }

  /** The integer that a bit pattern stands for at a type. */
  function AsInt(bits: nat, ty: CType): int {
    if ty.SInt? && bits >= HALF then bits - WORD else bits
  }

  /** The usual arithmetic conversions. */
  function Common(a: CType, b: CType): CType {
    if a.UInt? || b.UInt? then UInt else SInt
  }

  predicate Relational(op: BinOp) {
    op.Lt? || op.Gt? || op.Le? || op.Ge? || op.Eq? || op.Ne?
  }

  function BinType(op: BinOp, a: CType, b: CType): CType {
    if Relational(op) || op.LAnd? || op.LOr? then SInt
    else if op.Shl? || op.Shr? then a
    else Common(a, b)
  }

  function Compare(op: BinOp, a: int, b: int): bool {
    match op
    case Lt => a < b
    case Gt => a > b
    case Le => a <= b
    case Ge => a >= b
    case Eq => a == b
    case _ => a != b
  }

  /** Signed overflow wraps here; a shift by 32 or more, or by a negative amount, is
      undefined. */
  function CBin(op: BinOp, a: Value, b: Value): Option<Value>
    requires a.bits < WORD && b.bits < WORD
  {
    var ty := BinType(op, a.ty, b.ty);
    var common := Common(a.ty, b.ty);
    var x, y := AsInt(a.bits, common), AsInt(b.bits, common);
    match op
    case Add => Some(Value(Wrap(a.bits + b.bits), ty))
    case Sub => Some(Value(Wrap(a.bits - b.bits), ty))
    case Mul => Some(Value(Wrap(a.bits * b.bits), ty))
    case BAnd => Some(Value(And(a.bits, b.bits), ty))
    case BOr => Some(Value(Or(a.bits, b.bits), ty))
    case BXor => Some(Value(Xor(a.bits, b.bits), ty))
    case Shl => if b.bits >= 32 then None else Some(Value(Wrap(ShiftLeft(a.bits, b.bits)), ty))
    case Shr => if b.bits >= 32 then None else Some(Value(Wrap(ShiftRight(AsInt(a.bits, a.ty), b.bits)), ty))
    case LAnd => Some(Value(Num(a.bits != 0 && b.bits != 0), ty))
    case LOr => Some(Value(Num(a.bits != 0 || b.bits != 0), ty))
    case _ => Some(Value(Num(Compare(op, x, y)), ty))
  }

  /** `&&` and `||` do not look at the second operand if the first decides. */
  function CLazyBin(op: BinOp, a: Option<Value>, b: Option<Value>): Option<Value> {
    if a.None? || a.value.bits >= WORD then None
    else if op.LAnd? && a.value.bits == 0 then Some(Value(0, SInt))
    else if op.LOr? && a.value.bits != 0 then Some(Value(1, SInt))
    else if b.None? || b.value.bits >= WORD then None
    else CBin(op, a.value, b.value)
  }

  function CUn(op: UnOp, a: Value): Value
    requires a.bits < WORD
  {
    match op
    case BNot => Value(WORD - 1 - a.bits, a.ty)
    case LNot => Value(Num(a.bits == 0), SInt)
    case Neg => Value(Wrap(0 - a.bits), a.ty)
  }

  /** A plain literal is `int` if it fits, `unsigned int` otherwise. */
  function LitType(v: nat): CType {
    if v < HALF then SInt else UInt
  }

  /** Expressions have no side effects, so evaluating both operands of `&&`, `||` and the
      conditional is harmless except for what is undefined: those evaluate as C does. */
  function CEval(st: Store, e: Expr): Option<Value> {
    match e
    case Lit(v) => if v < WORD then Some(Value(v, LitType(v))) else None
    case Var(x) => if x in st.vars && st.vars[x].bits < WORD then Some(st.vars[x]) else None
    case Elem(a, index) =>
      var i := CEval(st, index);
      if i.Some? && a in st.arrays && i.value.bits < |st.arrays[a].elems| && st.arrays[a].elems[i.value.bits] < WORD
      then Some(Value(st.arrays[a].elems[i.value.bits], st.arrays[a].ty)) else None
    case Bin(op, l, r) => CLazyBin(op, CEval(st, l), CEval(st, r))
    case Un(op, e) =>
      var a := CEval(st, e);
      if a.Some? && a.value.bits < WORD then Some(CUn(op, a.value)) else None
    case Cond(c, t, f) =>
      var s := CEval(st, c);
      if s.None? then None
      else
        var v := if s.value.bits != 0 then CEval(st, t) else CEval(st, f);
        if v.Some? then Some(Value(v.value.bits, TypeOf(TypesOf(st), Cond(c, t, f)))) else None
    case Paren(e) => CEval(st, e)
    case Cast(ty, e) =>
      var a := CEval(st, e);
      if a.Some? then Some(Value(a.value.bits, ty)) else None
  }

  /** Types of the visible names. */
  datatype Env = Env(vars: map<string, CType>, arrays: map<string, CType>)

  function TypesOf(st: Store): Env {
    Env(map x | x in st.vars :: st.vars[x].ty, map a | a in st.arrays :: st.arrays[a].ty)
  }

  function TypeOf(env: Env, e: Expr): CType {
    match e
    case Lit(v) => LitType(v)
    case Var(x) => if x in env.vars then env.vars[x] else SInt
    case Elem(a, _) => if a in env.arrays then env.arrays[a] else SInt
    case Bin(op, l, r) => BinType(op, TypeOf(env, l), TypeOf(env, r))
    case Un(op, e) => if op.LNot? then SInt else TypeOf(env, e)
    case Cond(_, t, f) => Common(TypeOf(env, t), TypeOf(env, f))
    case Paren(e) => TypeOf(env, e)
    case Cast(ty, _) => ty
  }

  /** `OutOfFuel` stands for a loop that has not ended after `fuel` iterations. */
  datatype Outcome = Done(st: Store) | Undefined | OutOfFuel

  /** Names declared directly in a block. */
  function Declared(body: seq<Stmt>): set<string> {
    if body == [] then {}
    else
      (match body[0] case Decl(x, _, _) => {x} case DeclArray(a, _, _) => {a} case _ => {}) + Declared(body[1..])
  }

  /** Leaving a block: what it declared goes out of scope, what it hid comes back. */
  function Leave(outer: Store, inner: Store, names: set<string>): Store {
    Store(
      map x | x in inner.vars && (x !in names || x in outer.vars) ::
        if x in names then outer.vars[x] else inner.vars[x],
      map a | a in inner.arrays && (a !in names || a in outer.arrays) ::
        if a in names then outer.arrays[a] else inner.arrays[a])
  }

  function Exec(fuel: nat, st: Store, s: Stmt): Outcome
    decreases s, 0
  {
    match s
    case Decl(x, ty, None) => Done(st.(vars := st.vars[x := Value(0, ty)]))
    case Decl(x, ty, Some(e)) =>
      var v := CEval(st, e);
      if v.Some? then Done(st.(vars := st.vars[x := Value(v.value.bits, ty)])) else Undefined
    case DeclArray(a, ty, size) => Done(st.(arrays := st.arrays[a := Array(seq(size, _ => 0), ty)]))
    case Assign(x, e) =>
      var v := CEval(st, e);
      if v.Some? && x in st.vars then Done(st.(vars := st.vars[x := Value(v.value.bits, st.vars[x].ty)])) else Undefined
    case AssignElem(a, index, e) =>
      var i, v := CEval(st, index), CEval(st, e);
      if i.Some? && v.Some? && a in st.arrays && i.value.bits < |st.arrays[a].elems| then
        var arr := st.arrays[a];
        Done(st.(arrays := st.arrays[a := arr.(elems := arr.elems[i.value.bits := v.value.bits])]))
      else Undefined
    case Compound(x, op, e) =>
      var v := CEval(st, Bin(op, Var(x), e));
      if v.Some? && x in st.vars then Done(st.(vars := st.vars[x := Value(v.value.bits, st.vars[x].ty)])) else Undefined
    case Block(body) => ExecBlock(fuel, st, body)
    case For(x, start, cmp, bound, body) =>
      if x in st.vars && start < WORD then
        var st1 := st.(vars := st.vars[x := Value(start, st.vars[x].ty)]);
        Iterate(Test(x, cmp, bound), OneTurn(fuel, body), fuel, st1, x)
      else Undefined
  }

  function ExecAll(fuel: nat, st: Store, body: seq<Stmt>): Outcome
    decreases body, 0
  {
    if body == [] then Done(st)
    else
      var first := Exec(fuel, st, body[0]);
      if first.Done? then ExecAll(fuel, first.st, body[1..]) else first
  }

  function ExecBlock(fuel: nat, st: Store, body: seq<Stmt>): Outcome
    decreases body, 1
  {
    var inner := ExecAll(fuel, st, body);
    if inner.Done? then Done(Leave(st, inner.st, Declared(body))) else inner
  }

  /** One execution of a loop's body. */
  function OneTurn(fuel: nat, body: seq<Stmt>): Store -> Outcome
    decreases body, 2
  {
    (st: Store) => ExecBlock(fuel, st, body)
  }

  function Stepped(st: Store, x: string): Store
    requires x in st.vars
  {
    st.(vars := st.vars[x := st.vars[x].(bits := Wrap(st.vars[x].bits + 1))])
  }

  /** The loop's test; `None` if it has no value. */
  function Test(x: string, cmp: BinOp, bound: nat): Store -> Option<bool> {
    (st: Store) =>
      var go := CEval(st, Bin(cmp, Var(x), Lit(bound)));
      if go.None? then None else Some(go.value.bits != 0)
  }

  function Tested(test: Store -> Option<bool>, st: Store): Option<bool> {
    test(st)
  }

  function Turned(turn: Store -> Outcome, st: Store): Outcome {
    turn(st)
  }

  /** `while (test) { turn; x++ }`, at most `k` times. */
  function Iterate(test: Store -> Option<bool>, turn: Store -> Outcome, k: nat, st: Store, x: string): Outcome
    decreases k
  {
    if Tested(test, st).None? then Undefined
    else if !Tested(test, st).value then Done(st)
    else if k == 0 then OutOfFuel
    else
      var once := Turned(turn, st);
      if once.Done? && x in once.st.vars then Iterate(test, turn, k - 1, Stepped(once.st, x), x)
      else if once.Done? then Undefined else once
  }

  datatype Result = Returned(bits: nat) | Undef | NoFuel

  function ExecBody(fuel: nat, st: Store, body: Body): Result
    decreases body
  {
    match ExecAll(fuel, st, body.stmts)
    case Undefined => Undef
    case OutOfFuel => NoFuel
    case Done(st1) =>
      match body.tail {
        case Return(e) =>
          var v := CEval(st1, e);
          if v.Some? then Returned(v.value.bits) else Undef
        case IfElse(c, t, f) =>
          var v := CEval(st1, c);
          if v.None? then Undef
          else if v.value.bits != 0 then ExecBody(fuel, st1, t) else ExecBody(fuel, st1, f)
      }
  }

  // ---------- the trees ----------

  /** Node widths: 1 bit for a logical negation, 32 bits for everything else. */
  datatype Width = W1 | W32

  datatype VNode =
    | VInput(name: string, width: Width)
    | VConst(value: nat, width: Width)
    | VBinOp(op: BinOp, left: VNode, right: VNode, width: Width)
    | VUnaryOp(uop: UnOp, operand: VNode, width: Width)
    | VMux(sel: VNode, trueVal: VNode, falseVal: VNode, width: Width)
    | VCast(operand: VNode, width: Width)
    | VIndex(arr: VNode, index: VNode, width: Width)

  /** The combinational operators; all operands are unsigned. */
  function VBin(op: BinOp, a: nat, b: nat): int {
    match op
    case Add => a + b
    case Sub => a - b
    case Mul => a * b
    case BAnd => And(a, b)
    case BOr => Or(a, b)
    case BXor => Xor(a, b)
    case Shl => ShiftLeft(a, b)
    case Shr => ShiftRight(a, b)
    case LAnd => Num(a != 0 && b != 0)
    case LOr => Num(a != 0 || b != 0)
    case _ => Num(Compare(op, a, b))
  }

  function VUn(op: UnOp, a: nat): int {
    match op
    case BNot => -1 - a
    case LNot => Num(a == 0)
    case Neg => 0 - a
  }

  function Trunc(x: int, w: Width): (r: nat) {
    if w.W1? then x % 2 else Wrap(x)
  }

  /** The value on the node, truncated to its width. */
  function VEval(inputs: string -> nat, n: VNode): nat {
    match n
    case VInput(name, w) => Trunc(Input(inputs, name), w)
    case VConst(v, w) => Trunc(v, w)
    case VBinOp(op, l, r, w) => Trunc(VBin(op, VEval(inputs, l), VEval(inputs, r)), w)
    case VUnaryOp(op, e, w) => Trunc(VUn(op, VEval(inputs, e)), w)
    case VMux(s, t, f, w) => Trunc(if VEval(inputs, s) != 0 then VEval(inputs, t) else VEval(inputs, f), w)
    case VCast(e, w) => Trunc(VEval(inputs, e), w)
    case VIndex(a, i, w) => Trunc(ShiftRight(VEval(inputs, a), 32 * VEval(inputs, i)), w)
  }

  function Input(inputs: string -> nat, name: string): nat {
    inputs(name)
  }

  // ---------- the conversion ----------

  /** The converter's tables: parameters, variables and local arrays. */
  datatype Sym = Sym(params: set<string>, locals: map<string, VNode>, arrays: map<string, seq<VNode>>)

  function ConvVar(y: Sym, x: string): VNode {
    if x in y.locals then y.locals[x] else VInput(x, W32)
  }

  function ConvExpr(y: Sym, e: Expr): VNode {
    match e
    case Lit(v) => VConst(v, W32)
    case Var(x) => ConvVar(y, x)
    case Elem(a, index) =>
      var i := ConvExpr(y, index);
      if a in y.locals then VIndex(y.locals[a], i, W32)
      else if a in y.params then VIndex(VInput(a, W32), i, W32)
      else if i.VConst? && a in y.arrays && i.value < |y.arrays[a]| then y.arrays[a][i.value]
      else VIndex(VInput(a, W32), i, W32)
    case Bin(op, l, r) => VBinOp(op, ConvExpr(y, l), ConvExpr(y, r), W32)
    case Un(op, e) => VUnaryOp(op, ConvExpr(y, e), if op.LNot? then W1 else W32)
    case Cond(c, t, f) => VMux(ConvExpr(y, c), ConvExpr(y, t), ConvExpr(y, f), W32)
    case Paren(e) => ConvExpr(y, e)
    case Cast(_, e) =>
      var inner := ConvExpr(y, e);
      if inner.VConst? then VConst(inner.value, W32)
      else if inner.width != W32 then VCast(inner, W32)
      else inner
  }

  function SetLocal(y: Sym, x: string, n: VNode): Sym {
    y.(locals := y.locals[x := n])
  }

  function Walk(y: Sym, s: Stmt): Sym
    decreases s, 0
  {
    match s
    case Decl(x, _, None) => SetLocal(y, x, VConst(0, W32))
    case Decl(x, _, Some(e)) => SetLocal(y, x, ConvExpr(y, e))
    case DeclArray(a, _, size) => y.(arrays := y.arrays[a := seq(size, _ => VConst(0, W32))])
    case Assign(x, e) => if x in y.locals || x in y.params then SetLocal(y, x, ConvExpr(y, e)) else y
    case AssignElem(a, index, e) =>
      var i := ConvExpr(y, index);
      if a in y.arrays && i.VConst? && i.value < |y.arrays[a]|
      then y.(arrays := y.arrays[a := y.arrays[a][i.value := ConvExpr(y, e)]])
      else y
    case Compound(x, op, e) =>
      if x in y.locals || x in y.params
      then SetLocal(y, x, VBinOp(op, ConvVar(y, x), ConvExpr(y, e), W32))
      else y
    case Block(body) => WalkAll(y, body)
    case For(x, start, cmp, bound, body) =>
      var end := LoopEnd(cmp, bound);
      if end <= start || end - start > MAX_UNROLL then y
      else Unroll(OneWalk(body), y, x, start, end)
  }

  function WalkAll(y: Sym, body: seq<Stmt>): Sym
    decreases body, 0
  {
    if body == [] then y else WalkAll(Walk(y, body[0]), body[1..])
  }

  function LoopEnd(cmp: BinOp, bound: nat): nat {
    if cmp.Le? then bound + 1 else bound
  }

  /** One walk over a loop's body. */
  function OneWalk(body: seq<Stmt>): Sym -> Sym
    decreases body, 1
  {
    (y: Sym) => WalkAll(y, body)
  }

  function Walked(walk: Sym -> Sym, y: Sym, x: string, i: nat): Sym {
    walk(SetLocal(y, x, VConst(i, W32)))
  }

  /** Unrolling: the counter is bound to each constant in turn. */
  function Unroll(walk: Sym -> Sym, y: Sym, x: string, i: nat, end: nat): Sym
    decreases if i < end then end - i else 0
  {
    if i >= end then y else Unroll(walk, Walked(walk, y, x, i), x, i + 1, end)
  }

  /** The tree for the return value, and the tables after it: the `else` branch is walked
      with whatever the `if` branch left in them. */
  function ConvBody(y: Sym, body: Body): (Sym, VNode)
    decreases body
  {
    var y1 := WalkAll(y, body.stmts);
    match body.tail
    case Return(e) => (y1, ConvExpr(y1, e))
    case IfElse(c, t, f) =>
      var sel := ConvExpr(y1, c);
      var (y2, tv) := ConvBody(y1, t);
      var (y3, fv) := ConvBody(y2, f);
      (y3, VMux(sel, tv, fv, W32))
  }
}
