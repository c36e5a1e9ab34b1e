/** The converter preserves meaning: the tree it returns computes, for all inputs, what
    the C function returns. */
module C2VProof {
  import opened Bits
  import opened C2VModel

  // ---------- the supported fragment ----------

  /** What the fragment depends on besides types and tables: the names used for arrays in
      the whole function, the counters of the enclosing loops, and the names whose trees do
      not follow the C value, because a loop has stepped them. */
  datatype Scope = Scope(arrays: set<string>, bound: set<string>, stale: set<string>)

  /** The trees do not track signedness, so operators that depend on it need an unsigned
      operand: ordering one of the two, right shift the left one. */
  predicate BinOk(op: BinOp, a: CType, b: CType) {
    match op
    case Lt => Common(a, b).UInt?
    case Gt => Common(a, b).UInt?
    case Le => Common(a, b).UInt?
    case Ge => Common(a, b).UInt?
    case Shr => a.UInt?
    case _ => true
  }

  /** An array index must be one that the converter resolves to a constant. */
  predicate ConstIndex(c: Scope, env: Env, y: Sym, e: Expr) {
    ExprOk(c, env, y, e) && ConvExpr(y, e).VConst?
  }

  predicate ExprOk(c: Scope, env: Env, y: Sym, e: Expr) {
    match e
    case Lit(v) => v < WORD
    case Var(x) => x in env.vars && x !in c.stale
    case Elem(a, index) => a in env.arrays && ExprOk(c, env, y, index) && ConvExpr(y, index).VConst?
    case Bin(op, l, r) =>
      && ExprOk(c, env, y, l) && ExprOk(c, env, y, r)
      && BinOk(op, TypeOf(env, l), TypeOf(env, r))
    case Un(_, e) => ExprOk(c, env, y, e)
    case Cond(s, t, f) => ExprOk(c, env, y, s) && ExprOk(c, env, y, t) && ExprOk(c, env, y, f)
    case Paren(e) => ExprOk(c, env, y, e)
    case Cast(_, e) => ExprOk(c, env, y, e)
  }

  /** Visible names and their types after a statement. */
  function After(env: Env, s: Stmt): Env {
    match s
    case Decl(x, ty, _) => env.(vars := env.vars[x := ty])
    case DeclArray(a, ty, _) => env.(arrays := env.arrays[a := ty])
    case _ => env
  }

  function AfterAll(env: Env, body: seq<Stmt>): Env
    decreases |body|
  {
    if body == [] then env else AfterAll(After(env, body[0]), body[1..])
  }

  predicate Visible(env: Env, x: string) {
    x in env.vars || x in env.arrays
  }

  /** A block that hides no name. */
  predicate NoHiding(env: Env, body: seq<Stmt>) {
    forall x :: x in Declared(body) ==> !Visible(env, x)
  }

  /** The counters of all loops in a statement. */
  function Loops(s: Stmt): set<string>
    decreases s, 0
  {
    match s
    case Block(body) => AllLoops(body)
    case For(x, _, _, _, body) => {x} + AllLoops(body)
    case _ => {}
  }

  function AllLoops(body: seq<Stmt>): set<string>
    decreases body, 0
  {
    if body == [] then {} else Loops(body[0]) + AllLoops(body[1..])
  }

  /** The stale names after a statement: a loop makes its counter stale, a declaration or an
      assignment makes its target fresh. */
  function Stale(stale: set<string>, s: Stmt): set<string>
    decreases s, 0
  {
    match s
    case Decl(x, _, _) => stale - {x}
    case Assign(x, _) => stale - {x}
    case Block(body) => AllStale(stale, body)
    case For(x, start, cmp, bound, body) =>
      (if start < LoopEnd(cmp, bound) then AllStale(stale + AllLoops(body) - {x}, body) else stale) + {x}
    case _ => stale
  }

  function AllStale(stale: set<string>, body: seq<Stmt>): set<string>
    decreases body, 0
  {
    if body == [] then stale else AllStale(Stale(stale, body[0]), body[1..])
  }

  function Next(c: Scope, s: Stmt): Scope {
    c.(stale := Stale(c.stale, s))
  }

  function NextAll(c: Scope, body: seq<Stmt>): Scope {
    c.(stale := AllStale(c.stale, body))
  }

  /** The scope of a loop's body: any turn may follow any other. */
  function InLoop(c: Scope, x: string, body: seq<Stmt>): Scope {
    c.(bound := c.bound + {x}, stale := c.stale + AllLoops(body) - {x})
  }

  /** Blocks hide no visible name; assignments leave the counters of enclosing loops alone;
      a counter that its loop has stepped is not read before it is assigned; loops step by
      one between literal bounds, at most 1024 times. */
  predicate StmtOk(c: Scope, env: Env, y: Sym, s: Stmt)
    decreases s, 0
  {
    match s
    case Decl(x, _, init) =>
      x !in c.arrays && x !in c.bound && (init.Some? ==> ExprOk(c, env, y, init.value))
    case DeclArray(a, _, _) => a in c.arrays
    case Assign(x, e) => x in env.vars && x !in c.bound && ExprOk(c, env, y, e)
    case AssignElem(a, index, e) => a in env.arrays && ConstIndex(c, env, y, index) && ExprOk(c, env, y, e)
    case Compound(x, op, e) =>
      && x in env.vars && x !in c.bound && x !in c.stale && ExprOk(c, env, y, e)
      && BinOk(op, env.vars[x], TypeOf(env, e))
    case Block(body) => NoHiding(env, body) && AllOk(c, env, y, body)
    case For(x, start, cmp, bound, body) =>
      && x in env.vars && x !in c.bound && LoopOk(start, cmp, bound) && NoHiding(env, body)
      && TurnsOk(InLoop(c, x, body), env, y, x, body, start, LoopEnd(cmp, bound))
  }

  predicate LoopOk(start: nat, cmp: BinOp, bound: nat) {
    && (cmp.Lt? || cmp.Le? || cmp.Ne?)
    && start < HALF && bound + 1 < HALF
    && (cmp.Ne? ==> start <= bound)
    && LoopEnd(cmp, bound) - start <= MAX_UNROLL
  }

  /** The body is in the fragment at every turn of the unrolling. */
  predicate TurnsOk(c: Scope, env: Env, y: Sym, x: string, body: seq<Stmt>, i: nat, end: nat)
    decreases body, 1, if i < end then end - i else 0
  {
    i < end ==>
      && AllOk(c, env, SetLocal(y, x, VConst(i, W32)), body)
      && TurnsOk(c, env, WalkAll(SetLocal(y, x, VConst(i, W32)), body), x, body, i + 1, end)
  }

  predicate AllOk(c: Scope, env: Env, y: Sym, body: seq<Stmt>)
    decreases body, 0
  {
    body == [] ||
    (StmtOk(c, env, y, body[0]) && AllOk(Next(c, body[0]), After(env, body[0]), Walk(y, body[0]), body[1..]))
  }

  /** Everything a statement writes in the converter's tables. */
  function Targets(s: Stmt): set<string>
    decreases s, 0
  {
    match s
    case Decl(x, _, _) => {x}
    case DeclArray(a, _, _) => {a}
    case Assign(x, _) => {x}
    case AssignElem(a, _, _) => {a}
    case Compound(x, _, _) => {x}
    case Block(body) => AllTargets(body)
    case For(x, _, _, _, body) => {x} + AllTargets(body)
  }

  function AllTargets(body: seq<Stmt>): set<string>
    decreases body, 0
  {
    if body == [] then {} else Targets(body[0]) + AllTargets(body[1..])
  }

  function BodyTargets(b: Body): set<string> {
    AllTargets(b.stmts) +
    match b.tail
    case Return(_) => {}
    case IfElse(_, t, f) => BodyTargets(t) + BodyTargets(f)
  }

  /** The branches of the closing `if` only return: the first assigns nothing that the
      second could read. */
  predicate BodyOk(c: Scope, env: Env, y: Sym, b: Body)
    decreases b
  {
    && AllOk(c, env, y, b.stmts)
    && var c1, env1, y1 := NextAll(c, b.stmts), AfterAll(env, b.stmts), WalkAll(y, b.stmts);
       match b.tail
       case Return(e) => ExprOk(c1, env1, y1, e)
       case IfElse(s, t, f) =>
         && ExprOk(c1, env1, y1, s) && BodyOk(c1, env1, y1, t) && BodyOk(c1, env1, ConvBody(y1, t).0, f)
         && BodyTargets(t) !! (env1.vars.Keys + env1.arrays.Keys)
  }

  // ---------- the relation between store and tables ----------

  /** Scalar and array names are kept apart, and every visible scalar is in the tables. */
  ghost predicate ShapeRel(arrays: set<string>, st: Store, y: Sym) {
    && (forall x :: x in st.vars ==> x !in arrays && (x in y.locals || x in y.params))
    && (forall x :: x in y.locals ==> x !in arrays)
    && (forall x :: x in y.params ==> x !in arrays)
  }

  /** The tree of every variable that is not stale has its value. */
  ghost predicate VarsRel(stale: set<string>, inputs: string -> nat, st: Store, y: Sym) {
    forall x :: x in st.vars && x !in stale ==> VEval(inputs, ConvVar(y, x)) == st.vars[x].bits
  }

  /** The tree of every array element has its value. */
  ghost predicate ArraysRel(arrays: set<string>, inputs: string -> nat, st: Store, y: Sym) {
    forall a :: a in st.arrays ==>
      a in arrays && a in y.arrays && RelArray(inputs, st.arrays[a].elems, y.arrays[a])
  }

  ghost predicate RelArray(inputs: string -> nat, elems: seq<nat>, nodes: seq<VNode>) {
    |elems| == |nodes| && forall i :: 0 <= i < |elems| ==> VEval(inputs, nodes[i]) == elems[i]
  }

  /** Constants are 32 bits wide and fit. */
  predicate Full(node: VNode) {
    node.VConst? ==> node.width == W32 && node.value < WORD
  }

  predicate Wide(y: Sym) {
    && (forall x :: x in y.locals ==> Full(y.locals[x]))
    && (forall a, i :: a in y.arrays && 0 <= i < |y.arrays[a]| ==> Full(y.arrays[a][i]))
  }

  ghost predicate Related(c: Scope, inputs: string -> nat, st: Store, y: Sym) {
    && ShapeRel(c.arrays, st, y) && VarsRel(c.stale, inputs, st, y) && ArraysRel(c.arrays, inputs, st, y)
    && Wide(y)
  }

  /** More names may count as stale. */
  lemma RelatedMore(c: Scope, c': Scope, inputs: string -> nat, st: Store, y: Sym)
    requires Related(c, inputs, st, y) && c'.arrays == c.arrays && c.stale <= c'.stale
    ensures Related(c', inputs, st, y)
  {
  }

  // ---------- expressions ----------

  lemma WordIsPow2()
    ensures Pow2(32) == WORD
  {
    assert Pow2(8) == 256;
    Pow2Add(8, 8);
    Pow2Add(16, 16);
  }

  lemma BitwiseFits(a: nat, b: nat)
    requires a < WORD && b < WORD
    ensures And(a, b) < WORD && Or(a, b) < WORD && Xor(a, b) < WORD
  {
    WordIsPow2();
    AndBound(a, b, 32);
    OrBound(a, b, 32);
    XorBound(a, b, 32);
  }

  lemma {:induction false} ShiftRightFits(a: nat, b: nat)
    ensures 0 <= ShiftRight(a, b) <= a
  {
    if b > 0 { ShiftRightFits(a / 2, b - 1); }
  }

  lemma WrapFits(x: nat)
    requires x < WORD
    ensures Wrap(x) == x
  {
  }

  /** The operators on bit patterns. */
  lemma BitwiseSim(op: BinOp, a: Value, b: Value)
    requires a.bits < WORD && b.bits < WORD && (op.BAnd? || op.BOr? || op.BXor?)
    ensures Wrap(VBin(op, a.bits, b.bits)) == CBin(op, a, b).value.bits
  {
    BitwiseFits(a.bits, b.bits);
    WrapFits(VBin(op, a.bits, b.bits));
  }

  /** Orderings and equalities. */
  lemma CompareSim(op: BinOp, a: Value, b: Value)
    requires a.bits < WORD && b.bits < WORD && Relational(op) && BinOk(op, a.ty, b.ty)
    ensures Wrap(VBin(op, a.bits, b.bits)) == CBin(op, a, b).value.bits
  {
    WrapFits(VBin(op, a.bits, b.bits));
  }

  lemma ShiftSim(op: BinOp, a: Value, b: Value)
    requires a.bits < WORD && b.bits < 32 && (op.Shl? || op.Shr?) && BinOk(op, a.ty, b.ty)
    ensures Wrap(VBin(op, a.bits, b.bits)) == CBin(op, a, b).value.bits
  {
  }

  lemma BinSim(op: BinOp, a: Value, b: Value)
    requires a.bits < WORD && b.bits < WORD && CBin(op, a, b).Some? && BinOk(op, a.ty, b.ty)
    ensures Wrap(VBin(op, a.bits, b.bits)) == CBin(op, a, b).value.bits
  {
    if op.BAnd? || op.BOr? || op.BXor? {
      BitwiseSim(op, a, b);
    } else if op.Shl? || op.Shr? {
      ShiftSim(op, a, b);
    } else if Relational(op) {
      CompareSim(op, a, b);
    } else if op.LAnd? || op.LOr? {
      WrapFits(VBin(op, a.bits, b.bits));
    }
  }

  /** The same with the short circuits of `&&` and `||`, where the second operand may
      have no value. */
  lemma LazySim(op: BinOp, a: Option<Value>, b: Option<Value>, ta: CType, tb: CType, p: nat, q: nat)
    requires a.Some? ==> p == a.value.bits < WORD && a.value.ty == ta
    requires b.Some? ==> q == b.value.bits < WORD && b.value.ty == tb
    requires BinOk(op, ta, tb) && CLazyBin(op, a, b).Some?
    ensures Wrap(VBin(op, p, q)) == CLazyBin(op, a, b).value.bits
  {
    if !(op.LAnd? && p == 0) && !(op.LOr? && p != 0) {
      BinSim(op, a.value, b.value);
    }
  }

  /** Values have their static types and fit in 32 bits. */
  lemma {:induction false} Typed(st: Store, e: Expr)
    requires CEval(st, e).Some?
    ensures CEval(st, e).value.ty == TypeOf(TypesOf(st), e)
  {
    match e
    case Bin(op, l, r) =>
      Typed(st, l);
      if !(op.LAnd? && CEval(st, l).value.bits == 0) && !(op.LOr? && CEval(st, l).value.bits != 0) {
        Typed(st, r);
      }
    case Un(_, e1) => Typed(st, e1);
    case Paren(e1) => Typed(st, e1);
    case _ =>
  }

  lemma UnSim(op: UnOp, a: Value)
    requires a.bits < WORD
    ensures Trunc(VUn(op, a.bits), if op.LNot? then W1 else W32) == CUn(op, a).bits < WORD
  {
  }

  /** If the C expression has a value, its tree has that value. */
  ghost predicate Agree(inputs: string -> nat, st: Store, y: Sym, e: Expr) {
    CEval(st, e).Some? ==> VEval(inputs, ConvExpr(y, e)) == CEval(st, e).value.bits < WORD
  }

  lemma LeafSim(c: Scope, inputs: string -> nat, st: Store, y: Sym, e: Expr)
    requires ExprOk(c, TypesOf(st), y, e) && Related(c, inputs, st, y) && (e.Lit? || e.Var?)
    ensures Agree(inputs, st, y, e)
  {
  }

  /** An index that the converter resolves has the value it resolves to. */
  lemma IndexSim(inputs: string -> nat, st: Store, y: Sym, index: Expr)
    requires Agree(inputs, st, y, index) && ConvExpr(y, index).VConst? && Full(ConvExpr(y, index))
    ensures CEval(st, index).Some? ==> CEval(st, index).value.bits == ConvExpr(y, index).value
  {
  }

  lemma ElemSim(c: Scope, inputs: string -> nat, st: Store, y: Sym, a: string, index: Expr)
    requires ExprOk(c, TypesOf(st), y, Elem(a, index)) && Related(c, inputs, st, y) && Agree(inputs, st, y, index)
    ensures Agree(inputs, st, y, Elem(a, index))
  {
    ConstWidth(c, TypesOf(st), y, index);
    IndexSim(inputs, st, y, index);
    assert a in st.arrays && RelArray(inputs, st.arrays[a].elems, y.arrays[a]);
  }

  lemma BinExprSim(inputs: string -> nat, st: Store, y: Sym, op: BinOp, l: Expr, r: Expr)
    requires Agree(inputs, st, y, l) && Agree(inputs, st, y, r)
    requires BinOk(op, TypeOf(TypesOf(st), l), TypeOf(TypesOf(st), r))
    ensures Agree(inputs, st, y, Bin(op, l, r))
  {
    var a, b := CEval(st, l), CEval(st, r);
    if a.Some? { Typed(st, l); }
    if b.Some? { Typed(st, r); }
    if CLazyBin(op, a, b).Some? {
      LazySim(op, a, b, TypeOf(TypesOf(st), l), TypeOf(TypesOf(st), r),
              VEval(inputs, ConvExpr(y, l)), VEval(inputs, ConvExpr(y, r)));
    }
  }

  lemma UnExprSim(inputs: string -> nat, st: Store, y: Sym, op: UnOp, e: Expr)
    requires Agree(inputs, st, y, e)
    ensures Agree(inputs, st, y, Un(op, e))
  {
    if CEval(st, Un(op, e)).Some? {
      UnSim(op, CEval(st, e).value);
    }
  }

  lemma CondSim(inputs: string -> nat, st: Store, y: Sym, c: Expr, t: Expr, f: Expr)
    requires Agree(inputs, st, y, c) && Agree(inputs, st, y, t) && Agree(inputs, st, y, f)
    ensures Agree(inputs, st, y, Cond(c, t, f))
  {
  }

  /** The tree of a cast has the value of what is cast. */
  lemma CastNode(inputs: string -> nat, y: Sym, ty: CType, e: Expr)
    requires Full(ConvExpr(y, e)) && VEval(inputs, ConvExpr(y, e)) < WORD
    ensures VEval(inputs, ConvExpr(y, Cast(ty, e))) == VEval(inputs, ConvExpr(y, e))
  {
    var inner := ConvExpr(y, e);
    if !inner.VConst? && inner.width != W32 {
      WrapFits(VEval(inputs, inner));
      assert ConvExpr(y, Cast(ty, e)) == VCast(inner, W32);
    }
  }

  lemma CastSim(c: Scope, inputs: string -> nat, st: Store, y: Sym, ty: CType, e: Expr)
    requires Agree(inputs, st, y, e) && Wide(y) && ExprOk(c, TypesOf(st), y, e)
    ensures Agree(inputs, st, y, Cast(ty, e))
  {
    if CEval(st, e).Some? {
      ConstWidth(c, TypesOf(st), y, e);
      CastNode(inputs, y, ty, e);
    }
  }

  /** Constants are always produced at full width. */
  lemma {:induction false} ConstWidth(c: Scope, env: Env, y: Sym, e: Expr)
    requires Wide(y) && ExprOk(c, env, y, e)
    ensures Full(ConvExpr(y, e))
  {
    match e
    case Paren(e1) => ConstWidth(c, env, y, e1);
    case Cast(_, e1) => ConstWidth(c, env, y, e1);
    case _ =>
  }

  lemma {:induction false} ExprSim(c: Scope, inputs: string -> nat, st: Store, y: Sym, e: Expr)
    requires ExprOk(c, TypesOf(st), y, e) && Related(c, inputs, st, y)
    ensures Agree(inputs, st, y, e)
  {
    match e
    case Elem(a, index) =>
      ExprSim(c, inputs, st, y, index);
      ElemSim(c, inputs, st, y, a, index);
    case Bin(op, l, r) =>
      ExprSim(c, inputs, st, y, l);
      ExprSim(c, inputs, st, y, r);
      BinExprSim(inputs, st, y, op, l, r);
    case Un(op, e1) =>
      ExprSim(c, inputs, st, y, e1);
      UnExprSim(inputs, st, y, op, e1);
    case Cond(s, t, f) =>
      ExprSim(c, inputs, st, y, s);
      ExprSim(c, inputs, st, y, t);
      ExprSim(c, inputs, st, y, f);
      CondSim(inputs, st, y, s, t, f);
    case Paren(e1) => ExprSim(c, inputs, st, y, e1);
    case Cast(ty, e1) =>
      ExprSim(c, inputs, st, y, e1);
      CastSim(c, inputs, st, y, ty, e1);
    case _ => LeafSim(c, inputs, st, y, e);
  }
}
