/** The main theorem about the converter, and its imperative form. */
module C2VTheorems {
  import opened C2VModel
  import opened C2VProof
  import opened C2VSimulation

  // ---------- walking a branch that is not taken ----------

  /** The tables keep scalar and array names apart and hold full-width constants. */
  ghost predicate Tidy(arrays: set<string>, y: Sym) {
    Wide(y) && forall x :: x in y.locals ==> x !in arrays
  }

  ghost predicate ScalarEnv(arrays: set<string>, env: Env) {
    forall x :: x in env.vars ==> x !in arrays
  }

  /** Both tables say the same about `x`. */
  ghost predicate SameAt(y: Sym, y': Sym, x: string) {
    && (x in y.locals <==> x in y'.locals) && (x in y.locals ==> y'.locals[x] == y.locals[x])
    && (x in y.arrays <==> x in y'.arrays) && (x in y.arrays ==> y'.arrays[x] == y.arrays[x])
  }

  /** From `y` to `y'` nothing changes outside `names`, and the tables stay tidy. */
  ghost predicate Writes(arrays: set<string>, y: Sym, y': Sym, names: set<string>) {
    Tidy(arrays, y') && y'.params == y.params && forall x :: x !in names ==> SameAt(y, y', x)
  }

  lemma WritesThrough(arrays: set<string>, y: Sym, y1: Sym, y2: Sym, a: set<string>, b: set<string>)
    requires Writes(arrays, y, y1, a) && Writes(arrays, y1, y2, b)
    ensures Writes(arrays, y, y2, a + b)
  {
    forall x | x !in a + b
      ensures SameAt(y, y2, x)
    {
      assert SameAt(y, y1, x) && SameAt(y1, y2, x);
    }
  }

  lemma SetWrites(arrays: set<string>, y: Sym, x: string, node: VNode)
    requires Tidy(arrays, y) && x !in arrays && Full(node)
    ensures Writes(arrays, y, SetLocal(y, x, node), {x})
  {
  }

  lemma {:induction false} WalkWrites(c: Scope, env: Env, y: Sym, s: Stmt)
    requires StmtOk(c, env, y, s) && ScalarEnv(c.arrays, env) && Tidy(c.arrays, y)
    ensures Writes(c.arrays, y, Walk(y, s), Targets(s)) && ScalarEnv(c.arrays, After(env, s))
    decreases s, 0
  {
    match s
    case Decl(x, _, init) =>
      if init.Some? {
        ConstWidth(c, env, y, init.value);
        SetWrites(c.arrays, y, x, ConvExpr(y, init.value));
      } else {
        SetWrites(c.arrays, y, x, VConst(0, W32));
      }
    case Assign(x, e) =>
      ConstWidth(c, env, y, e);
      SetWrites(c.arrays, y, x, ConvExpr(y, e));
    case Compound(x, op, e) => SetWrites(c.arrays, y, x, VBinOp(op, ConvVar(y, x), ConvExpr(y, e), W32));
    case DeclArray(_, _, _) =>
    case AssignElem(_, _, e) => ConstWidth(c, env, y, e);
    case Block(body) => WalkAllWrites(c, env, y, body);
    case For(x, start, cmp, bound, body) =>
      UnrollWrites(InLoop(c, x, body), env, y, x, body, start, LoopEnd(cmp, bound));
  }

  lemma {:induction false} WalkAllWrites(c: Scope, env: Env, y: Sym, body: seq<Stmt>)
    requires AllOk(c, env, y, body) && ScalarEnv(c.arrays, env) && Tidy(c.arrays, y)
    ensures Writes(c.arrays, y, WalkAll(y, body), AllTargets(body)) && ScalarEnv(c.arrays, AfterAll(env, body))
    decreases body, 0
  {
    if body != [] {
      var y1 := Walk(y, body[0]);
      WalkWrites(c, env, y, body[0]);
      WalkAllWrites(Next(c, body[0]), After(env, body[0]), y1, body[1..]);
      WritesThrough(c.arrays, y, y1, WalkAll(y, body), Targets(body[0]), AllTargets(body[1..]));
    }
  }

  /** One turn of an unrolled loop. */
  lemma {:induction false} TurnWrites(c: Scope, env: Env, y: Sym, x: string, body: seq<Stmt>, i: nat)
    requires AllOk(c, env, SetLocal(y, x, VConst(i, W32)), body) && i < WORD
    requires ScalarEnv(c.arrays, env) && Tidy(c.arrays, y) && x in env.vars
    ensures Writes(c.arrays, SetLocal(y, x, VConst(i, W32)), Walked(OneWalk(body), y, x, i), AllTargets(body))
    ensures Writes(c.arrays, y, Walked(OneWalk(body), y, x, i), {x} + AllTargets(body))
    decreases body, 1
  {
    var y1, y2 := SetLocal(y, x, VConst(i, W32)), Walked(OneWalk(body), y, x, i);
    SetWrites(c.arrays, y, x, VConst(i, W32));
    WalkAllWrites(c, env, y1, body);
    assert y2 == WalkAll(y1, body);
    WritesThrough(c.arrays, y, y1, y2, {x}, AllTargets(body));
  }

  lemma {:induction false} UnrollWrites(c: Scope, env: Env, y: Sym, x: string, body: seq<Stmt>, i: nat, end: nat)
    requires TurnsOk(c, env, y, x, body, i, end) && end < WORD
    requires ScalarEnv(c.arrays, env) && Tidy(c.arrays, y) && x in env.vars
    ensures Writes(c.arrays, y, Unroll(OneWalk(body), y, x, i, end), {x} + AllTargets(body))
    decreases body, 2, if i < end then end - i else 0
  {
    if i < end {
      var y2, names := Walked(OneWalk(body), y, x, i), {x} + AllTargets(body);
      TurnWrites(c, env, y, x, body, i);
      assert y2 == WalkAll(SetLocal(y, x, VConst(i, W32)), body);
      UnrollWrites(c, env, y2, x, body, i + 1, end);
      WritesThrough(c.arrays, y, y2, Unroll(OneWalk(body), y2, x, i + 1, end), names, names);
      assert names + names == names;
    }
  }

  lemma {:induction false} BodyWrites(c: Scope, env: Env, y: Sym, b: Body)
    requires BodyOk(c, env, y, b) && ScalarEnv(c.arrays, env) && Tidy(c.arrays, y)
    ensures Writes(c.arrays, y, ConvBody(y, b).0, BodyTargets(b))
    decreases b
  {
    WalkAllWrites(c, env, y, b.stmts);
    var c1, env1, y1 := NextAll(c, b.stmts), AfterAll(env, b.stmts), WalkAll(y, b.stmts);
    match b.tail
    case Return(_) =>
    case IfElse(_, t, f) =>
      BodyWrites(c1, env1, y1, t);
      var y2 := ConvBody(y1, t).0;
      BodyWrites(c1, env1, y2, f);
      var y3 := ConvBody(y2, f).0;
      WritesThrough(c.arrays, y1, y2, y3, BodyTargets(t), BodyTargets(f));
      WritesThrough(c.arrays, y, y1, y3, AllTargets(b.stmts), BodyTargets(t) + BodyTargets(f));
  }

  /** A store stays related to tables that changed only on names it does not have. */
  lemma RelatedFrame(c: Scope, inputs: string -> nat, st: Store, y: Sym, y': Sym, names: set<string>)
    requires Related(c, inputs, st, y) && Writes(c.arrays, y, y', names)
    requires names !! (TypesOf(st).vars.Keys + TypesOf(st).arrays.Keys)
    ensures Related(c, inputs, st, y')
  {
    forall x | x in st.vars
      ensures (x in y'.locals || x in y'.params) && ConvVar(y', x) == ConvVar(y, x)
    {
      assert x in TypesOf(st).vars;
      assert SameAt(y, y', x);
    }
    forall a | a in st.arrays
      ensures a in y'.arrays && y'.arrays[a] == y.arrays[a]
    {
      assert a in TypesOf(st).arrays;
      assert SameAt(y, y', a);
    }
  }

  // ---------- the main theorem ----------

  /** What the conversion of a body must achieve. */
  ghost predicate Converts(inputs: string -> nat, r: Result, tree: VNode) {
    !r.NoFuel? && (r.Returned? ==> VEval(inputs, tree) == r.bits < WORD)
  }

  /** The tables still describe the store when the `else` branch is walked. */
  lemma ElseRelated(c: Scope, inputs: string -> nat, st: Store, y: Sym, t: Body)
    requires Related(c, inputs, st, y) && BodyOk(c, TypesOf(st), y, t)
    requires BodyTargets(t) !! (TypesOf(st).vars.Keys + TypesOf(st).arrays.Keys)
    ensures Related(c, inputs, st, ConvBody(y, t).0)
  {
    BodyWrites(c, TypesOf(st), y, t);
    RelatedFrame(c, inputs, st, y, ConvBody(y, t).0, BodyTargets(t));
  }

  /** The multiplexer picks the branch that C takes. */
  lemma MuxPicks(inputs: string -> nat, taken: bool, sel: VNode, tv: VNode, fv: VNode, r: Result)
    requires taken <==> VEval(inputs, sel) != 0
    requires Converts(inputs, r, if taken then tv else fv)
    ensures Converts(inputs, r, VMux(sel, tv, fv, W32))
  {
    var chosen := VEval(inputs, if taken then tv else fv);
    assert VEval(inputs, VMux(sel, tv, fv, W32)) == Trunc(chosen, W32);
  }

  /** If the body returns a value, its tree has that value. */
  lemma {:induction false} BodySim(fuel: nat, c: Scope, inputs: string -> nat, st: Store, y: Sym, b: Body)
    requires fuel >= MAX_UNROLL && BodyOk(c, TypesOf(st), y, b) && Related(c, inputs, st, y)
    ensures Converts(inputs, ExecBody(fuel, st, b), ConvBody(y, b).1)
    decreases b
  {
    AllSim(fuel, c, inputs, st, y, b.stmts);
    var o := ExecAll(fuel, st, b.stmts);
    if o.Done? {
      var c1, st1, y1 := NextAll(c, b.stmts), o.st, WalkAll(y, b.stmts);
      match b.tail
      case Return(e) => ExprSim(c1, inputs, st1, y1, e);
      case IfElse(s, t, f) => TailSim(fuel, c1, inputs, st1, y1, b.tail);
    }
  }

  /** The closing `if`. */
  lemma {:induction false} TailSim(fuel: nat, c: Scope, inputs: string -> nat, st: Store, y: Sym, tail: Tail)
    requires fuel >= MAX_UNROLL && tail.IfElse? && BodyOk(c, TypesOf(st), y, Body([], tail))
    requires Related(c, inputs, st, y)
    ensures Converts(inputs, ExecBody(fuel, st, Body([], tail)), ConvBody(y, Body([], tail)).1)
    decreases tail
  {
    var IfElse(s, t, f) := tail;
    var v, y2 := CEval(st, s), ConvBody(y, t).0;
    assert NextAll(c, []) == c;
    ExprSim(c, inputs, st, y, s);
    if v.Some? {
      var r := if v.value.bits != 0 then ExecBody(fuel, st, t) else ExecBody(fuel, st, f);
      if v.value.bits != 0 {
        BodySim(fuel, c, inputs, st, y, t);
      } else {
        ElseRelated(c, inputs, st, y, t);
        BodySim(fuel, c, inputs, st, y2, f);
      }
      MuxPicks(inputs, v.value.bits != 0, ConvExpr(y, s), ConvBody(y, t).1, ConvBody(y2, f).1, r);
    }
  }

  /** The store and the tables at the start of a function with these parameters. */
  function InitStore(params: map<string, CType>, inputs: string -> nat): Store {
    Store(map x | x in params :: Value(Wrap(Input(inputs, x)), params[x]), map[])
  }

  function InitSym(params: map<string, CType>): Sym {
    Sym(params.Keys, map[], map[])
  }

  /** Nothing is bound or stale yet. */
  function InitScope(arrays: set<string>): Scope {
    Scope(arrays, {}, {})
  }

  /** The supported functions; `arrays` are the names that the function uses for arrays. */
  predicate FunctionOk(arrays: set<string>, params: map<string, CType>, b: Body) {
    params.Keys !! arrays && BodyOk(InitScope(arrays), Env(params, map[]), InitSym(params), b)
  }

  /** For every function of the fragment and all inputs: if the C function returns a value,
      the tree evaluates to it; and no loop outruns 1024 iterations. */
  lemma ConversionCorrect(fuel: nat, arrays: set<string>, params: map<string, CType>, inputs: string -> nat, b: Body)
    requires fuel >= MAX_UNROLL && FunctionOk(arrays, params, b)
    ensures Converts(inputs, ExecBody(fuel, InitStore(params, inputs), b), ConvBody(InitSym(params), b).1)
  {
    var st, y := InitStore(params, inputs), InitSym(params);
    assert TypesOf(st).vars == params && TypesOf(st).arrays == map[];
    assert forall x :: x in st.vars ==> ConvVar(y, x) == VInput(x, W32);
    BodySim(fuel, InitScope(arrays), inputs, st, y, b);
  }

  // ---------- the converter object ----------

  /** The converter as it is written: two tables updated in place, a loop over the
      statements of a body, and a loop over the constants of an unrolled counter. */
  class Converter {
    const params: set<string>
    var locals: map<string, VNode>
    var localArrays: map<string, seq<VNode>>

    function View(): Sym
      reads this
    {
      Sym(params, locals, localArrays)
    }

    constructor (params: set<string>)
      ensures View() == Sym(params, map[], map[])
    {
      this.params := params;
      locals, localArrays := map[], map[];
    }

    /** `_walk_body`, one statement. */
    method WalkStmt(s: Stmt)
      modifies this
      ensures View() == Walk(old(View()), s)
      decreases s, 0
    {
      match s
      case Decl(x, _, init) =>
        locals := locals[x := if init.Some? then ConvExpr(View(), init.value) else VConst(0, W32)];
      case DeclArray(a, _, size) =>
        localArrays := localArrays[a := seq(size, _ => VConst(0, W32))];
      case Assign(x, e) =>
        if x in locals || x in params { locals := locals[x := ConvExpr(View(), e)]; }
      case AssignElem(a, index, e) =>
        var i := ConvExpr(View(), index);
        if a in localArrays && i.VConst? && i.value < |localArrays[a]| {
          localArrays := localArrays[a := localArrays[a][i.value := ConvExpr(View(), e)]];
        }
      case Compound(x, op, e) =>
        if x in locals || x in params {
          locals := locals[x := VBinOp(op, ConvVar(View(), x), ConvExpr(View(), e), W32)];
        }
      case Block(body) => WalkBody(body);
      case For(x, start, cmp, bound, body) => HandleFor(x, start, cmp, bound, body);
    }

    /** `_walk_body`: all statements in order. */
    method WalkBody(body: seq<Stmt>)
      modifies this
      ensures View() == WalkAll(old(View()), body)
      decreases body, 0
    {
      var i := 0;
      assert body[0..] == body;
      while i < |body|
        invariant 0 <= i <= |body|
        invariant WalkAll(View(), body[i..]) == WalkAll(old(View()), body)
      {
        assert body[i..][0] == body[i] && body[i..][1..] == body[i + 1..];
        WalkStmt(body[i]);
        i := i + 1;
      }
    }

    /** `_handle_for`: bind the counter to each constant and walk the body. */
    method HandleFor(x: string, start: nat, cmp: BinOp, bound: nat, body: seq<Stmt>)
      modifies this
      ensures View() == Walk(old(View()), For(x, start, cmp, bound, body))
      decreases body, 1
    {
      var end := LoopEnd(cmp, bound);
      if end <= start || end - start > MAX_UNROLL { return; }
      var i := start;
      while i < end
        invariant start <= i <= end
        invariant Unroll(OneWalk(body), View(), x, i, end) == Unroll(OneWalk(body), old(View()), x, start, end)
      {
        ghost var before := View();
        locals := locals[x := VConst(i, W32)];
        WalkBody(body);
        assert View() == Walked(OneWalk(body), before, x, i);
        i := i + 1;
      }
    }

    /** A function body: the tree of its return value. */
    method Convert(b: Body) returns (tree: VNode)
      modifies this
      ensures (View(), tree) == ConvBody(old(View()), b)
      decreases b
    {
      WalkBody(b.stmts);
      match b.tail
      case Return(e) => tree := ConvExpr(View(), e);
      case IfElse(c, t, f) =>
        var sel := ConvExpr(View(), c);
        var tv := Convert(t);
        var fv := Convert(f);
        tree := VMux(sel, tv, fv, W32);
    }

    /** `convert_function`, of a function without a struct result: its tree evaluates to what
        C returns. */
    method ConvertFunction(types: map<string, CType>, b: Body, ghost fuel: nat, ghost arrays: set<string>,
                           ghost inputs: string -> nat) returns (tree: VNode)
      requires View() == InitSym(types) && fuel >= MAX_UNROLL && FunctionOk(arrays, types, b)
      modifies this
      ensures Converts(inputs, ExecBody(fuel, InitStore(types, inputs), b), tree)
    {
      ConversionCorrect(fuel, arrays, types, inputs, b);
      tree := Convert(b);
    }
  }
}
