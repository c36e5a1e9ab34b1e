/** Statement by statement, the converter's tables follow the C store. */
module C2VSimulation {
  import opened Bits
  import opened C2VModel
  import opened C2VProof

  // ---------- scopes ----------

  /** A block adds exactly what it declares to the visible names. */
  lemma {:induction false} AfterDeclares(env: Env, body: seq<Stmt>, x: string)
    ensures x in env.vars ==> x in AfterAll(env, body).vars
    ensures x in env.arrays ==> x in AfterAll(env, body).arrays
    ensures x !in Declared(body) ==>
      && (x in AfterAll(env, body).vars <==> x in env.vars)
      && (x in env.vars ==> AfterAll(env, body).vars[x] == env.vars[x])
      && (x in AfterAll(env, body).arrays <==> x in env.arrays)
      && (x in env.arrays ==> AfterAll(env, body).arrays[x] == env.arrays[x])
    decreases |body|
  {
    if body != [] {
      AfterDeclares(After(env, body[0]), body[1..], x);
    }
  }

  lemma TypesAt(st: Store, x: string)
    ensures x in TypesOf(st).vars <==> x in st.vars
    ensures x in st.vars ==> TypesOf(st).vars[x] == st.vars[x].ty
    ensures x in TypesOf(st).arrays <==> x in st.arrays
    ensures x in st.arrays ==> TypesOf(st).arrays[x] == st.arrays[x].ty
  {
  }

  /** Leaving a block leaves the types as they were, also of hidden names. */
  lemma LeaveTypes(st: Store, inner: Store, body: seq<Stmt>)
    requires TypesOf(inner) == AfterAll(TypesOf(st), body)
    ensures TypesOf(Leave(st, inner, Declared(body))) == TypesOf(st)
  {
    var env, out := TypesOf(st), Leave(st, inner, Declared(body));
    forall x
      ensures x in TypesOf(out).vars <==> x in env.vars
      ensures x in env.vars ==> TypesOf(out).vars[x] == env.vars[x]
      ensures x in TypesOf(out).arrays <==> x in env.arrays
      ensures x in env.arrays ==> TypesOf(out).arrays[x] == env.arrays[x]
    {
      AfterDeclares(env, body, x);
      TypesAt(st, x);
      TypesAt(inner, x);
      TypesAt(out, x);
    }
    assert TypesOf(out).vars == env.vars && TypesOf(out).arrays == env.arrays;
  }

  /** Every name that a block hides has, when the block ends, the value that it hid. */
  ghost predicate RestoresValues(c: Scope, st: Store, inner: Store, names: set<string>) {
    && (forall x :: x in names && x in st.vars && x in inner.vars && x !in c.stale ==>
          inner.vars[x].bits == st.vars[x].bits)
    && (forall a :: a in names && a in st.arrays && a in inner.arrays ==>
          inner.arrays[a].elems == st.arrays[a].elems)
  }

  lemma LeaveVars(c: Scope, inputs: string -> nat, st: Store, inner: Store, names: set<string>, y: Sym)
    requires VarsRel(c.stale, inputs, inner, y)
    ensures VarsRel(c.stale, inputs, Leave(st, inner, names), y) <==>
      forall x :: x in names && x in st.vars && x in inner.vars && x !in c.stale ==>
        inner.vars[x].bits == st.vars[x].bits
  {
    var out := Leave(st, inner, names);
    if VarsRel(c.stale, inputs, out, y) {
      forall x | x in names && x in st.vars && x in inner.vars && x !in c.stale
        ensures inner.vars[x].bits == st.vars[x].bits
      {
        assert x in out.vars && out.vars[x] == st.vars[x];
      }
    }
  }

  lemma SameElems(inputs: string -> nat, elems: seq<nat>, elems': seq<nat>, nodes: seq<VNode>)
    requires RelArray(inputs, elems, nodes)
    ensures RelArray(inputs, elems', nodes) <==> elems' == elems
  {
    if RelArray(inputs, elems', nodes) {
      assert forall i :: 0 <= i < |elems| ==> elems'[i] == elems[i];
    }
  }

  lemma LeaveArrays(c: Scope, inputs: string -> nat, st: Store, inner: Store, names: set<string>, y: Sym)
    requires ArraysRel(c.arrays, inputs, inner, y)
    ensures ArraysRel(c.arrays, inputs, Leave(st, inner, names), y) <==>
      forall a :: a in names && a in st.arrays && a in inner.arrays ==> inner.arrays[a].elems == st.arrays[a].elems
  {
    var out := Leave(st, inner, names);
    forall a | a in names && a in st.arrays && a in inner.arrays
      ensures a in out.arrays && out.arrays[a] == st.arrays[a]
      ensures RelArray(inputs, st.arrays[a].elems, y.arrays[a]) <==> st.arrays[a].elems == inner.arrays[a].elems
    {
      SameElems(inputs, inner.arrays[a].elems, st.arrays[a].elems, y.arrays[a]);
    }
  }

  /** Leaving a block keeps store and tables related exactly if every hidden name ends with
      the value it hid, names a loop has stepped aside: the tables keep the inner value, C
      brings the outer one back. */
  lemma LeaveRelated(c: Scope, inputs: string -> nat, st: Store, inner: Store, names: set<string>, y: Sym)
    requires Related(c, inputs, inner, y)
    ensures Related(c, inputs, Leave(st, inner, names), y) <==> RestoresValues(c, st, inner, names)
  {
    LeaveVars(c, inputs, st, inner, names, y);
    LeaveArrays(c, inputs, st, inner, names, y);
  }

  // ---------- simple statements ----------

  /** What a statement, a block or a loop must preserve: types, the relation to the tables,
      and the counters of the enclosing loops. */
  ghost predicate Keeps(c: Scope, c': Scope, inputs: string -> nat, st: Store, env': Env, o: Outcome, y': Sym) {
    && !o.OutOfFuel?
    && (o.Done? ==> TypesOf(o.st) == env' && Related(c', inputs, o.st, y') && SameCounters(c.bound, st, o.st))
  }

  ghost predicate SameCounters(bound: set<string>, st: Store, st': Store) {
    forall x :: x in bound && x in st.vars ==> x in st'.vars && st'.vars[x] == st.vars[x]
  }

  ghost predicate Follows(c: Scope, inputs: string -> nat, st: Store, s: Stmt, o: Outcome, y': Sym) {
    Keeps(c, Next(c, s), inputs, st, After(TypesOf(st), s), o, y')
  }

  lemma SetVarTypes(st: Store, x: string, v: Value)
    ensures TypesOf(st.(vars := st.vars[x := v])) == TypesOf(st).(vars := TypesOf(st).vars[x := v.ty])
    ensures x in st.vars && v.ty == st.vars[x].ty ==> TypesOf(st.(vars := st.vars[x := v])) == TypesOf(st)
  {
    var st' := st.(vars := st.vars[x := v]);
    assert TypesOf(st').vars == TypesOf(st).vars[x := v.ty];
    assert TypesOf(st').arrays == TypesOf(st).arrays;
    if x in st.vars && v.ty == st.vars[x].ty { assert TypesOf(st).vars[x := v.ty] == TypesOf(st).vars; }
  }

  lemma SetLocalVars(stale: set<string>, inputs: string -> nat, st: Store, y: Sym, x: string, v: Value, node: VNode)
    requires VarsRel(stale, inputs, st, y) && VEval(inputs, node) == v.bits
    ensures VarsRel(stale - {x}, inputs, st.(vars := st.vars[x := v]), SetLocal(y, x, node))
  {
    var y' := SetLocal(y, x, node);
    assert forall z :: z in st.vars && z != x ==> ConvVar(y', z) == ConvVar(y, z);
  }

  /** Giving a variable a new value and the table a tree for it. */
  lemma SetVar(c: Scope, inputs: string -> nat, st: Store, y: Sym, x: string, v: Value, node: VNode)
    requires Related(c, inputs, st, y) && x !in c.arrays
    requires VEval(inputs, node) == v.bits && Full(node)
    ensures Related(c.(stale := c.stale - {x}), inputs, st.(vars := st.vars[x := v]), SetLocal(y, x, node))
  {
    SetLocalVars(c.stale, inputs, st, y, x, v, node);
  }

  lemma DeclSim(fuel: nat, c: Scope, inputs: string -> nat, st: Store, y: Sym, s: Stmt)
    requires s.Decl? && StmtOk(c, TypesOf(st), y, s) && Related(c, inputs, st, y)
    ensures Follows(c, inputs, st, s, Exec(fuel, st, s), Walk(y, s))
  {
    match s.init
    case None =>
      SetVar(c, inputs, st, y, s.x, Value(0, s.ty), VConst(0, W32));
      SetVarTypes(st, s.x, Value(0, s.ty));
    case Some(e) =>
      ExprSim(c, inputs, st, y, e);
      ConstWidth(c, TypesOf(st), y, e);
      if CEval(st, e).Some? {
        var v := Value(CEval(st, e).value.bits, s.ty);
        SetVar(c, inputs, st, y, s.x, v, ConvExpr(y, e));
        SetVarTypes(st, s.x, v);
      }
  }

  lemma AssignSim(fuel: nat, c: Scope, inputs: string -> nat, st: Store, y: Sym, s: Stmt)
    requires s.Assign? && StmtOk(c, TypesOf(st), y, s) && Related(c, inputs, st, y)
    ensures Follows(c, inputs, st, s, Exec(fuel, st, s), Walk(y, s))
  {
    ExprSim(c, inputs, st, y, s.e);
    ConstWidth(c, TypesOf(st), y, s.e);
    if CEval(st, s.e).Some? {
      var v := Value(CEval(st, s.e).value.bits, st.vars[s.x].ty);
      SetVar(c, inputs, st, y, s.x, v, ConvExpr(y, s.e));
      SetVarTypes(st, s.x, v);
    }
  }

  lemma CompoundSim(fuel: nat, c: Scope, inputs: string -> nat, st: Store, y: Sym, s: Stmt)
    requires s.Compound? && StmtOk(c, TypesOf(st), y, s) && Related(c, inputs, st, y)
    ensures Follows(c, inputs, st, s, Exec(fuel, st, s), Walk(y, s))
  {
    var e, node := Bin(s.op, Var(s.x), s.e), VBinOp(s.op, ConvVar(y, s.x), ConvExpr(y, s.e), W32);
    CompoundExpr(c, inputs, st, y, s);
    if CEval(st, e).Some? {
      var v := Value(CEval(st, e).value.bits, st.vars[s.x].ty);
      SetVar(c, inputs, st, y, s.x, v, node);
      SetVarTypes(st, s.x, v);
      assert c.stale - {s.x} == c.stale;
    }
  }

  lemma CompoundExpr(c: Scope, inputs: string -> nat, st: Store, y: Sym, s: Stmt)
    requires s.Compound? && StmtOk(c, TypesOf(st), y, s) && Related(c, inputs, st, y)
    ensures var v := CEval(st, Bin(s.op, Var(s.x), s.e));
      v.Some? ==> VEval(inputs, VBinOp(s.op, ConvVar(y, s.x), ConvExpr(y, s.e), W32)) == v.value.bits
  {
    LeafSim(c, inputs, st, y, Var(s.x));
    ExprSim(c, inputs, st, y, s.e);
    BinExprSim(inputs, st, y, s.op, Var(s.x), s.e);
  }

  lemma SetArrayTypes(st: Store, a: string, arr: Array)
    ensures TypesOf(st.(arrays := st.arrays[a := arr])) == TypesOf(st).(arrays := TypesOf(st).arrays[a := arr.ty])
    ensures a in st.arrays && arr.ty == st.arrays[a].ty ==> TypesOf(st.(arrays := st.arrays[a := arr])) == TypesOf(st)
  {
    var st' := st.(arrays := st.arrays[a := arr]);
    assert TypesOf(st').arrays == TypesOf(st).arrays[a := arr.ty];
    assert TypesOf(st').vars == TypesOf(st).vars;
    if a in st.arrays && arr.ty == st.arrays[a].ty { assert TypesOf(st).arrays[a := arr.ty] == TypesOf(st).arrays; }
  }

  lemma SameLocals(stale: set<string>, inputs: string -> nat, st: Store, y: Sym, st': Store, y': Sym)
    requires VarsRel(stale, inputs, st, y) && st'.vars == st.vars && y'.locals == y.locals
    ensures VarsRel(stale, inputs, st', y')
  {
    assert forall z :: z in st.vars ==> ConvVar(y', z) == ConvVar(y, z);
  }

  /** Giving an array new contents and the table trees for them. */
  lemma SetArray(c: Scope, inputs: string -> nat, st: Store, y: Sym, a: string, arr: Array, nodes: seq<VNode>)
    requires Related(c, inputs, st, y) && a in c.arrays
    requires RelArray(inputs, arr.elems, nodes) && forall i :: 0 <= i < |nodes| ==> Full(nodes[i])
    ensures Related(c, inputs, st.(arrays := st.arrays[a := arr]), y.(arrays := y.arrays[a := nodes]))
  {
    SameLocals(c.stale, inputs, st, y, st.(arrays := st.arrays[a := arr]), y.(arrays := y.arrays[a := nodes]));
  }

  lemma DeclArraySim(fuel: nat, c: Scope, inputs: string -> nat, st: Store, y: Sym, s: Stmt)
    requires s.DeclArray? && StmtOk(c, TypesOf(st), y, s) && Related(c, inputs, st, y)
    ensures Follows(c, inputs, st, s, Exec(fuel, st, s), Walk(y, s))
  {
    var arr := Array(seq(s.size, _ => 0), s.ty);
    SetArray(c, inputs, st, y, s.a, arr, seq(s.size, _ => VConst(0, W32)));
    SetArrayTypes(st, s.a, arr);
  }

  /** One element replaced on both sides. */
  lemma ElemSet(inputs: string -> nat, elems: seq<nat>, nodes: seq<VNode>, i: nat, v: nat, node: VNode)
    requires RelArray(inputs, elems, nodes) && i < |elems| && VEval(inputs, node) == v
    ensures RelArray(inputs, elems[i := v], nodes[i := node])
  {
  }

  lemma AssignElemSim(fuel: nat, c: Scope, inputs: string -> nat, st: Store, y: Sym, s: Stmt)
    requires s.AssignElem? && StmtOk(c, TypesOf(st), y, s) && Related(c, inputs, st, y)
    ensures Follows(c, inputs, st, s, Exec(fuel, st, s), Walk(y, s))
  {
    ExprSim(c, inputs, st, y, s.index);
    ConstWidth(c, TypesOf(st), y, s.index);
    IndexSim(inputs, st, y, s.index);
    ExprSim(c, inputs, st, y, s.e);
    ConstWidth(c, TypesOf(st), y, s.e);
    var i, v := CEval(st, s.index), CEval(st, s.e);
    if i.Some? && v.Some? && i.value.bits < |st.arrays[s.a].elems| {
      var arr, node := st.arrays[s.a], ConvExpr(y, s.e);
      var arr' := arr.(elems := arr.elems[i.value.bits := v.value.bits]);
      ElemSet(inputs, arr.elems, y.arrays[s.a], i.value.bits, v.value.bits, node);
      SetArray(c, inputs, st, y, s.a, arr', y.arrays[s.a][i.value.bits := node]);
      SetArrayTypes(st, s.a, arr');
    }
  }

  // ---------- loops ----------

  /** The loop test on the counter's value, which stays below 2^31 so that signed and
      unsigned comparison agree. */
  lemma LoopTest(st: Store, x: string, cmp: BinOp, start: nat, bound: nat, i: nat)
    requires x in st.vars && st.vars[x].bits == i && LoopOk(start, cmp, bound)
    requires start <= i && (i <= LoopEnd(cmp, bound) || i == start)
    ensures CEval(st, Bin(cmp, Var(x), Lit(bound))) == Some(Value(Num(i < LoopEnd(cmp, bound)), SInt))
  {
    var a, b := CEval(st, Var(x)), CEval(st, Lit(bound));
    assert a == Some(st.vars[x]) && b == Some(Value(bound, SInt));
    assert CEval(st, Bin(cmp, Var(x), Lit(bound))) == CLazyBin(cmp, a, b);
  }

  /** Statements make no more names stale than the loops in them have counters. */
  lemma {:induction false} StaleBound(stale: set<string>, s: Stmt)
    ensures Stale(stale, s) <= stale + Loops(s)
    decreases s, 0
  {
    match s
    case Block(body) => AllStaleBound(stale, body);
    case For(x, _, _, _, body) => AllStaleBound(stale + AllLoops(body) - {x}, body);
    case _ =>
  }

  lemma {:induction false} AllStaleBound(stale: set<string>, body: seq<Stmt>)
    ensures AllStale(stale, body) <= stale + AllLoops(body)
    decreases body, 0
  {
    if body != [] {
      StaleBound(stale, body[0]);
      AllStaleBound(Stale(stale, body[0]), body[1..]);
    }
  }

  /** The scope at a loop's head: before the first turn, and after one. */
  function HeadScope(c: Scope, x: string, body: seq<Stmt>, first: bool): Scope {
    c.(stale := (if first then c.stale else AllStale(c.stale + AllLoops(body) - {x}, body)) + {x})
  }

  /** Giving the counter a value that its tree does not follow. */
  lemma StepCounter(c: Scope, inputs: string -> nat, st: Store, y: Sym, x: string, v: Value)
    requires Related(c, inputs, st, y) && x in st.vars && v.ty == st.vars[x].ty
    ensures Related(c.(stale := c.stale + {x}), inputs, st.(vars := st.vars[x := v]), y)
    ensures TypesOf(st.(vars := st.vars[x := v])) == TypesOf(st)
  {
    SetVarTypes(st, x, v);
  }

  /** Binding the counter, as the unrolling does, makes it readable in the body. */
  lemma BindCounter(c: Scope, inputs: string -> nat, st: Store, y: Sym, x: string, body: seq<Stmt>, first: bool, i: nat)
    requires Related(HeadScope(c, x, body, first), inputs, st, y) && x in st.vars && st.vars[x].bits == i < WORD
    ensures Related(InLoop(c, x, body), inputs, st, SetLocal(y, x, VConst(i, W32)))
  {
    var c1 := HeadScope(c, x, body, first);
    AllStaleBound(c.stale + AllLoops(body) - {x}, body);
    SetVar(c1, inputs, st, y, x, st.vars[x], VConst(i, W32));
    assert st.(vars := st.vars[x := st.vars[x]]) == st;
    RelatedMore(c1.(stale := c1.stale - {x}), InLoop(c, x, body), inputs, st, SetLocal(y, x, VConst(i, W32)));
  }

  /** What one turn of a loop must achieve. */
  ghost predicate TurnedWell(c: Scope, inputs: string -> nat, st: Store, x: string, body: seq<Stmt>, i: nat,
                             o: Outcome, y': Sym)
  {
    && !o.OutOfFuel?
    && (o.Done? ==>
          && x in o.st.vars && Stepped(o.st, x).vars[x].bits == i + 1
          && TypesOf(Stepped(o.st, x)) == TypesOf(st)
          && Related(HeadScope(c, x, body, false), inputs, Stepped(o.st, x), y')
          && SameCounters(c.bound, st, Stepped(o.st, x)))
  }

  lemma AfterTurn(c: Scope, inputs: string -> nat, st: Store, x: string, body: seq<Stmt>, i: nat, o: Outcome, y': Sym)
    requires x in st.vars && x !in c.bound && st.vars[x].bits == i < HALF
    requires var c1 := InLoop(c, x, body); Keeps(c1, NextAll(c1, body), inputs, st, TypesOf(st), o, y')
    ensures TurnedWell(c, inputs, st, x, body, i, o, y')
  {
    if o.Done? {
      var c1 := InLoop(c, x, body);
      assert x in c1.bound;
      StepCounter(NextAll(c1, body), inputs, o.st, y', x, Stepped(o.st, x).vars[x]);
      RelatedMore(NextAll(c1, body).(stale := NextAll(c1, body).stale + {x}), HeadScope(c, x, body, false),
                  inputs, Stepped(o.st, x), y');
    }
  }

  /** One iteration: bind the counter, walk the body, step the counter. */
  lemma {:induction false} IterationSim(fuel: nat, c: Scope, inputs: string -> nat, st: Store, y: Sym,
                                        x: string, body: seq<Stmt>, first: bool, i: nat)
    requires fuel >= MAX_UNROLL && Related(HeadScope(c, x, body, first), inputs, st, y)
    requires x in st.vars && x !in c.bound && st.vars[x].bits == i < HALF
    requires NoHiding(TypesOf(st), body)
    requires AllOk(InLoop(c, x, body), TypesOf(st), SetLocal(y, x, VConst(i, W32)), body)
    ensures TurnedWell(c, inputs, st, x, body, i, Turned(OneTurn(fuel, body), st), Walked(OneWalk(body), y, x, i))
    decreases body, 2
  {
    var y1 := SetLocal(y, x, VConst(i, W32));
    BindCounter(c, inputs, st, y, x, body, first, i);
    BlockSim(fuel, InLoop(c, x, body), inputs, st, y1, body);
    var o, y' := ExecBlock(fuel, st, body), WalkAll(y1, body);
    AfterTurn(c, inputs, st, x, body, i, o, y');
    assert Turned(OneTurn(fuel, body), st) == o && Walked(OneWalk(body), y, x, i) == y';
  }

  ghost predicate Holds(head: (Store, Sym, nat) -> bool, st: Store, y: Sym, i: nat) {
    head(st, y, i)
  }

  /** At a loop head the test says whether the counter has reached the end. */
  ghost predicate TestsEnd(test: Store -> Option<bool>, head: (Store, Sym, nat) -> bool, end: nat) {
    forall s, y, i: nat :: Holds(head, s, y, i) ==> Tested(test, s).Some? && Tested(test, s).value == (i < end)
  }

  /** A turn from a loop head leads to the loop head for the next value. */
  ghost predicate Advances(turn: Store -> Outcome, walk: Sym -> Sym, head: (Store, Sym, nat) -> bool,
                           x: string, end: nat)
  {
    forall s, y, i: nat {:trigger NextHead(turn, walk, head, x, s, y, i)} ::
      Holds(head, s, y, i) && i < end ==> NextHead(turn, walk, head, x, s, y, i)
  }

  ghost predicate NextHead(turn: Store -> Outcome, walk: Sym -> Sym, head: (Store, Sym, nat) -> bool, x: string,
                           s: Store, y: Sym, i: nat)
  {
    var once := Turned(turn, s);
    && !once.OutOfFuel?
    && (once.Done? ==> x in once.st.vars && Holds(head, Stepped(once.st, x), Walked(walk, y, x, i), i + 1))
  }

  lemma IterateOnce(test: Store -> Option<bool>, turn: Store -> Outcome, k: nat, st: Store, x: string)
    requires Tested(test, st) == Some(true) && k > 0
    ensures var once := Turned(turn, st);
      Iterate(test, turn, k, st, x) ==
        if once.Done? && x in once.st.vars then Iterate(test, turn, k - 1, Stepped(once.st, x), x)
        else if once.Done? then Undefined else once
  {
  }

  /** Unrolling follows iteration whenever the turns keep some relation between store and
      tables at the loop head. */
  lemma {:induction false} UnrollSim(test: Store -> Option<bool>, turn: Store -> Outcome, walk: Sym -> Sym,
                                     head: (Store, Sym, nat) -> bool,
                                     k: nat, st: Store, y: Sym, x: string, i: nat, end: nat)
      returns (o: Outcome, y': Sym, last: nat)
    requires Holds(head, st, y, i) && k >= end - i
    requires TestsEnd(test, head, end) && Advances(turn, walk, head, x, end)
    ensures o == Iterate(test, turn, k, st, x) && y' == Unroll(walk, y, x, i, end)
    ensures !o.OutOfFuel? && (o.Done? ==> Holds(head, o.st, y', last) && last >= end)
    decreases k
  {
    last := i;
    assert Tested(test, st) == Some(i < end);
    if i < end {
      assert NextHead(turn, walk, head, x, st, y, i);
      IterateOnce(test, turn, k, st, x);
      var once := Turned(turn, st);
      if once.Done? {
        var y1 := Walked(walk, y, x, i);
        o, y', last := UnrollSim(test, turn, walk, head, k - 1, Stepped(once.st, x), y1, x, i + 1, end);
      } else {
        o, y' := once, Unroll(walk, y, x, i, end);
      }
    } else {
      o, y' := Done(st), y;
    }
  }

  /** A loop as the proof sees it: its scope, its counter, its body and its range. */
  datatype Loop = Loop(c: Scope, x: string, body: seq<Stmt>, start: nat, end: nat)

  ghost predicate LoopFits(l: Loop, env: Env) {
    l.x in env.vars && l.x !in l.c.bound && l.end < HALF && NoHiding(env, l.body)
  }

  /** The head of a loop: store and tables are related, the counter has value `i`, the turns
      still to come are in the fragment, and the counters of enclosing loops are as in `st0`. */
  ghost predicate AtHead(l: Loop, inputs: string -> nat, st0: Store, st: Store, y: Sym, i: nat) {
    && Related(HeadScope(l.c, l.x, l.body, i == l.start), inputs, st, y) && TypesOf(st) == TypesOf(st0)
    && l.x in st.vars && st.vars[l.x].bits == i && l.start <= i && (i <= l.end || i == l.start)
    && SameCounters(l.c.bound, st0, st)
    && TurnsOk(InLoop(l.c, l.x, l.body), TypesOf(st0), y, l.x, l.body, i, l.end)
  }

  ghost function Head(l: Loop, inputs: string -> nat, st0: Store): (Store, Sym, nat) -> bool {
    (st: Store, y: Sym, i: nat) => AtHead(l, inputs, st0, st, y, i)
  }

  lemma HeadTests(l: Loop, inputs: string -> nat, st0: Store, cmp: BinOp, bound: nat)
    requires LoopOk(l.start, cmp, bound) && l.end == LoopEnd(cmp, bound)
    ensures TestsEnd(Test(l.x, cmp, bound), Head(l, inputs, st0), l.end)
  {
    var head, test := Head(l, inputs, st0), Test(l.x, cmp, bound);
    forall st, y, i: nat | Holds(head, st, y, i)
      ensures Tested(test, st).Some? && Tested(test, st).value == (i < l.end)
    {
      LoopTest(st, l.x, cmp, l.start, bound, i);
    }
  }

  /** A turn that went well ends at the head for the next value. */
  lemma NextAtHead(l: Loop, inputs: string -> nat, st0: Store, st: Store, y: Sym, i: nat, o: Outcome, y': Sym)
    requires AtHead(l, inputs, st0, st, y, i) && i < l.end && o.Done?
    requires TurnedWell(l.c, inputs, st, l.x, l.body, i, o, y')
    requires y' == WalkAll(SetLocal(y, l.x, VConst(i, W32)), l.body)
    ensures AtHead(l, inputs, st0, Stepped(o.st, l.x), y', i + 1)
  {
    assert SameCounters(l.c.bound, st0, Stepped(o.st, l.x));
  }

  lemma {:induction false} TurnGoesWell(fuel: nat, l: Loop, inputs: string -> nat, st0: Store,
                                        st: Store, y: Sym, i: nat)
    requires fuel >= MAX_UNROLL && LoopFits(l, TypesOf(st0)) && AtHead(l, inputs, st0, st, y, i) && i < l.end
    ensures TurnedWell(l.c, inputs, st, l.x, l.body, i, Turned(OneTurn(fuel, l.body), st),
                       Walked(OneWalk(l.body), y, l.x, i))
    decreases l.body, 3
  {
    IterationSim(fuel, l.c, inputs, st, y, l.x, l.body, i == l.start, i);
  }

  lemma {:induction false} TurnFromHead(fuel: nat, l: Loop, inputs: string -> nat, st0: Store,
                                        st: Store, y: Sym, i: nat)
    requires fuel >= MAX_UNROLL && LoopFits(l, TypesOf(st0)) && Holds(Head(l, inputs, st0), st, y, i) && i < l.end
    ensures NextHead(OneTurn(fuel, l.body), OneWalk(l.body), Head(l, inputs, st0), l.x, st, y, i)
    decreases l.body, 4
  {
    TurnGoesWell(fuel, l, inputs, st0, st, y, i);
    var once, y' := Turned(OneTurn(fuel, l.body), st), Walked(OneWalk(l.body), y, l.x, i);
    if once.Done? {
      NextAtHead(l, inputs, st0, st, y, i, once, y');
    }
  }

  lemma {:induction false} HeadAdvances(fuel: nat, l: Loop, inputs: string -> nat, st0: Store)
    requires fuel >= MAX_UNROLL && LoopFits(l, TypesOf(st0))
    ensures Advances(OneTurn(fuel, l.body), OneWalk(l.body), Head(l, inputs, st0), l.x, l.end)
    decreases l.body, 5
  {
    var head := Head(l, inputs, st0);
    forall st, y, i: nat | Holds(head, st, y, i) && i < l.end
      ensures NextHead(OneTurn(fuel, l.body), OneWalk(l.body), head, l.x, st, y, i)
    {
      TurnFromHead(fuel, l, inputs, st0, st, y, i);
    }
  }

  function LoopOf(c: Scope, s: Stmt): Loop
    requires s.For?
  {
    Loop(c, s.x, s.body, s.start, LoopEnd(s.cmp, s.bound))
  }

  /** The store at the first test. */
  lemma FirstHead(c: Scope, inputs: string -> nat, st: Store, y: Sym, s: Stmt)
    requires s.For? && StmtOk(c, TypesOf(st), y, s) && Related(c, inputs, st, y)
    ensures LoopFits(LoopOf(c, s), TypesOf(st)) && s.x in st.vars
    ensures AtHead(LoopOf(c, s), inputs, st, st.(vars := st.vars[s.x := Value(s.start, st.vars[s.x].ty)]), y, s.start)
  {
    StepCounter(c, inputs, st, y, s.x, Value(s.start, st.vars[s.x].ty));
  }

  /** The unrolled loop against the executed one, from its first test to its last. */
  lemma {:induction false} LoopSim(fuel: nat, c: Scope, inputs: string -> nat, st: Store, y: Sym, s: Stmt)
      returns (o: Outcome, y': Sym, last: nat)
    requires fuel >= MAX_UNROLL && Related(c, inputs, st, y) && s.For? && StmtOk(c, TypesOf(st), y, s)
    ensures o == Exec(fuel, st, s) && y' == Walk(y, s) && !o.OutOfFuel?
    ensures o.Done? ==> last >= LoopEnd(s.cmp, s.bound) && AtHead(LoopOf(c, s), inputs, st, o.st, y', last)
    decreases s, 0
  {
    var l := LoopOf(c, s);
    FirstHead(c, inputs, st, y, s);
    HeadTests(l, inputs, st, s.cmp, s.bound);
    HeadAdvances(fuel, l, inputs, st);
    var st1 := st.(vars := st.vars[s.x := Value(s.start, st.vars[s.x].ty)]);
    assert Holds(Head(l, inputs, st), st1, y, s.start);
    o, y', last := UnrollSim(Test(s.x, s.cmp, s.bound), OneTurn(fuel, s.body), OneWalk(s.body),
                             Head(l, inputs, st), fuel, st1, y, s.x, s.start, l.end);
    assert o.Done? ==> Holds(Head(l, inputs, st), o.st, y', last);
  }

  /** Walking the body once per constant follows executing the loop. */
  lemma {:induction false} ForSim(fuel: nat, c: Scope, inputs: string -> nat, st: Store, y: Sym, s: Stmt)
    requires fuel >= MAX_UNROLL && Related(c, inputs, st, y) && s.For? && StmtOk(c, TypesOf(st), y, s)
    ensures Follows(c, inputs, st, s, Exec(fuel, st, s), Walk(y, s))
    decreases s, 1
  {
    var o, y', last := LoopSim(fuel, c, inputs, st, y, s);
    assert Next(c, s) == HeadScope(c, s.x, s.body, s.start >= LoopEnd(s.cmp, s.bound));
  }

  /** The C counter ends at the bound, or where it started. */
  lemma LoopEndsAtEnd(fuel: nat, c: Scope, inputs: string -> nat, st: Store, y: Sym, s: Stmt)
    requires fuel >= MAX_UNROLL && Related(c, inputs, st, y) && s.For? && StmtOk(c, TypesOf(st), y, s)
    ensures var o, end := Exec(fuel, st, s), LoopEnd(s.cmp, s.bound);
      o.Done? ==> s.x in o.st.vars && o.st.vars[s.x].bits == if s.start < end then end else s.start
  {
    var o, y', last := LoopSim(fuel, c, inputs, st, y, s);
  }

  lemma {:induction false} BlockSim(fuel: nat, c: Scope, inputs: string -> nat, st: Store, y: Sym, body: seq<Stmt>)
    requires fuel >= MAX_UNROLL && Related(c, inputs, st, y)
    requires NoHiding(TypesOf(st), body) && AllOk(c, TypesOf(st), y, body)
    ensures Keeps(c, NextAll(c, body), inputs, st, TypesOf(st), ExecBlock(fuel, st, body), WalkAll(y, body))
    decreases body, 1
  {
    AllSim(fuel, c, inputs, st, y, body);
    var inner := ExecAll(fuel, st, body);
    if inner.Done? {
      LeaveTypes(st, inner.st, body);
      LeaveRelated(NextAll(c, body), inputs, st, inner.st, Declared(body), WalkAll(y, body));
      assert forall x :: x in Declared(body) ==> x !in st.vars && x !in st.arrays;
    }
  }

  lemma {:induction false} AllSim(fuel: nat, c: Scope, inputs: string -> nat, st: Store, y: Sym, body: seq<Stmt>)
    requires fuel >= MAX_UNROLL && Related(c, inputs, st, y) && AllOk(c, TypesOf(st), y, body)
    ensures Keeps(c, NextAll(c, body), inputs, st, AfterAll(TypesOf(st), body),
                  ExecAll(fuel, st, body), WalkAll(y, body))
    decreases body, 0
  {
    if body != [] {
      StmtSim(fuel, c, inputs, st, y, body[0]);
      var first := Exec(fuel, st, body[0]);
      if first.Done? {
        AllSim(fuel, Next(c, body[0]), inputs, first.st, Walk(y, body[0]), body[1..]);
      }
    }
  }

  /** If the statement runs to its end, the tables after walking it describe the store
      after executing it; and with fuel for 1024 iterations it never fails to end. */
  lemma {:induction false} StmtSim(fuel: nat, c: Scope, inputs: string -> nat, st: Store, y: Sym, s: Stmt)
    requires fuel >= MAX_UNROLL && Related(c, inputs, st, y) && StmtOk(c, TypesOf(st), y, s)
    ensures Follows(c, inputs, st, s, Exec(fuel, st, s), Walk(y, s))
    decreases s, 2
  {
    match s
    case Decl(_, _, _) => DeclSim(fuel, c, inputs, st, y, s);
    case DeclArray(_, _, _) => DeclArraySim(fuel, c, inputs, st, y, s);
    case Assign(_, _) => AssignSim(fuel, c, inputs, st, y, s);
    case AssignElem(_, _, _) => AssignElemSim(fuel, c, inputs, st, y, s);
    case Compound(_, _, _) => CompoundSim(fuel, c, inputs, st, y, s);
    case Block(body) => BlockSim(fuel, c, inputs, st, y, body);
    case For(_, _, _, _, _) => ForSim(fuel, c, inputs, st, y, s);
  }
}
