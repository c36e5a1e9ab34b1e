/**
 Where the converter's fragment ends, and exactly when its trees are right beyond it.

 The flat machine is what the trees compute, for every program.  So a tree is right exactly
 if C and the flat machine agree, and each way in which they part company has its condition
 here: signedness, counters, loops that are not unrolled, indices that are not known, blocks
 that hide names, and first branches that leak into second ones.
 */
module C2VLimits {
  import opened Bits
  import opened C2VModel
  import opened C2VProof
  import opened C2VSimulation
  import opened C2VTheorems
  import opened C2VFlat

  // ---------- right trees ----------

  /** Every visible name's tree has its value in the store; no name is excepted. */
  ghost predicate Right(inputs: string -> nat, st: Store, y: Sym) {
    && VarsRel({}, inputs, st, y)
    && forall a :: a in st.arrays ==> a in y.arrays && RelArray(inputs, st.arrays[a].elems, y.arrays[a])
  }

  function Elems(cells: seq<Cell>): seq<nat> {
    seq(|cells|, i requires 0 <= i < |cells| => Wrap(cells[i].value))
  }

  /** The machine holds the array of that name with those elements. */
  predicate HasElems(fs: Flat, a: string, elems: seq<nat>) {
    a in fs.arrays && Elems(fs.arrays[a]) == elems
  }

  /** The machine has the value that the store has, at every name of the store. */
  ghost predicate Agrees(inputs: string -> nat, fs: Flat, st: Store) {
    && (forall x :: x in st.vars ==> ValueOf(inputs, fs, x) == st.vars[x].bits)
    && (forall a :: a in st.arrays ==> HasElems(fs, a, st.arrays[a].elems))
  }

  lemma ElemsRight(inputs: string -> nat, elems: seq<nat>, nodes: seq<VNode>, cells: seq<Cell>)
    requires ComputesAll(inputs, nodes, cells)
    ensures RelArray(inputs, elems, nodes) <==> Elems(cells) == elems
  {
    if RelArray(inputs, elems, nodes) {
      assert forall i :: 0 <= i < |elems| ==> Elems(cells)[i] == elems[i];
    }
  }

  /** The trees are right exactly if the machine agrees with the store. */
  lemma RightExactly(inputs: string -> nat, st: Store, y: Sym, fs: Flat)
    requires Describes(inputs, y, fs)
    ensures Right(inputs, st, y) <==> Agrees(inputs, fs, st)
  {
    forall x | x in st.vars
      ensures VEval(inputs, ConvVar(y, x)) == ValueOf(inputs, fs, x)
    {
      VarComputes(inputs, y, fs, x);
    }
    forall a | a in st.arrays
      ensures (a in y.arrays && RelArray(inputs, st.arrays[a].elems, y.arrays[a])) <==>
              HasElems(fs, a, st.arrays[a].elems)
    {
      if a in fs.arrays { ElemsRight(inputs, st.arrays[a].elems, y.arrays[a], fs.arrays[a]); }
    }
  }

  /** In the fragment the machine agrees with C at every name that no loop has stepped. */
  lemma FragmentAgrees(c: Scope, inputs: string -> nat, st: Store, y: Sym, fs: Flat)
    requires Related(c, inputs, st, y) && Describes(inputs, y, fs)
    ensures forall x :: x in st.vars && x !in c.stale ==> ValueOf(inputs, fs, x) == st.vars[x].bits
    ensures forall a :: a in st.arrays ==> HasElems(fs, a, st.arrays[a].elems)
  {
    forall x | x in st.vars && x !in c.stale
      ensures ValueOf(inputs, fs, x) == st.vars[x].bits
    {
      VarComputes(inputs, y, fs, x);
    }
    forall a | a in st.arrays
      ensures HasElems(fs, a, st.arrays[a].elems)
    {
      ElemsRight(inputs, st.arrays[a].elems, y.arrays[a], fs.arrays[a]);
    }
  }

  // ---------- which statement decides a name ----------

  /** A statement changes the machine only at its targets. */
  lemma {:induction false} RunFrame(inputs: string -> nat, fs: Flat, s: Stmt, x: string)
    requires x !in Targets(s)
    ensures SameCell(fs, FlatRun(inputs, fs, s), x)
    decreases s, 0
  {
    match s
    case Block(body) => AllFrame(inputs, fs, body, x);
    case For(z, start, cmp, bound, body) =>
      if Unrolled(start, cmp, bound) { LoopFrame(inputs, fs, z, body, start, LoopEnd(cmp, bound), x); }
    case _ =>
  }

  lemma {:induction false} AllFrame(inputs: string -> nat, fs: Flat, body: seq<Stmt>, x: string)
    requires x !in AllTargets(body)
    ensures SameCell(fs, FlatAll(inputs, fs, body), x)
    decreases body, 0
  {
    if body != [] {
      RunFrame(inputs, fs, body[0], x);
      AllFrame(inputs, FlatRun(inputs, fs, body[0]), body[1..], x);
    }
  }

  lemma {:induction false} LoopFrame(inputs: string -> nat, fs: Flat, z: string, body: seq<Stmt>, i: nat, end: nat,
                                     x: string)
    requires x !in AllTargets(body) && x != z
    ensures SameCell(fs, FlatLoop(OneFlat(inputs, body), fs, z, i, end), x)
    decreases body, 1, if i < end then end - i else 0
  {
    if i < end {
      var fs1, fs2 := SetCell(fs, z, Cell(i, true)), FlatTurn(OneFlat(inputs, body), fs, z, i);
      AllFrame(inputs, fs1, body, x);
      assert fs2 == FlatAll(inputs, fs1, body);
      LoopFrame(inputs, fs2, z, body, i + 1, end, x);
    }
  }

  lemma {:induction false} FlatAppend(inputs: string -> nat, fs: Flat, a: seq<Stmt>, b: seq<Stmt>)
    ensures FlatAll(inputs, fs, a + b) == FlatAll(inputs, FlatAll(inputs, fs, a), b)
    decreases |a|
  {
    if a == [] {
      assert a + b == b;
    } else {
      assert (a + b)[0] == a[0] && (a + b)[1..] == a[1..] + b;
      FlatAppend(inputs, FlatRun(inputs, fs, a[0]), a[1..], b);
    }
  }

  /** A loop whose body leaves its counter alone ends with the counter at the last value. */
  lemma {:induction false} LoopLeavesLast(inputs: string -> nat, fs: Flat, x: string, body: seq<Stmt>, i: nat, end: nat)
    requires i < end && x !in AllTargets(body)
    ensures var fs' := FlatLoop(OneFlat(inputs, body), fs, x, i, end);
      x in fs'.cells && fs'.cells[x] == Cell(end - 1, true)
    decreases end - i
  {
    var fs1, fs2 := SetCell(fs, x, Cell(i, true)), FlatTurn(OneFlat(inputs, body), fs, x, i);
    AllFrame(inputs, fs1, body, x);
    assert fs2 == FlatAll(inputs, fs1, body);
    if i + 1 < end {
      LoopLeavesLast(inputs, fs2, x, body, i + 1, end);
    } else {
      assert FlatLoop(OneFlat(inputs, body), fs, x, i, end) == fs2;
    }
  }

  /** The last write to `s.x` among the statements is the unrolled loop `s`. */
  predicate LastWriteIsLoop(body: seq<Stmt>, pre: seq<Stmt>, s: Stmt, post: seq<Stmt>) {
    && body == pre + [s] + post && s.For? && Unrolled(s.start, s.cmp, s.bound)
    && s.x !in AllTargets(s.body) && s.x !in AllTargets(post)
  }

  /** Then the machine ends with the loop's last value, one before its end. */
  lemma LastLoopDecides(inputs: string -> nat, fs: Flat, body: seq<Stmt>, pre: seq<Stmt>, s: Stmt, post: seq<Stmt>)
    requires LastWriteIsLoop(body, pre, s, post)
    ensures ValueOf(inputs, FlatAll(inputs, fs, body), s.x) == Wrap(LoopEnd(s.cmp, s.bound) - 1)
  {
    var fs1 := FlatAll(inputs, fs, pre);
    var fs2 := FlatRun(inputs, fs1, s);
    FlatAppend(inputs, fs, pre, [s]);
    FlatAppend(inputs, fs, pre + [s], post);
    assert FlatAll(inputs, fs1, [s]) == fs2;
    LoopLeavesLast(inputs, fs1, s.x, s.body, s.start, LoopEnd(s.cmp, s.bound));
    AllFrame(inputs, fs2, post, s.x);
  }

  // ---------- where the fragment ends: signedness ----------

  /** Ordering two signed operands: the tree agrees with C exactly when their signs agree. */
  lemma SignedOrderExact(op: BinOp, a: Value, b: Value)
    requires a.bits < WORD && b.bits < WORD && a.ty.SInt? && b.ty.SInt?
    requires op.Lt? || op.Gt? || op.Le? || op.Ge?
    ensures CBin(op, a, b).Some?
    ensures Wrap(VBin(op, a.bits, b.bits)) == CBin(op, a, b).value.bits <==> (a.bits < HALF <==> b.bits < HALF)
  {
  }

  /** Shifting a signed operand right: the tree agrees with C exactly when the operand is
      not negative or is not shifted at all. */
  lemma SignedShiftExact(a: Value, b: Value)
    requires a.bits < WORD && b.bits < 32 && a.ty.SInt?
    ensures CBin(Shr, a, b).Some?
    ensures Wrap(VBin(Shr, a.bits, b.bits)) == CBin(Shr, a, b).value.bits <==> (a.bits < HALF || b.bits == 0)
  {
    ShiftRightFits(a.bits, b.bits);
    if a.bits >= HALF && b.bits > 0 {
      NegativeShift(a.bits - WORD, b.bits);
      ShiftRightFits(a.bits / 2, b.bits - 1);
    }
  }

  /** An arithmetic shift keeps a negative number negative and does not make it smaller. */
  lemma {:induction false} NegativeShift(a: int, b: nat)
    requires -HALF <= a < 0
    ensures a <= ShiftRight(a, b) < 0
    decreases b
  {
    if b > 0 { NegativeShift(a / 2, b - 1); }
  }

  // ---------- where the fragment ends: counters ----------

  /** The tables have a tree for `x`, and the same one. */
  ghost predicate KeepsLocal(y: Sym, y': Sym, x: string) {
    x in y.locals ==> x in y'.locals && y'.locals[x] == y.locals[x]
  }

  /** Statements of the fragment leave the counters of enclosing loops bound as they are. */
  lemma {:induction false} WalkKeepsCounter(c: Scope, env: Env, y: Sym, s: Stmt, x: string)
    requires StmtOk(c, env, y, s) && x in c.bound
    ensures KeepsLocal(y, Walk(y, s), x)
    decreases s, 0
  {
    match s
    case Block(body) => WalkAllKeepsCounter(c, env, y, body, x);
    case For(z, start, cmp, bound, body) =>
      UnrollKeepsCounter(InLoop(c, z, body), env, y, z, body, start, LoopEnd(cmp, bound), x);
    case _ =>
  }

  lemma {:induction false} WalkAllKeepsCounter(c: Scope, env: Env, y: Sym, body: seq<Stmt>, x: string)
    requires AllOk(c, env, y, body) && x in c.bound
    ensures KeepsLocal(y, WalkAll(y, body), x)
    decreases body, 0
  {
    if body != [] {
      WalkKeepsCounter(c, env, y, body[0], x);
      WalkAllKeepsCounter(Next(c, body[0]), After(env, body[0]), Walk(y, body[0]), body[1..], x);
    }
  }

  lemma {:induction false} UnrollKeepsCounter(c: Scope, env: Env, y: Sym, z: string, body: seq<Stmt>, i: nat, end: nat,
                                              x: string)
    requires TurnsOk(c, env, y, z, body, i, end) && x in c.bound && x != z
    ensures KeepsLocal(y, Unroll(OneWalk(body), y, z, i, end), x)
    decreases body, 1, if i < end then end - i else 0
  {
    if i < end {
      var y1, y2 := SetLocal(y, z, VConst(i, W32)), Walked(OneWalk(body), y, z, i);
      assert y2 == WalkAll(y1, body);
      WalkAllKeepsCounter(c, env, y1, body, x);
      UnrollKeepsCounter(c, env, y2, z, body, i + 1, end, x);
    }
  }

  lemma {:induction false} LastBinding(c: Scope, env: Env, y: Sym, x: string, body: seq<Stmt>, i: nat, end: nat)
    requires TurnsOk(c, env, y, x, body, i, end) && x in c.bound && i < end
    ensures var y' := Unroll(OneWalk(body), y, x, i, end);
      x in y'.locals && y'.locals[x] == VConst(end - 1, W32)
    decreases end - i
  {
    var y1, y2 := SetLocal(y, x, VConst(i, W32)), Walked(OneWalk(body), y, x, i);
    assert y2 == WalkAll(y1, body);
    WalkAllKeepsCounter(c, env, y1, body, x);
    if i + 1 < end {
      LastBinding(c, env, y2, x, body, i + 1, end);
      assert Unroll(OneWalk(body), y, x, i, end) == Unroll(OneWalk(body), y2, x, i + 1, end);
    } else {
      assert Unroll(OneWalk(body), y, x, i, end) == y2;
    }
  }

  /** After a loop that runs, the table has the counter one behind C.  So its tree is right
      after the loop exactly if the loop does not run and the tree already had the start
      value. */
  lemma CounterOneBehind(fuel: nat, c: Scope, inputs: string -> nat, st: Store, y: Sym, s: Stmt)
    requires fuel >= MAX_UNROLL && Related(c, inputs, st, y) && s.For? && StmtOk(c, TypesOf(st), y, s)
    ensures s.start < LoopEnd(s.cmp, s.bound) ==>
      s.x in Walk(y, s).locals && Walk(y, s).locals[s.x] == VConst(LoopEnd(s.cmp, s.bound) - 1, W32)
    ensures var o, end := Exec(fuel, st, s), LoopEnd(s.cmp, s.bound);
      o.Done? ==>
        && s.x in o.st.vars && o.st.vars[s.x].bits == (if s.start < end then end else s.start)
        && (VEval(inputs, ConvVar(Walk(y, s), s.x)) == o.st.vars[s.x].bits <==>
              s.start >= end && VEval(inputs, ConvVar(y, s.x)) == s.start)
  {
    LoopEndsAtEnd(fuel, c, inputs, st, y, s);
    assert s.start >= LoopEnd(s.cmp, s.bound) ==> Walk(y, s) == y;
    if s.start < LoopEnd(s.cmp, s.bound) {
      LastBinding(InLoop(c, s.x, s.body), TypesOf(st), y, s.x, s.body, s.start, LoopEnd(s.cmp, s.bound));
    }
  }

  // ---------- names, in every execution ----------

  /** From `st` to `st'` the variable or array `x` appears at most by being declared, and
      never goes away. */
  ghost predicate NameKept(st: Store, st': Store, x: string, declared: bool) {
    && (x in st.vars ==> x in st'.vars) && (x in st'.vars && !declared ==> x in st.vars)
    && (x in st.arrays ==> x in st'.arrays) && (x in st'.arrays && !declared ==> x in st.arrays)
  }

  lemma {:induction false} ExecNames(fuel: nat, st: Store, s: Stmt, x: string)
    requires Exec(fuel, st, s).Done?
    ensures NameKept(st, Exec(fuel, st, s).st, x, x in Declared([s]))
    decreases s, 0
  {
    assert [s][1..] == [];
    match s
    case Block(body) => BlockNames(fuel, st, body, x);
    case For(z, start, cmp, bound, body) =>
      var st1 := st.(vars := st.vars[z := Value(start, st.vars[z].ty)]);
      forall u | Turned(OneTurn(fuel, body), u).Done?
        ensures NameKept(u, Turned(OneTurn(fuel, body), u).st, x, false)
      {
        BlockNames(fuel, u, body, x);
      }
      IterateNames(Test(z, cmp, bound), OneTurn(fuel, body), fuel, st1, z, x);
    case _ =>
  }

  lemma {:induction false} AllNames(fuel: nat, st: Store, body: seq<Stmt>, x: string)
    requires ExecAll(fuel, st, body).Done?
    ensures NameKept(st, ExecAll(fuel, st, body).st, x, x in Declared(body))
    decreases body, 0
  {
    if body != [] {
      ExecNames(fuel, st, body[0], x);
      AllNames(fuel, Exec(fuel, st, body[0]).st, body[1..], x);
      assert [body[0]][1..] == [];
      assert Declared(body) == Declared([body[0]]) + Declared(body[1..]);
    }
  }

  lemma {:induction false} BlockNames(fuel: nat, st: Store, body: seq<Stmt>, x: string)
    requires ExecBlock(fuel, st, body).Done?
    ensures NameKept(st, ExecBlock(fuel, st, body).st, x, false)
    decreases body, 1
  {
    AllNames(fuel, st, body, x);
  }

  lemma {:induction false} IterateNames(test: Store -> Option<bool>, turn: Store -> Outcome, k: nat, st: Store,
                                        z: string, x: string)
    requires forall u :: Turned(turn, u).Done? ==> NameKept(u, Turned(turn, u).st, x, false)
    requires Iterate(test, turn, k, st, z).Done?
    ensures NameKept(st, Iterate(test, turn, k, st, z).st, x, false)
    decreases k
  {
    if Tested(test, st).value {
      IterateNames(test, turn, k - 1, Stepped(Turned(turn, st).st, z), z, x);
    }
  }

  // ---------- loops that are not unrolled, indices that are not known ----------

  /** The two stores have the same values, at the names of the second. */
  ghost predicate SameValues(st: Store, st': Store) {
    && (forall x :: x in st'.vars ==> x in st.vars && st'.vars[x].bits == st.vars[x].bits)
    && (forall a :: a in st'.arrays ==> a in st.arrays && st'.arrays[a].elems == st.arrays[a].elems)
  }

  /** Tables that are right before a statement and that it does not change are right after it
      exactly if it changes no value. */
  lemma UnchangedTables(fuel: nat, inputs: string -> nat, st: Store, y: Sym, s: Stmt)
    requires Right(inputs, st, y) && Exec(fuel, st, s).Done? && Declared([s]) == {} && Walk(y, s) == y
    ensures Right(inputs, Exec(fuel, st, s).st, Walk(y, s)) <==> SameValues(st, Exec(fuel, st, s).st)
  {
    forall x
      ensures NameKept(st, Exec(fuel, st, s).st, x, false)
    {
      ExecNames(fuel, st, s, x);
    }
    RightForBoth(inputs, st, Exec(fuel, st, s).st, y);
  }

  lemma RightForBoth(inputs: string -> nat, st: Store, st': Store, y: Sym)
    requires Right(inputs, st, y) && forall x :: NameKept(st, st', x, false)
    ensures Right(inputs, st', y) <==> SameValues(st, st')
  {
    forall x | x in st'.vars
      ensures x in st.vars
    {
      assert NameKept(st, st', x, false);
    }
    forall a | a in st'.arrays
      ensures a in st.arrays && a in y.arrays
      ensures RelArray(inputs, st'.arrays[a].elems, y.arrays[a]) <==> st'.arrays[a].elems == st.arrays[a].elems
    {
      assert NameKept(st, st', a, false);
      SameElems(inputs, st.arrays[a].elems, st'.arrays[a].elems, y.arrays[a]);
    }
  }

  /** A loop of no turns, or of more than 1024, is not unrolled: the trees are right after it
      exactly if it leaves every value as it was. */
  lemma LongLoopExact(fuel: nat, inputs: string -> nat, st: Store, y: Sym, s: Stmt)
    requires Right(inputs, st, y) && s.For? && !Unrolled(s.start, s.cmp, s.bound) && Exec(fuel, st, s).Done?
    ensures Right(inputs, Exec(fuel, st, s).st, Walk(y, s)) <==> SameValues(st, Exec(fuel, st, s).st)
  {
    assert [s][1..] == [];
    UnchangedTables(fuel, inputs, st, y, s);
  }

  /** An element assigned at an index that is not known is not assigned: the trees are right
      after it exactly if the element had the value already. */
  lemma UnknownWriteExact(fuel: nat, inputs: string -> nat, st: Store, y: Sym, s: Stmt)
    requires Right(inputs, st, y) && s.AssignElem? && !ConvExpr(y, s.index).VConst? && Exec(fuel, st, s).Done?
    ensures var i, v := CEval(st, s.index).value.bits, CEval(st, s.e).value.bits;
      Right(inputs, Exec(fuel, st, s).st, Walk(y, s)) <==> st.arrays[s.a].elems[i] == v
  {
    assert [s][1..] == [];
    UnchangedTables(fuel, inputs, st, y, s);
    var i, v, elems := CEval(st, s.index).value.bits, CEval(st, s.e).value.bits, st.arrays[s.a].elems;
    assert Exec(fuel, st, s).st.arrays == st.arrays[s.a := st.arrays[s.a].(elems := elems[i := v])];
    if elems[i] == v { assert elems[i := v] == elems; }
    if elems[i := v] == elems { assert elems[i := v][i] == elems[i]; }
  }

  lemma ShiftedOut(v: nat, b: nat)
    requires v < WORD && b >= 32
    ensures ShiftRight(v, b) == 0
  {
    WordIsPow2();
    ShiftedToZero(v, 32, b);
  }

  lemma {:induction false} ShiftedToZero(v: nat, n: nat, b: nat)
    requires v < Pow2(n) && b >= n
    ensures ShiftRight(v, b) == 0
    decreases b
  {
    if b > 0 {
      if n == 0 { ShiftedToZero(v / 2, 0, b - 1); } else { ShiftedToZero(v / 2, n - 1, b - 1); }
    }
  }

  /** An element read at an index that is not known becomes a word of an input that happens
      to have the array's name: the first is the input, all others are zero. */
  lemma UnknownReadExact(inputs: string -> nat, st: Store, y: Sym, a: string, index: Expr)
    requires CEval(st, Elem(a, index)).Some? && a !in y.locals && !ConvExpr(y, index).VConst?
    requires VEval(inputs, ConvExpr(y, index)) == CEval(st, index).value.bits
    ensures VEval(inputs, ConvExpr(y, Elem(a, index))) == CEval(st, Elem(a, index)).value.bits <==>
      CEval(st, Elem(a, index)).value.bits == if CEval(st, index).value.bits == 0 then Wrap(Input(inputs, a)) else 0
  {
    var i := CEval(st, index).value.bits;
    assert ConvExpr(y, Elem(a, index)) == VIndex(VInput(a, W32), ConvExpr(y, index), W32);
    if i > 0 { ShiftedOut(Wrap(Input(inputs, a)), 32 * i); }
  }

  // ---------- where the fragment ends: hidden names ----------

  /** The machine has, for every name of `names` that `st` has, the value it has there. */
  ghost predicate HiddenAgree(inputs: string -> nat, fs: Flat, st: Store, names: set<string>) {
    && (forall x :: x in names && x in st.vars ==> ValueOf(inputs, fs, x) == st.vars[x].bits)
    && (forall a :: a in names && a in st.arrays ==> HasElems(fs, a, st.arrays[a].elems))
  }

  /** And for every other name that of `inner`. */
  ghost predicate OthersAgree(inputs: string -> nat, fs: Flat, inner: Store, names: set<string>) {
    && (forall x :: x in inner.vars && x !in names ==> ValueOf(inputs, fs, x) == inner.vars[x].bits)
    && (forall a :: a in inner.arrays && a !in names ==> HasElems(fs, a, inner.arrays[a].elems))
  }

  lemma LeaveAgrees(inputs: string -> nat, fs: Flat, st: Store, inner: Store, names: set<string>)
    requires forall x :: NameKept(st, inner, x, true)
    ensures Agrees(inputs, fs, Leave(st, inner, names)) <==>
      HiddenAgree(inputs, fs, st, names) && OthersAgree(inputs, fs, inner, names)
  {
    var out := Leave(st, inner, names);
    forall x | x in names && x in st.vars
      ensures x in out.vars && out.vars[x] == st.vars[x]
    {
      assert NameKept(st, inner, x, true);
    }
    forall a | a in names && a in st.arrays
      ensures a in out.arrays && out.arrays[a] == st.arrays[a]
    {
      assert NameKept(st, inner, a, true);
    }
    assert forall x :: x in inner.vars && x !in names ==> x in out.vars && out.vars[x] == inner.vars[x];
    assert forall a :: a in inner.arrays && a !in names ==> a in out.arrays && out.arrays[a] == inner.arrays[a];
  }

  /** For every block of every program: the trees are right after it exactly if the flat
      machine ends with every hidden name at the value that it hid, and every other name at
      the value it has in C. */
  lemma HidingExact(fuel: nat, inputs: string -> nat, st: Store, y: Sym, fs: Flat, body: seq<Stmt>)
    requires Describes(inputs, y, fs) && ExecAll(fuel, st, body).Done?
    ensures ExecBlock(fuel, st, body).Done?
    ensures var inner, fs' := ExecAll(fuel, st, body).st, FlatAll(inputs, fs, body);
      Right(inputs, ExecBlock(fuel, st, body).st, WalkAll(y, body)) <==>
        HiddenAgree(inputs, fs', st, Declared(body)) && OthersAgree(inputs, fs', inner, Declared(body))
  {
    var inner, fs' := ExecAll(fuel, st, body).st, FlatAll(inputs, fs, body);
    forall x
      ensures NameKept(st, inner, x, true)
    {
      AllNames(fuel, st, body, x);
    }
    AllDescribes(inputs, y, fs, body);
    RightExactly(inputs, ExecBlock(fuel, st, body).st, WalkAll(y, body), fs');
    LeaveAgrees(inputs, fs', st, inner, Declared(body));
  }

  /** In the fragment, hiding apart, only counters can be wrong besides the hidden names. */
  lemma HidingInFragment(fuel: nat, c: Scope, inputs: string -> nat, st: Store, y: Sym, fs: Flat, body: seq<Stmt>)
    requires fuel >= MAX_UNROLL && Related(c, inputs, st, y) && AllOk(c, TypesOf(st), y, body)
    requires Describes(inputs, y, fs) && ExecAll(fuel, st, body).Done?
    ensures ExecBlock(fuel, st, body).Done?
    ensures var inner, fs', stepped :=
        ExecAll(fuel, st, body).st, FlatAll(inputs, fs, body), NextAll(c, body).stale - Declared(body);
      Right(inputs, ExecBlock(fuel, st, body).st, WalkAll(y, body)) <==>
        && HiddenAgree(inputs, fs', st, Declared(body))
        && forall x :: x in inner.vars && x in stepped ==> ValueOf(inputs, fs', x) == inner.vars[x].bits
  {
    HidingExact(fuel, inputs, st, y, fs, body);
    AllSim(fuel, c, inputs, st, y, body);
    AllDescribes(inputs, y, fs, body);
    FragmentAgrees(NextAll(c, body), inputs, ExecAll(fuel, st, body).st, WalkAll(y, body), FlatAll(inputs, fs, body));
  }

  /** One hidden name, in every block of every program: C has the outer value back, the table
      has the machine's; so its tree is right exactly if those are equal. */
  lemma HiddenNameExact(fuel: nat, inputs: string -> nat, st: Store, y: Sym, fs: Flat, body: seq<Stmt>, x: string)
    requires Describes(inputs, y, fs) && ExecAll(fuel, st, body).Done? && x in Declared(body) && x in st.vars
    ensures ExecBlock(fuel, st, body).Done?
    ensures var out, fs' := ExecBlock(fuel, st, body).st, FlatAll(inputs, fs, body);
      && x in out.vars && out.vars[x] == st.vars[x]
      && (VEval(inputs, ConvVar(WalkAll(y, body), x)) == out.vars[x].bits <==>
            ValueOf(inputs, fs', x) == st.vars[x].bits)
  {
    AllNames(fuel, st, body, x);
    AllDescribes(inputs, y, fs, body);
    VarComputes(inputs, WalkAll(y, body), FlatAll(inputs, fs, body), x);
  }

  /** What the table keeps of a hidden name is the machine's value, and unless a loop has
      stepped the name, that is the block's last inner value of it. */
  lemma HidingKeepsInner(fuel: nat, c: Scope, inputs: string -> nat, st: Store, y: Sym, fs: Flat, body: seq<Stmt>,
                         x: string)
    requires fuel >= MAX_UNROLL && Related(c, inputs, st, y) && AllOk(c, TypesOf(st), y, body)
    requires Describes(inputs, y, fs) && ExecAll(fuel, st, body).Done? && x in Declared(body) && x in st.vars
    ensures var inner, tree := ExecAll(fuel, st, body).st, ConvVar(WalkAll(y, body), x);
      && x in inner.vars && VEval(inputs, tree) == ValueOf(inputs, FlatAll(inputs, fs, body), x)
      && (x !in NextAll(c, body).stale ==> VEval(inputs, tree) == inner.vars[x].bits)
  {
    AllNames(fuel, st, body, x);
    AllSim(fuel, c, inputs, st, y, body);
    AllDescribes(inputs, y, fs, body);
    VarComputes(inputs, WalkAll(y, body), FlatAll(inputs, fs, body), x);
  }

  /** A hidden name whose last write is a loop that runs: its tree is right after the block
      exactly if the hidden value is one less than the loop's end. */
  lemma HiddenCounterExact(fuel: nat, inputs: string -> nat, st: Store, y: Sym, fs: Flat, body: seq<Stmt>,
                           pre: seq<Stmt>, s: Stmt, post: seq<Stmt>)
    requires Describes(inputs, y, fs) && ExecAll(fuel, st, body).Done? && LastWriteIsLoop(body, pre, s, post)
    requires s.x in Declared(body) && s.x in st.vars
    ensures ExecBlock(fuel, st, body).Done?
    ensures var out := ExecBlock(fuel, st, body).st;
      && s.x in out.vars
      && (VEval(inputs, ConvVar(WalkAll(y, body), s.x)) == out.vars[s.x].bits <==>
            st.vars[s.x].bits == Wrap(LoopEnd(s.cmp, s.bound) - 1))
  {
    HiddenNameExact(fuel, inputs, st, y, fs, body, s.x);
    LastLoopDecides(inputs, fs, body, pre, s, post);
  }

  /** `uint32_t x = 1; { uint32_t x = 2; } return x;` is outside the fragment because the
      inner declaration hides a visible name: C returns 1, the tree 2. */
  lemma ShadowingMiscompiles(inputs: string -> nat)
    ensures var b := Body([Decl("x", UInt, Some(Lit(1))), Block([Decl("x", UInt, Some(Lit(2)))])], Return(Var("x")));
      && ExecBody(0, InitStore(map[], inputs), b) == Returned(1)
      && VEval(inputs, ConvBody(InitSym(map[]), b).1) == 2
  {
    var inner := [Decl("x", UInt, Some(Lit(2)))];
    var stmts := [Decl("x", UInt, Some(Lit(1))), Block(inner)];
    var b := Body(stmts, Return(Var("x")));
    var st0 := InitStore(map[], inputs);
    var st1 := st0.(vars := st0.vars["x" := Value(1, UInt)]);
    var st2 := st1.(vars := st1.vars["x" := Value(2, UInt)]);
    assert inner[1..] == [] && stmts[1..] == [Block(inner)] && stmts[1..][1..] == [];
    assert Exec(0, st0, stmts[0]) == Done(st1);
    assert ExecAll(0, st1, inner) == Done(st2);
    assert Declared(inner) == {"x"};
    assert Leave(st1, st2, {"x"}).vars["x"] == Value(1, UInt);
    var y1 := SetLocal(InitSym(map[]), "x", VConst(1, W32));
    assert WalkAll(y1, inner) == SetLocal(y1, "x", VConst(2, W32));
    assert WalkAll(InitSym(map[]), stmts) == WalkAll(y1, stmts[1..]);
  }

  /** A loop of one empty turn on an unsigned counter. */
  lemma OneTurnLoop(fuel: nat, st: Store, x: string)
    requires fuel >= 1 && x in st.vars && st.vars[x].ty.UInt?
    ensures Exec(fuel, st, For(x, 0, Lt, 1, [])) == Done(st.(vars := st.vars[x := Value(1, UInt)]))
  {
    var st0 := st.(vars := st.vars[x := Value(0, UInt)]);
    var test, turn := Test(x, Lt, 1), OneTurn(fuel, []);
    LoopTest(st0, x, Lt, 0, 1, 0);
    assert ExecBlock(fuel, st0, []) == Done(Leave(st0, st0, {})) && Leave(st0, st0, {}) == st0;
    assert Turned(turn, st0) == Done(st0);
    var st1 := Stepped(st0, x);
    assert st1 == st.(vars := st.vars[x := Value(1, UInt)]);
    LoopTest(st1, x, Lt, 0, 1, 1);
    IterateOnce(test, turn, fuel, st0, x);
    assert Iterate(test, turn, fuel - 1, st1, x) == Done(st1);
  }

  /** `uint32_t x = 5; for (uint32_t x = 0; x < 1; x++) { } return x;`: the counter hides a
      name, and the loop is the last to write it.  C returns 5, the tree 0. */
  lemma HiddenCounterMiscompiles(fuel: nat, inputs: string -> nat)
    requires fuel >= 1
    ensures var loop := Block([Decl("x", UInt, None), For("x", 0, Lt, 1, [])]);
      var b := Body([Decl("x", UInt, Some(Lit(5))), loop], Return(Var("x")));
      && ExecBody(fuel, InitStore(map[], inputs), b) == Returned(5)
      && VEval(inputs, ConvBody(InitSym(map[]), b).1) == 0
  {
    var s := For("x", 0, Lt, 1, []);
    var inner := [Decl("x", UInt, None), s];
    var b := Body([Decl("x", UInt, Some(Lit(5))), Block(inner)], Return(Var("x")));
    HiddenCounterInC(fuel, inputs, inner, b);
    HiddenCounterInTree(inputs, s, inner, b);
  }

  lemma HiddenCounterInTree(inputs: string -> nat, s: Stmt, inner: seq<Stmt>, b: Body)
    requires s == For("x", 0, Lt, 1, []) && inner == [Decl("x", UInt, None), s]
    requires b == Body([Decl("x", UInt, Some(Lit(5))), Block(inner)], Return(Var("x")))
    ensures VEval(inputs, ConvBody(InitSym(map[]), b).1) == 0
  {
    var fs0, none: map<string, CType> := FlatInit(inputs, {}), map[];
    var fs1 := FlatRun(inputs, fs0, b.stmts[0]);
    assert none.Keys == {};
    TreeComputesFlatRun(inputs, {}, b);
    assert b.stmts[1..] == [Block(inner)] && [Block(inner)][1..] == [];
    assert FlatAll(inputs, fs1, [Block(inner)]) == FlatAll(inputs, fs1, inner);
    assert FlatAll(inputs, fs0, b.stmts) == FlatAll(inputs, fs1, inner);
    assert inner == [Decl("x", UInt, None)] + [s] + [];
    LastLoopDecides(inputs, fs1, inner, [Decl("x", UInt, None)], s, []);
  }

  lemma HiddenCounterInC(fuel: nat, inputs: string -> nat, inner: seq<Stmt>, b: Body)
    requires fuel >= 1 && inner == [Decl("x", UInt, None), For("x", 0, Lt, 1, [])]
    requires b == Body([Decl("x", UInt, Some(Lit(5))), Block(inner)], Return(Var("x")))
    ensures ExecBody(fuel, InitStore(map[], inputs), b) == Returned(5)
  {
    var s := inner[1];
    var st0 := InitStore(map[], inputs);
    var st1 := st0.(vars := st0.vars["x" := Value(5, UInt)]);
    var st2 := st1.(vars := st1.vars["x" := Value(0, UInt)]);
    assert inner[1..] == [s] && [s][1..] == [] && b.stmts[1..] == [Block(inner)] && [Block(inner)][1..] == [];
    OneTurnLoop(fuel, st2, "x");
    var st3 := Exec(fuel, st2, s).st;
    assert ExecAll(fuel, st2, [s]) == ExecAll(fuel, st3, []) == Done(st3);
    assert Exec(fuel, st1, inner[0]) == Done(st2);
    assert ExecAll(fuel, st1, inner) == Done(st3);
    DeclaredOne(inner);
    var st4 := Leave(st1, st3, {"x"});
    assert ExecBlock(fuel, st1, inner) == Done(st4);
    assert Exec(fuel, st0, b.stmts[0]) == Done(st1);
    assert ExecAll(fuel, st1, [Block(inner)]) == ExecAll(fuel, st4, []) == Done(st4);
    assert ExecAll(fuel, st0, b.stmts) == Done(st4);
  }

  lemma DeclaredOne(inner: seq<Stmt>)
    requires inner == [Decl("x", UInt, None), For("x", 0, Lt, 1, [])]
    ensures Declared(inner) == {"x"}
  {
    assert inner[1..] == [inner[1]] && [inner[1]][1..] == [];
    assert Declared([]) == {} && Declared([inner[1]]) == {} + Declared([]);
  }

  // ---------- where the fragment ends: the first branch leaks into the second ----------

  /** All statements of a body, of both branches of its closing `if` in order. */
  function Stmts(b: Body): seq<Stmt> {
    b.stmts + match b.tail case Return(_) => [] case IfElse(_, t, f) => Stmts(t) + Stmts(f)
  }

  lemma {:induction false} WalkAppend(y: Sym, a: seq<Stmt>, b: seq<Stmt>)
    ensures WalkAll(y, a + b) == WalkAll(WalkAll(y, a), b)
    decreases |a|
  {
    if a == [] {
      assert a + b == b;
    } else {
      assert (a + b)[0] == a[0] && (a + b)[1..] == a[1..] + b;
      WalkAppend(Walk(y, a[0]), a[1..], b);
    }
  }

  /** Converting a body leaves the tables as walking all its statements does. */
  lemma {:induction false} ConvWalks(y: Sym, b: Body)
    ensures ConvBody(y, b).0 == WalkAll(y, Stmts(b))
    decreases b
  {
    match b.tail
    case Return(_) => assert Stmts(b) == b.stmts;
    case IfElse(_, t, f) =>
      var y1 := WalkAll(y, b.stmts);
      ConvWalks(y1, t);
      ConvWalks(ConvBody(y1, t).0, f);
      WalkAppend(y1, Stmts(t), Stmts(f));
      WalkAppend(y, b.stmts, Stmts(t) + Stmts(f));
  }

  /** And it leaves the machine as running all its statements does. */
  lemma {:induction false} BodyRuns(inputs: string -> nat, fs: Flat, b: Body)
    ensures FlatBody(inputs, fs, b).0 == FlatAll(inputs, fs, Stmts(b))
    decreases b
  {
    match b.tail
    case Return(_) => assert Stmts(b) == b.stmts;
    case IfElse(_, t, f) =>
      var fs1 := FlatAll(inputs, fs, b.stmts);
      BodyRuns(inputs, fs1, t);
      BodyRuns(inputs, FlatBody(inputs, fs1, t).0, f);
      FlatAppend(inputs, fs1, Stmts(t), Stmts(f));
      FlatAppend(inputs, fs, b.stmts, Stmts(t) + Stmts(f));
  }

  /** For every first branch of every program: the trees that the `else` branch is walked with
      are right for the store at the `if` exactly if the statements of the first branch, run
      on the flat machine, end with every visible name at its value. */
  lemma LeakExact(inputs: string -> nat, st: Store, y: Sym, fs: Flat, t: Body)
    requires Describes(inputs, y, fs)
    ensures Right(inputs, st, ConvBody(y, t).0) <==> Agrees(inputs, FlatAll(inputs, fs, Stmts(t)), st)
  {
    BodyComputes(inputs, y, fs, t);
    BodyRuns(inputs, fs, t);
    RightExactly(inputs, st, ConvBody(y, t).0, FlatAll(inputs, fs, Stmts(t)));
  }

  /** The value of `x` at the end of the first branch: C's, or, if a loop has stepped it, the
      machine's. */
  ghost function LeftBy(inputs: string -> nat, stale: set<string>, after: Store, fs': Flat, x: string): nat {
    if x in after.vars && x !in stale then after.vars[x].bits else ValueOf(inputs, fs', x)
  }

  /** In the fragment: exactly if the first branch, run in C, leaves every visible name and
      array as it was, except that counters stepped by a loop count with their last value. */
  lemma LeakInFragment(fuel: nat, c: Scope, inputs: string -> nat, st: Store, y: Sym, fs: Flat, t: Body)
    requires fuel >= MAX_UNROLL && Related(c, inputs, st, y) && AllOk(c, TypesOf(st), y, Stmts(t))
    requires Describes(inputs, y, fs) && ExecAll(fuel, st, Stmts(t)).Done?
    ensures var after, fs', stale :=
        ExecAll(fuel, st, Stmts(t)).st, FlatAll(inputs, fs, Stmts(t)), NextAll(c, Stmts(t)).stale;
      Right(inputs, st, ConvBody(y, t).0) <==>
        && (forall x :: x in st.vars ==> LeftBy(inputs, stale, after, fs', x) == st.vars[x].bits)
        && (forall a :: a in st.arrays ==> a in after.arrays && after.arrays[a].elems == st.arrays[a].elems)
  {
    var after, fs' := ExecAll(fuel, st, Stmts(t)).st, FlatAll(inputs, fs, Stmts(t));
    LeakExact(inputs, st, y, fs, t);
    AllSim(fuel, c, inputs, st, y, Stmts(t));
    AllDescribes(inputs, y, fs, Stmts(t));
    FragmentAgrees(NextAll(c, Stmts(t)), inputs, after, WalkAll(y, Stmts(t)), fs');
    forall x
      ensures NameKept(st, after, x, true)
    {
      AllNames(fuel, st, Stmts(t), x);
    }
    LeftAgrees(inputs, st, after, fs', NextAll(c, Stmts(t)).stale);
  }

  lemma LeftAgrees(inputs: string -> nat, st: Store, after: Store, fs': Flat, stale: set<string>)
    requires forall x :: NameKept(st, after, x, true)
    requires forall x :: x in after.vars && x !in stale ==> ValueOf(inputs, fs', x) == after.vars[x].bits
    requires forall a :: a in after.arrays ==> HasElems(fs', a, after.arrays[a].elems)
    ensures Agrees(inputs, fs', st) <==>
      && (forall x :: x in st.vars ==> LeftBy(inputs, stale, after, fs', x) == st.vars[x].bits)
      && (forall a :: a in st.arrays ==> a in after.arrays && after.arrays[a].elems == st.arrays[a].elems)
  {
    assert forall x :: x in st.vars ==> LeftBy(inputs, stale, after, fs', x) == ValueOf(inputs, fs', x);
    forall a | a in st.arrays
      ensures a in after.arrays
    {
      assert NameKept(st, after, a, true);
    }
  }

  /** A name whose last write in the first branch is a loop that runs: the `else` branch reads
      it right exactly if its value is one less than the loop's end. */
  lemma LeakedCounterExact(inputs: string -> nat, st: Store, y: Sym, fs: Flat, t: Body,
                           pre: seq<Stmt>, s: Stmt, post: seq<Stmt>)
    requires Describes(inputs, y, fs) && LastWriteIsLoop(Stmts(t), pre, s, post) && s.x in st.vars
    ensures VEval(inputs, ConvVar(ConvBody(y, t).0, s.x)) == st.vars[s.x].bits <==>
      st.vars[s.x].bits == Wrap(LoopEnd(s.cmp, s.bound) - 1)
  {
    BodyComputes(inputs, y, fs, t);
    BodyRuns(inputs, fs, t);
    VarComputes(inputs, ConvBody(y, t).0, FlatAll(inputs, fs, Stmts(t)), s.x);
    LastLoopDecides(inputs, fs, Stmts(t), pre, s, post);
  }

  /** The names and types of `st`, with the values that they have in `after`. */
  function Spilled(st: Store, after: Store): Store {
    Store(map x | x in st.vars && x in after.vars :: Value(after.vars[x].bits, st.vars[x].ty),
          map a | a in st.arrays && a in after.arrays :: Array(after.arrays[a].elems, st.arrays[a].ty))
  }

  lemma SpilledRelated(c: Scope, inputs: string -> nat, st: Store, after: Store, y: Sym)
    requires Related(c, inputs, after, y) && forall x :: NameKept(st, after, x, true)
    ensures Related(c, inputs, Spilled(st, after), y) && TypesOf(Spilled(st, after)) == TypesOf(st)
  {
    var sp := Spilled(st, after);
    forall x
      ensures (x in st.vars ==> x in after.vars) && (x in st.arrays ==> x in after.arrays)
    {
      assert NameKept(st, after, x, true);
    }
    assert TypesOf(sp).vars == TypesOf(st).vars && TypesOf(sp).arrays == TypesOf(st).arrays;
  }

  /** What the tree computes in the `else` case, for all branches of every program: what the
      flat machine computes if the `else` branch runs after the statements of the first. */
  lemma LeakSequences(inputs: string -> nat, y: Sym, fs: Flat, t: Body, f: Body)
    requires Describes(inputs, y, fs)
    ensures VEval(inputs, ConvBody(ConvBody(y, t).0, f).1) ==
      Wrap(FlatBody(inputs, FlatAll(inputs, fs, Stmts(t)), f).1.value)
  {
    BodyComputes(inputs, y, fs, t);
    BodyRuns(inputs, fs, t);
    BodyComputes(inputs, ConvBody(y, t).0, FlatAll(inputs, fs, Stmts(t)), f);
  }

  /** In the fragment that is what C would compute. */
  lemma LeakSequencesInC(fuel: nat, c: Scope, inputs: string -> nat, st: Store, y: Sym, t: Body, f: Body)
    requires fuel >= MAX_UNROLL && Related(c, inputs, st, y) && AllOk(c, TypesOf(st), y, Stmts(t))
    requires ExecAll(fuel, st, Stmts(t)).Done?
    requires BodyOk(NextAll(c, Stmts(t)), TypesOf(st), ConvBody(y, t).0, f)
    ensures var after := ExecAll(fuel, st, Stmts(t)).st;
      Converts(inputs, ExecBody(fuel, Spilled(st, after), f), ConvBody(ConvBody(y, t).0, f).1)
  {
    AllSim(fuel, c, inputs, st, y, Stmts(t));
    ConvWalks(y, t);
    var after, c2 := ExecAll(fuel, st, Stmts(t)).st, NextAll(c, Stmts(t));
    forall x
      ensures NameKept(st, after, x, true)
    {
      AllNames(fuel, st, Stmts(t), x);
    }
    SpilledRelated(c2, inputs, st, after, ConvBody(y, t).0);
    BodySim(fuel, c2, inputs, Spilled(st, after), ConvBody(y, t).0, f);
  }

  /** `uint32_t x = 1; if (c) { x = 2; return x; } else { return x; }` is outside the fragment
      because the first branch assigns a visible name: for `c` zero C returns 1, the tree 2. */
  lemma LeakMiscompiles(inputs: string -> nat)
    requires Wrap(Input(inputs, "c")) == 0
    ensures var b := Body([Decl("x", UInt, Some(Lit(1)))],
                          IfElse(Var("c"), Body([Assign("x", Lit(2))], Return(Var("x"))), Body([], Return(Var("x")))));
      && ExecBody(0, InitStore(map["c" := UInt], inputs), b) == Returned(1)
      && VEval(inputs, ConvBody(InitSym(map["c" := UInt]), b).1) == 2
  {
    var t, f := Body([Assign("x", Lit(2))], Return(Var("x"))), Body([], Return(Var("x")));
    var b := Body([Decl("x", UInt, Some(Lit(1)))], IfElse(Var("c"), t, f));
    var st0 := InitStore(map["c" := UInt], inputs);
    var st1 := st0.(vars := st0.vars["x" := Value(1, UInt)]);
    assert b.stmts[1..] == [] && t.stmts[1..] == [];
    assert ExecAll(0, st0, b.stmts) == Done(st1);
    assert CEval(st1, Var("c")) == Some(Value(0, UInt));
    assert ExecBody(0, st1, f) == Returned(1);
    var y0 := InitSym(map["c" := UInt]);
    var y1 := SetLocal(y0, "x", VConst(1, W32));
    var y2 := SetLocal(y1, "x", VConst(2, W32));
    assert WalkAll(y0, b.stmts) == y1 && WalkAll(y1, t.stmts) == y2;
    assert ConvBody(y1, t).0 == y2 && ConvBody(y2, f) == (y2, VConst(2, W32));
    assert ConvBody(y0, b).1 == VMux(VInput("c", W32), VConst(2, W32), VConst(2, W32), W32);
  }

  /** `uint32_t x = 5; if (c) { for (x = 0; x < 1; x++) { } return x; } else { return x; }`: the
      first branch steps a visible counter.  For `c` zero C returns 5, the tree 0. */
  lemma LeakedCounterMiscompiles(fuel: nat, inputs: string -> nat)
    requires Wrap(Input(inputs, "c")) == 0
    ensures var t, f := Body([For("x", 0, Lt, 1, [])], Return(Var("x"))), Body([], Return(Var("x")));
      var b := Body([Decl("x", UInt, Some(Lit(5)))], IfElse(Var("c"), t, f));
      && ExecBody(fuel, InitStore(map["c" := UInt], inputs), b) == Returned(5)
      && VEval(inputs, ConvBody(InitSym(map["c" := UInt]), b).1) == 0
  {
    var s := For("x", 0, Lt, 1, []);
    var t, f := Body([s], Return(Var("x"))), Body([], Return(Var("x")));
    var b := Body([Decl("x", UInt, Some(Lit(5)))], IfElse(Var("c"), t, f));
    var st0 := InitStore(map["c" := UInt], inputs);
    var st1 := st0.(vars := st0.vars["x" := Value(5, UInt)]);
    assert b.stmts[1..] == [];
    assert ExecAll(fuel, st0, b.stmts) == Done(st1);
    assert CEval(st1, Var("c")) == Some(Value(0, UInt));
    assert ExecBody(fuel, st1, f) == Returned(5);
    LeakedCounterInTree(inputs, s, t, f, b);
  }

  lemma LeakedCounterInTree(inputs: string -> nat, s: Stmt, t: Body, f: Body, b: Body)
    requires Wrap(Input(inputs, "c")) == 0 && s == For("x", 0, Lt, 1, []) && t == Body([s], Return(Var("x")))
    requires f == Body([], Return(Var("x"))) && b == Body([Decl("x", UInt, Some(Lit(5)))], IfElse(Var("c"), t, f))
    ensures VEval(inputs, ConvBody(InitSym(map["c" := UInt]), b).1) == 0
  {
    var fs0 := FlatInit(inputs, {"c"});
    var fs1 := FlatRun(inputs, fs0, b.stmts[0]);
    assert map["c" := UInt].Keys == {"c"};
    TreeComputesFlatRun(inputs, {"c"}, b);
    assert b.stmts[1..] == [];
    assert FlatAll(inputs, fs0, b.stmts) == fs1;
    assert t.stmts == [] + [s] + [];
    LastLoopDecides(inputs, fs1, t.stmts, [], s, []);
    var fs2 := FlatBody(inputs, fs1, t).0;
    assert fs2 == FlatAll(inputs, fs1, t.stmts);
    assert FlatBody(inputs, fs2, f).1 == FlatVar(inputs, fs2, "x");
  }
}
