/**
 What the converter's trees compute, for every program of the statement language and with
 no side condition: the run of a flat machine.

 The flat machine executes the same source, but a block restores nothing when it ends, a
 loop that is unrolled leaves its counter at the last value it was bound to, a loop that is
 not unrolled does nothing, the first branch of an `if` runs before the second, operators
 are the unsigned 32-bit ones, and an array element is found only if its index is known at
 conversion time.
 */
module C2VFlat {
  import opened Bits
  import opened C2VModel

  // ---------- the machine ----------

  /** A value, and whether the converter knows it as a constant.  Known values are kept as
      written; everything else looks at them modulo 2^32. */
  datatype Cell = Cell(value: nat, known: bool)

  datatype Flat = Flat(cells: map<string, Cell>, arrays: map<string, seq<Cell>>)

  /** A name that the machine does not have is an input. */
  function FlatVar(inputs: string -> nat, fs: Flat, x: string): Cell {
    if x in fs.cells then fs.cells[x] else Cell(Wrap(Input(inputs, x)), false)
  }

  function ValueOf(inputs: string -> nat, fs: Flat, x: string): nat {
    Wrap(FlatVar(inputs, fs, x).value)
  }

  /** A word of a 32-bit value: the value itself, and zero beyond. */
  function WordAt(value: nat, i: nat): nat {
    Wrap(ShiftRight(Wrap(value), 32 * Wrap(i)))
  }

  function FlatEval(inputs: string -> nat, fs: Flat, e: Expr): Cell {
    match e
    case Lit(v) => Cell(v, true)
    case Var(x) => FlatVar(inputs, fs, x)
    case Elem(a, index) =>
      var i := FlatEval(inputs, fs, index);
      if a !in fs.cells && i.known && a in fs.arrays && i.value < |fs.arrays[a]| then fs.arrays[a][i.value]
      else Cell(WordAt(FlatVar(inputs, fs, a).value, i.value), false)
    case Bin(op, l, r) =>
      var a, b := FlatEval(inputs, fs, l), FlatEval(inputs, fs, r);
      Cell(Wrap(VBin(op, Wrap(a.value), Wrap(b.value))), false)
    case Un(op, e) => Cell(Wrap(VUn(op, Wrap(FlatEval(inputs, fs, e).value))), false)
    case Cond(c, t, f) =>
      var s, a, b := FlatEval(inputs, fs, c), FlatEval(inputs, fs, t), FlatEval(inputs, fs, f);
      Cell(Wrap(if Wrap(s.value) != 0 then a.value else b.value), false)
    case Paren(e) => FlatEval(inputs, fs, e)
    case Cast(_, e) => FlatEval(inputs, fs, e)
  }

  function SetCell(fs: Flat, x: string, c: Cell): Flat {
    fs.(cells := fs.cells[x := c])
  }

  predicate Unrolled(start: nat, cmp: BinOp, bound: nat) {
    start < LoopEnd(cmp, bound) <= start + MAX_UNROLL
  }

  function FlatRun(inputs: string -> nat, fs: Flat, s: Stmt): Flat
    decreases s, 0
  {
    match s
    case Decl(x, _, None) => SetCell(fs, x, Cell(0, true))
    case Decl(x, _, Some(e)) => SetCell(fs, x, FlatEval(inputs, fs, e))
    case DeclArray(a, _, size) => fs.(arrays := fs.arrays[a := seq(size, _ => Cell(0, true))])
    case Assign(x, e) => if x in fs.cells then SetCell(fs, x, FlatEval(inputs, fs, e)) else fs
    case AssignElem(a, index, e) =>
      var i := FlatEval(inputs, fs, index);
      if a in fs.arrays && i.known && i.value < |fs.arrays[a]|
      then fs.(arrays := fs.arrays[a := fs.arrays[a][i.value := FlatEval(inputs, fs, e)]])
      else fs
    case Compound(x, op, e) =>
      if x in fs.cells then
        var b := FlatEval(inputs, fs, e);
        SetCell(fs, x, Cell(Wrap(VBin(op, Wrap(fs.cells[x].value), Wrap(b.value))), false))
      else fs
    case Block(body) => FlatAll(inputs, fs, body)
    case For(x, start, cmp, bound, body) =>
      if Unrolled(start, cmp, bound) then FlatLoop(OneFlat(inputs, body), fs, x, start, LoopEnd(cmp, bound)) else fs
  }

  function FlatAll(inputs: string -> nat, fs: Flat, body: seq<Stmt>): Flat
    decreases body, 0
  {
    if body == [] then fs else FlatAll(inputs, FlatRun(inputs, fs, body[0]), body[1..])
  }

  /** One run of a loop's body. */
  function OneFlat(inputs: string -> nat, body: seq<Stmt>): Flat -> Flat
    decreases body, 1
  {
    (fs: Flat) => FlatAll(inputs, fs, body)
  }

  function FlatTurn(turn: Flat -> Flat, fs: Flat, x: string, i: nat): Flat {
    turn(SetCell(fs, x, Cell(i, true)))
  }

  /** The counter is set to each value in turn, and never stepped past the last. */
  function FlatLoop(turn: Flat -> Flat, fs: Flat, x: string, i: nat, end: nat): Flat
    decreases if i < end then end - i else 0
  {
    if i >= end then fs else FlatLoop(turn, FlatTurn(turn, fs, x, i), x, i + 1, end)
  }

  /** The value of a body, and the machine after it: both branches run, one after the other. */
  function FlatBody(inputs: string -> nat, fs: Flat, b: Body): (Flat, Cell)
    decreases b
  {
    var fs1 := FlatAll(inputs, fs, b.stmts);
    match b.tail
    case Return(e) => (fs1, FlatEval(inputs, fs1, e))
    case IfElse(c, t, f) =>
      var s := FlatEval(inputs, fs1, c);
      var (fs2, tv) := FlatBody(inputs, fs1, t);
      var (fs3, fv) := FlatBody(inputs, fs2, f);
      (fs3, Cell(Wrap(if Wrap(s.value) != 0 then tv.value else fv.value), false))
  }

  /** The machine at the start of a function. */
  function FlatInit(inputs: string -> nat, params: set<string>): Flat {
    Flat(map x | x in params :: Cell(Wrap(Input(inputs, x)), false), map[])
  }

  // ---------- the trees compute it ----------

  /** A tree computes a cell, and is a constant exactly if the cell is known. */
  ghost predicate Computes(inputs: string -> nat, n: VNode, c: Cell) {
    && VEval(inputs, n) == Wrap(c.value)
    && (c.known <==> n.VConst?) && (n.VConst? ==> n.value == c.value && n.width == W32)
  }

  ghost predicate ComputesAll(inputs: string -> nat, nodes: seq<VNode>, cells: seq<Cell>) {
    |nodes| == |cells| && forall i :: 0 <= i < |nodes| ==> Computes(inputs, nodes[i], cells[i])
  }

  /** The tables describe the machine, at every name. */
  ghost predicate Describes(inputs: string -> nat, y: Sym, fs: Flat) {
    && fs.cells.Keys == y.locals.Keys + y.params && fs.arrays.Keys == y.arrays.Keys
    && (forall x :: x in fs.cells ==> Computes(inputs, ConvVar(y, x), fs.cells[x]))
    && (forall a :: a in fs.arrays ==> ComputesAll(inputs, y.arrays[a], fs.arrays[a]))
  }

  lemma VarComputes(inputs: string -> nat, y: Sym, fs: Flat, x: string)
    requires Describes(inputs, y, fs)
    ensures Computes(inputs, ConvVar(y, x), FlatVar(inputs, fs, x))
  {
  }

  lemma ElemComputes(inputs: string -> nat, y: Sym, fs: Flat, a: string, index: Expr)
    requires Describes(inputs, y, fs) && Computes(inputs, ConvExpr(y, index), FlatEval(inputs, fs, index))
    ensures Computes(inputs, ConvExpr(y, Elem(a, index)), FlatEval(inputs, fs, Elem(a, index)))
  {
    var i := FlatEval(inputs, fs, index);
    if a !in fs.cells && i.known && a in fs.arrays && i.value < |fs.arrays[a]| {
      assert ComputesAll(inputs, y.arrays[a], fs.arrays[a]);
    } else {
      VarComputes(inputs, y, fs, a);
      assert ConvExpr(y, Elem(a, index)) == VIndex(ConvVar(y, a), ConvExpr(y, index), W32);
    }
  }

  lemma CondComputes(inputs: string -> nat, y: Sym, fs: Flat, c: Expr, t: Expr, f: Expr)
    requires Computes(inputs, ConvExpr(y, c), FlatEval(inputs, fs, c))
    requires Computes(inputs, ConvExpr(y, t), FlatEval(inputs, fs, t))
    requires Computes(inputs, ConvExpr(y, f), FlatEval(inputs, fs, f))
    ensures Computes(inputs, ConvExpr(y, Cond(c, t, f)), FlatEval(inputs, fs, Cond(c, t, f)))
  {
  }

  lemma BinComputes(inputs: string -> nat, y: Sym, fs: Flat, op: BinOp, l: Expr, r: Expr)
    requires Computes(inputs, ConvExpr(y, l), FlatEval(inputs, fs, l))
    requires Computes(inputs, ConvExpr(y, r), FlatEval(inputs, fs, r))
    ensures Computes(inputs, ConvExpr(y, Bin(op, l, r)), FlatEval(inputs, fs, Bin(op, l, r)))
  {
  }

  lemma UnComputes(inputs: string -> nat, y: Sym, fs: Flat, op: UnOp, e: Expr)
    requires Computes(inputs, ConvExpr(y, e), FlatEval(inputs, fs, e))
    ensures Computes(inputs, ConvExpr(y, Un(op, e)), FlatEval(inputs, fs, Un(op, e)))
  {
  }

  lemma CastComputes(inputs: string -> nat, y: Sym, fs: Flat, ty: CType, e: Expr)
    requires Computes(inputs, ConvExpr(y, e), FlatEval(inputs, fs, e))
    ensures Computes(inputs, ConvExpr(y, Cast(ty, e)), FlatEval(inputs, fs, Cast(ty, e)))
  {
  }

  /** Every expression's tree computes the expression's value on the machine. */
  lemma {:induction false} ExprComputes(inputs: string -> nat, y: Sym, fs: Flat, e: Expr)
    requires Describes(inputs, y, fs)
    ensures Computes(inputs, ConvExpr(y, e), FlatEval(inputs, fs, e))
  {
    match e
    case Lit(_) =>
    case Var(x) => VarComputes(inputs, y, fs, x);
    case Elem(a, index) =>
      ExprComputes(inputs, y, fs, index);
      ElemComputes(inputs, y, fs, a, index);
    case Bin(op, l, r) =>
      ExprComputes(inputs, y, fs, l);
      ExprComputes(inputs, y, fs, r);
      BinComputes(inputs, y, fs, op, l, r);
    case Un(op, e1) =>
      ExprComputes(inputs, y, fs, e1);
      UnComputes(inputs, y, fs, op, e1);
    case Cond(c, t, f) =>
      ExprComputes(inputs, y, fs, c);
      ExprComputes(inputs, y, fs, t);
      ExprComputes(inputs, y, fs, f);
      CondComputes(inputs, y, fs, c, t, f);
    case Paren(e1) => ExprComputes(inputs, y, fs, e1);
    case Cast(ty, e1) =>
      ExprComputes(inputs, y, fs, e1);
      CastComputes(inputs, y, fs, ty, e1);
  }

  lemma SetDescribes(inputs: string -> nat, y: Sym, fs: Flat, x: string, n: VNode, c: Cell)
    requires Describes(inputs, y, fs) && Computes(inputs, n, c)
    ensures Describes(inputs, SetLocal(y, x, n), SetCell(fs, x, c))
  {
    var y', fs' := SetLocal(y, x, n), SetCell(fs, x, c);
    assert fs'.cells.Keys == y'.locals.Keys + y'.params;
    forall z | z in fs'.cells
      ensures Computes(inputs, ConvVar(y', z), fs'.cells[z])
    {
      if z != x { assert ConvVar(y', z) == ConvVar(y, z); }
    }
  }

  lemma SetArrayDescribes(inputs: string -> nat, y: Sym, fs: Flat, a: string, nodes: seq<VNode>, cells: seq<Cell>)
    requires Describes(inputs, y, fs) && ComputesAll(inputs, nodes, cells)
    ensures Describes(inputs, y.(arrays := y.arrays[a := nodes]), fs.(arrays := fs.arrays[a := cells]))
  {
    var y', fs' := y.(arrays := y.arrays[a := nodes]), fs.(arrays := fs.arrays[a := cells]);
    assert fs'.arrays.Keys == y'.arrays.Keys;
    forall x | x in fs'.cells
      ensures Computes(inputs, ConvVar(y', x), fs'.cells[x])
    {
      assert ConvVar(y', x) == ConvVar(y, x);
    }
  }

  lemma StoreElem(inputs: string -> nat, y: Sym, fs: Flat, s: Stmt)
    requires Describes(inputs, y, fs) && s.AssignElem?
    ensures Describes(inputs, Walk(y, s), FlatRun(inputs, fs, s))
  {
    ExprComputes(inputs, y, fs, s.index);
    ExprComputes(inputs, y, fs, s.e);
    var i, c := FlatEval(inputs, fs, s.index), FlatEval(inputs, fs, s.e);
    if s.a in fs.arrays && i.known && i.value < |fs.arrays[s.a]| {
      assert ComputesAll(inputs, y.arrays[s.a], fs.arrays[s.a]);
      SetArrayDescribes(inputs, y, fs, s.a, y.arrays[s.a][i.value := ConvExpr(y, s.e)], fs.arrays[s.a][i.value := c]);
    }
  }

  lemma StoreCompound(inputs: string -> nat, y: Sym, fs: Flat, s: Stmt)
    requires Describes(inputs, y, fs) && s.Compound?
    ensures Describes(inputs, Walk(y, s), FlatRun(inputs, fs, s))
  {
    ExprComputes(inputs, y, fs, s.e);
    if s.x in fs.cells {
      var b := FlatEval(inputs, fs, s.e);
      SetDescribes(inputs, y, fs, s.x, VBinOp(s.op, ConvVar(y, s.x), ConvExpr(y, s.e), W32),
                   Cell(Wrap(VBin(s.op, Wrap(fs.cells[s.x].value), Wrap(b.value))), false));
    }
  }

  /** Walking any statement keeps the tables a description of the machine. */
  lemma {:induction false} WalkDescribes(inputs: string -> nat, y: Sym, fs: Flat, s: Stmt)
    requires Describes(inputs, y, fs)
    ensures Describes(inputs, Walk(y, s), FlatRun(inputs, fs, s))
    decreases s, 0
  {
    match s
    case Decl(x, _, None) => SetDescribes(inputs, y, fs, x, VConst(0, W32), Cell(0, true));
    case Decl(x, _, Some(e)) =>
      ExprComputes(inputs, y, fs, e);
      SetDescribes(inputs, y, fs, x, ConvExpr(y, e), FlatEval(inputs, fs, e));
    case DeclArray(a, _, size) =>
      SetArrayDescribes(inputs, y, fs, a, seq(size, _ => VConst(0, W32)), seq(size, _ => Cell(0, true)));
    case Assign(x, e) =>
      ExprComputes(inputs, y, fs, e);
      if x in fs.cells { SetDescribes(inputs, y, fs, x, ConvExpr(y, e), FlatEval(inputs, fs, e)); }
    case AssignElem(_, _, _) => StoreElem(inputs, y, fs, s);
    case Compound(_, _, _) => StoreCompound(inputs, y, fs, s);
    case Block(body) => AllDescribes(inputs, y, fs, body);
    case For(x, start, cmp, bound, body) =>
      if Unrolled(start, cmp, bound) { LoopDescribes(inputs, y, fs, x, body, start, LoopEnd(cmp, bound)); }
  }

  lemma {:induction false} AllDescribes(inputs: string -> nat, y: Sym, fs: Flat, body: seq<Stmt>)
    requires Describes(inputs, y, fs)
    ensures Describes(inputs, WalkAll(y, body), FlatAll(inputs, fs, body))
    decreases body, 0
  {
    if body != [] {
      WalkDescribes(inputs, y, fs, body[0]);
      AllDescribes(inputs, Walk(y, body[0]), FlatRun(inputs, fs, body[0]), body[1..]);
    }
  }

  lemma {:induction false} TurnDescribes(inputs: string -> nat, y: Sym, fs: Flat, x: string, body: seq<Stmt>, i: nat)
    requires Describes(inputs, y, fs)
    ensures Describes(inputs, Walked(OneWalk(body), y, x, i), FlatTurn(OneFlat(inputs, body), fs, x, i))
    decreases body, 1
  {
    var y1, fs1 := SetLocal(y, x, VConst(i, W32)), SetCell(fs, x, Cell(i, true));
    SetDescribes(inputs, y, fs, x, VConst(i, W32), Cell(i, true));
    AllDescribes(inputs, y1, fs1, body);
    assert Walked(OneWalk(body), y, x, i) == WalkAll(y1, body);
    assert FlatTurn(OneFlat(inputs, body), fs, x, i) == FlatAll(inputs, fs1, body);
  }

  lemma {:induction false} LoopDescribes(inputs: string -> nat, y: Sym, fs: Flat, x: string, body: seq<Stmt>,
                                         i: nat, end: nat)
    requires Describes(inputs, y, fs)
    ensures Describes(inputs, Unroll(OneWalk(body), y, x, i, end), FlatLoop(OneFlat(inputs, body), fs, x, i, end))
    decreases body, 2, if i < end then end - i else 0
  {
    if i < end {
      TurnDescribes(inputs, y, fs, x, body, i);
      var y1, fs1 := Walked(OneWalk(body), y, x, i), FlatTurn(OneFlat(inputs, body), fs, x, i);
      LoopDescribes(inputs, y1, fs1, x, body, i + 1, end);
    }
  }

  /** The tree of any body computes the body's value on the machine. */
  lemma {:induction false} BodyComputes(inputs: string -> nat, y: Sym, fs: Flat, b: Body)
    requires Describes(inputs, y, fs)
    ensures Describes(inputs, ConvBody(y, b).0, FlatBody(inputs, fs, b).0)
    ensures Computes(inputs, ConvBody(y, b).1, FlatBody(inputs, fs, b).1)
    decreases b
  {
    AllDescribes(inputs, y, fs, b.stmts);
    var y1, fs1 := WalkAll(y, b.stmts), FlatAll(inputs, fs, b.stmts);
    match b.tail
    case Return(e) => ExprComputes(inputs, y1, fs1, e);
    case IfElse(c, t, f) =>
      ExprComputes(inputs, y1, fs1, c);
      BodyComputes(inputs, y1, fs1, t);
      BodyComputes(inputs, ConvBody(y1, t).0, FlatBody(inputs, fs1, t).0, f);
  }

  /** For every function and all inputs, with no side condition: the converted tree computes
      what the flat machine does. */
  lemma TreeComputesFlatRun(inputs: string -> nat, params: set<string>, b: Body)
    ensures VEval(inputs, ConvBody(Sym(params, map[], map[]), b).1) ==
      Wrap(FlatBody(inputs, FlatInit(inputs, params), b).1.value)
  {
    var y, fs := Sym(params, map[], map[]), FlatInit(inputs, params);
    assert fs.cells.Keys == y.locals.Keys + y.params && fs.arrays.Keys == y.arrays.Keys;
    BodyComputes(inputs, y, fs, b);
  }

  // ---------- what a statement leaves in a cell ----------

  /** The machines have the same at `x`. */
  predicate SameCell(fs: Flat, fs': Flat, x: string) {
    && (x in fs.cells <==> x in fs'.cells) && (x in fs.cells ==> fs'.cells[x] == fs.cells[x])
    && (x in fs.arrays <==> x in fs'.arrays) && (x in fs.arrays ==> fs'.arrays[x] == fs.arrays[x])
  }
}
