/**
 Null-convention-logic cells: threshold gates with hysteresis, the dual-rail cells built
 from them, and lists of cell instances.

 A signal is a pair of rails: exactly one is up while it carries data, both are down
 while it is null.  A threshold gate goes up when its threshold is met, goes down only
 when all its inputs are down, and otherwise keeps its output.
 */
module NclCells {

  datatype Rail = Rail(h: bool, l: bool)

  const NULL := Rail(false, false)

  function Data(b: bool): Rail {
    Rail(b, !b)
  }

  // ---------- threshold gates ----------

  function Th12(a: bool, b: bool): bool {
    a || b
  }

  /** Common to the gates with hysteresis: set, reset, or keep. */
  function Keeper(set_: bool, anyUp: bool, prev: bool): bool {
    if set_ then true else if !anyUp then false else prev
  }

  function Th22(a: bool, b: bool, prev: bool): bool {
    Keeper(a && b, a || b, prev)
  }

  function Th23(a: bool, b: bool, c: bool, prev: bool): bool {
    Keeper((a && b) || (a && c) || (b && c), a || b || c, prev)
  }

  /** The first input counts twice; the threshold is three. */
  function Th34w2(a: bool, b: bool, c: bool, d: bool, prev: bool): bool {
    Keeper((a && b) || (a && c) || (a && d) || (b && c && d), a || b || c || d, prev)
  }

  // ---------- cells ----------

  datatype Cell = Xor3 | Choose | Maj3 | FullAdder

  /** The outputs of a cell's gates, in the order in which its netlist lists them; a gate
      without hysteresis needs none. */
  type Gates = seq<bool>

  function GateCount(cell: Cell): nat {
    match cell
    case Xor3 => 8
    case Choose => 4
    case Maj3 => 2
    case FullAdder => 4
  }

  function Reset(cell: Cell): (g: Gates)
    ensures |g| == GateCount(cell)
  {
    seq(GateCount(cell), _ => false)
  }

  /** Two-input exclusive or: four 2-of-2 gates and two or gates. */
  function Xor2(a: Rail, b: Rail, g: Gates): (Rail, Gates)
    requires |g| == 4
  {
    var p1, p2 := Th22(a.h, b.l, g[0]), Th22(a.l, b.h, g[1]);
    var p3, p4 := Th22(a.h, b.h, g[2]), Th22(a.l, b.l, g[3]);
    (Rail(Th12(p1, p2), Th12(p3, p4)), [p1, p2, p3, p4])
  }

  /** One settling of a cell: new outputs and new gate states. */
  function Settle(cell: Cell, v: seq<Rail>, g: Gates): (r: (seq<Rail>, Gates))
    requires |v| == 3 && |g| == GateCount(cell)
    ensures |r.0| == OutCount(cell) && |r.1| == GateCount(cell)
  {
    var a, b, c := v[0], v[1], v[2];
    match cell
    case Xor3 =>
      var (t, g1) := Xor2(a, b, g[..4]);
      var (y, g2) := Xor2(t, c, g[4..]);
      ([y], g1 + g2)
    case Choose =>
      var c1, c2 := Th22(a.h, b.h, g[0]), Th22(a.l, c.h, g[1]);
      var c3, c4 := Th22(a.h, b.l, g[2]), Th22(a.l, c.l, g[3]);
      ([Rail(Th12(c1, c2), Th12(c3, c4))], [c1, c2, c3, c4])
    case Maj3 =>
      var mh, ml := Th23(a.h, b.h, c.h, g[0]), Th23(a.l, b.l, c.l, g[1]);
      ([Rail(mh, ml)], [mh, ml])
    case FullAdder =>
      var coh, col := Th23(a.h, b.h, c.h, g[0]), Th23(a.l, b.l, c.l, g[1]);
      var sh, sl := Th34w2(col, a.h, b.h, c.h, g[2]), Th34w2(coh, a.l, b.l, c.l, g[3]);
      ([Rail(sh, sl), Rail(coh, col)], [coh, col, sh, sl])
  }

  function OutCount(cell: Cell): nat {
    if cell.FullAdder? then 2 else 1
  }

  /** What the cell computes on data. */
  function Logic(cell: Cell, v: seq<bool>): (r: seq<bool>)
    requires |v| == 3
    ensures |r| == OutCount(cell)
  {
    var a, b, c := v[0], v[1], v[2];
    match cell
    case Xor3 => [(a != b) != c]
    case Choose => [if a then b else c]
    case Maj3 => [(a && b) || (a && c) || (b && c)]
    case FullAdder => [(a != b) != c, (a && b) || (a && c) || (b && c)]
  }

  function Datas(v: seq<bool>): (r: seq<Rail>)
    ensures |r| == |v|
  {
    seq(|v|, i requires 0 <= i < |v| => Data(v[i]))
  }

  /** Data after null: the outputs carry the cell's function of the inputs. */
  lemma DataPhase(cell: Cell, v: seq<bool>)
    requires |v| == 3
    ensures Settle(cell, Datas(v), Reset(cell)).0 == Datas(Logic(cell, v))
  {
    var r := Settle(cell, Datas(v), Reset(cell)).0;
    if cell.Xor3? {
      assert Reset(cell)[..4] == [false, false, false, false] && Reset(cell)[4..] == [false, false, false, false];
      assert Xor2(Data(v[0]), Data(v[1]), [false, false, false, false]).0 == Data(v[0] != v[1]);
      assert Xor2(Data(v[0] != v[1]), Data(v[2]), [false, false, false, false]).0 == Data((v[0] != v[1]) != v[2]);
    }
    assert forall i :: 0 <= i < |r| ==> r[i] == Data(Logic(cell, v)[i]);
  }

  /** Null in, null out, and every gate is reset, whatever state the cell was in. */
  lemma NullPhase(cell: Cell, g: Gates)
    requires |g| == GateCount(cell)
    ensures Settle(cell, [NULL, NULL, NULL], g).1 == Reset(cell)
    ensures forall i :: 0 <= i < OutCount(cell) ==> Settle(cell, [NULL, NULL, NULL], g).0[i] == NULL
  {
    var r := Settle(cell, [NULL, NULL, NULL], g).1;
    if cell.Xor3? {
      assert Xor2(NULL, NULL, g[..4]) == (NULL, [false, false, false, false]);
      assert Xor2(NULL, NULL, g[4..]) == (NULL, [false, false, false, false]);
    }
    assert forall i :: 0 <= i < |r| ==> !r[i];
  }

  // ---------- instance lists ----------

  /** The bus names of the emitted netlist: the blocks' formal ports and internal carries,
      and the nets of the top level. */
  datatype Bus =
    | NetA | NetB | NetC | NetD | NetE | NetF | NetG | NetH
    | NetX | NetY | NetS | CarryIn | CarryOut | Carry
    | NetS0 | NetS1 | NetCh | NetMj | NetT1a | NetT1 | NetT2 | NetAn | NetEn

  /** One bit of a bus. */
  datatype Pin = Pin(bus: Bus, i: nat)

  datatype Inst = Inst(cell: Cell, ins: seq<Pin>, outs: seq<Pin>)

  predicate ValidInst(x: Inst) {
    |x.ins| == 3 && |x.outs| == OutCount(x.cell) && (|x.outs| == 2 ==> x.outs[0] != x.outs[1])
  }

  /** Every instance reads only pins that are driven before it, and drives new ones. */
  predicate Ordered(insts: seq<Inst>, driven: set<Pin>) {
    insts == [] ||
    (&& ValidInst(insts[0])
     && (forall i :: 0 <= i < |insts[0].ins| ==> insts[0].ins[i] in driven)
     && (forall i :: 0 <= i < |insts[0].outs| ==> insts[0].outs[i] !in driven)
     && Ordered(insts[1..], driven + Outs(insts[0])))
  }

  function Outs(x: Inst): set<Pin> {
    set p | p in x.outs
  }

  function Get(env: map<Pin, bool>, p: Pin): bool {
    if p in env then env[p] else false
  }

  function Drive<T>(env: map<Pin, T>, outs: seq<Pin>, vals: seq<T>): map<Pin, T>
    requires |outs| == |vals|
    decreases |outs|
  {
    if outs == [] then env else Drive(env[outs[0] := vals[0]], outs[1..], vals[1..])
  }

  /** The values on the pins once every instance has passed data on. */
  function Run(insts: seq<Inst>, env: map<Pin, bool>): map<Pin, bool>
    decreases |insts|
  {
    if insts == [] then env
    else
      var x := insts[0];
      if ValidInst(x)
      then
        var vals := Logic(x.cell, [Get(env, x.ins[0]), Get(env, x.ins[1]), Get(env, x.ins[2])]);
        Run(insts[1..], Drive(env, x.outs, vals))
      else Run(insts[1..], env)
  }

  /** Every instance's outputs are driven in the end. */
  lemma {:induction false} RunDrives(insts: seq<Inst>, env: map<Pin, bool>)
    requires forall n :: 0 <= n < |insts| ==> ValidInst(insts[n])
    ensures env.Keys <= Run(insts, env).Keys
    ensures forall n, m :: 0 <= n < |insts| && 0 <= m < |insts[n].outs| ==> insts[n].outs[m] in Run(insts, env)
    decreases |insts|
  {
    if insts != [] {
      var x := insts[0];
      var out := Logic(x.cell, [Get(env, x.ins[0]), Get(env, x.ins[1]), Get(env, x.ins[2])]);
      DriveKeys(env, x.outs, out);
      RunDrives(insts[1..], Drive(env, x.outs, out));
      forall n, m | 0 <= n < |insts| && 0 <= m < |insts[n].outs|
        ensures insts[n].outs[m] in Run(insts, env)
      {
        if n > 0 { assert insts[n] == insts[1..][n - 1]; }
      }
    }
  }

  function GetRail(env: map<Pin, Rail>, p: Pin): Rail {
    if p in env then env[p] else NULL
  }

  predicate StatesFit(insts: seq<Inst>, gates: seq<Gates>) {
    |gates| == |insts| && forall i :: 0 <= i < |insts| ==> |gates[i]| == GateCount(insts[i].cell)
  }

  /** The rails, and every cell's gates, once the list has settled on its inputs. */
  function RunRails(insts: seq<Inst>, env: map<Pin, Rail>, gates: seq<Gates>): (map<Pin, Rail>, seq<Gates>)
    requires StatesFit(insts, gates)
    decreases |insts|
  {
    if insts == [] then (env, [])
    else
      var x := insts[0];
      if ValidInst(x) then
        var ins := [GetRail(env, x.ins[0]), GetRail(env, x.ins[1]), GetRail(env, x.ins[2])];
        var (vals, g) := Settle(x.cell, ins, gates[0]);
        var (env', rest) := RunRails(insts[1..], Drive(env, x.outs, vals), gates[1..]);
        (env', [g] + rest)
      else
        var (env', rest) := RunRails(insts[1..], env, gates[1..]);
        (env', [gates[0]] + rest)
  }

  lemma {:induction false} DriveKeys<T>(env: map<Pin, T>, outs: seq<Pin>, vals: seq<T>)
    requires |outs| == |vals|
    ensures Drive(env, outs, vals).Keys == env.Keys + (set p | p in outs)
    ensures forall p :: p in env && p !in outs ==> Drive(env, outs, vals)[p] == env[p]
    decreases |outs|
  {
    if outs != [] {
      DriveKeys(env[outs[0] := vals[0]], outs[1..], vals[1..]);
    }
  }

  lemma DriveAt<T>(env: map<Pin, T>, outs: seq<Pin>, vals: seq<T>)
    requires 1 <= |outs| == |vals| <= 2 && (|outs| == 2 ==> outs[0] != outs[1])
    ensures forall i :: 0 <= i < |outs| ==>
      outs[i] in Drive(env, outs, vals) && Drive(env, outs, vals)[outs[i]] == vals[i]
  {
    if |outs| == 1 {
      assert Drive(env, outs, vals) == env[outs[0] := vals[0]];
    } else {
      var env1 := env[outs[0] := vals[0]];
      assert outs[1..] == [outs[1]] && vals[1..] == [vals[1]];
      assert Drive(env1, [outs[1]], [vals[1]]) == env1[outs[1] := vals[1]];
    }
  }

  /** Every pin carries data, and it is the value that `env` gives it. */
  ghost predicate Carries(rails: map<Pin, Rail>, env: map<Pin, bool>) {
    rails.Keys == env.Keys && forall p :: p in env ==> rails[p] == Data(env[p])
  }

  lemma StepData(x: Inst, env: map<Pin, bool>, rails: map<Pin, Rail>)
    requires ValidInst(x) && Carries(rails, env) && forall i :: 0 <= i < 3 ==> x.ins[i] in env
    ensures var v := [Get(env, x.ins[0]), Get(env, x.ins[1]), Get(env, x.ins[2])];
      var r := [GetRail(rails, x.ins[0]), GetRail(rails, x.ins[1]), GetRail(rails, x.ins[2])];
      Carries(Drive(rails, x.outs, Settle(x.cell, r, Reset(x.cell)).0), Drive(env, x.outs, Logic(x.cell, v)))
  {
    var v := [Get(env, x.ins[0]), Get(env, x.ins[1]), Get(env, x.ins[2])];
    var r := [GetRail(rails, x.ins[0]), GetRail(rails, x.ins[1]), GetRail(rails, x.ins[2])];
    assert r == Datas(v);
    DataPhase(x.cell, v);
    var out, rout := Logic(x.cell, v), Settle(x.cell, r, Reset(x.cell)).0;
    DriveKeys(env, x.outs, out);
    DriveKeys(rails, x.outs, rout);
    DriveAt(env, x.outs, out);
    DriveAt(rails, x.outs, rout);
    forall p | p in Drive(env, x.outs, out)
      ensures Drive(rails, x.outs, rout)[p] == Data(Drive(env, x.outs, out)[p])
    {
      if p in x.outs {
        var i :| 0 <= i < |x.outs| && x.outs[i] == p;
        assert rout[i] == Data(out[i]);
      }
    }
  }

  /** From reset, rails that carry the inputs settle to rails that carry the outputs. */
  lemma {:induction false} DataWave(insts: seq<Inst>, env: map<Pin, bool>, rails: map<Pin, Rail>, gates: seq<Gates>)
    requires Ordered(insts, env.Keys) && Carries(rails, env)
    requires StatesFit(insts, gates) && forall i :: 0 <= i < |insts| ==> gates[i] == Reset(insts[i].cell)
    ensures Carries(RunRails(insts, rails, gates).0, Run(insts, env))
    decreases |insts|
  {
    if insts != [] {
      var x := insts[0];
      StepData(x, env, rails);
      var out := Logic(x.cell, [Get(env, x.ins[0]), Get(env, x.ins[1]), Get(env, x.ins[2])]);
      var r := [GetRail(rails, x.ins[0]), GetRail(rails, x.ins[1]), GetRail(rails, x.ins[2])];
      DriveKeys(env, x.outs, out);
      assert Drive(env, x.outs, out).Keys == env.Keys + Outs(x);
      DataWave(insts[1..], Drive(env, x.outs, out), Drive(rails, x.outs, Settle(x.cell, r, gates[0]).0), gates[1..]);
    }
  }

  ghost predicate AllNull(rails: map<Pin, Rail>) {
    forall p :: p in rails ==> rails[p] == NULL
  }

  lemma StepNull(x: Inst, rails: map<Pin, Rail>, g: Gates)
    requires ValidInst(x) && AllNull(rails) && |g| == GateCount(x.cell)
    ensures var r := [GetRail(rails, x.ins[0]), GetRail(rails, x.ins[1]), GetRail(rails, x.ins[2])];
      AllNull(Drive(rails, x.outs, Settle(x.cell, r, g).0)) && Settle(x.cell, r, g).1 == Reset(x.cell)
  {
    NullPhase(x.cell, g);
    var r := [GetRail(rails, x.ins[0]), GetRail(rails, x.ins[1]), GetRail(rails, x.ins[2])];
    assert r == [NULL, NULL, NULL];
    var rout := Settle(x.cell, r, g).0;
    DriveKeys(rails, x.outs, rout);
    DriveAt(rails, x.outs, rout);
    forall p | p in Drive(rails, x.outs, rout)
      ensures Drive(rails, x.outs, rout)[p] == NULL
    {
      if p in x.outs {
        var i :| 0 <= i < |x.outs| && x.outs[i] == p;
        assert rout[i] == NULL;
      }
    }
  }

  /** A null wave leaves every rail down and every gate reset, from any state, so the next
      data wave starts afresh. */
  lemma {:induction false} NullWave(insts: seq<Inst>, rails: map<Pin, Rail>, gates: seq<Gates>)
    requires AllNull(rails) && StatesFit(insts, gates) && forall i :: 0 <= i < |insts| ==> ValidInst(insts[i])
    ensures AllNull(RunRails(insts, rails, gates).0)
    ensures var g := RunRails(insts, rails, gates).1;
      |g| == |insts| && forall i :: 0 <= i < |insts| ==> g[i] == Reset(insts[i].cell)
    decreases |insts|
  {
    if insts != [] {
      var x := insts[0];
      StepNull(x, rails, gates[0]);
      var r := [GetRail(rails, x.ins[0]), GetRail(rails, x.ins[1]), GetRail(rails, x.ins[2])];
      var (vals, g) := Settle(x.cell, r, gates[0]);
      NullWave(insts[1..], Drive(rails, x.outs, vals), gates[1..]);
    }
  }
}
