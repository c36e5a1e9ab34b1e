/**
 The emitted round as one list of threshold gates: every cell of every block taken apart,
 ports replaced by the nets they are connected to.  In every settled state its nets carry
 what the netlist computes.
 */
module GenRoundGates {
  import opened NclCells
  import opened NclAsync
  import opened GenRound
  import opened GenRoundTheorem
  import opened GenRoundRails

  // ---------- cells as gates ----------

  /** The two rails of a signal. */
  datatype Dual = Dual(h: Node, l: Node)

  /** `ncl_xor2`: the four 2-of-2 gates numbered from `k`, then the two or gates. */
  function Xor2Gates(a: Dual, b: Dual, y: Dual, line: nat, inst: nat, k: nat): seq<Gate> {
    var p1, p2 := Inner(line, inst, k), Inner(line, inst, k + 1);
    var p3, p4 := Inner(line, inst, k + 2), Inner(line, inst, k + 3);
    [Gate(And2, [a.h, b.l], p1), Gate(And2, [a.l, b.h], p2), Gate(And2, [a.h, b.h], p3), Gate(And2, [a.l, b.l], p4),
     Gate(Or2, [p1, p2], y.h), Gate(Or2, [p3, p4], y.l)]
  }

  function CellGates(cell: Cell, a: Dual, b: Dual, c: Dual, outs: seq<Dual>, line: nat, inst: nat): seq<Gate>
    requires |outs| == OutCount(cell)
  {
    match cell
    case Xor3 =>
      var t := Dual(Inner(line, inst, 4), Inner(line, inst, 5));
      Xor2Gates(a, b, t, line, inst, 0) + Xor2Gates(t, c, outs[0], line, inst, 6)
    case Choose =>
      var c1, c2, c3, c4 := Inner(line, inst, 0), Inner(line, inst, 1), Inner(line, inst, 2), Inner(line, inst, 3);
      [Gate(And2, [a.h, b.h], c1), Gate(And2, [a.l, c.h], c2), Gate(And2, [a.h, b.l], c3), Gate(And2, [a.l, c.l], c4),
       Gate(Or2, [c1, c2], outs[0].h), Gate(Or2, [c3, c4], outs[0].l)]
    case Maj3 => [Gate(Two3, [a.h, b.h, c.h], outs[0].h), Gate(Two3, [a.l, b.l, c.l], outs[0].l)]
    case FullAdder =>
      [Gate(Two3, [a.h, b.h, c.h], outs[1].h), Gate(Two3, [a.l, b.l, c.l], outs[1].l),
       Gate(Weighted, [outs[1].l, a.h, b.h, c.h], outs[0].h), Gate(Weighted, [outs[1].h, a.l, b.l, c.l], outs[0].l)]
  }

  /** A signal carries a value. */
  predicate Has(up: set<Node>, d: Dual, v: bool) {
    (d.h in up <==> v) && (d.l in up <==> !v)
  }

  lemma StableParts(a: seq<Gate>, b: seq<Gate>, up: set<Node>)
    requires Stable(a + b, up)
    ensures Stable(a, up) && Stable(b, up)
  {
    assert forall i :: 0 <= i < |a| ==> (a + b)[i] == a[i];
    assert forall i :: 0 <= i < |b| ==> (a + b)[|a| + i] == b[i];
  }

  lemma Xor2Has(a: Dual, b: Dual, y: Dual, line: nat, inst: nat, k: nat, up: set<Node>, va: bool, vb: bool)
    requires Stable(Xor2Gates(a, b, y, line, inst, k), up) && Has(up, a, va) && Has(up, b, vb)
    ensures Has(up, y, va != vb)
  {
    var g := Xor2Gates(a, b, y, line, inst, k);
    assert (g[0].out in up <==> Sets(up, g[0])) && (g[1].out in up <==> Sets(up, g[1]));
    assert (g[2].out in up <==> Sets(up, g[2])) && (g[3].out in up <==> Sets(up, g[3]));
    assert (g[4].out in up <==> Sets(up, g[4])) && (g[5].out in up <==> Sets(up, g[5]));
  }

  lemma ChooseHas(a: Dual, b: Dual, c: Dual, outs: seq<Dual>, line: nat, inst: nat, up: set<Node>,
                  va: bool, vb: bool, vc: bool)
    requires |outs| == 1 && Stable(CellGates(Choose, a, b, c, outs, line, inst), up)
    requires Has(up, a, va) && Has(up, b, vb) && Has(up, c, vc)
    ensures Has(up, outs[0], if va then vb else vc)
  {
    var g := CellGates(Choose, a, b, c, outs, line, inst);
    assert (g[0].out in up <==> Sets(up, g[0])) && (g[1].out in up <==> Sets(up, g[1]));
    assert (g[2].out in up <==> Sets(up, g[2])) && (g[3].out in up <==> Sets(up, g[3]));
    assert (g[4].out in up <==> Sets(up, g[4])) && (g[5].out in up <==> Sets(up, g[5]));
  }

  lemma AdderHas(a: Dual, b: Dual, c: Dual, outs: seq<Dual>, line: nat, inst: nat, up: set<Node>,
                 va: bool, vb: bool, vc: bool)
    requires |outs| == 2 && Stable(CellGates(FullAdder, a, b, c, outs, line, inst), up)
    requires Has(up, a, va) && Has(up, b, vb) && Has(up, c, vc)
    ensures Has(up, outs[0], (va != vb) != vc) && Has(up, outs[1], (va && vb) || (va && vc) || (vb && vc))
  {
    var g := CellGates(FullAdder, a, b, c, outs, line, inst);
    assert (g[0].out in up <==> Sets(up, g[0])) && (g[1].out in up <==> Sets(up, g[1]));
    assert (g[2].out in up <==> Sets(up, g[2])) && (g[3].out in up <==> Sets(up, g[3]));
  }

  /** In a settled state a cell's outputs carry its function of its inputs. */
  lemma CellHas(cell: Cell, a: Dual, b: Dual, c: Dual, outs: seq<Dual>, line: nat, inst: nat, up: set<Node>,
                va: bool, vb: bool, vc: bool)
    requires |outs| == OutCount(cell) && Stable(CellGates(cell, a, b, c, outs, line, inst), up)
    requires Has(up, a, va) && Has(up, b, vb) && Has(up, c, vc)
    ensures forall i :: 0 <= i < |outs| ==> Has(up, outs[i], Logic(cell, [va, vb, vc])[i])
  {
    match cell
    case Xor3 =>
      var t := Dual(Inner(line, inst, 4), Inner(line, inst, 5));
      StableParts(Xor2Gates(a, b, t, line, inst, 0), Xor2Gates(t, c, outs[0], line, inst, 6), up);
      Xor2Has(a, b, t, line, inst, 0, up, va, vb);
      Xor2Has(t, c, outs[0], line, inst, 6, up, va != vb, vc);
    case Choose => ChooseHas(a, b, c, outs, line, inst, up, va, vb, vc);
    case Maj3 =>
      var g := CellGates(cell, a, b, c, outs, line, inst);
      assert (g[0].out in up <==> Sets(up, g[0])) && (g[1].out in up <==> Sets(up, g[1]));
    case FullAdder => AdderHas(a, b, c, outs, line, inst, up, va, vb, vc);
  }

  // ---------- lines ----------

  /** The net that a port is connected to. */
  function NetOf(ins: seq<(Bus, Bus)>, b: Bus): seq<Bus> {
    if ins == [] then [] else if ins[0].0 == b then [ins[0].1] else NetOf(ins[1..], b)
  }

  /** The node of a pin of a line: a port's is the net's, other pins are the line's own. */
  function NodeOf(x: Wiring, line: nat, p: Pin, h: bool): Node {
    if p.bus == CarryIn then Node.Wire(0, p, h)
    else if p.bus == x.outBus then Node.Wire(0, Pin(x.outNet, p.i), h)
    else
      var net := NetOf(x.ins, p.bus);
      if net != [] then Node.Wire(0, Pin(net[0], p.i), h) else Node.Wire(line, p, h)
  }

  function DualOf(x: Wiring, line: nat, p: Pin): Dual {
    Dual(NodeOf(x, line, p, true), NodeOf(x, line, p, false))
  }

  function InstGates(x: Wiring, line: nat, n: nat, i: Inst): seq<Gate>
    requires ValidInst(i)
  {
    CellGates(i.cell, DualOf(x, line, i.ins[0]), DualOf(x, line, i.ins[1]), DualOf(x, line, i.ins[2]),
              seq(|i.outs|, j requires 0 <= j < |i.outs| => DualOf(x, line, i.outs[j])), line, n)
  }

  /** The gates of a list of instances, numbered from `n`. */
  function ListGates(x: Wiring, line: nat, n: nat, insts: seq<Inst>): seq<Gate>
    decreases |insts|
  {
    if insts == [] then []
    else
      (if ValidInst(insts[0]) then InstGates(x, line, n, insts[0]) else []) + ListGates(x, line, n + 1, insts[1..])
  }

  /** The gates of instances `n` and up of a line. */
  function LineGates(x: Wiring, w: nat, line: nat, n: nat): seq<Gate>
    requires w > 0 && n <= w
  {
    ListGates(x, line, n, Emitted(x.block, w, n))
  }

  /** Every pin's node carries its value. */
  ghost predicate PinsHave(up: set<Node>, x: Wiring, line: nat, env: map<Pin, bool>) {
    forall p :: p in env ==> Has(up, DualOf(x, line, p), env[p])
  }

  lemma InstHas(x: Wiring, line: nat, n: nat, i: Inst, up: set<Node>, env: map<Pin, bool>)
    requires ValidInst(i) && Stable(InstGates(x, line, n, i), up) && PinsHave(up, x, line, env)
    requires forall j :: 0 <= j < 3 ==> i.ins[j] in env
    ensures var vals := Logic(i.cell, [Get(env, i.ins[0]), Get(env, i.ins[1]), Get(env, i.ins[2])]);
      PinsHave(up, x, line, Drive(env, i.outs, vals))
  {
    var va, vb, vc := Get(env, i.ins[0]), Get(env, i.ins[1]), Get(env, i.ins[2]);
    var outs := seq(|i.outs|, j requires 0 <= j < |i.outs| => DualOf(x, line, i.outs[j]));
    CellHas(i.cell, DualOf(x, line, i.ins[0]), DualOf(x, line, i.ins[1]), DualOf(x, line, i.ins[2]), outs, line, n, up,
            va, vb, vc);
    var vals := Logic(i.cell, [va, vb, vc]);
    DriveKeys(env, i.outs, vals);
    DriveAt(env, i.outs, vals);
    forall p | p in Drive(env, i.outs, vals)
      ensures Has(up, DualOf(x, line, p), Drive(env, i.outs, vals)[p])
    {
      if p in i.outs {
        var j :| 0 <= j < |i.outs| && i.outs[j] == p;
        assert Has(up, outs[j], vals[j]);
      }
    }
  }

  /** In a settled state the pins of a list carry what its instances compute. */
  lemma {:induction false} ListHas(x: Wiring, line: nat, n: nat, insts: seq<Inst>, up: set<Node>, env: map<Pin, bool>)
    requires Ordered(insts, env.Keys) && Stable(ListGates(x, line, n, insts), up) && PinsHave(up, x, line, env)
    ensures PinsHave(up, x, line, Run(insts, env))
    decreases |insts|
  {
    if insts != [] {
      var i := insts[0];
      var vals := Logic(i.cell, [Get(env, i.ins[0]), Get(env, i.ins[1]), Get(env, i.ins[2])]);
      StableParts(InstGates(x, line, n, i), ListGates(x, line, n + 1, insts[1..]), up);
      InstHas(x, line, n, i, up, env);
      DriveKeys(env, i.outs, vals);
      assert Drive(env, i.outs, vals).Keys == env.Keys + Outs(i);
      ListHas(x, line, n + 1, insts[1..], up, Drive(env, i.outs, vals));
    }
  }

  // ---------- nets ----------

  function NetDual(net: Bus, i: nat): Dual {
    Dual(Node.Wire(0, Pin(net, i), true), Node.Wire(0, Pin(net, i), false))
  }

  /** Every bit of every net, and the carry-in, carries its value. */
  ghost predicate NetsHave(up: set<Node>, v: map<Bus, seq<bool>>, cin: bool) {
    && Has(up, NetDual(CarryIn, 0), cin)
    && forall net, i :: net in v && 0 <= i < |v[net]| ==> Has(up, NetDual(net, i), v[net][i])
  }

  predicate DistinctPorts(ins: seq<(Bus, Bus)>) {
    && (forall i, j :: 0 <= i < j < |ins| ==> ins[i].0 != ins[j].0)
    && (forall i :: 0 <= i < |ins| ==> ins[i].0 != CarryIn)
  }

  /** A pin of a port is a bit of the net it is connected to. */
  lemma {:induction false} PortBit(ins: seq<(Bus, Bus)>, v: map<Bus, seq<bool>>, cin: bool, p: Pin)
    requires DistinctPorts(ins) && p in PortPins(ins, v, cin)
    ensures p.bus == CarryIn ==> p.i == 0 && PortPins(ins, v, cin)[p] == cin
    ensures p.bus != CarryIn ==> var net := NetOf(ins, p.bus);
      net != [] && net[0] in v && p.i < |v[net[0]]| && PortPins(ins, v, cin)[p] == v[net[0]][p.i]
  {
    if ins != [] && p !in BusPins(ins[0].0, GenRound.Wire(v, ins[0].1)) {
      PortBit(ins[1..], v, cin, p);
      if p.bus == ins[0].0 { OtherPort(ins[1..], v, cin, p); }
    }
  }

  lemma PortsHave(x: Wiring, line: nat, up: set<Node>, v: map<Bus, seq<bool>>, cin: bool)
    requires DistinctPorts(x.ins) && NetsHave(up, v, cin) && NetOf(x.ins, x.outBus) == [] && x.outBus != CarryIn
    ensures PinsHave(up, x, line, PortPins(x.ins, v, cin))
  {
    forall p | p in PortPins(x.ins, v, cin)
      ensures Has(up, DualOf(x, line, p), PortPins(x.ins, v, cin)[p])
    {
      PortBit(x.ins, v, cin, p);
      if p.bus != CarryIn { assert Has(up, NetDual(NetOf(x.ins, p.bus)[0], p.i), PortPins(x.ins, v, cin)[p]); }
    }
  }

  ghost predicate WellWired(x: Wiring) {
    && DistinctPorts(x.ins) && NetOf(x.ins, x.outBus) == [] && x.outBus == OutBus(x.block)
  }

  /** In a settled state a line's output net carries what the line computes. */
  lemma LineNet(x: Wiring, w: nat, line: nat, up: set<Node>, v: map<Bus, seq<bool>>, cin: bool)
    requires w > 0 && WellWired(x) && Fed(x, w, v) && NetsHave(up, v, cin)
    requires Stable(LineGates(x, w, line, 0), up)
    ensures NetsHave(up, EvalLine(x, w, v, cin), cin)
  {
    PortsHave(x, line, up, v, cin);
    FedOrdered(x, w, v, cin);
    ListHas(x, line, 0, Emitted(x.block, w, 0), up, PortPins(x.ins, v, cin));
    OutputHas(x, w, line, up, PortPins(x.ins, v, cin));
    NetAdded(up, v, cin, x.outNet, EvalLine(x, w, v, cin)[x.outNet]);
  }

  lemma FedOrdered(x: Wiring, w: nat, v: map<Bus, seq<bool>>, cin: bool)
    requires w > 0 && Fed(x, w, v)
    ensures Ordered(Emitted(x.block, w, 0), PortPins(x.ins, v, cin).Keys)
  {
    FedPorts(x, w, v, cin);
    BlockOrdered(x.block, w, PortPins(x.ins, v, cin).Keys);
  }

  lemma NetAdded(up: set<Node>, v: map<Bus, seq<bool>>, cin: bool, net: Bus, bits: seq<bool>)
    requires NetsHave(up, v, cin) && forall i :: 0 <= i < |bits| ==> Has(up, NetDual(net, i), bits[i])
    ensures NetsHave(up, v[net := bits], cin)
  {
  }

  lemma OutputHas(x: Wiring, w: nat, line: nat, up: set<Node>, env: map<Pin, bool>)
    requires w > 0 && x.outBus == OutBus(x.block) && PinsHave(up, x, line, Run(Emitted(x.block, w, 0), env))
    ensures var bits := ReadBus(Run(Emitted(x.block, w, 0), env), x.outBus, w);
      forall i :: 0 <= i < w ==> Has(up, NetDual(x.outNet, i), bits[i])
  {
    forall i | 0 <= i < w
      ensures Has(up, NetDual(x.outNet, i), ReadBus(Run(Emitted(x.block, w, 0), env), x.outBus, w)[i])
    {
      OutDriven(x.block, w, env, i);
      assert DualOf(x, line, Pin(x.outBus, i)) == NetDual(x.outNet, i);
    }
  }

  // ---------- the round ----------

  /** What every line of the round looks like: its ports in order, its block's output bus, and
      nets that are driven before the one it drives. */
  ghost predicate Shape(x: Wiring, line: nat) {
    && DistinctPorts(x.ins) && x.outBus == OutBus(x.block) && Rank(x.outNet) == line && x.outNet != CarryIn
    && forall i :: 0 <= i < |x.ins| ==> PortShape(x.ins[i], x.outBus, line)
  }

  predicate PortShape(port: (Bus, Bus), outBus: Bus, line: nat) {
    && port.0 != Carry && port.0 != CarryOut && port.0 != outBus
    && port.1 != CarryIn && Rank(port.1) < line
  }

  lemma SigmaShape(w: nat, k: nat)
    requires k < 2
    ensures Shape(RoundLines(w)[k], k + 1)
  {
    if k == 0 {
      OnePort(RotSched(w), NetA, NetS0);
    } else {
      OnePort(Reversed(RotSched(w)), NetE, NetS1);
    }
  }

  lemma OnePort(rot: (nat, nat, nat), from: Bus, to: Bus)
    requires from != CarryIn && to != CarryIn && Rank(from) < Rank(to)
    ensures Shape(Wiring(SigmaBlock(rot), [(NetX, from)], NetY, to), Rank(to))
  {
  }

  lemma SelectedShape(w: nat, k: nat)
    requires 2 <= k < 4
    ensures Shape(RoundLines(w)[k], k + 1)
  {
    SelectShape(w);
    ChShape();
    MajShape();
  }

  lemma ChShape()
    ensures Shape(Wiring(ChBlock, [(NetE, NetE), (NetF, NetF), (NetG, NetG)], NetY, NetCh), 3)
  {
  }

  lemma MajShape()
    ensures Shape(Wiring(MajBlock, [(NetA, NetA), (NetB, NetB), (NetC, NetC)], NetY, NetMj), 4)
  {
  }

  lemma AdderShape(w: nat, k: nat)
    requires 4 <= k < 9
    ensures Shape(RoundLines(w)[k], k + 1)
  {
    AddShape(w, k);
    var (a, b, out) := AddNets(k);
    assert a != CarryIn && b != CarryIn && out != CarryIn;
  }

  lemma LineShape(w: nat, k: nat)
    requires k < 9
    ensures Shape(RoundLines(w)[k], k + 1)
  {
    if k < 2 {
      SigmaShape(w, k);
    } else if k < 4 {
      SelectedShape(w, k);
    } else {
      AdderShape(w, k);
    }
  }

  lemma Wired(w: nat, k: nat)
    requires k < 9
    ensures WellWired(RoundLines(w)[k])
  {
    LineShape(w, k);
    NotAPort(RoundLines(w)[k].ins, RoundLines(w)[k].outBus);
  }

  lemma {:induction false} NotAPort(ins: seq<(Bus, Bus)>, b: Bus)
    requires forall i :: 0 <= i < |ins| ==> ins[i].0 != b
    ensures NetOf(ins, b) == []
  {
    if ins != [] { NotAPort(ins[1..], b); }
  }

  /** The gates of a list of lines, numbered from `line`. */
  function GatesOf(lines: seq<Wiring>, w: nat, line: nat): seq<Gate>
    requires w > 0
    decreases |lines|
  {
    if lines == [] then [] else LineGates(lines[0], w, line, 0) + GatesOf(lines[1..], w, line + 1)
  }

  function RoundGates(w: nat): seq<Gate>
    requires w > 0
  {
    GatesOf(RoundLines(w), w, 1)
  }

  /** In every settled state of the round's gates, the nets carry what the netlist computes. */
  lemma {:induction false} RoundHas(t: Terms, w: nat, k: nat, up: set<Node>, v: map<Bus, seq<bool>>)
    requires w > 0 && TermsFit(t, w) && k <= 9 && CorrectTo(t, w, k, v) && NetsHave(up, v, false)
    requires Stable(GatesOf(RoundLines(w)[k..], w, k + 1), up)
    ensures NetsHave(up, EvalLines(RoundLines(w)[k..], w, v, false), false)
    decreases 9 - k
  {
    if k < 9 {
      var line, lines := RoundLines(w)[k], RoundLines(w)[k..];
      assert lines[0] == line && lines[1..] == RoundLines(w)[k + 1..];
      StableParts(LineGates(line, w, k + 1, 0), GatesOf(lines[1..], w, k + 2), up);
      LineFed(t, w, k, v);
      Wired(w, k);
      LineNet(line, w, k + 1, up, v, false);
      LineCorrect(t, w, k, v);
      RoundHas(t, w, k + 1, up, EvalLine(line, w, v, false));
    }
  }
}
