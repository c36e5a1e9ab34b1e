/**
 The emitted round at the level of rails and gate states.

 A wave is one settling of every line, in order, from the gate states that the previous
 wave left.  Null waves and data waves alternate.
 */
module GenRoundRails {
  import opened NclCells
  import opened GenRound
  import opened GenRoundTheorem

  function RailWire(rv: map<Bus, seq<Rail>>, net: Bus): seq<Rail> {
    if net in rv then rv[net] else []
  }

  function BusRails(name: Bus, rails: seq<Rail>): map<Pin, Rail> {
    map i | 0 <= i < |rails| :: Pin(name, i) := rails[i]
  }

  function PortRails(ins: seq<(Bus, Bus)>, rv: map<Bus, seq<Rail>>, cin: Rail): map<Pin, Rail> {
    if ins == [] then map[Pin(CarryIn, 0) := cin]
    else PortRails(ins[1..], rv, cin) + BusRails(ins[0].0, RailWire(rv, ins[0].1))
  }

  function ReadRails(env: map<Pin, Rail>, name: Bus, w: nat): (rails: seq<Rail>)
    ensures |rails| == w
  {
    seq(w, i requires 0 <= i => GetRail(env, Pin(name, i)))
  }

  predicate GatesFit(lines: seq<Wiring>, w: nat, gates: seq<seq<Gates>>)
    requires w > 0
  {
    |gates| == |lines| && forall i :: 0 <= i < |lines| ==> StatesFit(Emitted(lines[i].block, w, 0), gates[i])
  }

  /** One line settles: the nets and the line's gates. */
  function SettleLine(x: Wiring, w: nat, rv: map<Bus, seq<Rail>>, cin: Rail, g: seq<Gates>)
    : (map<Bus, seq<Rail>>, seq<Gates>)
    requires w > 0 && StatesFit(Emitted(x.block, w, 0), g)
  {
    var (env, g') := RunRails(Emitted(x.block, w, 0), PortRails(x.ins, rv, cin), g);
    (rv[x.outNet := ReadRails(env, x.outBus, w)], g')
  }

  /** One wave over the top level. */
  function Wave(lines: seq<Wiring>, w: nat, rv: map<Bus, seq<Rail>>, cin: Rail, gates: seq<seq<Gates>>)
    : (map<Bus, seq<Rail>>, seq<seq<Gates>>)
    requires w > 0 && GatesFit(lines, w, gates)
    decreases |lines|
  {
    if lines == [] then (rv, [])
    else
      var (rv1, g) := SettleLine(lines[0], w, rv, cin, gates[0]);
      var (rv', rest) := Wave(lines[1..], w, rv1, cin, gates[1..]);
      (rv', [g] + rest)
  }

  // ---------- null waves ----------

  ghost predicate NullNets(rv: map<Bus, seq<Rail>>) {
    forall net, i :: net in rv && 0 <= i < |rv[net]| ==> rv[net][i] == NULL
  }

  ghost predicate ResetLine(x: Wiring, w: nat, g: seq<Gates>)
    requires w > 0
  {
    |g| == w && forall i :: 0 <= i < w ==> g[i] == Reset(Emitted(x.block, w, 0)[i].cell)
  }

  ghost predicate AllReset(lines: seq<Wiring>, w: nat, gates: seq<seq<Gates>>)
    requires w > 0
  {
    |gates| == |lines| && forall i :: 0 <= i < |lines| ==> ResetLine(lines[i], w, gates[i])
  }

  lemma ResetFits(lines: seq<Wiring>, w: nat, gates: seq<seq<Gates>>)
    requires w > 0 && AllReset(lines, w, gates)
    ensures GatesFit(lines, w, gates)
  {
    forall i | 0 <= i < |lines|
      ensures StatesFit(Emitted(lines[i].block, w, 0), gates[i])
    {
      assert ResetLine(lines[i], w, gates[i]);
    }
  }

  lemma {:induction false} NullPorts(ins: seq<(Bus, Bus)>, rv: map<Bus, seq<Rail>>)
    requires NullNets(rv)
    ensures AllNull(PortRails(ins, rv, NULL))
  {
    if ins != [] { NullPorts(ins[1..], rv); }
  }

  lemma EmittedValid(k: Block, w: nat)
    requires w > 0
    ensures forall n :: 0 <= n < w ==> ValidInst(Emitted(k, w, 0)[n])
  {
    forall n | 0 <= n < w
      ensures ValidInst(Emitted(k, w, 0)[n])
    {
      EmittedAt(k, w, 0, n);
    }
  }

  lemma NullLine(x: Wiring, w: nat, rv: map<Bus, seq<Rail>>, g: seq<Gates>)
    requires w > 0 && StatesFit(Emitted(x.block, w, 0), g) && NullNets(rv)
    ensures var r := SettleLine(x, w, rv, NULL, g);
      NullNets(r.0) && ResetLine(x, w, r.1)
  {
    NullPorts(x.ins, rv);
    EmittedValid(x.block, w);
    NullWave(Emitted(x.block, w, 0), PortRails(x.ins, rv, NULL), g);
  }

  /** A null wave resets every gate of the round, whatever state it was in. */
  lemma {:induction false} NullWaveResets(lines: seq<Wiring>, w: nat, rv: map<Bus, seq<Rail>>, gates: seq<seq<Gates>>)
    requires w > 0 && GatesFit(lines, w, gates) && NullNets(rv)
    ensures var r := Wave(lines, w, rv, NULL, gates);
      NullNets(r.0) && AllReset(lines, w, r.1)
    decreases |lines|
  {
    if lines != [] {
      NullLine(lines[0], w, rv, gates[0]);
      NullWaveResets(lines[1..], w, SettleLine(lines[0], w, rv, NULL, gates[0]).0, gates[1..]);
    }
  }

  // ---------- data waves ----------

  /** Every net carries data, namely the bits that `v` gives it. */
  ghost predicate NetsCarry(rv: map<Bus, seq<Rail>>, v: map<Bus, seq<bool>>) {
    rv.Keys == v.Keys && forall net :: net in v ==> rv[net] == Datas(v[net])
  }

  lemma BusCarriesData(name: Bus, bits: seq<bool>)
    ensures Carries(BusRails(name, Datas(bits)), BusPins(name, bits))
  {
  }

  lemma {:induction false} PortsCarry(ins: seq<(Bus, Bus)>, rv: map<Bus, seq<Rail>>, v: map<Bus, seq<bool>>, cin: bool)
    requires NetsCarry(rv, v)
    ensures Carries(PortRails(ins, rv, Data(cin)), PortPins(ins, v, cin))
  {
    if ins != [] {
      PortsCarry(ins[1..], rv, v, cin);
      BusCarriesData(ins[0].0, Wire(v, ins[0].1));
      assert RailWire(rv, ins[0].1) == Datas(Wire(v, ins[0].1));
    }
  }

  /** Every input port of the line's block is connected to a net of full width. */
  ghost predicate Fed(x: Wiring, w: nat, v: map<Bus, seq<bool>>) {
    && (forall b :: PortOf(x.block, b) ==> exists k :: 0 <= k < |x.ins| && PortFed(x.ins[k], b, w, v))
    && (forall k :: 0 <= k < |x.ins| ==> PortOf(x.block, x.ins[k].0))
  }

  predicate PortFed(port: (Bus, Bus), b: Bus, w: nat, v: map<Bus, seq<bool>>) {
    port.0 == b && port.1 in v && |v[port.1]| == w
  }

  lemma {:induction false} OtherPort(ins: seq<(Bus, Bus)>, v: map<Bus, seq<bool>>, cin: bool, p: Pin)
    requires p.bus != CarryIn && forall k :: 0 <= k < |ins| ==> ins[k].0 != p.bus
    ensures p !in PortPins(ins, v, cin)
  {
    if ins != [] { OtherPort(ins[1..], v, cin, p); }
  }

  lemma FedPin(x: Wiring, w: nat, v: map<Bus, seq<bool>>, cin: bool, p: Pin)
    requires Fed(x, w, v) && PortOf(x.block, p.bus) && p.i < w
    ensures p in PortPins(x.ins, v, cin)
  {
    var k :| 0 <= k < |x.ins| && PortFed(x.ins[k], p.bus, w, v);
    NamedPort(x.ins, v, cin, k, p.i);
  }

  lemma {:induction false} CarryPort(ins: seq<(Bus, Bus)>, v: map<Bus, seq<bool>>, cin: bool)
    ensures Pin(CarryIn, 0) in PortPins(ins, v, cin)
  {
    if ins != [] { CarryPort(ins[1..], v, cin); }
  }

  /** The pins of a connected block's ports: all of its inputs, and nothing else but the
      carry-in. */
  ghost predicate PortSet(k: Block, w: nat, driven: set<Pin>) {
    && Pin(CarryIn, 0) in driven
    && (forall p: Pin :: PortOf(k, p.bus) && p.i < w ==> p in driven)
    && (forall p: Pin :: p in driven ==> p.bus == CarryIn || PortOf(k, p.bus))
  }

  lemma FedPorts(x: Wiring, w: nat, v: map<Bus, seq<bool>>, cin: bool)
    requires Fed(x, w, v)
    ensures PortSet(x.block, w, PortPins(x.ins, v, cin).Keys)
  {
    var env := PortPins(x.ins, v, cin);
    CarryPort(x.ins, v, cin);
    forall p: Pin | PortOf(x.block, p.bus) && p.i < w
      ensures p in env.Keys
    {
      FedPin(x, w, v, cin, p);
    }
    forall p: Pin | p in env.Keys
      ensures p.bus == CarryIn || PortOf(x.block, p.bus)
    {
      if !PortOf(x.block, p.bus) && p.bus != CarryIn {
        OtherPort(x.ins, v, cin, p);
      }
    }
  }

  /** A connected block is evaluated in order. */
  lemma BlockOrdered(k: Block, w: nat, driven: set<Pin>)
    requires w > 0 && PortSet(k, w, driven)
    ensures Ordered(Emitted(k, w, 0), driven)
  {
    if k.AddBlock? { AddOrdered(w, 0, driven); } else { FlatOrdered(k, w, driven); }
  }

  /** The bus a block drives. */
  function OutBus(k: Block): Bus {
    if k.AddBlock? then NetS else NetY
  }

  lemma OutDriven(k: Block, w: nat, env: map<Pin, bool>, i: nat)
    requires i < w
    ensures Pin(OutBus(k), i) in Run(Emitted(k, w, 0), env)
  {
    EmittedValid(k, w);
    RunDrives(Emitted(k, w, 0), env);
    EmittedAt(k, w, 0, i);
    assert Emitted(k, w, 0)[i].outs[0] == Pin(OutBus(k), i);
  }

  lemma ReadCarries(rails: map<Pin, Rail>, env: map<Pin, bool>, name: Bus, w: nat)
    requires Carries(rails, env) && forall i :: 0 <= i < w ==> Pin(name, i) in env
    ensures ReadRails(rails, name, w) == Datas(ReadBus(env, name, w))
  {
    forall i | 0 <= i < w
      ensures ReadRails(rails, name, w)[i] == Datas(ReadBus(env, name, w))[i]
    {
      assert Pin(name, i) in env;
    }
  }

  lemma BlockCarries(k: Block, w: nat, env: map<Pin, bool>, rails: map<Pin, Rail>, g: seq<Gates>)
    requires w > 0 && PortSet(k, w, env.Keys) && Carries(rails, env)
    requires StatesFit(Emitted(k, w, 0), g) && forall i :: 0 <= i < w ==> g[i] == Reset(Emitted(k, w, 0)[i].cell)
    ensures ReadRails(RunRails(Emitted(k, w, 0), rails, g).0, OutBus(k), w) ==
      Datas(ReadBus(Run(Emitted(k, w, 0), env), OutBus(k), w))
  {
    BlockOrdered(k, w, env.Keys);
    DataWave(Emitted(k, w, 0), env, rails, g);
    forall i | 0 <= i < w
      ensures Pin(OutBus(k), i) in Run(Emitted(k, w, 0), env)
    {
      OutDriven(k, w, env, i);
    }
    ReadCarries(RunRails(Emitted(k, w, 0), rails, g).0, Run(Emitted(k, w, 0), env), OutBus(k), w);
  }

  lemma LineCarries(x: Wiring, w: nat, rv: map<Bus, seq<Rail>>, v: map<Bus, seq<bool>>, cin: bool, g: seq<Gates>)
    requires w > 0 && ResetLine(x, w, g) && NetsCarry(rv, v) && Fed(x, w, v) && x.outBus == OutBus(x.block)
    requires StatesFit(Emitted(x.block, w, 0), g)
    ensures SettleLine(x, w, rv, Data(cin), g).0[x.outNet] == Datas(EvalLine(x, w, v, cin)[x.outNet])
  {
    var env, rails := PortPins(x.ins, v, cin), PortRails(x.ins, rv, Data(cin));
    assert Carries(rails, env) by { PortsCarry(x.ins, rv, v, cin); }
    assert PortSet(x.block, w, env.Keys) by { FedPorts(x, w, v, cin); }
    BlockCarries(x.block, w, env, rails, g);
  }

  lemma UpdateCarries(rv: map<Bus, seq<Rail>>, v: map<Bus, seq<bool>>, net: Bus, rails: seq<Rail>, bits: seq<bool>)
    requires NetsCarry(rv, v) && rails == Datas(bits)
    ensures NetsCarry(rv[net := rails], v[net := bits])
  {
  }

  lemma DataLine(x: Wiring, w: nat, rv: map<Bus, seq<Rail>>, v: map<Bus, seq<bool>>, cin: bool, g: seq<Gates>)
    requires w > 0 && ResetLine(x, w, g) && NetsCarry(rv, v) && Fed(x, w, v) && x.outBus == OutBus(x.block)
    requires StatesFit(Emitted(x.block, w, 0), g)
    ensures NetsCarry(SettleLine(x, w, rv, Data(cin), g).0, EvalLine(x, w, v, cin))
  {
    LineCarries(x, w, rv, v, cin, g);
    UpdateCarries(rv, v, x.outNet, SettleLine(x, w, rv, Data(cin), g).0[x.outNet], EvalLine(x, w, v, cin)[x.outNet]);
  }

  lemma LineFed(t: Terms, w: nat, k: nat, v: map<Bus, seq<bool>>)
    requires k < 9 && CorrectTo(t, w, k, v)
    ensures Fed(RoundLines(w)[k], w, v) && RoundLines(w)[k].outBus == OutBus(RoundLines(w)[k].block)
  {
    var x := RoundLines(w)[k];
    forall b | PortOf(x.block, b)
      ensures exists n :: 0 <= n < |x.ins| && PortFed(x.ins[n], b, w, v)
    {
      var n := PortIndex(x, w, k, b);
      NetCarries(t, w, k, v, x.ins[n].1);
      assert PortFed(x.ins[n], b, w, v);
    }
  }

  /** Where a port stands in its line, and that the line's nets are driven before it. */
  lemma PortIndex(x: Wiring, w: nat, k: nat, b: Bus) returns (n: nat)
    requires k < 9 && x == RoundLines(w)[k] && PortOf(x.block, b)
    ensures n < |x.ins| && x.ins[n].0 == b && Rank(x.ins[n].1) <= k
  {
    n := if b == NetX || b == NetE || b == NetA then 0 else if b == NetF || b == NetB then 1 else 2;
  }

  lemma {:induction false} DataWaveCarries(t: Terms, w: nat, k: nat, rv: map<Bus, seq<Rail>>, v: map<Bus, seq<bool>>,
                                           gates: seq<seq<Gates>>)
    requires w > 0 && TermsFit(t, w) && k <= 9 && CorrectTo(t, w, k, v) && NetsCarry(rv, v)
    requires AllReset(RoundLines(w)[k..], w, gates) && GatesFit(RoundLines(w)[k..], w, gates)
    ensures NetsCarry(Wave(RoundLines(w)[k..], w, rv, Data(false), gates).0,
                      EvalLines(RoundLines(w)[k..], w, v, false))
    decreases 9 - k
  {
    if k < 9 {
      var line, lines := RoundLines(w)[k], RoundLines(w)[k..];
      assert lines[0] == line && lines[1..] == RoundLines(w)[k + 1..];
      LineFed(t, w, k, v);
      DataLine(line, w, rv, v, false, gates[0]);
      LineCorrect(t, w, k, v);
      DataWaveCarries(t, w, k + 1, SettleLine(line, w, rv, Data(false), gates[0]).0,
                      EvalLine(line, w, v, false), gates[1..]);
    }
  }

  /** The rails on which a round's inputs arrive. */
  function InputRails(x: Inputs, w: nat): map<Bus, seq<Rail>> {
    map net | net in InputNets(x, w) :: Datas(InputNets(x, w)[net])
  }

  /** One cycle, from any gate states: a null wave, then a data wave.  The output rails of
      the data wave carry the reference's results. */
  lemma CycleComputesReference(x: Inputs, w: nat, idle: map<Bus, seq<Rail>>, gates: seq<seq<Gates>>)
    requires w > 0 && Below(x, w) && NullNets(idle) && GatesFit(RoundLines(w), w, gates)
    ensures var reset := Wave(RoundLines(w), w, idle, NULL, gates).1;
      && GatesFit(RoundLines(w), w, reset)
      && var rv := Wave(RoundLines(w), w, InputRails(x, w), Data(false), reset).0;
      && NetAn in rv && rv[NetAn] == Datas(BitsOf(ShaRound(x, w).0, w))
      && NetEn in rv && rv[NetEn] == Datas(BitsOf(ShaRound(x, w).1, w))
  {
    var lines := RoundLines(w);
    NullWaveResets(lines, w, idle, gates);
    var reset := Wave(lines, w, idle, NULL, gates).1;
    ResetFits(lines, w, reset);
    var t := ReferenceTerms(x, w);
    InputsCorrect(t, w);
    assert lines[0..] == lines;
    DataWaveCarries(t, w, 0, InputRails(x, w), InputNets(x, w), reset);
    OutputNets(x, w);
  }
}
