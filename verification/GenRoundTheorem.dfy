/** The emitted round computes the arithmetic reference, for every width. */
module GenRoundTheorem {
  import opened Bits
  import opened ModMath
  import opened NclCells
  import opened GenRound

  /** Net `net` carries the `w`-bit number `x`. */
  ghost predicate Carried(v: map<Bus, seq<bool>>, net: Bus, x: nat, w: nat) {
    net in v && x < Pow2(w) && v[net] == BitsOf(x, w)
  }

  // ---------- ports ----------

  lemma {:induction false} PortAt(ins: seq<(Bus, Bus)>, v: map<Bus, seq<bool>>, cin: bool, k: nat, i: nat)
    requires k < |ins| && ins[k].1 in v && i < |v[ins[k].1]|
    requires forall a, b :: 0 <= a < b < |ins| ==> ins[a].0 != ins[b].0
    ensures Get(PortPins(ins, v, cin), Pin(ins[k].0, i)) == v[ins[k].1][i]
  {
    var mine := BusPins(ins[0].0, Wire(v, ins[0].1));
    if k > 0 {
      PortAt(ins[1..], v, cin, k - 1, i);
      assert Pin(ins[k].0, i) !in mine;
      NamedPort(ins[1..], v, cin, k - 1, i);
    } else {
      assert mine[Pin(ins[0].0, i)] == v[ins[0].1][i];
    }
  }

  lemma {:induction false} NamedPort(ins: seq<(Bus, Bus)>, v: map<Bus, seq<bool>>, cin: bool, k: nat, i: nat)
    requires k < |ins| && ins[k].1 in v && i < |v[ins[k].1]|
    ensures Pin(ins[k].0, i) in PortPins(ins, v, cin)
  {
    if k > 0 {
      NamedPort(ins[1..], v, cin, k - 1, i);
    } else {
      assert Pin(ins[0].0, i) in BusPins(ins[0].0, Wire(v, ins[0].1));
    }
  }

  lemma {:induction false} CarryInTied(ins: seq<(Bus, Bus)>, v: map<Bus, seq<bool>>, cin: bool)
    requires forall k :: 0 <= k < |ins| ==> ins[k].0 != CarryIn
    ensures Get(PortPins(ins, v, cin), Pin(CarryIn, 0)) == cin
  {
    if ins != [] {
      CarryInTied(ins[1..], v, cin);
      assert Pin(CarryIn, 0) !in BusPins(ins[0].0, Wire(v, ins[0].1));
      assert PortPins(ins, v, cin) == PortPins(ins[1..], v, cin) + BusPins(ins[0].0, Wire(v, ins[0].1));
    }
  }

  // ---------- one line of the top level ----------

  lemma ReadBusAt(env: map<Pin, bool>, name: Bus, y: nat, w: nat)
    requires forall i :: 0 <= i < w ==> Get(env, Pin(name, i)) == Bit(y, i)
    ensures ReadBus(env, name, w) == BitsOf(y, w)
  {
  }

  /** A block without carries drives its net with the number its cells spell. */
  lemma FlatLine(k: Block, ins: seq<(Bus, Bus)>, out: Bus, w: nat, v: map<Bus, seq<bool>>, cin: bool, y: nat)
    requires w > 0 && !k.AddBlock? && y < Pow2(w)
    requires forall i :: 0 <= i < w ==> FlatBit(k, w, PortPins(ins, v, cin), i) == Bit(y, i)
    ensures Carried(EvalLine(Wiring(k, ins, NetY, out), w, v, cin), out, y, w)
  {
    var env := PortPins(ins, v, cin);
    var r := Run(Emitted(k, w, 0), env);
    forall i | 0 <= i < w
      ensures Get(r, Pin(NetY, i)) == Bit(y, i)
    {
      FlatRun(k, w, 0, env, i);
    }
    ReadBusAt(r, NetY, y, w);
  }

  lemma SigmaLine(v: map<Bus, seq<bool>>, w: nat, cin: bool, rot: (nat, nat, nat), net: Bus, out: Bus, x: nat)
    requires w > 0 && Carried(v, net, x, w)
    ensures Carried(EvalLine(Wiring(SigmaBlock(rot), [(NetX, net)], NetY, out), w, v, cin), out, Sigma(x, rot, w), w)
  {
    SigmaBelow(x, rot, w);
    forall i | 0 <= i < w
      ensures FlatBit(SigmaBlock(rot), w, PortPins([(NetX, net)], v, cin), i) == Bit(Sigma(x, rot, w), i)
    {
      SigmaFlat(v, w, cin, rot, net, x, i);
    }
    FlatLine(SigmaBlock(rot), [(NetX, net)], out, w, v, cin, Sigma(x, rot, w));
  }

  lemma SigmaCell(env: map<Pin, bool>, w: nat, rot: (nat, nat, nat), x: nat, i: nat)
    requires i < w && x < Pow2(w) && forall j :: 0 <= j < w ==> Get(env, Pin(NetX, j)) == Bit(x, j)
    ensures FlatBit(SigmaBlock(rot), w, env, i) == Bit(Sigma(x, rot, w), i)
  {
    SigmaBit(x, rot, w, i);
  }

  lemma SigmaFlat(v: map<Bus, seq<bool>>, w: nat, cin: bool, rot: (nat, nat, nat), net: Bus, x: nat, i: nat)
    requires i < w && Carried(v, net, x, w)
    ensures FlatBit(SigmaBlock(rot), w, PortPins([(NetX, net)], v, cin), i) == Bit(Sigma(x, rot, w), i)
  {
    var ins := [(NetX, net)];
    forall j | 0 <= j < w
      ensures Get(PortPins(ins, v, cin), Pin(NetX, j)) == Bit(x, j)
    {
      PortAt(ins, v, cin, 0, j);
    }
    SigmaCell(PortPins(ins, v, cin), w, rot, x, i);
  }

  lemma SigmaBelow(x: nat, rot: (nat, nat, nat), w: nat)
    requires w > 0 && x < Pow2(w)
    ensures Sigma(x, rot, w) < Pow2(w)
  {
    RotrBit(x, rot.0, w, 0);
    RotrBit(x, rot.1, w, 0);
    RotrBit(x, rot.2, w, 0);
    XorBound(Rotr(x, rot.0, w), Rotr(x, rot.1, w), w);
    XorBound(Xor(Rotr(x, rot.0, w), Rotr(x, rot.1, w)), Rotr(x, rot.2, w), w);
  }

  lemma SigmaBit(x: nat, rot: (nat, nat, nat), w: nat, i: nat)
    requires i < w && x < Pow2(w)
    ensures Bit(Sigma(x, rot, w), i) ==
      ((Bit(x, (i + rot.0) % w) != Bit(x, (i + rot.1) % w)) != Bit(x, (i + rot.2) % w))
  {
    RotrBit(x, rot.0, w, i);
    RotrBit(x, rot.1, w, i);
    RotrBit(x, rot.2, w, i);
    XorBit(Rotr(x, rot.0, w), Rotr(x, rot.1, w), i);
    XorBit(Xor(Rotr(x, rot.0, w), Rotr(x, rot.1, w)), Rotr(x, rot.2, w), i);
  }

  lemma ChCell(env: map<Pin, bool>, w: nat, e: nat, f: nat, g: nat, i: nat)
    requires i < w && e < Pow2(w)
    requires Get(env, Pin(NetE, i)) == Bit(e, i) && Get(env, Pin(NetF, i)) == Bit(f, i)
    requires Get(env, Pin(NetG, i)) == Bit(g, i)
    ensures FlatBit(ChBlock, w, env, i) == Bit(ChooseRef(e, f, g, w), i)
  {
    ChooseBit(e, f, g, w, i);
  }

  lemma ChFlat(v: map<Bus, seq<bool>>, w: nat, cin: bool, e: nat, f: nat, g: nat, i: nat)
    requires i < w && Carried(v, NetE, e, w) && Carried(v, NetF, f, w) && Carried(v, NetG, g, w)
    ensures FlatBit(ChBlock, w, PortPins([(NetE, NetE), (NetF, NetF), (NetG, NetG)], v, cin), i) ==
      Bit(ChooseRef(e, f, g, w), i)
  {
    var ins := [(NetE, NetE), (NetF, NetF), (NetG, NetG)];
    PortAt(ins, v, cin, 0, i);
    PortAt(ins, v, cin, 1, i);
    PortAt(ins, v, cin, 2, i);
    ChCell(PortPins(ins, v, cin), w, e, f, g, i);
  }

  lemma ChLine(v: map<Bus, seq<bool>>, w: nat, cin: bool, e: nat, f: nat, g: nat)
    requires w > 0 && Carried(v, NetE, e, w) && Carried(v, NetF, f, w) && Carried(v, NetG, g, w)
    ensures Carried(EvalLine(Wiring(ChBlock, [(NetE, NetE), (NetF, NetF), (NetG, NetG)], NetY, NetCh), w, v, cin),
                    NetCh, ChooseRef(e, f, g, w), w)
  {
    var ins := [(NetE, NetE), (NetF, NetF), (NetG, NetG)];
    MaskBelow(Or(And(e, f), And(Not(w, e), g)), w);
    forall i | 0 <= i < w
      ensures FlatBit(ChBlock, w, PortPins(ins, v, cin), i) == Bit(ChooseRef(e, f, g, w), i)
    {
      ChFlat(v, w, cin, e, f, g, i);
    }
    FlatLine(ChBlock, ins, NetCh, w, v, cin, ChooseRef(e, f, g, w));
  }

  lemma ChooseBit(e: nat, f: nat, g: nat, w: nat, i: nat)
    requires i < w && e < Pow2(w)
    ensures Bit(ChooseRef(e, f, g, w), i) == if Bit(e, i) then Bit(f, i) else Bit(g, i)
  {
    var ef, eg := And(e, f), And(Not(w, e), g);
    AndBit(Or(ef, eg), Mask(w), i);
    MaskBit(w, i);
    OrBit(ef, eg, i);
    AndBit(e, f, i);
    AndBit(Not(w, e), g, i);
    NotBit(w, e, i);
  }

  lemma MajCell(env: map<Pin, bool>, w: nat, a: nat, b: nat, c: nat, i: nat)
    requires i < w
    requires Get(env, Pin(NetA, i)) == Bit(a, i) && Get(env, Pin(NetB, i)) == Bit(b, i)
    requires Get(env, Pin(NetC, i)) == Bit(c, i)
    ensures FlatBit(MajBlock, w, env, i) == Bit(MajRef(a, b, c), i)
  {
    MajBit(a, b, c, i);
  }

  lemma MajFlat(v: map<Bus, seq<bool>>, w: nat, cin: bool, a: nat, b: nat, c: nat, i: nat)
    requires i < w && Carried(v, NetA, a, w) && Carried(v, NetB, b, w) && Carried(v, NetC, c, w)
    ensures FlatBit(MajBlock, w, PortPins([(NetA, NetA), (NetB, NetB), (NetC, NetC)], v, cin), i) ==
      Bit(MajRef(a, b, c), i)
  {
    var ins := [(NetA, NetA), (NetB, NetB), (NetC, NetC)];
    PortAt(ins, v, cin, 0, i);
    PortAt(ins, v, cin, 1, i);
    PortAt(ins, v, cin, 2, i);
    MajCell(PortPins(ins, v, cin), w, a, b, c, i);
  }

  lemma MajLine(v: map<Bus, seq<bool>>, w: nat, cin: bool, a: nat, b: nat, c: nat)
    requires w > 0 && Carried(v, NetA, a, w) && Carried(v, NetB, b, w) && Carried(v, NetC, c, w)
    ensures Carried(EvalLine(Wiring(MajBlock, [(NetA, NetA), (NetB, NetB), (NetC, NetC)], NetY, NetMj), w, v, cin),
                    NetMj, MajRef(a, b, c), w)
  {
    var ins := [(NetA, NetA), (NetB, NetB), (NetC, NetC)];
    MajBelow(a, b, c, w);
    forall i | 0 <= i < w
      ensures FlatBit(MajBlock, w, PortPins(ins, v, cin), i) == Bit(MajRef(a, b, c), i)
    {
      MajFlat(v, w, cin, a, b, c, i);
    }
    FlatLine(MajBlock, ins, NetMj, w, v, cin, MajRef(a, b, c));
  }

  lemma MajBelow(a: nat, b: nat, c: nat, w: nat)
    requires a < Pow2(w) && b < Pow2(w) && c < Pow2(w)
    ensures MajRef(a, b, c) < Pow2(w)
  {
    AndBound(a, b, w);
    AndBound(a, c, w);
    AndBound(b, c, w);
    OrBound(And(a, b), And(a, c), w);
    OrBound(Or(And(a, b), And(a, c)), And(b, c), w);
  }

  lemma MajBit(a: nat, b: nat, c: nat, i: nat)
    ensures Bit(MajRef(a, b, c), i) ==
      ((Bit(a, i) && Bit(b, i)) || (Bit(a, i) && Bit(c, i)) || (Bit(b, i) && Bit(c, i)))
  {
    AndBit(a, b, i);
    AndBit(a, c, i);
    AndBit(b, c, i);
    OrBit(And(a, b), And(a, c), i);
    OrBit(Or(And(a, b), And(a, c)), And(b, c), i);
  }

  // ---------- adder lines ----------

  /** The number on a bus of pins that are the bits of `x`. */
  lemma {:induction false} NumFromBits(env: map<Pin, bool>, name: Bus, x: nat, i: nat, w: nat)
    requires i <= w && x < Pow2(w - i)
    requires forall j :: i <= j < w ==> Get(env, Pin(name, j)) == Bit(x, j - i)
    ensures NumFrom(env, name, i, w) == x
    decreases w - i
  {
    if i < w {
      assert Get(env, Pin(name, i)) == Bit(x, 0);
      forall j | i + 1 <= j < w
        ensures Get(env, Pin(name, j)) == Bit(x / 2, j - (i + 1))
      {
        assert Get(env, Pin(name, j)) == Bit(x, j - i);
      }
      NumFromBits(env, name, x / 2, i + 1, w);
    }
  }

  lemma {:induction false} NumFromBit(env: map<Pin, bool>, name: Bus, i: nat, w: nat, j: nat)
    requires i <= w && i + j < w
    ensures Bit(NumFrom(env, name, i, w), j) == Get(env, Pin(name, i + j))
    decreases w - i
  {
    var rest := NumFrom(env, name, i + 1, w);
    assert NumFrom(env, name, i, w) / 2 == rest && NumFrom(env, name, i, w) % 2 == Num(Get(env, Pin(name, i)));
    if j > 0 {
      NumFromBit(env, name, i + 1, w, j - 1);
    }
  }

  lemma {:induction false} NumFromBelow(env: map<Pin, bool>, name: Bus, i: nat, w: nat)
    requires i <= w
    ensures NumFrom(env, name, i, w) < Pow2(w - i)
    decreases w - i
  {
    if i < w { NumFromBelow(env, name, i + 1, w); }
  }

  /** The number on a port is the number on the net it is connected to. */
  lemma NumOnPort(ins: seq<(Bus, Bus)>, v: map<Bus, seq<bool>>, cin: bool, k: nat, x: nat, w: nat)
    requires k < |ins| && Carried(v, ins[k].1, x, w)
    requires forall a, b :: 0 <= a < b < |ins| ==> ins[a].0 != ins[b].0
    ensures NumFrom(PortPins(ins, v, cin), ins[k].0, 0, w) == x
  {
    var env := PortPins(ins, v, cin);
    forall i | 0 <= i < w
      ensures Get(env, Pin(ins[k].0, i)) == Bit(x, i)
    {
      PortAt(ins, v, cin, k, i);
    }
    NumFromBits(env, ins[k].0, x, 0, w);
  }

  lemma AddPorts(v: map<Bus, seq<bool>>, w: nat, cin: bool, a: Bus, b: Bus, x: nat, y: nat)
    requires Carried(v, a, x, w) && Carried(v, b, y, w)
    ensures var env := PortPins([(NetA, a), (NetB, b)], v, cin);
      NumFrom(env, NetA, 0, w) == x && NumFrom(env, NetB, 0, w) == y && Get(env, Pin(CarryIn, 0)) == cin
  {
    var ins := [(NetA, a), (NetB, b)];
    NumOnPort(ins, v, cin, 0, x, w);
    NumOnPort(ins, v, cin, 1, y, w);
    CarryInTied(ins, v, cin);
  }

  /** An adder line drives its net with the sum, modulo the word. */
  lemma AddLine(v: map<Bus, seq<bool>>, w: nat, cin: bool, a: Bus, b: Bus, out: Bus, x: nat, y: nat)
    requires w > 0 && Carried(v, a, x, w) && Carried(v, b, y, w)
    ensures Carried(EvalLine(Wiring(AddBlock, [(NetA, a), (NetB, b)], NetS, out), w, v, cin),
                    out, SumRef(x + Num(cin), y, w), w)
  {
    var env := PortPins([(NetA, a), (NetB, b)], v, cin);
    AddPorts(v, w, cin, a, b, x, y);
    AdderSums(env, w, x, y, cin);
  }

  lemma AdderSums(env: map<Pin, bool>, w: nat, x: nat, y: nat, cin: bool)
    requires w > 0 && NumFrom(env, NetA, 0, w) == x && NumFrom(env, NetB, 0, w) == y
    requires Get(env, Pin(CarryIn, 0)) == cin
    ensures ReadBus(Run(Emitted(AddBlock, w, 0), env), NetS, w) == BitsOf(SumRef(x + Num(cin), y, w), w)
    ensures SumRef(x + Num(cin), y, w) < Pow2(w)
  {
    var r := Run(Emitted(AddBlock, w, 0), env);
    AddRun(w, 0, env, r);
    SumOnBus(r, w, x + Num(cin) + y);
  }

  lemma SumOnBus(r: map<Pin, bool>, w: nat, total: nat)
    requires NumFrom(r, NetS, 0, w) + CarryWeight(Get(r, Pin(CarryOut, 0)), Pow2(w)) == total
    ensures ReadBus(r, NetS, w) == BitsOf(And(total, Mask(w)), w) && And(total, Mask(w)) < Pow2(w)
  {
    var sum := NumFrom(r, NetS, 0, w);
    NumFromBelow(r, NetS, 0, w);
    SumIsMasked(total, sum, Get(r, Pin(CarryOut, 0)), w);
    forall i | 0 <= i < w
      ensures Get(r, Pin(NetS, i)) == Bit(sum, i)
    {
      NumFromBit(r, NetS, 0, w, i);
    }
    ReadBusAt(r, NetS, sum, w);
  }

  lemma SumIsMasked(total: nat, sum: nat, co: bool, w: nat)
    requires sum < Pow2(w) && sum + CarryWeight(co, Pow2(w)) == total
    ensures And(total, Mask(w)) == sum
  {
    MaskIsMod(total, w);
    ModUnique(total, Pow2(w), Num(co), sum);
  }

  // ---------- the round ----------

  function SumRef(a: nat, b: nat, w: nat): nat {
    And(a + b, Mask(w))
  }

  /** The numbers that the nets must carry. */
  datatype Terms = Terms(x: Inputs, s0: nat, s1: nat, ch: nat, mj: nat, t1a: nat, t1: nat, t2: nat, an: nat, en: nat)

  /** The additions, each reduced to the word. */
  ghost predicate SumsFit(t: Terms, w: nat) {
    && t.t1a == SumRef(t.x.h, t.s1, w) && t.t1 == SumRef(t.t1a, t.ch, w) && t.t2 == SumRef(t.s0, t.mj, w)
    && t.an == SumRef(t.t1, t.t2, w) && t.en == SumRef(t.x.d, t.t1, w)
  }

  function NetNum(t: Terms, net: Bus): nat {
    match net
    case NetA => t.x.a case NetB => t.x.b case NetC => t.x.c case NetD => t.x.d
    case NetE => t.x.e case NetF => t.x.f case NetG => t.x.g case NetH => t.x.h
    case NetS0 => t.s0 case NetS1 => t.s1 case NetCh => t.ch case NetMj => t.mj
    case NetT1a => t.t1a case NetT1 => t.t1 case NetT2 => t.t2 case NetAn => t.an case NetEn => t.en
    case _ => 0
  }

  /** The line that drives a net, counted from one; zero for the inputs. */
  function Rank(net: Bus): nat {
    match net
    case NetA | NetB | NetC | NetD | NetE | NetF | NetG | NetH => 0
    case NetS0 => 1 case NetS1 => 2 case NetCh => 3 case NetMj => 4
    case NetT1a => 5 case NetT1 => 6 case NetT2 => 7 case NetAn => 8 case NetEn => 9
    case _ => 10
  }

  /** The inputs and the nets of the first `k` lines carry what they must. */
  ghost predicate CorrectTo(t: Terms, w: nat, k: nat, v: map<Bus, seq<bool>>) {
    forall net :: Rank(net) <= k ==> Carried(v, net, NetNum(t, net), w)
  }

  lemma NetCarries(t: Terms, w: nat, k: nat, v: map<Bus, seq<bool>>, net: Bus)
    requires CorrectTo(t, w, k, v) && Rank(net) <= k
    ensures Carried(v, net, NetNum(t, net), w)
  {
  }

  /** Of the driven nets, no two are driven by the same line. */
  lemma RankNames(a: Bus, b: Bus)
    requires 0 < Rank(a) < 10 && a != b
    ensures Rank(a) != Rank(b)
  {
  }

  /** A line that drives its net correctly keeps the nets before it correct. */
  lemma LineKeeps(t: Terms, w: nat, k: nat, v: map<Bus, seq<bool>>, line: Wiring)
    requires w > 0 && k < 9 && CorrectTo(t, w, k, v) && Rank(line.outNet) == k + 1
    requires Carried(EvalLine(line, w, v, false), line.outNet, NetNum(t, line.outNet), w)
    ensures CorrectTo(t, w, k + 1, EvalLine(line, w, v, false))
  {
    forall net | Rank(net) <= k + 1
      ensures Carried(EvalLine(line, w, v, false), net, NetNum(t, net), w)
    {
      if net != line.outNet {
        RankNames(line.outNet, net);
        NetCarries(t, w, k, v, net);
      }
    }
  }

  lemma Sigma0Line(t: Terms, w: nat, v: map<Bus, seq<bool>>)
    requires w > 0 && CorrectTo(t, w, 0, v) && t.s0 == Sigma(t.x.a, RotSched(w), w)
    ensures CorrectTo(t, w, 1, EvalLine(Wiring(SigmaBlock(RotSched(w)), [(NetX, NetA)], NetY, NetS0), w, v, false))
  {
    NetCarries(t, w, 0, v, NetA);
    SigmaLine(v, w, false, RotSched(w), NetA, NetS0, t.x.a);
    LineKeeps(t, w, 0, v, Wiring(SigmaBlock(RotSched(w)), [(NetX, NetA)], NetY, NetS0));
  }

  lemma Sigma1Line(t: Terms, w: nat, v: map<Bus, seq<bool>>)
    requires w > 0 && CorrectTo(t, w, 1, v) && t.s1 == Sigma(t.x.e, Reversed(RotSched(w)), w)
    ensures CorrectTo(t, w, 2,
      EvalLine(Wiring(SigmaBlock(Reversed(RotSched(w))), [(NetX, NetE)], NetY, NetS1), w, v, false))
  {
    NetCarries(t, w, 1, v, NetE);
    SigmaLine(v, w, false, Reversed(RotSched(w)), NetE, NetS1, t.x.e);
    LineKeeps(t, w, 1, v, Wiring(SigmaBlock(Reversed(RotSched(w))), [(NetX, NetE)], NetY, NetS1));
  }

  lemma ChooseDrives(t: Terms, w: nat, v: map<Bus, seq<bool>>)
    requires w > 0 && CorrectTo(t, w, 2, v) && t.x.e < Pow2(w)
    ensures Carried(EvalLine(Wiring(ChBlock, [(NetE, NetE), (NetF, NetF), (NetG, NetG)], NetY, NetCh), w, v, false),
                    NetCh, ChooseRef(t.x.e, t.x.f, t.x.g, w), w)
  {
    NetCarries(t, w, 2, v, NetE);
    NetCarries(t, w, 2, v, NetF);
    NetCarries(t, w, 2, v, NetG);
    ChLine(v, w, false, t.x.e, t.x.f, t.x.g);
  }

  lemma ChooseLine(t: Terms, w: nat, v: map<Bus, seq<bool>>)
    requires w > 0 && CorrectTo(t, w, 2, v) && t.x.e < Pow2(w) && t.ch == ChooseRef(t.x.e, t.x.f, t.x.g, w)
    ensures CorrectTo(t, w, 3,
      EvalLine(Wiring(ChBlock, [(NetE, NetE), (NetF, NetF), (NetG, NetG)], NetY, NetCh), w, v, false))
  {
    ChooseDrives(t, w, v);
    LineKeeps(t, w, 2, v, Wiring(ChBlock, [(NetE, NetE), (NetF, NetF), (NetG, NetG)], NetY, NetCh));
  }

  lemma MajorityLine(t: Terms, w: nat, v: map<Bus, seq<bool>>)
    requires w > 0 && CorrectTo(t, w, 3, v) && t.mj == MajRef(t.x.a, t.x.b, t.x.c)
    ensures CorrectTo(t, w, 4,
      EvalLine(Wiring(MajBlock, [(NetA, NetA), (NetB, NetB), (NetC, NetC)], NetY, NetMj), w, v, false))
  {
    NetCarries(t, w, 3, v, NetA);
    NetCarries(t, w, 3, v, NetB);
    NetCarries(t, w, 3, v, NetC);
    MajLine(v, w, false, t.x.a, t.x.b, t.x.c);
    LineKeeps(t, w, 3, v, Wiring(MajBlock, [(NetA, NetA), (NetB, NetB), (NetC, NetC)], NetY, NetMj));
  }

  lemma AdderLine(t: Terms, w: nat, k: nat, v: map<Bus, seq<bool>>, a: Bus, b: Bus, out: Bus)
    requires w > 0 && CorrectTo(t, w, k, v) && Rank(a) <= k && Rank(b) <= k && Rank(out) == k + 1 < 10
    requires NetNum(t, out) == SumRef(NetNum(t, a), NetNum(t, b), w)
    ensures CorrectTo(t, w, k + 1, EvalLine(Wiring(AddBlock, [(NetA, a), (NetB, b)], NetS, out), w, v, false))
  {
    NetCarries(t, w, k, v, a);
    NetCarries(t, w, k, v, b);
    AddLine(v, w, false, a, b, out, NetNum(t, a), NetNum(t, b));
    LineKeeps(t, w, k, v, Wiring(AddBlock, [(NetA, a), (NetB, b)], NetS, out));
  }

  lemma InputsCorrect(t: Terms, w: nat)
    requires w > 0 && Below(t.x, w)
    ensures CorrectTo(t, w, 0, InputNets(t.x, w))
  {
  }

  /** The values are the reference's. */
  ghost predicate TermsFit(t: Terms, w: nat)
    requires w > 0
  {
    && Below(t.x, w)
    && t.s0 == Sigma(t.x.a, RotSched(w), w) && t.s1 == Sigma(t.x.e, Reversed(RotSched(w)), w)
    && t.ch == ChooseRef(t.x.e, t.x.f, t.x.g, w) && t.mj == MajRef(t.x.a, t.x.b, t.x.c)
    && SumsFit(t, w)
  }

  lemma SigmaLineCorrect(t: Terms, w: nat, k: nat, v: map<Bus, seq<bool>>)
    requires w > 0 && k < 2 && CorrectTo(t, w, k, v)
    requires t.s0 == Sigma(t.x.a, RotSched(w), w) && t.s1 == Sigma(t.x.e, Reversed(RotSched(w)), w)
    ensures CorrectTo(t, w, k + 1, EvalLine(RoundLines(w)[k], w, v, false))
  {
    if k == 0 { Sigma0Line(t, w, v); } else { Sigma1Line(t, w, v); }
  }

  lemma SelectLineCorrect(t: Terms, w: nat, k: nat, v: map<Bus, seq<bool>>)
    requires w > 0 && t.x.e < Pow2(w) && 2 <= k < 4 && CorrectTo(t, w, k, v)
    requires t.ch == ChooseRef(t.x.e, t.x.f, t.x.g, w) && t.mj == MajRef(t.x.a, t.x.b, t.x.c)
    ensures CorrectTo(t, w, k + 1, EvalLine(RoundLines(w)[k], w, v, false))
  {
    SelectShape(w);
    if k == 2 { ChooseLine(t, w, v); } else { MajorityLine(t, w, v); }
  }

  lemma SelectShape(w: nat)
    ensures RoundLines(w)[2] == Wiring(ChBlock, [(NetE, NetE), (NetF, NetF), (NetG, NetG)], NetY, NetCh)
    ensures RoundLines(w)[3] == Wiring(MajBlock, [(NetA, NetA), (NetB, NetB), (NetC, NetC)], NetY, NetMj)
  {
  }

  /** The nets that adder line `k` reads, and the one it drives. */
  function AddNets(k: nat): (Bus, Bus, Bus) {
    if k == 4 then (NetH, NetS1, NetT1a)
    else if k == 5 then (NetT1a, NetCh, NetT1)
    else if k == 6 then (NetS0, NetMj, NetT2)
    else if k == 7 then (NetT1, NetT2, NetAn)
    else (NetD, NetT1, NetEn)
  }

  lemma AddShape(w: nat, k: nat)
    requires 4 <= k < 9
    ensures var (a, b, out) := AddNets(k);
      && RoundLines(w)[k] == Wiring(AddBlock, [(NetA, a), (NetB, b)], NetS, out)
      && Rank(a) <= k && Rank(b) <= k && Rank(out) == k + 1
  {
  }

  lemma AddNum(t: Terms, w: nat, k: nat)
    requires 4 <= k < 9 && SumsFit(t, w)
    ensures var (a, b, out) := AddNets(k); NetNum(t, out) == SumRef(NetNum(t, a), NetNum(t, b), w)
  {
    AddOperands(t, k);
    TermsAdd(t, w, k);
  }

  lemma TermsAdd(t: Terms, w: nat, k: nat)
    requires 4 <= k < 9 && SumsFit(t, w)
    ensures var (x, y, sum) := AddTerms(t, k); sum == SumRef(x, y, w)
  {
    TermsAddWith(t, k, (x: nat, y: nat) => SumRef(x, y, w));
  }

  lemma TermsAddWith(t: Terms, k: nat, plus: (nat, nat) -> nat)
    requires 4 <= k < 9
    requires t.t1a == plus(t.x.h, t.s1) && t.t1 == plus(t.t1a, t.ch) && t.t2 == plus(t.s0, t.mj)
    requires t.an == plus(t.t1, t.t2) && t.en == plus(t.x.d, t.t1)
    ensures var (x, y, sum) := AddTerms(t, k); sum == plus(x, y)
  {
  }

  /** The numbers that adder line `k` adds, and their sum. */
  function AddTerms(t: Terms, k: nat): (nat, nat, nat) {
    if k == 4 then (t.x.h, t.s1, t.t1a)
    else if k == 5 then (t.t1a, t.ch, t.t1)
    else if k == 6 then (t.s0, t.mj, t.t2)
    else if k == 7 then (t.t1, t.t2, t.an)
    else (t.x.d, t.t1, t.en)
  }

  lemma AddOperands(t: Terms, k: nat)
    requires 4 <= k < 9
    ensures var (a, b, out) := AddNets(k); (NetNum(t, a), NetNum(t, b), NetNum(t, out)) == AddTerms(t, k)
  {
  }

  lemma AddLineCorrect(t: Terms, w: nat, k: nat, v: map<Bus, seq<bool>>)
    requires w > 0 && 4 <= k < 9 && SumsFit(t, w) && CorrectTo(t, w, k, v)
    ensures CorrectTo(t, w, k + 1, EvalLine(RoundLines(w)[k], w, v, false))
  {
    var (a, b, out) := AddNets(k);
    AddShape(w, k);
    AddNum(t, w, k);
    AdderLine(t, w, k, v, a, b, out);
  }

  /** Every line keeps the nets before it correct and drives its own correctly. */
  lemma LineCorrect(t: Terms, w: nat, k: nat, v: map<Bus, seq<bool>>)
    requires w > 0 && TermsFit(t, w) && k < 9 && CorrectTo(t, w, k, v)
    ensures CorrectTo(t, w, k + 1, EvalLine(RoundLines(w)[k], w, v, false))
  {
    if k < 2 {
      SigmaLineCorrect(t, w, k, v);
    } else if k < 4 {
      SelectLineCorrect(t, w, k, v);
    } else {
      AddLineCorrect(t, w, k, v);
    }
  }

  lemma {:induction false} LinesCorrect(t: Terms, w: nat, k: nat, v: map<Bus, seq<bool>>)
    requires w > 0 && TermsFit(t, w) && k <= 9 && CorrectTo(t, w, k, v)
    ensures CorrectTo(t, w, 9, EvalLines(RoundLines(w)[k..], w, v, false))
    decreases 9 - k
  {
    if k < 9 {
      LineCorrect(t, w, k, v);
      var line, lines := RoundLines(w)[k], RoundLines(w)[k..];
      assert lines[0] == line && lines[1..] == RoundLines(w)[k + 1..];
      LinesCorrect(t, w, k + 1, EvalLine(line, w, v, false));
    }
  }

  lemma Quotient(x: nat, p: nat, r: nat) returns (q: nat)
    requires p > 0 && r == x % p
    ensures x == q * p + r
  {
    q := x / p;
  }

  /** Masking takes off a multiple of the word. */
  lemma MaskSplit(x: nat, w: nat) returns (q: nat)
    ensures x == q * Pow2(w) + And(x, Mask(w))
  {
    MaskIsMod(x, w);
    q := Quotient(x, Pow2(w), And(x, Mask(w)));
  }

  lemma MaskUnique(x: nat, q: nat, r: nat, w: nat)
    requires x == q * Pow2(w) + r && r < Pow2(w)
    ensures And(x, Mask(w)) == r
  {
    MaskIsMod(x, w);
    ModUnique(x, Pow2(w), q, r);
  }

  /** The reference masks once where the netlist reduces after every addition. */
  lemma NestedSums(a: nat, b: nat, c: nat, w: nat)
    ensures And(a + b + c, Mask(w)) == SumRef(SumRef(a, b, w), c, w)
  {
    var inner := SumRef(a, b, w);
    var r := SumRef(inner, c, w);
    var q1 := MaskSplit(a + b, w);
    var q2 := MaskSplit(inner + c, w);
    assert (q1 + q2) * Pow2(w) == q1 * Pow2(w) + q2 * Pow2(w);
    MaskBelow(inner + c, w);
    MaskUnique(a + b + c, q1 + q2, r, w);
  }

  lemma OutputSums(t: Terms, w: nat)
    requires SumsFit(t, w)
    ensures (t.an, t.en) == RoundSums(t.x.d, t.x.h, t.s0, t.s1, t.ch, t.mj, w)
  {
    NestedSums(t.x.h, t.s1, t.ch, w);
  }

  function ReferenceTerms(x: Inputs, w: nat): (t: Terms)
    requires w > 0 && Below(x, w)
    ensures TermsFit(t, w) && t.x == x
  {
    var s0, s1 := Sigma(x.a, RotSched(w), w), Sigma(x.e, Reversed(RotSched(w)), w);
    var ch, mj := ChooseRef(x.e, x.f, x.g, w), MajRef(x.a, x.b, x.c);
    var t1a, t2 := SumRef(x.h, s1, w), SumRef(s0, mj, w);
    var t1 := SumRef(t1a, ch, w);
    Terms(x, s0, s1, ch, mj, t1a, t1, t2, SumRef(t1, t2, w), SumRef(x.d, t1, w))
  }

  lemma RoundNets(t: Terms, w: nat, v: map<Bus, seq<bool>>)
    requires w > 0 && TermsFit(t, w) && CorrectTo(t, w, 0, v)
    ensures CorrectTo(t, w, 9, EvalLines(RoundLines(w), w, v, false))
  {
    LinesCorrect(t, w, 0, v);
    assert RoundLines(w)[0..] == RoundLines(w);
  }

  lemma LastNets(t: Terms, w: nat, v: map<Bus, seq<bool>>)
    requires CorrectTo(t, w, 9, v)
    ensures Carried(v, NetAn, t.an, w) && Carried(v, NetEn, t.en, w)
  {
    NetCarries(t, w, 9, v, NetAn);
    NetCarries(t, w, 9, v, NetEn);
  }

  lemma OutputNets(x: Inputs, w: nat)
    requires w > 0 && Below(x, w)
    ensures var v := EvalLines(RoundLines(w), w, InputNets(x, w), false);
      Carried(v, NetAn, ShaRound(x, w).0, w) && Carried(v, NetEn, ShaRound(x, w).1, w)
  {
    var t := ReferenceTerms(x, w);
    InputsCorrect(t, w);
    RoundNets(t, w, InputNets(x, w));
    LastNets(t, w, EvalLines(RoundLines(w), w, InputNets(x, w), false));
    OutputSums(t, w);
  }

  /** For every width of at least one bit and all inputs of that width, with the carry-in
      at zero, the emitted round drives its two output buses with the reference's results. */
  lemma RoundComputesReference(x: Inputs, w: nat)
    requires w > 0 && Below(x, w)
    ensures var v := EvalLines(RoundLines(w), w, InputNets(x, w), false);
      && NetAn in v && |v[NetAn]| == w && Val(v[NetAn]) == ShaRound(x, w).0
      && NetEn in v && |v[NetEn]| == w && Val(v[NetEn]) == ShaRound(x, w).1
  {
    OutputNets(x, w);
    var v := EvalLines(RoundLines(w), w, InputNets(x, w), false);
    BusCarries(v[NetAn], ShaRound(x, w).0);
    BusCarries(v[NetEn], ShaRound(x, w).1);
  }
}
