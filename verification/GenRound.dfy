/**
 The netlist generator for a SHA-style round of any width, and its arithmetic reference.

 The generator emits one block each for the two sigma functions, choose, majority and a
 ripple-carry adder, and a top level that wires eight inputs through them.  The reference
 computes the same round on integers.
 */
module GenRound {
  import opened Bits
  import opened ModMath
  import opened NclCells

  // ---------- the arithmetic reference ----------

  function RotSched(w: nat): (nat, nat, nat) {
    if w >= 8 then (2, Max(3, w / 3), Max(5, 2 * w / 3)) else (1, 2, 3)
  }

  function Max(a: nat, b: nat): nat {
    if a > b then a else b
  }

  function Mask(w: nat): nat {
    Pow2(w) - 1
  }

  /** Rotate right in `w` bits. */
  function Rotr(x: nat, n: nat, w: nat): nat
    requires w > 0
  {
    And(Or(ShiftRight(x, n % w), ShiftLeft(x, w - n % w)), Mask(w))
  }

  datatype Inputs = Inputs(a: nat, b: nat, c: nat, d: nat, e: nat, f: nat, g: nat, h: nat)

  predicate Below(x: Inputs, w: nat) {
    && x.a < Pow2(w) && x.b < Pow2(w) && x.c < Pow2(w) && x.d < Pow2(w)
    && x.e < Pow2(w) && x.f < Pow2(w) && x.g < Pow2(w) && x.h < Pow2(w)
  }

  function Sigma(x: nat, rot: (nat, nat, nat), w: nat): nat
    requires w > 0
  {
    Xor(Xor(Rotr(x, rot.0, w), Rotr(x, rot.1, w)), Rotr(x, rot.2, w))
  }

  function Reversed(rot: (nat, nat, nat)): (nat, nat, nat) {
    (rot.2, rot.1, rot.0)
  }

  function ChooseRef(e: nat, f: nat, g: nat, w: nat): nat
    requires e < Pow2(w)
  {
    And(Or(And(e, f), And(Not(w, e), g)), Mask(w))
  }

  function MajRef(a: nat, b: nat, c: nat): nat {
    Or(Or(And(a, b), And(a, c)), And(b, c))
  }

  /** `sha_round`: the two outputs. */
  function ShaRound(x: Inputs, w: nat): (nat, nat)
    requires w > 0 && Below(x, w)
  {
    var s0 := Sigma(x.a, RotSched(w), w);
    var s1 := Sigma(x.e, Reversed(RotSched(w)), w);
    var ch := ChooseRef(x.e, x.f, x.g, w);
    var mj := MajRef(x.a, x.b, x.c);
    RoundSums(x.d, x.h, s0, s1, ch, mj, w)
  }

  /** The additions of the round. */
  function RoundSums(d: nat, h: nat, s0: nat, s1: nat, ch: nat, mj: nat, w: nat): (nat, nat) {
    var t1 := And(h + s1 + ch, Mask(w));
    var t2 := And(s0 + mj, Mask(w));
    (And(t1 + t2, Mask(w)), And(d + t1, Mask(w)))
  }

  // ---------- the emitted netlist ----------

  function SigmaInst(w: nat, rot: (nat, nat, nat), i: nat): Inst
    requires w > 0
  {
    Inst(Xor3, [Pin(NetX, (i + rot.0) % w), Pin(NetX, (i + rot.1) % w), Pin(NetX, (i + rot.2) % w)], [Pin(NetY, i)])
  }

  function ChInst(i: nat): Inst {
    Inst(Choose, [Pin(NetE, i), Pin(NetF, i), Pin(NetG, i)], [Pin(NetY, i)])
  }

  function MajInst(i: nat): Inst {
    Inst(Maj3, [Pin(NetA, i), Pin(NetB, i), Pin(NetC, i)], [Pin(NetY, i)])
  }

  function CarryInPin(i: nat): Pin {
    if i == 0 then Pin(CarryIn, 0) else Pin(Carry, i)
  }

  function CarryOutPin(w: nat, i: nat): Pin {
    if i + 1 == w then Pin(CarryOut, 0) else Pin(Carry, i + 1)
  }

  function AddInst(w: nat, i: nat): Inst {
    Inst(FullAdder, [Pin(NetA, i), Pin(NetB, i), CarryInPin(i)], [Pin(NetS, i), CarryOutPin(w, i)])
  }

  datatype Block = SigmaBlock(rot: (nat, nat, nat)) | ChBlock | MajBlock | AddBlock

  function InstOf(k: Block, w: nat, i: nat): Inst
    requires w > 0
  {
    match k
    case SigmaBlock(rot) => SigmaInst(w, rot, i)
    case ChBlock => ChInst(i)
    case MajBlock => MajInst(i)
    case AddBlock => AddInst(w, i)
  }

  /** Instances `i..w` of a block. */
  function Emitted(k: Block, w: nat, i: nat): (insts: seq<Inst>)
    requires w > 0 && i <= w
    ensures |insts| == w - i
    decreases w - i
  {
    if i == w then [] else [InstOf(k, w, i)] + Emitted(k, w, i + 1)
  }

  lemma EmitNext(lines: seq<Inst>, x: Inst, rest: seq<Inst>)
    ensures lines + ([x] + rest) == (lines + [x]) + rest
  {
  }

  /** The emitters: one instance per bit, in bit order. */
  method EmitBlock(k: Block, w: nat) returns (lines: seq<Inst>)
    requires w > 0
    ensures lines == Emitted(k, w, 0)
  {
    lines := [];
    var i := 0;
    while i < w
      invariant 0 <= i <= w && lines + Emitted(k, w, i) == Emitted(k, w, 0)
    {
      EmitNext(lines, InstOf(k, w, i), Emitted(k, w, i + 1));
      lines := lines + [InstOf(k, w, i)];
      i := i + 1;
    }
    assert lines + [] == lines;
  }

  /** One block instance of the top level: its input nets by formal bus name, and the net
      its output bus drives. */
  datatype Wiring = Wiring(block: Block, ins: seq<(Bus, Bus)>, outBus: Bus, outNet: Bus)

  /** The top level, line by line. */
  function RoundLines(w: nat): seq<Wiring> {
    var rot := RotSched(w);
    [ Wiring(SigmaBlock(rot), [(NetX, NetA)], NetY, NetS0),
      Wiring(SigmaBlock(Reversed(rot)), [(NetX, NetE)], NetY, NetS1),
      Wiring(ChBlock, [(NetE, NetE), (NetF, NetF), (NetG, NetG)], NetY, NetCh),
      Wiring(MajBlock, [(NetA, NetA), (NetB, NetB), (NetC, NetC)], NetY, NetMj),
      Wiring(AddBlock, [(NetA, NetH), (NetB, NetS1)], NetS, NetT1a),
      Wiring(AddBlock, [(NetA, NetT1a), (NetB, NetCh)], NetS, NetT1),
      Wiring(AddBlock, [(NetA, NetS0), (NetB, NetMj)], NetS, NetT2),
      Wiring(AddBlock, [(NetA, NetT1), (NetB, NetT2)], NetS, NetAn),
      Wiring(AddBlock, [(NetA, NetD), (NetB, NetT1)], NetS, NetEn) ]
  }

  // ---------- evaluating it ----------

  function Wire(v: map<Bus, seq<bool>>, net: Bus): seq<bool> {
    if net in v then v[net] else []
  }

  function BusPins(name: Bus, bits: seq<bool>): map<Pin, bool> {
    map i | 0 <= i < |bits| :: Pin(name, i) := bits[i]
  }

  /** The pins of a block's ports, given the nets they are connected to; an adder's
      carry-in is tied to the round's. */
  function PortPins(ins: seq<(Bus, Bus)>, v: map<Bus, seq<bool>>, cin: bool): map<Pin, bool> {
    if ins == [] then map[Pin(CarryIn, 0) := cin]
    else PortPins(ins[1..], v, cin) + BusPins(ins[0].0, Wire(v, ins[0].1))
  }

  function ReadBus(env: map<Pin, bool>, name: Bus, w: nat): (bits: seq<bool>)
    ensures |bits| == w
  {
    seq(w, i requires 0 <= i => Get(env, Pin(name, i)))
  }

  function EvalLine(x: Wiring, w: nat, v: map<Bus, seq<bool>>, cin: bool): map<Bus, seq<bool>>
    requires w > 0
  {
    v[x.outNet := ReadBus(Run(Emitted(x.block, w, 0), PortPins(x.ins, v, cin)), x.outBus, w)]
  }

  /** The nets after all lines. */
  function EvalLines(lines: seq<Wiring>, w: nat, v: map<Bus, seq<bool>>, cin: bool): map<Bus, seq<bool>>
    requires w > 0
    decreases |lines|
  {
    if lines == [] then v else EvalLines(lines[1..], w, EvalLine(lines[0], w, v, cin), cin)
  }

  function BitsOf(x: nat, w: nat): (v: seq<bool>)
    ensures |v| == w
  {
    seq(w, i requires 0 <= i => Bit(x, i))
  }

  /** The number on a bus. */
  function Val(v: seq<bool>): nat {
    if v == [] then 0 else Num(v[0]) + 2 * Val(v[1..])
  }

  function InputNets(x: Inputs, w: nat): map<Bus, seq<bool>> {
    map[NetA := BitsOf(x.a, w), NetB := BitsOf(x.b, w), NetC := BitsOf(x.c, w), NetD := BitsOf(x.d, w),
        NetE := BitsOf(x.e, w), NetF := BitsOf(x.f, w), NetG := BitsOf(x.g, w), NetH := BitsOf(x.h, w)]
  }

  // ---------- bits and numbers ----------

  lemma {:induction false} ValBit(v: seq<bool>, i: nat)
    ensures Bit(Val(v), i) == (i < |v| && v[i])
    ensures Val(v) < Pow2(|v|)
    decreases |v|
  {
    if v == [] {
      BitOfZero(i);
    } else {
      assert Val(v) / 2 == Val(v[1..]) && Val(v) % 2 == Num(v[0]);
      ValBit(v[1..], if i == 0 then 0 else i - 1);
    }
  }

  /** A bus whose bits are those of a number carries it. */
  lemma BusCarries(v: seq<bool>, x: nat)
    requires x < Pow2(|v|) && forall i :: 0 <= i < |v| ==> v[i] == Bit(x, i)
    ensures Val(v) == x
  {
    ValBit(v, 0);
    forall i | 0 <= i < |v|
      ensures Bit(Val(v), i) == Bit(x, i)
    {
      ValBit(v, i);
    }
    SameBits(Val(v), x, |v|);
  }

  lemma {:induction false} ShiftRightBit(x: nat, n: nat, i: nat)
    ensures Bit(ShiftRight(x, n), i) == Bit(x, i + n)
  {
    if n > 0 { ShiftRightBit(x / 2, n - 1, i); }
  }

  lemma {:induction false} ShiftLeftBit(x: nat, n: nat, i: nat)
    ensures Bit(ShiftLeft(x, n), i) == (i >= n && Bit(x, i - n))
  {
    if n > 0 {
      DoubleBit(ShiftLeft(x, n - 1), i);
      if i > 0 { ShiftLeftBit(x, n - 1, i - 1); }
    }
  }

  lemma DoubleBit(y: nat, i: nat)
    ensures Bit(2 * y, i) == (i > 0 && Bit(y, i - 1))
  {
    assert 2 * y % 2 == 0 && 2 * y / 2 == y;
  }

  lemma {:induction false} MaskBit(w: nat, i: nat)
    ensures Bit(Mask(w), i) == (i < w)
  {
    if w == 0 {
      BitOfZero(i);
    } else if i > 0 {
      assert Mask(w) / 2 == Mask(w - 1);
      MaskBit(w - 1, i - 1);
    }
  }

  lemma HalfMod(x: nat, p: nat)
    requires p > 0
    ensures x % (2 * p) == 2 * (x / 2 % p) + x % 2
  {
    var q, r := x / 2 / p, x / 2 % p;
    assert x / 2 == q * p + r;
    assert x == q * (2 * p) + (2 * r + x % 2) by { assert q * (2 * p) == 2 * (q * p); }
    ModUnique(x, 2 * p, q, 2 * r + x % 2);
  }

  /** Masking is reduction modulo the word. */
  lemma {:induction false} MaskIsMod(x: nat, w: nat)
    ensures And(x, Mask(w)) == x % Pow2(w)
  {
    if w == 0 {
      assert x % 1 == 0;
    } else if x == 0 {
      SmallMod(0, Pow2(w));
    } else {
      assert Mask(w) / 2 == Mask(w - 1) && Mask(w) % 2 == 1;
      MaskIsMod(x / 2, w - 1);
      HalfMod(x, Pow2(w - 1));
    }
  }

  lemma MaskBelow(x: nat, w: nat)
    ensures And(x, Mask(w)) < Pow2(w)
  {
    MaskIsMod(x, w);
  }

  /** Rotation moves bit `i + n` to bit `i`, around the word. */
  lemma RotrBit(x: nat, n: nat, w: nat, i: nat)
    requires 0 < w && i < w && x < Pow2(w)
    ensures Bit(Rotr(x, n, w), i) == Bit(x, (i + n) % w)
    ensures Rotr(x, n, w) < Pow2(w)
  {
    var m := n % w;
    var l, r := ShiftLeft(x, w - m), ShiftRight(x, m);
    MaskBelow(Or(r, l), w);
    AndBit(Or(r, l), Mask(w), i);
    MaskBit(w, i);
    OrBit(r, l, i);
    ShiftRightBit(x, m, i);
    ShiftLeftBit(x, w - m, i);
    ModAdd(n, i, w);
    ModSmallSum(m, i, w);
    if i + m >= w {
      HighBitsZero(x, w, i + m);
    }
  }

  // ---------- running one block ----------

  lemma RunFirst(insts: seq<Inst>, env: map<Pin, bool>)
    requires insts != [] && ValidInst(insts[0])
    ensures var x := insts[0];
      Run(insts, env) ==
        Run(insts[1..], Drive(env, x.outs, Logic(x.cell, [Get(env, x.ins[0]), Get(env, x.ins[1]), Get(env, x.ins[2])])))
  {
  }

  /** The function of a one-output block at bit `j`. */
  function FlatBit(k: Block, w: nat, env: map<Pin, bool>, j: nat): bool
    requires w > 0 && !k.AddBlock?
  {
    var x := InstOf(k, w, j);
    Logic(x.cell, [Get(env, x.ins[0]), Get(env, x.ins[1]), Get(env, x.ins[2])])[0]
  }

  lemma FlatFirst(k: Block, w: nat, i: nat, env: map<Pin, bool>)
    requires i < w && !k.AddBlock?
    ensures Run(Emitted(k, w, i), env) == Run(Emitted(k, w, i + 1), env[Pin(NetY, i) := FlatBit(k, w, env, i)])
  {
    var x := InstOf(k, w, i);
    RunFirst(Emitted(k, w, i), env);
    assert Emitted(k, w, i)[1..] == Emitted(k, w, i + 1);
    assert Drive(env, x.outs, [FlatBit(k, w, env, i)]) == env[Pin(NetY, i) := FlatBit(k, w, env, i)];
  }

  lemma ReadsInputs(k: Block, w: nat, j: nat)
    requires w > 0 && !k.AddBlock?
    ensures var x := InstOf(k, w, j);
      |x.ins| == 3 && x.ins[0].bus != NetY && x.ins[1].bus != NetY && x.ins[2].bus != NetY
  {
  }

  lemma OtherPin(env: map<Pin, bool>, i: nat, b: bool, p: Pin)
    requires p.bus != NetY
    ensures Get(env[Pin(NetY, i) := b], p) == Get(env, p)
  {
  }

  /** The cells read no output pin of their block. */
  lemma FlatFrame(k: Block, w: nat, env: map<Pin, bool>, i: nat, b: bool, j: nat)
    requires w > 0 && !k.AddBlock?
    ensures FlatBit(k, w, env[Pin(NetY, i) := b], j) == FlatBit(k, w, env, j)
  {
    ReadsInputs(k, w, j);
    var x := InstOf(k, w, j);
    OtherPin(env, i, b, x.ins[0]);
    OtherPin(env, i, b, x.ins[1]);
    OtherPin(env, i, b, x.ins[2]);
  }

  /** A block without carries: output bit `j` is its cell's function of the input pins. */
  lemma {:induction false} FlatRun(k: Block, w: nat, i: nat, env: map<Pin, bool>, j: nat)
    requires w > 0 && !k.AddBlock? && i <= w && j < w
    ensures Get(Run(Emitted(k, w, i), env), Pin(NetY, j)) ==
      if i <= j then FlatBit(k, w, env, j) else Get(env, Pin(NetY, j))
    decreases w - i
  {
    if i < w {
      var b := FlatBit(k, w, env, i);
      FlatFirst(k, w, i, env);
      FlatRun(k, w, i + 1, env[Pin(NetY, i) := b], j);
      FlatFrame(k, w, env, i, b, j);
    }
  }

  /** The pin that carries into stage `i`, or out of the last one. */
  function CarryPin(w: nat, i: nat): Pin {
    if i == 0 then Pin(CarryIn, 0) else if i == w then Pin(CarryOut, 0) else Pin(Carry, i)
  }

  /** The number on bits `i..w` of a bus. */
  function NumFrom(env: map<Pin, bool>, name: Bus, i: nat, w: nat): nat
    requires i <= w
    decreases w - i
  {
    if i == w then 0 else Num(Get(env, Pin(name, i))) + 2 * NumFrom(env, name, i + 1, w)
  }

  lemma {:induction false} NumFrame(env: map<Pin, bool>, env': map<Pin, bool>, name: Bus, i: nat, w: nat)
    requires i <= w && forall j :: i <= j < w ==> Get(env', Pin(name, j)) == Get(env, Pin(name, j))
    ensures NumFrom(env', name, i, w) == NumFrom(env, name, i, w)
    decreases w - i
  {
    if i < w { NumFrame(env, env', name, i + 1, w); }
  }

  /** One full adder: sum and carry together are the sum of the three inputs. */
  lemma FullAdderAdds(a: bool, b: bool, c: bool)
    ensures var r := Logic(FullAdder, [a, b, c]);
      Num(r[0]) + 2 * Num(r[1]) == Num(a) + Num(b) + Num(c)
  {
  }

  function CarryWeight(co: bool, p: nat): nat {
    if co then p else 0
  }

  /** The pins after one adder stage. */
  function AddStage(w: nat, i: nat, env: map<Pin, bool>): map<Pin, bool> {
    var r := Logic(FullAdder, [Get(env, Pin(NetA, i)), Get(env, Pin(NetB, i)), Get(env, CarryInPin(i))]);
    env[Pin(NetS, i) := r[0]][CarryOutPin(w, i) := r[1]]
  }

  lemma AddFirst(w: nat, i: nat, env: map<Pin, bool>)
    requires i < w
    ensures Run(Emitted(AddBlock, w, i), env) == Run(Emitted(AddBlock, w, i + 1), AddStage(w, i, env))
  {
    var x := InstOf(AddBlock, w, i);
    RunFirst(Emitted(AddBlock, w, i), env);
    assert Emitted(AddBlock, w, i)[1..] == Emitted(AddBlock, w, i + 1);
    var vals := Logic(FullAdder, [Get(env, x.ins[0]), Get(env, x.ins[1]), Get(env, x.ins[2])]);
    var env1 := env[x.outs[0] := vals[0]];
    assert x.outs[1..] == [x.outs[1]] && vals[1..] == [vals[1]];
    assert Drive(env1, [x.outs[1]], [vals[1]]) == env1[x.outs[1] := vals[1]];
    assert Drive(env, x.outs, vals) == env1[x.outs[1] := vals[1]];
  }

  /** The later stages leave the sum bits below them alone. */
  lemma {:induction false} AddKeeps(w: nat, i: nat, env: map<Pin, bool>, j: nat)
    requires i <= w && w > 0 && j < i
    ensures Get(Run(Emitted(AddBlock, w, i), env), Pin(NetS, j)) == Get(env, Pin(NetS, j))
    decreases w - i
  {
    if i < w {
      AddFirst(w, i, env);
      AddKeeps(w, i + 1, AddStage(w, i, env), j);
    }
  }

  /** What the adder's stages from `i` on must achieve. */
  ghost predicate AddsFrom(w: nat, i: nat, env: map<Pin, bool>, r: map<Pin, bool>)
    requires i < w
  {
    NumFrom(r, NetS, i, w) + CarryWeight(Get(r, Pin(CarryOut, 0)), Pow2(w - i)) ==
    NumFrom(env, NetA, i, w) + NumFrom(env, NetB, i, w) + Num(Get(env, CarryPin(w, i)))
  }

  lemma LastStage(w: nat, env: map<Pin, bool>)
    requires w > 0
    ensures AddsFrom(w, w - 1, env, AddStage(w, w - 1, env))
  {
    FullAdderAdds(Get(env, Pin(NetA, w - 1)), Get(env, Pin(NetB, w - 1)), Get(env, CarryInPin(w - 1)));
    assert Pow2(1) == 2;
  }

  lemma EarlierStage(w: nat, i: nat, env: map<Pin, bool>, r: map<Pin, bool>)
    requires i + 1 < w && AddsFrom(w, i + 1, AddStage(w, i, env), r)
    requires Get(r, Pin(NetS, i)) == Get(AddStage(w, i, env), Pin(NetS, i))
    ensures AddsFrom(w, i, env, r)
  {
    var env1 := AddStage(w, i, env);
    NumFrame(env, env1, NetA, i + 1, w);
    NumFrame(env, env1, NetB, i + 1, w);
    FullAdderAdds(Get(env, Pin(NetA, i)), Get(env, Pin(NetB, i)), Get(env, CarryInPin(i)));
    assert Pow2(w - i) == 2 * Pow2(w - i - 1);
  }

  lemma LastAdds(w: nat, env: map<Pin, bool>, r: map<Pin, bool>)
    requires w > 0 && r == Run(Emitted(AddBlock, w, w), AddStage(w, w - 1, env))
    ensures AddsFrom(w, w - 1, env, r)
  {
    LastStage(w, env);
    assert Emitted(AddBlock, w, w) == [];
  }

  /** The ripple adder adds: sum plus weighted carry-out is the sum of what comes in. */
  lemma {:induction false} AddRun(w: nat, i: nat, env: map<Pin, bool>, r: map<Pin, bool>)
    requires i < w && r == Run(Emitted(AddBlock, w, i), env)
    ensures AddsFrom(w, i, env, r)
    decreases w - i
  {
    AddFirst(w, i, env);
    if i + 1 == w {
      LastAdds(w, env, r);
    } else {
      AddRun(w, i + 1, AddStage(w, i, env), r);
      FromNextStage(w, i, env, r);
    }
  }

  lemma FromNextStage(w: nat, i: nat, env: map<Pin, bool>, r: map<Pin, bool>)
    requires i + 1 < w && AddsFrom(w, i + 1, AddStage(w, i, env), r)
    requires r == Run(Emitted(AddBlock, w, i + 1), AddStage(w, i, env))
    ensures AddsFrom(w, i, env, r)
  {
    AddKeeps(w, i + 1, AddStage(w, i, env), i);
    EarlierStage(w, i, env, r);
  }

  /** An instance that reads only driven pins and drives output pin `j`, which is not. */
  ghost predicate FlatInst(x: Inst, j: nat, driven: set<Pin>) {
    && ValidInst(x) && x.outs == [Pin(NetY, j)] && Pin(NetY, j) !in driven
    && x.ins[0] in driven && x.ins[1] in driven && x.ins[2] in driven
  }

  ghost predicate FlatAll(insts: seq<Inst>, i: nat, driven: set<Pin>) {
    forall n :: 0 <= n < |insts| ==> FlatInst(insts[n], i + n, driven)
  }

  lemma {:induction false} FlatSeqOrdered(insts: seq<Inst>, i: nat, driven: set<Pin>)
    requires FlatAll(insts, i, driven)
    ensures Ordered(insts, driven)
    decreases |insts|
  {
    if insts != [] {
      assert FlatInst(insts[0], i, driven);
      assert Outs(insts[0]) == {Pin(NetY, i)};
      forall n | 0 <= n < |insts| - 1
        ensures FlatInst(insts[1..][n], i + 1 + n, driven + Outs(insts[0]))
      {
        assert FlatInst(insts[n + 1], i + (n + 1), driven);
      }
      FlatSeqOrdered(insts[1..], i + 1, driven + Outs(insts[0]));
    }
  }

  lemma {:induction false} EmittedAt(k: Block, w: nat, i: nat, n: nat)
    requires w > 0 && i + n < w
    ensures Emitted(k, w, i)[n] == InstOf(k, w, i + n)
    decreases n
  {
    if n > 0 { EmittedAt(k, w, i + 1, n - 1); }
  }

  lemma EmittedFlat(k: Block, w: nat, n: nat, driven: set<Pin>)
    requires n < w && !k.AddBlock?
    requires forall p: Pin :: PortOf(k, p.bus) && p.i < w ==> p in driven
    requires Pin(NetY, n) !in driven
    ensures FlatInst(InstOf(k, w, n), n, driven)
  {
    InputPorts(k, w, n);
  }

  /** The emitted blocks pass their data on in order: every instance reads pins that are
      driven before it. */
  lemma FlatOrdered(k: Block, w: nat, driven: set<Pin>)
    requires w > 0 && !k.AddBlock?
    requires forall p: Pin :: PortOf(k, p.bus) && p.i < w ==> p in driven
    requires forall j :: 0 <= j < w ==> Pin(NetY, j) !in driven
    ensures Ordered(Emitted(k, w, 0), driven)
  {
    var insts := Emitted(k, w, 0);
    forall n | 0 <= n < w
      ensures FlatInst(insts[n], 0 + n, driven)
    {
      EmittedAt(k, w, 0, n);
      EmittedFlat(k, w, n, driven);
    }
    FlatSeqOrdered(insts, 0, driven);
  }

  predicate PortOf(k: Block, b: Bus) {
    match k
    case SigmaBlock(_) => b == NetX
    case ChBlock => b == NetE || b == NetF || b == NetG
    case MajBlock => b == NetA || b == NetB || b == NetC
    case AddBlock => b == NetA || b == NetB
  }

  lemma InputPorts(k: Block, w: nat, i: nat)
    requires i < w && !k.AddBlock?
    ensures var x := InstOf(k, w, i);
      && ValidInst(x) && x.outs == [Pin(NetY, i)]
      && PortOf(k, x.ins[0].bus) && PortOf(k, x.ins[1].bus) && PortOf(k, x.ins[2].bus)
      && x.ins[0].i < w && x.ins[1].i < w && x.ins[2].i < w
  {
  }

  lemma {:induction false} AddOrdered(w: nat, i: nat, driven: set<Pin>)
    requires w > 0 && i <= w
    requires forall j :: 0 <= j < w ==> Pin(NetA, j) in driven && Pin(NetB, j) in driven
    requires i < w ==> CarryInPin(i) in driven
    requires forall j :: i <= j < w ==> Pin(NetS, j) !in driven && CarryOutPin(w, j) !in driven
    ensures Ordered(Emitted(AddBlock, w, i), driven)
    decreases w - i
  {
    if i < w {
      var x := InstOf(AddBlock, w, i);
      assert Emitted(AddBlock, w, i)[1..] == Emitted(AddBlock, w, i + 1);
      assert x.outs[1] in Outs(x);
      AddOrdered(w, i + 1, driven + Outs(x));
    }
  }
}
