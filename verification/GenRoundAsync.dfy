/**
 The emitted round, gate by gate and in any order: whatever the order in which inputs
 arrive and gates fire, a null wave resets it and a data wave puts the reference's results
 on its output rails, and no wrong rail is ever up.
 */
module GenRoundAsync {
  import opened NclCells
  import opened NclAsync
  import opened GenRound
  import opened GenRoundTheorem
  import opened GenRoundRails
  import opened GenRoundGates

  // ---------- the round has no cycles ----------

  /** Where a node is driven: the line, the instance in it, and the place in the instance. */
  datatype Place = Place(line: nat, inst: nat, k: nat)

  predicate Before(a: Place, b: Place) {
    a.line < b.line || (a.line == b.line && (a.inst < b.inst || (a.inst == b.inst && a.k < b.k)))
  }

  function PlaceOf(w: nat, n: Node): Place {
    match n
    case Inner(line, inst, k) => Place(line, inst, k)
    case Wire(line, pin, h) =>
      if line > 0 then
        var inst := if pin.bus == CarryOut && w > 0 then w - 1 else if pin.i > 0 then pin.i - 1 else 0;
        Place(line, inst, if h then 10 else 11)
      else if pin.bus == CarryIn then Place(0, 0, 0)
      else Place(Rank(pin.bus), pin.i, if h then 13 else 14)
  }

  function Places(w: nat): Node -> Place {
    (n: Node) => PlaceOf(w, n)
  }

  /** A gate's inputs are driven before it. */
  ghost predicate InsBefore(place: Node -> Place, g: Gate) {
    forall j :: 0 <= j < |g.ins| ==> Before(place(g.ins[j]), place(g.out))
  }

  /** The gates stand in the order of their places, between `lo` and `hi`. */
  ghost predicate Sorted(place: Node -> Place, gates: seq<Gate>, lo: Place, hi: Place) {
    && (forall i {:trigger Placed(place, gates, i, lo, hi)} :: 0 <= i < |gates| ==> Placed(place, gates, i, lo, hi))
    && (forall i, j {:trigger Follows(place, gates, i, j)} :: 0 <= i < j < |gates| ==> Follows(place, gates, i, j))
  }

  ghost predicate Placed(place: Node -> Place, gates: seq<Gate>, i: nat, lo: Place, hi: Place)
    requires i < |gates|
  {
    InsBefore(place, gates[i]) && !Before(place(gates[i].out), lo) && Before(place(gates[i].out), hi)
  }

  predicate Follows(place: Node -> Place, gates: seq<Gate>, i: nat, j: nat)
    requires i < |gates| && j < |gates|
  {
    Before(place(gates[i].out), place(gates[j].out))
  }

  lemma SortedJoin(place: Node -> Place, a: seq<Gate>, b: seq<Gate>, lo: Place, mid: Place, hi: Place)
    requires Sorted(place, a, lo, mid) && Sorted(place, b, mid, hi) && !Before(mid, lo) && !Before(hi, mid)
    ensures Sorted(place, a + b, lo, hi)
  {
    var ab := a + b;
    forall i | 0 <= i < |ab|
      ensures Placed(place, ab, i, lo, hi)
    {
      if i < |a| {
        assert Placed(place, a, i, lo, mid) && ab[i] == a[i];
      } else {
        assert Placed(place, b, i - |a|, mid, hi) && ab[i] == b[i - |a|];
      }
    }
    forall i, j | 0 <= i < j < |ab|
      ensures Follows(place, ab, i, j)
    {
      if j < |a| {
        assert Follows(place, a, i, j);
      } else if i >= |a| {
        assert Follows(place, b, i - |a|, j - |a|);
      } else {
        assert Placed(place, a, i, lo, mid) && Placed(place, b, j - |a|, mid, hi);
      }
    }
  }

  lemma SortedAcyclic(place: Node -> Place, gates: seq<Gate>, lo: Place, hi: Place)
    requires Sorted(place, gates, lo, hi)
    ensures Acyclic(gates)
  {
    forall k | 0 <= k < |gates|
      ensures GateInOrder(gates, k)
    {
      assert Placed(place, gates, k, lo, hi);
      forall i | 0 <= i < |gates| && i != k
        ensures gates[i].out != gates[k].out
      {
        if i < k {
          assert Follows(place, gates, i, k);
        } else {
          assert Follows(place, gates, k, i);
        }
      }
      forall j | 0 <= j < |gates[k].ins| && DrivenBy(gates, |gates|, gates[k].ins[j])
        ensures DrivenBy(gates, k, gates[k].ins[j])
      {
        var i :| 0 <= i < |gates| && gates[i].out == gates[k].ins[j];
        assert i > k ==> Follows(place, gates, k, i);
      }
    }
  }

  // ---------- cells ----------

  ghost predicate DrivenEarlier(place: Node -> Place, d: Dual, p: Place) {
    Before(place(d.h), p) && Before(place(d.l), p)
  }

  /** A signal driven by instance `inst` of a line, from place `k` on. */
  predicate DrivenAt(place: Node -> Place, d: Dual, line: nat, inst: nat, k: nat) {
    place(d.h) == Place(line, inst, k) && place(d.l) == Place(line, inst, k + 1)
  }

  /** The nodes inside an instance stand at their own places. */
  ghost predicate Inside(place: Node -> Place, line: nat, inst: nat) {
    forall k: nat :: place(Inner(line, inst, k)) == Place(line, inst, k)
  }

  /** Four 2-of-2 gates, and two or gates on them: the shape of an exclusive or and of a
      choose. */
  lemma AndsSorted(place: Node -> Place, gates: seq<Gate>, line: nat, inst: nat, k: nat)
    requires Inside(place, line, inst)
    requires |gates| == 4 && forall i :: 0 <= i < 4 ==>
      && gates[i].out == Inner(line, inst, k + i) && |gates[i].ins| == 2
      && Before(place(gates[i].ins[0]), Place(line, inst, k))
      && Before(place(gates[i].ins[1]), Place(line, inst, k))
    ensures Sorted(place, gates, Place(line, inst, k), Place(line, inst, k + 4))
  {
    forall i | 0 <= i < 4
      ensures InsBefore(place, gates[i])
    {
    }
  }

  lemma OrsSorted(place: Node -> Place, gates: seq<Gate>, y: Dual, line: nat, inst: nat, k: nat, yk: nat)
    requires Inside(place, line, inst)
    requires |gates| == 2 && gates[0].out == y.h && gates[1].out == y.l
    requires gates[0].ins == [Inner(line, inst, k), Inner(line, inst, k + 1)]
    requires gates[1].ins == [Inner(line, inst, k + 2), Inner(line, inst, k + 3)]
    requires DrivenAt(place, y, line, inst, yk) && yk >= k + 4
    ensures Sorted(place, gates, Place(line, inst, k + 4), Place(line, inst, yk + 2))
  {
  }

  lemma SixSorted(place: Node -> Place, gates: seq<Gate>, y: Dual, line: nat, inst: nat, k: nat, yk: nat)
    requires Inside(place, line, inst)
    requires |gates| == 6 && DrivenAt(place, y, line, inst, yk) && yk >= k + 4
    requires forall i :: 0 <= i < 4 ==>
      && gates[i].out == Inner(line, inst, k + i) && |gates[i].ins| == 2
      && Before(place(gates[i].ins[0]), Place(line, inst, k))
      && Before(place(gates[i].ins[1]), Place(line, inst, k))
    requires gates[4].out == y.h && gates[4].ins == [Inner(line, inst, k), Inner(line, inst, k + 1)]
    requires gates[5].out == y.l && gates[5].ins == [Inner(line, inst, k + 2), Inner(line, inst, k + 3)]
    ensures Sorted(place, gates, Place(line, inst, k), Place(line, inst, yk + 2))
  {
    AndsSorted(place, gates[..4], line, inst, k);
    OrsSorted(place, gates[4..], y, line, inst, k, yk);
    SortedJoin(place, gates[..4], gates[4..], Place(line, inst, k), Place(line, inst, k + 4),
               Place(line, inst, yk + 2));
    assert gates[..4] + gates[4..] == gates;
  }

  lemma Xor2Sorted(place: Node -> Place, a: Dual, b: Dual, y: Dual, line: nat, inst: nat, k: nat, yk: nat)
    requires Inside(place, line, inst)
    requires DrivenEarlier(place, a, Place(line, inst, k)) && DrivenEarlier(place, b, Place(line, inst, k))
    requires DrivenAt(place, y, line, inst, yk) && yk >= k + 4
    ensures Sorted(place, Xor2Gates(a, b, y, line, inst, k), Place(line, inst, k), Place(line, inst, yk + 2))
  {
    SixSorted(place, Xor2Gates(a, b, y, line, inst, k), y, line, inst, k, yk);
  }

  lemma Xor3Sorted(place: Node -> Place, a: Dual, b: Dual, c: Dual, outs: seq<Dual>, line: nat, inst: nat)
    requires Inside(place, line, inst)
    requires |outs| == 1 && DrivenAt(place, outs[0], line, inst, 13)
    requires var here := Place(line, inst, 0);
      DrivenEarlier(place, a, here) && DrivenEarlier(place, b, here) && DrivenEarlier(place, c, here)
    ensures Sorted(place, CellGates(Xor3, a, b, c, outs, line, inst), Place(line, inst, 0), Place(line, inst, 15))
  {
    var t := Dual(Inner(line, inst, 4), Inner(line, inst, 5));
    Xor2Sorted(place, a, b, t, line, inst, 0, 4);
    Xor2Sorted(place, t, c, outs[0], line, inst, 6, 13);
    SortedJoin(place, Xor2Gates(a, b, t, line, inst, 0), Xor2Gates(t, c, outs[0], line, inst, 6),
               Place(line, inst, 0), Place(line, inst, 6), Place(line, inst, 15));
  }

  lemma ChooseSorted(place: Node -> Place, a: Dual, b: Dual, c: Dual, outs: seq<Dual>, line: nat, inst: nat)
    requires Inside(place, line, inst)
    requires |outs| == 1 && DrivenAt(place, outs[0], line, inst, 13)
    requires var here := Place(line, inst, 0);
      DrivenEarlier(place, a, here) && DrivenEarlier(place, b, here) && DrivenEarlier(place, c, here)
    ensures Sorted(place, CellGates(Choose, a, b, c, outs, line, inst), Place(line, inst, 0), Place(line, inst, 15))
  {
    SixSorted(place, CellGates(Choose, a, b, c, outs, line, inst), outs[0], line, inst, 0, 13);
  }

  /** The two gates that drive a signal. */
  lemma PairSorted(place: Node -> Place, g: Gate, h: Gate, d: Dual, line: nat, inst: nat, lo: nat, k: nat)
    requires g.out == d.h && h.out == d.l && DrivenAt(place, d, line, inst, k) && lo <= k
    requires InsBefore(place, g) && InsBefore(place, h)
    ensures Sorted(place, [g, h], Place(line, inst, lo), Place(line, inst, k + 2))
  {
  }

  lemma MajSorted(place: Node -> Place, a: Dual, b: Dual, c: Dual, outs: seq<Dual>, line: nat, inst: nat)
    requires |outs| == 1 && DrivenAt(place, outs[0], line, inst, 13)
    requires var here := Place(line, inst, 0);
      DrivenEarlier(place, a, here) && DrivenEarlier(place, b, here) && DrivenEarlier(place, c, here)
    ensures Sorted(place, CellGates(Maj3, a, b, c, outs, line, inst), Place(line, inst, 0), Place(line, inst, 15))
  {
    var g := CellGates(Maj3, a, b, c, outs, line, inst);
    PairSorted(place, g[0], g[1], outs[0], line, inst, 0, 13);
  }

  lemma AdderSorted(place: Node -> Place, a: Dual, b: Dual, c: Dual, outs: seq<Dual>, line: nat, inst: nat)
    requires |outs| == 2 && DrivenAt(place, outs[0], line, inst, 13) && DrivenAt(place, outs[1], line, inst, 10)
    requires var here := Place(line, inst, 0);
      DrivenEarlier(place, a, here) && DrivenEarlier(place, b, here) && DrivenEarlier(place, c, here)
    ensures Sorted(place, CellGates(FullAdder, a, b, c, outs, line, inst), Place(line, inst, 0), Place(line, inst, 15))
  {
    var g := CellGates(FullAdder, a, b, c, outs, line, inst);
    PairSorted(place, g[0], g[1], outs[1], line, inst, 0, 10);
    PairSorted(place, g[2], g[3], outs[0], line, inst, 12, 13);
    SortedJoin(place, [g[0], g[1]], [g[2], g[3]], Place(line, inst, 0), Place(line, inst, 12), Place(line, inst, 15));
    assert [g[0], g[1]] + [g[2], g[3]] == g;
  }

  lemma CellSorted(place: Node -> Place, cell: Cell, a: Dual, b: Dual, c: Dual, outs: seq<Dual>, line: nat, inst: nat)
    requires Inside(place, line, inst)
    requires |outs| == OutCount(cell) && DrivenAt(place, outs[0], line, inst, 13)
    requires cell.FullAdder? ==> DrivenAt(place, outs[1], line, inst, 10)
    requires var here := Place(line, inst, 0);
      DrivenEarlier(place, a, here) && DrivenEarlier(place, b, here) && DrivenEarlier(place, c, here)
    ensures Sorted(place, CellGates(cell, a, b, c, outs, line, inst), Place(line, inst, 0), Place(line, inst + 1, 0))
  {
    match cell {
      case Xor3 => Xor3Sorted(place, a, b, c, outs, line, inst);
      case Choose => ChooseSorted(place, a, b, c, outs, line, inst);
      case Maj3 => MajSorted(place, a, b, c, outs, line, inst);
      case FullAdder => AdderSorted(place, a, b, c, outs, line, inst);
    }
    Widen(place, CellGates(cell, a, b, c, outs, line, inst), Place(line, inst, 0), Place(line, inst, 15),
          Place(line, inst + 1, 0));
  }

  lemma Widen(place: Node -> Place, gates: seq<Gate>, lo: Place, hi: Place, hi': Place)
    requires Sorted(place, gates, lo, hi) && !Before(hi', hi)
    ensures Sorted(place, gates, lo, hi')
  {
    forall i | 0 <= i < |gates|
      ensures Placed(place, gates, i, lo, hi')
    {
      assert Placed(place, gates, i, lo, hi);
    }
  }

  // ---------- lines ----------

  /** Line `k` of the round reads nets of earlier lines. */
  ghost predicate Feeds(x: Wiring, line: nat) {
    && Rank(x.outNet) == line
    && (forall b :: PortOf(x.block, b) ==> b != CarryIn && b != x.outBus && NetOf(x.ins, b) != [])
    && (forall b :: NetOf(x.ins, b) != [] ==> NetOf(x.ins, b)[0] != CarryIn && Rank(NetOf(x.ins, b)[0]) < line)
    && NetOf(x.ins, Carry) == NetOf(x.ins, CarryOut) == []
    && x.outBus != Carry && x.outBus != CarryOut && x.outBus != CarryIn && x.outNet != CarryIn
  }

  lemma PortEarlier(x: Wiring, w: nat, line: nat, p: Pin, inst: nat)
    requires Feeds(x, line) && PortOf(x.block, p.bus)
    ensures DrivenEarlier(Places(w), DualOf(x, line, p), Place(line, inst, 0))
  {
  }

  lemma OutputPlace(x: Wiring, w: nat, line: nat, inst: nat)
    requires Feeds(x, line) && line > 0
    ensures DrivenAt(Places(w), DualOf(x, line, Pin(x.outBus, inst)), line, inst, 13)
  {
  }

  lemma CarryPlaces(x: Wiring, w: nat, line: nat, inst: nat)
    requires Feeds(x, line) && line > 0 && inst < w
    ensures DrivenEarlier(Places(w), DualOf(x, line, CarryInPin(inst)), Place(line, inst, 0))
    ensures DrivenAt(Places(w), DualOf(x, line, CarryOutPin(w, inst)), line, inst, 10)
  {
  }

  lemma InstSorted(x: Wiring, w: nat, line: nat, n: nat)
    requires Feeds(x, line) && line > 0 && n < w && x.outBus == OutBus(x.block)
    ensures ValidInst(InstOf(x.block, w, n))
    ensures Sorted(Places(w), InstGates(x, line, n, InstOf(x.block, w, n)), Place(line, n, 0), Place(line, n + 1, 0))
  {
    var i := InstOf(x.block, w, n);
    var outs := seq(|i.outs|, j requires 0 <= j < |i.outs| => DualOf(x, line, i.outs[j]));
    OutputPlace(x, w, line, n);
    if x.block.AddBlock? {
      PortEarlier(x, w, line, i.ins[0], n);
      PortEarlier(x, w, line, i.ins[1], n);
      CarryPlaces(x, w, line, n);
    } else {
      InputPorts(x.block, w, n);
      PortEarlier(x, w, line, i.ins[0], n);
      PortEarlier(x, w, line, i.ins[1], n);
      PortEarlier(x, w, line, i.ins[2], n);
    }
    CellSorted(Places(w), i.cell, DualOf(x, line, i.ins[0]), DualOf(x, line, i.ins[1]), DualOf(x, line, i.ins[2]), outs,
               line, n);
  }

  function Flat(parts: seq<seq<Gate>>): seq<Gate> {
    if parts == [] then [] else parts[0] + Flat(parts[1..])
  }

  /** Part `j` belongs to instance `n + j` of the line. */
  ghost predicate PartSorted(place: Node -> Place, parts: seq<seq<Gate>>, j: nat, line: nat, n: nat)
    requires j < |parts|
  {
    Sorted(place, parts[j], Place(line, n + j, 0), Place(line, n + j + 1, 0))
  }

  ghost predicate PartsInOrder(place: Node -> Place, parts: seq<seq<Gate>>, line: nat, n: nat) {
    forall j {:trigger PartSorted(place, parts, j, line, n)} :: 0 <= j < |parts| ==>
      PartSorted(place, parts, j, line, n)
  }

  lemma RestInOrder(place: Node -> Place, parts: seq<seq<Gate>>, line: nat, n: nat, m: nat)
    requires PartsInOrder(place, parts, line, n) && parts != [] && m == n + 1
    ensures Sorted(place, parts[0], Place(line, n, 0), Place(line, m, 0))
    ensures PartsInOrder(place, parts[1..], line, m)
  {
    assert PartSorted(place, parts, 0, line, n);
    forall j | 0 <= j < |parts[1..]|
      ensures PartSorted(place, parts[1..], j, line, m)
    {
      assert PartSorted(place, parts, j + 1, line, n);
    }
  }

  lemma {:induction false} PartsSorted(place: Node -> Place, parts: seq<seq<Gate>>, line: nat, n: nat)
    requires PartsInOrder(place, parts, line, n)
    ensures Sorted(place, Flat(parts), Place(line, n, 0), Place(line + 1, 0, 0))
    decreases |parts|
  {
    if parts != [] {
      var m := n + 1;
      RestInOrder(place, parts, line, n, m);
      PartsSorted(place, parts[1..], line, m);
      SortedJoin(place, parts[0], Flat(parts[1..]), Place(line, n, 0), Place(line, m, 0), Place(line + 1, 0, 0));
    }
  }

  function PartOf(x: Wiring, line: nat, n: nat, i: Inst): seq<Gate> {
    if ValidInst(i) then InstGates(x, line, n, i) else []
  }

  function PartsOf(x: Wiring, line: nat, n: nat, insts: seq<Inst>): (parts: seq<seq<Gate>>)
    ensures |parts| == |insts|
  {
    seq(|insts|, j requires 0 <= j < |insts| => PartOf(x, line, n + j, insts[j]))
  }

  lemma {:induction false} ListIsFlat(x: Wiring, line: nat, n: nat, insts: seq<Inst>)
    ensures ListGates(x, line, n, insts) == Flat(PartsOf(x, line, n, insts))
    decreases |insts|
  {
    if insts != [] {
      ListIsFlat(x, line, n + 1, insts[1..]);
      var parts := PartsOf(x, line, n, insts);
      assert parts[1..] == PartsOf(x, line, n + 1, insts[1..]);
    }
  }

  lemma ListInOrder(place: Node -> Place, x: Wiring, line: nat, n: nat, insts: seq<Inst>)
    requires PartsInOrder(place, PartsOf(x, line, n, insts), line, n)
    ensures Sorted(place, ListGates(x, line, n, insts), Place(line, n, 0), Place(line + 1, 0, 0))
  {
    PartsSorted(place, PartsOf(x, line, n, insts), line, n);
    ListIsFlat(x, line, n, insts);
  }

  lemma NthSorted(x: Wiring, w: nat, line: nat, j: nat)
    requires Feeds(x, line) && line > 0 && j < w && x.outBus == OutBus(x.block)
    ensures PartSorted(Places(w), PartsOf(x, line, 0, Emitted(x.block, w, 0)), j, line, 0)
  {
    EmittedAt(x.block, w, 0, j);
    InstSorted(x, w, line, j);
  }

  lemma InstancesSorted(x: Wiring, w: nat, line: nat)
    requires Feeds(x, line) && line > 0 && w > 0 && x.outBus == OutBus(x.block)
    ensures PartsInOrder(Places(w), PartsOf(x, line, 0, Emitted(x.block, w, 0)), line, 0)
  {
    forall j | 0 <= j < w
      ensures PartSorted(Places(w), PartsOf(x, line, 0, Emitted(x.block, w, 0)), j, line, 0)
    {
      NthSorted(x, w, line, j);
    }
  }

  lemma LineSorted(x: Wiring, w: nat, line: nat)
    requires Feeds(x, line) && line > 0 && w > 0 && x.outBus == OutBus(x.block)
    ensures Sorted(Places(w), LineGates(x, w, line, 0), Place(line, 0, 0), Place(line + 1, 0, 0))
  {
    InstancesSorted(x, w, line);
    ListInOrder(Places(w), x, line, 0, Emitted(x.block, w, 0));
  }

  // ---------- the round ----------

  lemma LineFeeds(w: nat, k: nat)
    requires k < 9
    ensures Feeds(RoundLines(w)[k], k + 1)
  {
    var x := RoundLines(w)[k];
    LineShape(w, k);
    forall b | PortOf(x.block, b)
      ensures exists i :: 0 <= i < |x.ins| && x.ins[i].0 == b
    {
      var n := PortIndex(x, w, k, b);
    }
    ShapeFeeds(x, k + 1);
  }

  lemma ShapeFeeds(x: Wiring, line: nat)
    requires Shape(x, line)
    requires forall b :: PortOf(x.block, b) ==> exists i :: 0 <= i < |x.ins| && x.ins[i].0 == b
    ensures Feeds(x, line)
  {
    forall b
      ensures NetOf(x.ins, b) != [] ==> NetOf(x.ins, b)[0] != CarryIn && Rank(NetOf(x.ins, b)[0]) < line
      ensures PortOf(x.block, b) ==> NetOf(x.ins, b) != []
    {
      NetAmong(x.ins, b);
    }
    NotAPort(x.ins, Carry);
    NotAPort(x.ins, CarryOut);
  }

  lemma {:induction false} NetAmong(ins: seq<(Bus, Bus)>, b: Bus)
    ensures NetOf(ins, b) != [] ==> exists i :: 0 <= i < |ins| && NetOf(ins, b)[0] == ins[i].1
    ensures (exists i :: 0 <= i < |ins| && ins[i].0 == b) ==> NetOf(ins, b) != []
  {
    if ins != [] {
      NetAmong(ins[1..], b);
      assert forall i :: 0 < i < |ins| ==> ins[i] == ins[1..][i - 1];
      if ins[0].0 != b && NetOf(ins[1..], b) != [] {
        var i :| 0 <= i < |ins[1..]| && NetOf(ins[1..], b)[0] == ins[1..][i].1;
        assert ins[i + 1].1 == NetOf(ins, b)[0];
      }
    }
  }

  lemma {:induction false} RoundSorted(w: nat, k: nat)
    requires w > 0 && k <= 9
    ensures Sorted(Places(w), GatesOf(RoundLines(w)[k..], w, k + 1), Place(k + 1, 0, 0), Place(10, 0, 0))
    decreases 9 - k
  {
    if k < 9 {
      var x, lines := RoundLines(w)[k], RoundLines(w)[k..];
      assert lines[0] == x && lines[1..] == RoundLines(w)[k + 1..];
      LineFeeds(w, k);
      Wired(w, k);
      LineSorted(x, w, k + 1);
      RoundSorted(w, k + 1);
      SortedJoin(Places(w), LineGates(x, w, k + 1, 0), GatesOf(lines[1..], w, k + 2), Place(k + 1, 0, 0),
                 Place(k + 2, 0, 0), Place(10, 0, 0));
    }
  }

  /** Both rails of every input bit, and of the carry-in. */
  ghost function InputNodes(x: Inputs, w: nat): set<Node> {
    (set net, i, h | net in InputNets(x, w) && 0 <= i < w && h in {true, false} :: Node.Wire(0, Pin(net, i), h))
    + {Node.Wire(0, Pin(CarryIn, 0), true), Node.Wire(0, Pin(CarryIn, 0), false)}
  }

  /** The rails that the inputs bring up; the carry-in is 0. */
  ghost function Goal(x: Inputs, w: nat): set<Node> {
    set n | n in InputNodes(x, w) && n.Wire? &&
      n.high == (n.pin.bus in InputNets(x, w) && n.pin.i < w && InputNets(x, w)[n.pin.bus][n.pin.i])
  }

  lemma InputNodeIs(x: Inputs, w: nat, net: Bus, i: nat, h: bool)
    requires net in InputNets(x, w) && i < w
    ensures Node.Wire(0, Pin(net, i), h) in InputNodes(x, w)
  {
    assert h in {true, false};
  }

  lemma GoalHas(x: Inputs, w: nat)
    ensures NetsHave(Goal(x, w), InputNets(x, w), false)
  {
    var v := InputNets(x, w);
    forall net, i | net in v && 0 <= i < |v[net]|
      ensures Has(Goal(x, w), NetDual(net, i), v[net][i])
    {
      InputNodeIs(x, w, net, i, true);
      InputNodeIs(x, w, net, i, false);
    }
  }

  /** Inputs are driven by no line. */
  lemma InputPlace(x: Inputs, w: nat, n: Node)
    requires n in InputNodes(x, w)
    ensures PlaceOf(w, n).line == 0
  {
  }

  lemma SortedUndriven(x: Inputs, w: nat, gates: seq<Gate>, hi: Place)
    requires Sorted(Places(w), gates, Place(1, 0, 0), hi)
    ensures Undriven(gates, InputNodes(x, w))
  {
    forall i | 0 <= i < |gates|
      ensures gates[i].out !in InputNodes(x, w)
    {
      assert Placed(Places(w), gates, i, Place(1, 0, 0), hi);
      if gates[i].out in InputNodes(x, w) { InputPlace(x, w, gates[i].out); }
    }
  }

  lemma SortedNetlist(x: Inputs, w: nat, gates: seq<Gate>, hi: Place)
    requires Sorted(Places(w), gates, Place(1, 0, 0), hi)
    ensures Acyclic(gates) && Undriven(gates, InputNodes(x, w)) && Undriven(gates, Goal(x, w))
  {
    SortedAcyclic(Places(w), gates, Place(1, 0, 0), hi);
    SortedUndriven(x, w, gates, hi);
  }

  lemma RoundInOrder(w: nat)
    requires w > 0
    ensures Sorted(Places(w), RoundGates(w), Place(1, 0, 0), Place(10, 0, 0))
  {
    RoundSorted(w, 0);
    assert RoundLines(w)[0..] == RoundLines(w);
  }

  lemma RoundAcyclic(x: Inputs, w: nat, gates: seq<Gate>)
    requires w > 0 && gates == RoundGates(w)
    ensures Acyclic(gates) && Undriven(gates, InputNodes(x, w)) && Undriven(gates, Goal(x, w))
  {
    RoundInOrder(w);
    SortedNetlist(x, w, gates, Place(10, 0, 0));
  }

  /** The inputs stay as they are while the gates settle. */
  lemma SettledInputs(x: Inputs, w: nat, gates: seq<Gate>)
    requires Undriven(gates, InputNodes(x, w))
    ensures NetsHave(InOrder(gates, Goal(x, w)), InputNets(x, w), false)
  {
    var goal, v := Goal(x, w), InputNets(x, w);
    GoalHas(x, w);
    forall n | n in InputNodes(x, w)
      ensures n in InOrder(gates, goal) <==> n in goal
    {
      InOrderFrame(gates, goal, n);
    }
    forall net, i | net in v && 0 <= i < |v[net]|
      ensures Has(InOrder(gates, goal), NetDual(net, i), v[net][i])
    {
      InputNodeIs(x, w, net, i, true);
      InputNodeIs(x, w, net, i, false);
      assert Has(goal, NetDual(net, i), v[net][i]);
    }
  }

  /** A net carries a number. */
  ghost predicate NetIs(up: set<Node>, net: Bus, value: nat, w: nat) {
    forall i :: 0 <= i < w ==> Has(up, NetDual(net, i), BitsOf(value, w)[i])
  }

  /** The settled state carries the reference's results. */
  lemma SettledIsReference(x: Inputs, w: nat)
    requires w > 0 && Below(x, w)
    ensures var end := InOrder(RoundGates(w), Goal(x, w));
      NetIs(end, NetAn, ShaRound(x, w).0, w) && NetIs(end, NetEn, ShaRound(x, w).1, w)
  {
    var gates, goal := RoundGates(w), Goal(x, w);
    var t := ReferenceTerms(x, w);
    RoundAcyclic(x, w, gates);
    SettledStable(gates, goal);
    SettledInputs(x, w, gates);
    InputsCorrect(t, w);
    assert RoundLines(w)[0..] == RoundLines(w);
    RoundHas(t, w, 0, InOrder(gates, goal), InputNets(x, w));
    OutputNets(x, w);
  }

  /** No rail of the net is up that does not belong to the number. */
  ghost predicate NothingWrong(up: set<Node>, net: Bus, value: nat, w: nat) {
    forall i :: 0 <= i < w ==>
      (NetDual(net, i).h in up ==> BitsOf(value, w)[i]) && (NetDual(net, i).l in up ==> !BitsOf(value, w)[i])
  }

  lemma PartlyUp(up: set<Node>, end: set<Node>, net: Bus, value: nat, w: nat)
    requires up <= end && NetIs(end, net, value, w)
    ensures NothingWrong(up, net, value, w)
  {
    forall i | 0 <= i < w
      ensures (NetDual(net, i).h in up ==> BitsOf(value, w)[i]) && (NetDual(net, i).l in up ==> !BitsOf(value, w)[i])
    {
      assert Has(end, NetDual(net, i), BitsOf(value, w)[i]);
    }
  }

  /** One cycle of the round, from any state of its gates and inputs, with inputs changing and
      gates firing in any order: the null wave brings everything down; at no moment of the
      data wave is a wrong output rail up; and in the end the outputs carry the reference's
      results. */
  lemma CycleAnyOrder(x: Inputs, w: nat, up: set<Node>, nulls: seq<seq<Event>>,
                      events: seq<Event>, datas: seq<seq<Event>>)
    requires w > 0 && Below(x, w)
    requires var gates, inputs := RoundGates(w), InputNodes(x, w);
      && (forall n :: n in up ==> n in inputs || DrivenBy(gates, |gates|, n))
      && AllFair(gates, inputs, nulls) && |nulls| > |gates|
      && AllFair(gates, Goal(x, w), datas) && |datas| > |gates|
    ensures NullRun(RoundGates(w), InputNodes(x, w), up, Joined(nulls)) == {}
    ensures var during := DataRun(RoundGates(w), Goal(x, w), {}, events);
      NothingWrong(during, NetAn, ShaRound(x, w).0, w) && NothingWrong(during, NetEn, ShaRound(x, w).1, w)
    ensures var end := DataRun(RoundGates(w), Goal(x, w), {}, events + Joined(datas));
      NetIs(end, NetAn, ShaRound(x, w).0, w) && NetIs(end, NetEn, ShaRound(x, w).1, w)
  {
    var gates, goal := RoundGates(w), Goal(x, w);
    RoundAcyclic(x, w, gates);
    NullWaveAnyOrder(gates, InputNodes(x, w), up, nulls);
    DataWaveAnyOrder(gates, goal, events, datas);
    SettledIsReference(x, w);
    PartlyUp(DataRun(gates, goal, {}, events), InOrder(gates, goal), NetAn, ShaRound(x, w).0, w);
    PartlyUp(DataRun(gates, goal, {}, events), InOrder(gates, goal), NetEn, ShaRound(x, w).1, w);
  }
}
