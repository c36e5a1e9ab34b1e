/**
 Threshold gates that fire whenever they like.

 A netlist is a list of gates over nodes.  A state is the set of nodes that are up, gate
 outputs included, so that a gate with hysteresis finds its previous output there.  In a
 data wave the inputs rise, in a null wave they fall, in any order, and between any two
 such events any gate may fire, any number of times.
 */
module NclAsync {
  import opened NclCells

  /** A rail of a pin, of the top level (`line` zero) or inside a line; or the output of a
      gate inside a cell. */
  datatype Node = Wire(line: nat, pin: Pin, high: bool) | Inner(line: nat, inst: nat, k: nat)

  datatype Kind = Or2 | And2 | Two3 | Weighted

  datatype Gate = Gate(kind: Kind, ins: seq<Node>, out: Node)

  predicate Up(up: set<Node>, g: Gate, i: nat) {
    i < |g.ins| && g.ins[i] in up
  }

  /** The threshold is met. */
  predicate Sets(up: set<Node>, g: Gate) {
    var a, b, c, d := Up(up, g, 0), Up(up, g, 1), Up(up, g, 2), Up(up, g, 3);
    match g.kind
    case Or2 => a || b
    case And2 => a && b
    case Two3 => (a && b) || (a && c) || (b && c)
    case Weighted => (a && b) || (a && c) || (a && d) || (b && c && d)
  }

  predicate AnyUp(up: set<Node>, g: Gate) {
    Up(up, g, 0) || Up(up, g, 1) || Up(up, g, 2) || Up(up, g, 3)
  }

  /** A gate goes up when its threshold is met, down when all its inputs are down, and
      otherwise keeps its output. */
  function Fired(up: set<Node>, g: Gate): set<Node> {
    if Sets(up, g) then up + {g.out} else if !AnyUp(up, g) then up - {g.out} else up
  }

  function Arity(kind: Kind): nat {
    match kind
    case Or2 => 2
    case And2 => 2
    case Two3 => 3
    case Weighted => 4
  }

  /** These are the gates that the cells are made of. */
  lemma FiresAsGate(up: set<Node>, g: Gate)
    requires |g.ins| == Arity(g.kind)
    ensures var a, b, c, d, prev := Up(up, g, 0), Up(up, g, 1), Up(up, g, 2), Up(up, g, 3), g.out in up;
      (g.out in Fired(up, g)) ==
        match g.kind
        case Or2 => Th12(a, b)
        case And2 => Th22(a, b, prev)
        case Two3 => Th23(a, b, c, prev)
        case Weighted => Th34w2(a, b, c, d, prev)
  {
  }

  // ---------- runs ----------

  /** An input rises or falls, or a gate fires. */
  datatype Event = Input(n: Node) | Fire(i: nat)

  /** One event of a data wave that brings up the inputs `goal`. */
  function DataStep(gates: seq<Gate>, goal: set<Node>, up: set<Node>, e: Event): set<Node> {
    match e
    case Input(n) => if n in goal then up + {n} else up
    case Fire(i) => if i < |gates| then Fired(up, gates[i]) else up
  }

  function DataRun(gates: seq<Gate>, goal: set<Node>, up: set<Node>, events: seq<Event>): set<Node>
    decreases |events|
  {
    if events == [] then up else DataRun(gates, goal, DataStep(gates, goal, up, events[0]), events[1..])
  }

  /** One event of a null wave on the inputs `inputs`. */
  function NullStep(gates: seq<Gate>, inputs: set<Node>, up: set<Node>, e: Event): set<Node> {
    match e
    case Input(n) => if n in inputs then up - {n} else up
    case Fire(i) => if i < |gates| then Fired(up, gates[i]) else up
  }

  function NullRun(gates: seq<Gate>, inputs: set<Node>, up: set<Node>, events: seq<Event>): set<Node>
    decreases |events|
  {
    if events == [] then up else NullRun(gates, inputs, NullStep(gates, inputs, up, events[0]), events[1..])
  }

  // ---------- netlists without cycles ----------

  /** A node is driven by one of the first `k` gates. */
  predicate DrivenBy(gates: seq<Gate>, k: nat, n: Node) {
    exists i :: 0 <= i < k && i < |gates| && gates[i].out == n
  }

  /** Gate `k` reads inputs and earlier gates, and drives a node of its own. */
  ghost predicate GateInOrder(gates: seq<Gate>, k: nat)
    requires k < |gates|
  {
    && (forall j :: 0 <= j < |gates[k].ins| ==>
          DrivenBy(gates, k, gates[k].ins[j]) || !DrivenBy(gates, |gates|, gates[k].ins[j]))
    && (forall i :: 0 <= i < |gates| && i != k ==> gates[i].out != gates[k].out)
  }

  ghost predicate Acyclic(gates: seq<Gate>) {
    forall k :: 0 <= k < |gates| ==> GateInOrder(gates, k)
  }

  ghost predicate Undriven(gates: seq<Gate>, inputs: set<Node>) {
    forall i :: 0 <= i < |gates| ==> gates[i].out !in inputs
  }

  /** Every gate's output is up exactly if its threshold is met. */
  ghost predicate Stable(gates: seq<Gate>, up: set<Node>) {
    forall i {:trigger gates[i]} :: 0 <= i < |gates| ==> (gates[i].out in up <==> Sets(up, gates[i]))
  }

  /** The inputs, and every gate fired once, in the netlist's order. */
  function InOrder(gates: seq<Gate>, up: set<Node>): set<Node> {
    if gates == [] then up
    else Fired(InOrder(gates[..|gates| - 1], up), gates[|gates| - 1])
  }

  // ---------- monotony ----------

  lemma SetsMonotone(a: set<Node>, b: set<Node>, g: Gate)
    requires a <= b && Sets(a, g)
    ensures Sets(b, g)
  {
  }

  lemma SetsSame(a: set<Node>, b: set<Node>, g: Gate)
    requires forall j :: 0 <= j < |g.ins| ==> (g.ins[j] in a <==> g.ins[j] in b)
    ensures Sets(a, g) == Sets(b, g) && AnyUp(a, g) == AnyUp(b, g)
  {
  }

  // ---------- the settled state ----------

  lemma {:induction false} InOrderFrame(gates: seq<Gate>, up: set<Node>, n: Node)
    requires !DrivenBy(gates, |gates|, n)
    ensures n in InOrder(gates, up) <==> n in up
  {
    if gates != [] {
      var m := |gates| - 1;
      assert gates[m].out != n;
      assert forall i :: 0 <= i < m ==> gates[..m][i] == gates[i];
      InOrderFrame(gates[..m], up, n);
    }
  }

  /** What the first `k` gates settle to does not change when the others fire. */
  lemma {:induction false} LaterGates(gates: seq<Gate>, up: set<Node>, k: nat, n: Node)
    requires k <= |gates| && forall i :: k <= i < |gates| ==> gates[i].out != n
    ensures n in InOrder(gates, up) <==> n in InOrder(gates[..k], up)
    decreases |gates|
  {
    if k < |gates| {
      var m := |gates| - 1;
      LaterGates(gates[..m], up, k, n);
      assert gates[..m][..k] == gates[..k];
    } else {
      assert gates[..k] == gates;
    }
  }

  /** Firing in order from reset settles: every output is up exactly if its threshold is met. */
  lemma SettledStable(gates: seq<Gate>, goal: set<Node>)
    requires Acyclic(gates) && Undriven(gates, goal)
    ensures Stable(gates, InOrder(gates, goal))
  {
    forall k | 0 <= k < |gates|
      ensures gates[k].out in InOrder(gates, goal) <==> Sets(InOrder(gates, goal), gates[k])
    {
      SettledAt(gates, goal, k);
    }
  }

  lemma SettledAt(gates: seq<Gate>, goal: set<Node>, k: nat)
    requires Acyclic(gates) && Undriven(gates, goal) && k < |gates|
    ensures gates[k].out in InOrder(gates, goal) <==> Sets(InOrder(gates, goal), gates[k])
  {
    var before, after := InOrder(gates[..k], goal), InOrder(gates[..k + 1], goal);
    assert GateInOrder(gates, k);
    assert gates[..k + 1][..k] == gates[..k] && gates[..k + 1][k] == gates[k];
    assert after == Fired(before, gates[k]);
    assert gates[k].out !in before by { NotYetDriven(gates, goal, k); }
    LaterGates(gates, goal, k + 1, gates[k].out);
    InputsSettled(gates, goal, k);
    SetsSame(before, InOrder(gates, goal), gates[k]);
  }

  lemma NotYetDriven(gates: seq<Gate>, goal: set<Node>, k: nat)
    requires Acyclic(gates) && Undriven(gates, goal) && k < |gates|
    ensures gates[k].out !in InOrder(gates[..k], goal)
  {
    assert GateInOrder(gates, k);
    assert forall i :: 0 <= i < k ==> gates[..k][i] == gates[i];
    InOrderFrame(gates[..k], goal, gates[k].out);
  }

  lemma InputsSettled(gates: seq<Gate>, goal: set<Node>, k: nat)
    requires Acyclic(gates) && k < |gates|
    ensures forall j :: 0 <= j < |gates[k].ins| ==>
      (gates[k].ins[j] in InOrder(gates[..k], goal) <==> gates[k].ins[j] in InOrder(gates, goal))
  {
    forall j | 0 <= j < |gates[k].ins|
      ensures gates[k].ins[j] in InOrder(gates[..k], goal) <==> gates[k].ins[j] in InOrder(gates, goal)
    {
      var n := gates[k].ins[j];
      assert GateInOrder(gates, k);
      forall i | k <= i < |gates|
        ensures gates[i].out != n
      {
        assert GateInOrder(gates, i);
      }
      LaterGates(gates, goal, k, n);
    }
  }

  // ---------- data waves: nothing wrong ever rises ----------

  /** Between reset and settled: everything up is up in the end, and no gate that is up has
      lost its threshold. */
  ghost predicate Rising(gates: seq<Gate>, goal: set<Node>, up: set<Node>) {
    && up <= InOrder(gates, goal)
    && forall i {:trigger gates[i]} :: 0 <= i < |gates| && gates[i].out in up ==> Sets(up, gates[i])
  }

  lemma GoalSettled(gates: seq<Gate>, goal: set<Node>)
    requires Undriven(gates, goal)
    ensures goal <= InOrder(gates, goal)
  {
    forall n | n in goal
      ensures n in InOrder(gates, goal)
    {
      InOrderFrame(gates, goal, n);
    }
  }

  /** Whatever happens next, rails only rise, and only those that are up in the end. */
  lemma DataStepRises(gates: seq<Gate>, goal: set<Node>, up: set<Node>, e: Event)
    requires Acyclic(gates) && Undriven(gates, goal) && Rising(gates, goal, up)
    ensures up <= DataStep(gates, goal, up, e) && Rising(gates, goal, DataStep(gates, goal, up, e))
  {
    GoalSettled(gates, goal);
    SettledStable(gates, goal);
    var up' := DataStep(gates, goal, up, e);
    if e.Fire? && e.i < |gates| && Sets(up, gates[e.i]) {
      SetsMonotone(up, InOrder(gates, goal), gates[e.i]);
    }
    forall i | 0 <= i < |gates| && gates[i].out in up'
      ensures Sets(up', gates[i])
    {
      if gates[i].out in up { SetsMonotone(up, up', gates[i]); } else { RoseNow(gates, goal, up, e, i); }
    }
  }

  lemma RoseNow(gates: seq<Gate>, goal: set<Node>, up: set<Node>, e: Event, i: nat)
    requires Acyclic(gates) && Undriven(gates, goal) && i < |gates|
    requires gates[i].out !in up && gates[i].out in DataStep(gates, goal, up, e)
    ensures Sets(DataStep(gates, goal, up, e), gates[i])
  {
    assert e.Fire? && e.i < |gates| && gates[e.i].out == gates[i].out;
    assert GateInOrder(gates, i);
    SetsMonotone(up, DataStep(gates, goal, up, e), gates[i]);
  }

  lemma {:induction false} DataRunRises(gates: seq<Gate>, goal: set<Node>, up: set<Node>, events: seq<Event>)
    requires Acyclic(gates) && Undriven(gates, goal) && Rising(gates, goal, up)
    ensures up <= DataRun(gates, goal, up, events) && Rising(gates, goal, DataRun(gates, goal, up, events))
    decreases |events|
  {
    if events != [] {
      DataStepRises(gates, goal, up, events[0]);
      DataRunRises(gates, goal, DataStep(gates, goal, up, events[0]), events[1..]);
    }
  }

  // ---------- data waves: everything right rises in the end ----------

  /** Every input changes and every gate fires at least once. */
  ghost predicate Fair(gates: seq<Gate>, inputs: set<Node>, events: seq<Event>) {
    && (forall n :: n in inputs ==> Input(n) in events)
    && (forall i :: 0 <= i < |gates| ==> Fire(i) in events)
  }

  ghost predicate AllFair(gates: seq<Gate>, inputs: set<Node>, stretches: seq<seq<Event>>) {
    forall i :: 0 <= i < |stretches| ==> Fair(gates, inputs, stretches[i])
  }

  function Joined(stretches: seq<seq<Event>>): seq<Event> {
    if stretches == [] then [] else Joined(stretches[..|stretches| - 1]) + stretches[|stretches| - 1]
  }

  lemma {:induction false} DataJoins(gates: seq<Gate>, goal: set<Node>, up: set<Node>, a: seq<Event>, b: seq<Event>)
    ensures DataRun(gates, goal, up, a + b) == DataRun(gates, goal, DataRun(gates, goal, up, a), b)
    decreases |a|
  {
    if a == [] {
      assert a + b == b;
    } else {
      assert (a + b)[1..] == a[1..] + b;
      DataJoins(gates, goal, DataStep(gates, goal, up, a[0]), a[1..], b);
    }
  }

  /** The inputs have arrived, and the first `k` gates are as they will be. */
  ghost predicate SettledTo(gates: seq<Gate>, goal: set<Node>, up: set<Node>, k: nat) {
    goal <= up && forall i {:trigger gates[i]} :: 0 <= i < k && i < |gates| ==>
      (gates[i].out in InOrder(gates, goal) ==> gates[i].out in up)
  }

  /** The next gate, when it fires, goes where it belongs. */
  lemma NextSettles(gates: seq<Gate>, goal: set<Node>, up: set<Node>, k: nat)
    requires Acyclic(gates) && Undriven(gates, goal) && Rising(gates, goal, up)
    requires SettledTo(gates, goal, up, k) && k < |gates| && gates[k].out in InOrder(gates, goal)
    ensures gates[k].out in Fired(up, gates[k])
  {
    var end := InOrder(gates, goal);
    SettledStable(gates, goal);
    assert GateInOrder(gates, k);
    forall j | 0 <= j < |gates[k].ins|
      ensures gates[k].ins[j] in up <==> gates[k].ins[j] in end
    {
      var n := gates[k].ins[j];
      if DrivenBy(gates, k, n) {
        var i :| 0 <= i < k && i < |gates| && gates[i].out == n;
      } else {
        InOrderFrame(gates, goal, n);
      }
    }
    SetsSame(up, end, gates[k]);
  }

  /** A stretch in which gate `k` fires settles it. */
  lemma {:induction false} StretchSettles(gates: seq<Gate>, goal: set<Node>, up: set<Node>, k: nat, events: seq<Event>)
    requires Acyclic(gates) && Undriven(gates, goal) && Rising(gates, goal, up)
    requires SettledTo(gates, goal, up, k) && k < |gates| && Fire(k) in events
    ensures gates[k].out in InOrder(gates, goal) ==> gates[k].out in DataRun(gates, goal, up, events)
    decreases |events|
  {
    if gates[k].out in InOrder(gates, goal) {
      var up' := DataStep(gates, goal, up, events[0]);
      DataStepRises(gates, goal, up, events[0]);
      if events[0] == Fire(k) {
        NextSettles(gates, goal, up, k);
        DataRunRises(gates, goal, up', events[1..]);
      } else {
        StretchSettles(gates, goal, up', k, events[1..]);
      }
    }
  }

  lemma {:induction false} Arrives(gates: seq<Gate>, goal: set<Node>, up: set<Node>, events: seq<Event>, n: Node)
    requires Acyclic(gates) && Undriven(gates, goal) && Rising(gates, goal, up) && n in goal && Input(n) in events
    ensures n in DataRun(gates, goal, up, events)
    decreases |events|
  {
    var up' := DataStep(gates, goal, up, events[0]);
    DataStepRises(gates, goal, up, events[0]);
    if events[0] == Input(n) {
      DataRunRises(gates, goal, up', events[1..]);
    } else {
      Arrives(gates, goal, up', events[1..], n);
    }
  }

  lemma FairStretch(gates: seq<Gate>, goal: set<Node>, up: set<Node>, k: nat, events: seq<Event>)
    requires Acyclic(gates) && Undriven(gates, goal) && Rising(gates, goal, up) && Fair(gates, goal, events)
    requires k > 0 ==> SettledTo(gates, goal, up, k - 1)
    ensures Rising(gates, goal, DataRun(gates, goal, up, events))
    ensures SettledTo(gates, goal, DataRun(gates, goal, up, events), k)
  {
    var up' := DataRun(gates, goal, up, events);
    DataRunRises(gates, goal, up, events);
    forall n | n in goal
      ensures n in up'
    {
      Arrives(gates, goal, up, events, n);
    }
    if 0 < k <= |gates| { StretchSettles(gates, goal, up, k - 1, events); }
  }

  lemma {:induction false} FairSettles(gates: seq<Gate>, goal: set<Node>, up: set<Node>, stretches: seq<seq<Event>>)
    requires Acyclic(gates) && Undriven(gates, goal) && Rising(gates, goal, up) && AllFair(gates, goal, stretches)
    ensures Rising(gates, goal, DataRun(gates, goal, up, Joined(stretches)))
    ensures |stretches| > 0 ==> SettledTo(gates, goal, DataRun(gates, goal, up, Joined(stretches)), |stretches| - 1)
    decreases |stretches|
  {
    if stretches != [] {
      var m := |stretches| - 1;
      FairSettles(gates, goal, up, stretches[..m]);
      DataJoins(gates, goal, up, Joined(stretches[..m]), stretches[m]);
      FairStretch(gates, goal, DataRun(gates, goal, up, Joined(stretches[..m])), m, stretches[m]);
    }
  }

  lemma SettledIs(gates: seq<Gate>, goal: set<Node>, up: set<Node>)
    requires Rising(gates, goal, up) && SettledTo(gates, goal, up, |gates|)
    ensures up == InOrder(gates, goal)
  {
    forall n | n in InOrder(gates, goal)
      ensures n in up
    {
      if DrivenBy(gates, |gates|, n) {
        var i :| 0 <= i < |gates| && gates[i].out == n;
      } else {
        InOrderFrame(gates, goal, n);
      }
    }
  }

  /** A data wave from reset, inputs arriving and gates firing in any order: at no moment is a
      node up that is not up in the end, no rail falls, and after one fair stretch more than
      there are gates the state is the settled one. */
  lemma DataWaveAnyOrder(gates: seq<Gate>, goal: set<Node>, events: seq<Event>, stretches: seq<seq<Event>>)
    requires Acyclic(gates) && Undriven(gates, goal) && AllFair(gates, goal, stretches) && |stretches| > |gates|
    ensures DataRun(gates, goal, {}, events) <= InOrder(gates, goal)
    ensures DataRun(gates, goal, {}, events) <=
      DataRun(gates, goal, {}, events + Joined(stretches)) == InOrder(gates, goal)
  {
    var up := DataRun(gates, goal, {}, events);
    DataRunRises(gates, goal, {}, events);
    FairSettles(gates, goal, up, stretches);
    DataJoins(gates, goal, {}, events, Joined(stretches));
    DataRunRises(gates, goal, up, Joined(stretches));
    var end := DataRun(gates, goal, up, Joined(stretches));
    assert SettledTo(gates, goal, end, |gates|);
    SettledIs(gates, goal, end);
  }

  // ---------- null waves ----------

  lemma {:induction false} NullJoins(gates: seq<Gate>, inputs: set<Node>, up: set<Node>, a: seq<Event>, b: seq<Event>)
    ensures NullRun(gates, inputs, up, a + b) == NullRun(gates, inputs, NullRun(gates, inputs, up, a), b)
    decreases |a|
  {
    if a == [] {
      assert a + b == b;
    } else {
      assert (a + b)[1..] == a[1..] + b;
      NullJoins(gates, inputs, NullStep(gates, inputs, up, a[0]), a[1..], b);
    }
  }

  /** The inputs of `gone` have fallen, and so have the first `k` gates; nothing else is up but
      inputs and gates. */
  ghost predicate FallenTo(gates: seq<Gate>, inputs: set<Node>, up: set<Node>, gone: set<Node>, k: nat) {
    && (forall n :: n in up ==> n in inputs || DrivenBy(gates, |gates|, n))
    && (forall n :: n in gone ==> n !in up)
    && (forall i {:trigger gates[i]} :: 0 <= i < k && i < |gates| ==> gates[i].out !in up)
  }

  lemma InputsFallen(gates: seq<Gate>, inputs: set<Node>, up: set<Node>, i: nat)
    requires Acyclic(gates) && Undriven(gates, inputs) && i < |gates|
    requires FallenTo(gates, inputs, up, inputs, i)
    ensures !AnyUp(up, gates[i]) && !Sets(up, gates[i])
  {
    assert GateInOrder(gates, i);
    forall j | 0 <= j < |gates[i].ins|
      ensures gates[i].ins[j] !in up
    {
      var n := gates[i].ins[j];
      if DrivenBy(gates, i, n) {
        var m :| 0 <= m < i && m < |gates| && gates[m].out == n;
      }
    }
  }

  /** What has fallen stays down. */
  lemma NullStepFalls(gates: seq<Gate>, inputs: set<Node>, up: set<Node>, gone: set<Node>, k: nat, e: Event)
    requires Acyclic(gates) && Undriven(gates, inputs) && gone <= inputs
    requires FallenTo(gates, inputs, up, gone, k) && (k > 0 ==> gone == inputs)
    ensures FallenTo(gates, inputs, NullStep(gates, inputs, up, e), gone, k)
  {
    if e.Fire? && e.i < |gates| {
      assert DrivenBy(gates, |gates|, gates[e.i].out);
      assert GateInOrder(gates, e.i);
      if e.i < k { InputsFallen(gates, inputs, up, e.i); }
    }
  }

  lemma {:induction false} NullRunFalls(gates: seq<Gate>, inputs: set<Node>, up: set<Node>, gone: set<Node>, k: nat,
                                        events: seq<Event>)
    requires Acyclic(gates) && Undriven(gates, inputs) && gone <= inputs
    requires FallenTo(gates, inputs, up, gone, k) && (k > 0 ==> gone == inputs)
    ensures FallenTo(gates, inputs, NullRun(gates, inputs, up, events), gone, k)
    decreases |events|
  {
    if events != [] {
      NullStepFalls(gates, inputs, up, gone, k, events[0]);
      NullRunFalls(gates, inputs, NullStep(gates, inputs, up, events[0]), gone, k, events[1..]);
    }
  }

  lemma {:induction false} Departs(gates: seq<Gate>, inputs: set<Node>, up: set<Node>, events: seq<Event>, n: Node)
    requires Acyclic(gates) && Undriven(gates, inputs) && FallenTo(gates, inputs, up, {}, 0)
    requires n in inputs && Input(n) in events
    ensures n !in NullRun(gates, inputs, up, events)
    decreases |events|
  {
    var up' := NullStep(gates, inputs, up, events[0]);
    NullStepFalls(gates, inputs, up, {}, 0, events[0]);
    if events[0] == Input(n) {
      NullRunFalls(gates, inputs, up', {n}, 0, events[1..]);
    } else {
      Departs(gates, inputs, up', events[1..], n);
    }
  }

  lemma {:induction false} GateFalls(gates: seq<Gate>, inputs: set<Node>, up: set<Node>, k: nat, events: seq<Event>)
    requires Acyclic(gates) && Undriven(gates, inputs) && FallenTo(gates, inputs, up, inputs, k)
    requires k < |gates| && Fire(k) in events
    ensures FallenTo(gates, inputs, NullRun(gates, inputs, up, events), inputs, k + 1)
    decreases |events|
  {
    var up' := NullStep(gates, inputs, up, events[0]);
    NullStepFalls(gates, inputs, up, inputs, k, events[0]);
    if events[0] == Fire(k) {
      InputsFallen(gates, inputs, up, k);
      NullRunFalls(gates, inputs, up', inputs, k + 1, events[1..]);
    } else {
      GateFalls(gates, inputs, up', k, events[1..]);
    }
  }

  lemma FairFall(gates: seq<Gate>, inputs: set<Node>, up: set<Node>, k: nat, events: seq<Event>)
    requires Acyclic(gates) && Undriven(gates, inputs) && Fair(gates, inputs, events)
    requires FallenTo(gates, inputs, up, {}, 0) && (k > 0 ==> FallenTo(gates, inputs, up, inputs, k - 1))
    ensures FallenTo(gates, inputs, NullRun(gates, inputs, up, events), inputs, k)
  {
    if k == 0 {
      NullRunFalls(gates, inputs, up, {}, 0, events);
      forall n | n in inputs
        ensures n !in NullRun(gates, inputs, up, events)
      {
        Departs(gates, inputs, up, events, n);
      }
    } else if k <= |gates| {
      GateFalls(gates, inputs, up, k - 1, events);
    } else {
      NullRunFalls(gates, inputs, up, inputs, k - 1, events);
    }
  }

  lemma {:induction false} FairFalls(gates: seq<Gate>, inputs: set<Node>, up: set<Node>, stretches: seq<seq<Event>>)
    requires Acyclic(gates) && Undriven(gates, inputs) && AllFair(gates, inputs, stretches)
    requires FallenTo(gates, inputs, up, {}, 0)
    ensures FallenTo(gates, inputs, NullRun(gates, inputs, up, Joined(stretches)), {}, 0)
    ensures |stretches| > 0 ==>
      FallenTo(gates, inputs, NullRun(gates, inputs, up, Joined(stretches)), inputs, |stretches| - 1)
    decreases |stretches|
  {
    if stretches != [] {
      var m := |stretches| - 1;
      FairFalls(gates, inputs, up, stretches[..m]);
      NullJoins(gates, inputs, up, Joined(stretches[..m]), stretches[m]);
      FairFall(gates, inputs, NullRun(gates, inputs, up, Joined(stretches[..m])), m, stretches[m]);
    }
  }

  /** A null wave from any state of inputs and gates, in any order: after one fair stretch
      more than there are gates everything is down. */
  lemma NullWaveAnyOrder(gates: seq<Gate>, inputs: set<Node>, up: set<Node>, stretches: seq<seq<Event>>)
    requires Acyclic(gates) && Undriven(gates, inputs) && AllFair(gates, inputs, stretches)
    requires |stretches| > |gates| && forall n :: n in up ==> n in inputs || DrivenBy(gates, |gates|, n)
    ensures NullRun(gates, inputs, up, Joined(stretches)) == {}
  {
    FairFalls(gates, inputs, up, stretches);
    var end := NullRun(gates, inputs, up, Joined(stretches));
    forall n
      ensures n !in end
    {
      if DrivenBy(gates, |gates|, n) {
        var i :| 0 <= i < |gates| && gates[i].out == n;
      }
    }
  }

  /** No gate has yet to rise. */
  ghost predicate Caught(gates: seq<Gate>, up: set<Node>) {
    forall i {:trigger gates[i]} :: 0 <= i < |gates| && Sets(up, gates[i]) ==> gates[i].out in up
  }

  lemma NullStepOnlyFalls(gates: seq<Gate>, inputs: set<Node>, up: set<Node>, e: Event)
    requires Acyclic(gates) && Undriven(gates, inputs) && Caught(gates, up)
    ensures NullStep(gates, inputs, up, e) <= up && Caught(gates, NullStep(gates, inputs, up, e))
  {
    var up' := NullStep(gates, inputs, up, e);
    forall i | 0 <= i < |gates| && Sets(up', gates[i])
      ensures gates[i].out in up'
    {
      SetsMonotone(up', up, gates[i]);
      if e.Fire? && e.i < |gates| && e.i != i { assert GateInOrder(gates, i); }
    }
  }

  lemma {:induction false} NullRunOnlyFalls(gates: seq<Gate>, inputs: set<Node>, up: set<Node>, events: seq<Event>)
    requires Acyclic(gates) && Undriven(gates, inputs) && Caught(gates, up)
    ensures NullRun(gates, inputs, up, events) <= up
    decreases |events|
  {
    if events != [] {
      NullStepOnlyFalls(gates, inputs, up, events[0]);
      NullRunOnlyFalls(gates, inputs, NullStep(gates, inputs, up, events[0]), events[1..]);
    }
  }

  /** A null wave from a settled state only takes down: no rail rises on the way. */
  lemma NullWaveOnlyFalls(gates: seq<Gate>, inputs: set<Node>, goal: set<Node>, events: seq<Event>)
    requires Acyclic(gates) && Undriven(gates, inputs) && goal <= inputs
    ensures NullRun(gates, inputs, InOrder(gates, goal), events) <= InOrder(gates, goal)
  {
    SettledStable(gates, goal);
    NullRunOnlyFalls(gates, inputs, InOrder(gates, goal), events);
  }
}
