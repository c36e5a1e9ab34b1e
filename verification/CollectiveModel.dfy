/**
 The generation protocol behind every collective of the shared-memory
 communicator: each rank publishes its contribution in its own slot, one writer
 waits for all slots, combines them in rank order and publishes a single result
 line, which every other rank polls.

 The protocol is a transition system.  One step of one rank is one load, one
 store, or one element of a memory copy, so a schedule is just the sequence of
 ranks that get to take a step, and the reachable states are `Run(c, schedule)`
 for every schedule.  Release/acquire pairs order the slot and result accesses,
 which is what makes steps of this size sequentially consistent.
 */
module CollectiveModel {

  datatype ElemType = Double | Int | Long | LongLong

  datatype Op =
    | Sum(elem: ElemType)
    | Max(elem: ElemType)
    | Min(elem: ElemType)
    | Bcast
    | Barrier

  /** One payload element; its arithmetic is left uninterpreted. */
  type Word = int

  /** Addition and comparison of each element type.  Nothing is assumed about
      either, so "combined in rank order" cannot be rearranged. */
  datatype Arith = Arith(plus: (ElemType, Word, Word) -> Word, less: (ElemType, Word, Word) -> bool)

  /** One collective call of one rank: `input` is the caller's send buffer and
      `out0` the contents of its receive buffer on entry.  `aliased` says that the
      two are the same memory. */
  datatype Call = Call(op: Op, count: nat, root: nat, input: seq<Word>, out0: seq<Word>, aliased: bool)

  /** `calls(p, k)` is the k-th collective that rank `p` issues. */
  datatype Config = Config(n: nat, cap: nat, arith: Arith, calls: (nat, nat) -> Call)

  ghost predicate ValidCall(c: Config, call: Call) {
    && |call.input| == call.count == |call.out0|
    && call.count <= c.cap
    && (call.aliased ==> call.input == call.out0)
  }

  ghost predicate WellFormed(c: Config) {
    && c.n >= 2
    && forall p: nat, k: nat :: p < c.n ==> ValidCall(c, c.calls(p, k))
  }

  // ---------- shared and private state ----------

  datatype Slot = Slot(stamp: nat, op: Op, count: nat, data: seq<Word>)

  /** Where a rank is inside the collective; one constructor per kind of access. */
  datatype PC =
    | Idle                                             // between two collectives
    | CopyIn(i: nat)                                   // contribution into my slot
    | StoreOp | StoreCount | StoreStamp                // publish my slot
    | PollSlot(r: nat)                                 // writer: wait for slot r
    | CheckOp(r: nat) | CheckCount(r: nat)             // writer: cross-check slot r
    | Gather(r: nat, acc: seq<Word>, tmp: seq<Word>)   // writer: read slot r, combine
    | Fill(i: nat, acc: seq<Word>)                     // writer: result data
    | StoreResOp | StoreResCount | StoreResStamp       // writer: publish result line
    | CopyOwn(i: nat)                                  // writer: result line to my buffer
    | PollResult                                       // reader: wait for the result line
    | CheckResOp | CheckResCount                       // reader: cross-check the line
    | CopyOut(i: nat)                                  // reader: result line to my buffer
    | AbortDivergence                                  // a slot carries another op or count
    | AbortMismatch                                    // the result line does
    | AbortRanAhead                                    // a stamp beyond the awaited generation

  /** `returned` lists the receive buffer at the end of each finished collective. */
  datatype Rank = Rank(gen: nat, pc: PC, out: seq<Word>, returned: seq<seq<Word>>)

  datatype State = State(slots: seq<Slot>, result: Slot, ranks: seq<Rank>)

  ghost function Init(c: Config): State {
    var line := Slot(0, Sum(Double), 0, seq(c.cap, _ => 0));
    State(seq(c.n, _ => line), line, seq(c.n, _ => Rank(0, Idle, [], [])))
  }

  // ---------- combining ----------

  function Combine1(a: Arith, op: Op, acc: Word, tmp: Word): Word {
    match op
    case Sum(t) => a.plus(t, acc, tmp)
    case Max(t) => if a.less(t, acc, tmp) then tmp else acc
    case Min(t) => if a.less(t, tmp, acc) then tmp else acc
    case _ => acc
  }

  function CombineVec(a: Arith, op: Op, acc: seq<Word>, tmp: seq<Word>): (r: seq<Word>)
    requires |acc| == |tmp|
  {
    seq(|acc|, i requires 0 <= i < |acc| => Combine1(a, op, acc[i], tmp[i]))
  }

  predicate Reduces(op: Op) {
    op.Sum? || op.Max? || op.Min?
  }

  function WriterOf(call: Call): nat {
    if call.op.Bcast? then call.root else 0
  }

  predicate Contributes(call: Call, p: nat) {
    !call.op.Bcast? || p == call.root
  }

  // ---------- one step of one rank ----------

  /** The call that a rank in generation `gen >= 1` is executing. */
  function Current(c: Config, s: State, p: nat): Call
    requires p < |s.ranks|
  {
    c.calls(p, if s.ranks[p].gen == 0 then 0 else s.ranks[p].gen - 1)
  }

  /** The caller's send buffer, read through the receive buffer when they alias. */
  function SendBuffer(call: Call, rank: Rank): seq<Word> {
    if call.aliased then rank.out else call.input
  }

  predicate Shaped(c: Config, s: State) {
    && |s.slots| == c.n == |s.ranks|
    && (forall q :: 0 <= q < c.n ==> |s.slots[q].data| == c.cap)
    && |s.result.data| == c.cap
  }

  function Goto(s: State, p: nat, pc: PC): State
    requires p < |s.ranks|
  {
    s.(ranks := s.ranks[p := s.ranks[p].(pc := pc)])
  }

  function Return(s: State, p: nat): State
    requires p < |s.ranks|
  {
    var rank := s.ranks[p];
    s.(ranks := s.ranks[p := rank.(pc := Idle, returned := rank.returned + [rank.out])])
  }

  function SetSlot(s: State, p: nat, slot: Slot): State
    requires p < |s.slots|
  {
    s.(slots := s.slots[p := slot])
  }

  /** After `spin_until` sees `stamp` while waiting for `gen`: keep spinning below
      it, go on at it, abort above it. */
  function Await(s: State, p: nat, stamp: nat, next: PC): State
    requires p < |s.ranks|
  {
    if stamp < s.ranks[p].gen then s
    else if stamp == s.ranks[p].gen then Goto(s, p, next)
    else Goto(s, p, AbortRanAhead)
  }

  /** Bump the generation and start on the next call. */
  function Begin(c: Config, s: State, p: nat): State
    requires p < |s.ranks|
  {
    var rank := s.ranks[p];
    var call := c.calls(p, rank.gen);
    var first := if Contributes(call, p) then CopyIn(0) else StoreOp;
    s.(ranks := s.ranks[p := rank.(gen := rank.gen + 1, pc := first, out := call.out0)])
  }

  /** Publishing my slot: copy in, then op, count and finally the stamp. */
  function StepPublish(c: Config, s: State, p: nat): State
    requires p < |s.ranks| && p < |s.slots|
  {
    var rank, call, mine := s.ranks[p], Current(c, s, p), s.slots[p];
    var sent := SendBuffer(call, rank);
    match rank.pc
    case CopyIn(i) =>
      if i < call.count && i < |sent| && i < |mine.data|
      then SetSlot(Goto(s, p, CopyIn(i + 1)), p, mine.(data := mine.data[i := sent[i]]))
      else Goto(s, p, StoreOp)
    case StoreOp => SetSlot(Goto(s, p, StoreCount), p, mine.(op := call.op))
    case StoreCount => SetSlot(Goto(s, p, StoreStamp), p, mine.(count := call.count))
    case StoreStamp =>
      var next := if p == WriterOf(call) then PollSlot(0) else PollResult;
      SetSlot(Goto(s, p, next), p, mine.(stamp := rank.gen))
    case _ => s
  }

  /** After slot `r` passed both checks: next slot, or start producing the result. */
  function AfterCheck(c: Config, s: State, p: nat, r: nat): PC
    requires p < |s.ranks|
  {
    var call := Current(c, s, p);
    if r + 1 < c.n then PollSlot(r + 1)
    else if call.op.Barrier? then StoreResOp
    else if call.op.Bcast? then Fill(0, SendBuffer(call, s.ranks[p]))
    else Gather(0, [], [])
  }

  /** The writer waiting for every slot and cross-checking op and count. */
  function StepCollect(c: Config, s: State, p: nat): State
    requires p < |s.ranks|
  {
    var rank, call := s.ranks[p], Current(c, s, p);
    match rank.pc
    case PollSlot(r) => if r < |s.slots| then Await(s, p, s.slots[r].stamp, CheckOp(r)) else s
    case CheckOp(r) =>
      if r < |s.slots| && s.slots[r].op == call.op then Goto(s, p, CheckCount(r))
      else Goto(s, p, AbortDivergence)
    case CheckCount(r) =>
      if r < |s.slots| && s.slots[r].count == call.count then Goto(s, p, AfterCheck(c, s, p, r))
      else Goto(s, p, AbortDivergence)
    case _ => s
  }

  /** The writer's `combine`: copy slot 0 into the accumulator, then copy each
      further slot and fold it in; only the copies touch shared memory. */
  function StepGather(c: Config, s: State, p: nat): State
    requires p < |s.ranks|
  {
    var rank, call := s.ranks[p], Current(c, s, p);
    match rank.pc
    case Gather(r, acc, tmp) =>
      if r < |s.slots| && |tmp| < call.count && |tmp| < |s.slots[r].data|
      then Goto(s, p, Gather(r, acc, tmp + [s.slots[r].data[|tmp|]]))
      else
        var acc' := if r == 0 || |acc| != |tmp| then tmp else CombineVec(c.arith, call.op, acc, tmp);
        if r + 1 < c.n then Goto(s, p, Gather(r + 1, acc', [])) else Goto(s, p, Fill(0, acc'))
    case _ => s
  }

  /** The writer producing the result line, and then copying a reduction out of it. */
  function StepProduce(c: Config, s: State, p: nat): State
    requires p < |s.ranks|
  {
    var rank, call, line := s.ranks[p], Current(c, s, p), s.result;
    match rank.pc
    case Fill(i, acc) =>
      if i < call.count && i < |acc| && i < |line.data|
      then Goto(s, p, Fill(i + 1, acc)).(result := line.(data := line.data[i := acc[i]]))
      else Goto(s, p, StoreResOp)
    case StoreResOp => Goto(s, p, StoreResCount).(result := line.(op := call.op))
    case StoreResCount => Goto(s, p, StoreResStamp).(result := line.(count := call.count))
    case StoreResStamp =>
      var s1 := s.(result := line.(stamp := rank.gen));
      if Reduces(call.op) then Goto(s1, p, CopyOwn(0)) else Return(s1, p)
    case CopyOwn(i) => StepCopy(c, s, p, i, CopyOwn(i + 1))
    case _ => s
  }

  /** One element of the copy from the result line to the receive buffer. */
  function StepCopy(c: Config, s: State, p: nat, i: nat, next: PC): State
    requires p < |s.ranks|
  {
    var rank, call := s.ranks[p], Current(c, s, p);
    if i < call.count && i < |rank.out| && i < |s.result.data|
    then s.(ranks := s.ranks[p := rank.(pc := next, out := rank.out[i := s.result.data[i]])])
    else Return(s, p)
  }

  /** Every other rank: wait for the result line, cross-check it, copy it out. */
  function StepRead(c: Config, s: State, p: nat): State
    requires p < |s.ranks|
  {
    var rank, call, line := s.ranks[p], Current(c, s, p), s.result;
    match rank.pc
    case PollResult => Await(s, p, line.stamp, CheckResOp)
    case CheckResOp => Goto(s, p, if line.op == call.op then CheckResCount else AbortMismatch)
    case CheckResCount =>
      if line.count != call.count then Goto(s, p, AbortMismatch)
      else if call.op.Barrier? then Return(s, p)
      else Goto(s, p, CopyOut(0))
    case CopyOut(i) => StepCopy(c, s, p, i, CopyOut(i + 1))
    case _ => s
  }

  /** One step of rank `p`; a spinning rank's step leaves the state alone.  The
      index guards that the code does not have only make the step total: in every
      reachable state they hold. */
  function Step(c: Config, s: State, p: nat): State
    requires p < |s.ranks| && p < |s.slots|
  {
    match s.ranks[p].pc
    case Idle => Begin(c, s, p)
    case CopyIn(_) => StepPublish(c, s, p)
    case StoreOp => StepPublish(c, s, p)
    case StoreCount => StepPublish(c, s, p)
    case StoreStamp => StepPublish(c, s, p)
    case PollSlot(_) => StepCollect(c, s, p)
    case CheckOp(_) => StepCollect(c, s, p)
    case CheckCount(_) => StepCollect(c, s, p)
    case Gather(_, _, _) => StepGather(c, s, p)
    case Fill(_, _) => StepProduce(c, s, p)
    case StoreResOp => StepProduce(c, s, p)
    case StoreResCount => StepProduce(c, s, p)
    case StoreResStamp => StepProduce(c, s, p)
    case CopyOwn(_) => StepProduce(c, s, p)
    case PollResult => StepRead(c, s, p)
    case CheckResOp => StepRead(c, s, p)
    case CheckResCount => StepRead(c, s, p)
    case CopyOut(_) => StepRead(c, s, p)
    case _ => s
  }

  /** The state after the ranks in `schedule` took their steps, in that order. */
  ghost function Run(c: Config, schedule: seq<nat>): (s: State)
    requires forall j :: 0 <= j < |schedule| ==> schedule[j] < c.n
    ensures |s.ranks| == c.n == |s.slots|
  {
    if schedule == [] then Init(c)
    else
      var before := Run(c, schedule[..|schedule| - 1]);
      Step(c, before, schedule[|schedule| - 1])
  }

  // ---------- what the collectives should compute ----------

  /** The left fold, in rank order, of element `i` of the first `m` contributions
      to the k-th collective. */
  function FoldTo(c: Config, k: nat, m: nat, i: nat): Word
    requires 1 <= m <= c.n
    requires forall q :: 0 <= q < m ==> i < |c.calls(q, k).input|
  {
    if m == 1 then c.calls(0, k).input[i]
    else Combine1(c.arith, c.calls(0, k).op, FoldTo(c, k, m - 1, i), c.calls(m - 1, k).input[i])
  }

  /** All ranks issue the k-th collective with one op and one count. */
  predicate AgreesAt(c: Config, k: nat) {
    forall p, q :: 0 <= p < c.n && 0 <= q < c.n ==>
      c.calls(p, k).op == c.calls(q, k).op && c.calls(p, k).count == c.calls(q, k).count
  }

  /** The one thing the slots do not carry: where op and count agree on a
      broadcast, the ranks name one root.  No agreement on op or count is assumed. */
  ghost predicate RootsAgree(c: Config) {
    forall k: nat, p: nat, q: nat ::
      p < c.n && q < c.n && AgreesAt(c, k) && c.calls(p, k).op.Bcast? ==>
        c.calls(p, k).root == c.calls(q, k).root
  }

  /** What rank `p`'s k-th collective must leave in its receive buffer: the rank
      order fold for a reduction, the root's buffer for a broadcast (the root's own
      buffer is not written), nothing for a barrier. */
  ghost function Expected(c: Config, k: nat, p: nat): seq<Word>
    requires WellFormed(c) && p < c.n && AgreesAt(c, k)
    requires c.calls(p, k).op.Bcast? ==> c.calls(p, k).root < c.n
  {
    var call := c.calls(p, k);
    match call.op
    case Barrier => call.out0
    case Bcast => if p == call.root then call.out0 else c.calls(call.root, k).input
    case _ => Folded(c, k)
  }

  ghost function Folded(c: Config, k: nat): (r: seq<Word>)
    requires WellFormed(c) && AgreesAt(c, k)
  {
    seq(c.calls(0, k).count, i requires 0 <= i < c.calls(0, k).count => FoldAll(c, k, i))
  }

  ghost function FoldAll(c: Config, k: nat, i: nat): Word
    requires WellFormed(c) && AgreesAt(c, k) && i < c.calls(0, k).count
  {
    assert forall q :: 0 <= q < c.n ==> ValidCall(c, c.calls(q, k));
    FoldTo(c, k, c.n, i)
  }
}
