/**
 The invariant of the collective protocol and its preservation by every step.

 Write `g` for the stamp of the result line.  Every slot is stamped `g` or
 `g + 1`.  A slot stamped `g + 1` holds its owner's contribution to collective
 `g` (counted from 0) and stays put until the line is stamped `g + 1`; while some slot is
 still stamped `g` its owner may be reading the line, and the line is intact.
 The line is rewritten only by a rank that has seen every slot at `g + 1`.
 */
module CollectiveInvariant {
  import opened CollectiveModel

  ghost predicate Hypotheses(c: Config) {
    WellFormed(c) && RootsAgree(c)
  }

  /** Slot `q` holds what its owner published for collective `k`. */
  ghost predicate Published(c: Config, s: State, q: nat, k: nat)
    requires q < |s.slots|
  {
    && s.slots[q].op == c.calls(q, k).op
    && s.slots[q].count == c.calls(q, k).count
    && Deposited(c, s, q, k)
  }

  ghost predicate Deposited(c: Config, s: State, q: nat, k: nat)
    requires q < |s.slots|
  {
    var call, data := c.calls(q, k), s.slots[q].data;
    Contributes(call, q) ==> call.count <= |data| && data[..call.count] == call.input
  }

  /** Rank `p` has found slots `0..m` stamped for collective `k` and equal to its
      own call in op and count. */
  ghost predicate Collected(c: Config, s: State, p: nat, k: nat, m: nat)
    requires m <= |s.slots|
  {
    forall q :: 0 <= q < m ==>
      && s.slots[q].stamp == k + 1
      && s.slots[q].op == c.calls(p, k).op
      && s.slots[q].count == c.calls(p, k).count
  }

  /** The payload of the result line for collective `k`, as computed by rank `p`. */
  ghost function Payload(c: Config, p: nat, k: nat): seq<Word>
    requires WellFormed(c) && p < c.n && AgreesAt(c, k)
  {
    var call := c.calls(p, k);
    match call.op
    case Barrier => []
    case Bcast => call.input
    case _ => Folded(c, k)
  }

  /** The accumulator after the first `m` slots have been combined. */
  ghost predicate Accumulated(c: Config, k: nat, m: nat, acc: seq<Word>)
    requires WellFormed(c) && AgreesAt(c, k) && m <= c.n
  {
    m > 0 ==>
      && |acc| == c.calls(0, k).count
      && (forall q :: 0 <= q < c.n ==> ValidCall(c, c.calls(q, k)))
      && forall i :: 0 <= i < |acc| ==> acc[i] == FoldTo(c, k, m, i)
  }

  /** The data part of the result line is right, up to element `i`. */
  ghost predicate Filled(c: Config, s: State, p: nat, k: nat, i: nat)
    requires WellFormed(c) && p < c.n && AgreesAt(c, k)
  {
    var want := Payload(c, p, k);
    i <= |want| && i <= |s.result.data| && s.result.data[..i] == want[..i]
  }

  /** The result line carries collective `k`. */
  ghost predicate LineHolds(c: Config, s: State, k: nat)
    requires WellFormed(c)
  {
    && AgreesAt(c, k)
    && WriterOf(c.calls(0, k)) < c.n
    && s.result.op == c.calls(0, k).op
    && s.result.count == c.calls(0, k).count
    && Filled(c, s, WriterOf(c.calls(0, k)), k, |Payload(c, WriterOf(c.calls(0, k)), k)|)
  }

  /** A rank that has passed every check and now owns the result line. */
  ghost predicate Owns(c: Config, s: State, p: nat)
    requires Shaped(c, s) && p < c.n
  {
    var k := s.result.stamp;
    && s.ranks[p].gen == k + 1
    && p == WriterOf(c.calls(p, k))
    && Collected(c, s, p, k, c.n)
  }

  /** A rank that is in collective `g` (the one being formed) and has published. */
  ghost predicate Forming(s: State, p: nat)
    requires p < |s.ranks| && p < |s.slots|
  {
    s.ranks[p].gen == s.slots[p].stamp == s.result.stamp + 1
  }

  /** A rank that is still using the line of the collective that completed last. */
  ghost predicate Consuming(s: State, p: nat)
    requires p < |s.ranks| && p < |s.slots|
  {
    s.ranks[p].gen == s.slots[p].stamp == s.result.stamp && s.ranks[p].gen > 0
  }

  /** A rank that has begun collective `g` but not published yet. */
  ghost predicate Preparing(s: State, p: nat)
    requires p < |s.ranks| && p < |s.slots|
  {
    s.ranks[p].gen == s.result.stamp + 1 && s.slots[p].stamp == s.result.stamp
  }

  /** What holds of rank `p` at each of its program points. */
  ghost predicate RankInv(c: Config, s: State, p: nat)
    requires WellFormed(c) && Shaped(c, s) && p < c.n
  {
    var rank, k, call, mine := s.ranks[p], s.result.stamp, Current(c, s, p), s.slots[p];
    match rank.pc
    case Idle => rank.gen == mine.stamp == k
    case CopyIn(i) =>
      && Preparing(s, p) && Contributes(call, p) && i <= call.count && rank.out == call.out0
      && mine.data[..i] == call.input[..i]
    case StoreOp => Preparing(s, p) && rank.out == call.out0 && Deposited(c, s, p, k)
    case StoreCount =>
      && Preparing(s, p) && rank.out == call.out0 && Deposited(c, s, p, k)
      && mine.op == call.op
    case StoreStamp => Preparing(s, p) && rank.out == call.out0 && Published(c, s, p, k)
    case PollSlot(r) =>
      && Forming(s, p) && p == WriterOf(call) && rank.out == call.out0
      && r < c.n && Collected(c, s, p, k, r)
    case CheckOp(r) =>
      && Forming(s, p) && p == WriterOf(call) && rank.out == call.out0
      && r < c.n && Collected(c, s, p, k, r) && s.slots[r].stamp == k + 1
    case CheckCount(r) =>
      && Forming(s, p) && p == WriterOf(call) && rank.out == call.out0
      && r < c.n && Collected(c, s, p, k, r)
      && s.slots[r].stamp == k + 1 && s.slots[r].op == call.op
    case Gather(r, acc, tmp) =>
      && Owns(c, s, p) && Reduces(call.op) && rank.out == call.out0
      && AgreesAt(c, k) && r < c.n && Accumulated(c, k, r, acc)
      && |tmp| <= call.count && tmp == c.calls(r, k).input[..|tmp|]
    case Fill(i, acc) =>
      && Owns(c, s, p) && rank.out == call.out0 && !call.op.Barrier?
      && AgreesAt(c, k) && acc == Payload(c, p, k) && Filled(c, s, p, k, i)
    case StoreResOp =>
      && Owns(c, s, p) && rank.out == call.out0
      && AgreesAt(c, k) && Filled(c, s, p, k, |Payload(c, p, k)|)
    case StoreResCount =>
      && Owns(c, s, p) && rank.out == call.out0
      && AgreesAt(c, k) && Filled(c, s, p, k, |Payload(c, p, k)|) && s.result.op == call.op
    case StoreResStamp =>
      && Owns(c, s, p) && rank.out == call.out0
      && AgreesAt(c, k) && Filled(c, s, p, k, |Payload(c, p, k)|)
      && s.result.op == call.op && s.result.count == call.count
    case CopyOwn(i) => Consuming(s, p) && Reduces(call.op) && Copied(c, s, p, i)
    case PollResult =>
      && (Forming(s, p) || Consuming(s, p)) && p != WriterOf(call) && rank.out == call.out0
    case CheckResOp => Consuming(s, p) && p != WriterOf(call) && rank.out == call.out0
    case CheckResCount => Consuming(s, p) && p != WriterOf(call) && rank.out == call.out0
    case CopyOut(i) =>
      && Consuming(s, p) && p != WriterOf(call) && !call.op.Barrier? && Copied(c, s, p, i)
    case AbortDivergence => Forming(s, p) && !AgreesAt(c, k)
    case AbortMismatch => false
    case AbortRanAhead => false
  }

  /** The first `i` elements of the line have reached rank `p`'s receive buffer. */
  ghost predicate Copied(c: Config, s: State, p: nat, i: nat)
    requires Shaped(c, s) && p < c.n
  {
    var rank, call := s.ranks[p], Current(c, s, p);
    && |rank.out| == call.count && i <= call.count <= c.cap
    && rank.out[..i] == s.result.data[..i]
  }

  /** A slot that is ahead of the line is published. */
  ghost predicate SlotInv(c: Config, s: State, p: nat)
    requires WellFormed(c) && Shaped(c, s) && p < c.n
  {
    var k := s.result.stamp;
    && k <= s.slots[p].stamp <= k + 1
    && (s.slots[p].stamp == k + 1 ==> Forming(s, p) && Published(c, s, p, k))
  }

  /** Everything rank `p` has returned so far is what it should be. */
  ghost predicate ReturnsInv(c: Config, s: State, p: nat)
    requires WellFormed(c) && Shaped(c, s) && p < c.n
  {
    var rank := s.ranks[p];
    && |rank.returned| == (if rank.pc.Idle? then rank.gen else rank.gen - 1)
    && forall k :: 0 <= k < |rank.returned| ==> ReturnedRight(c, p, k, rank.returned[k])
  }

  ghost predicate ReturnedRight(c: Config, p: nat, k: nat, out: seq<Word>)
    requires WellFormed(c) && p < c.n
  {
    && AgreesAt(c, k)
    && WriterOf(c.calls(p, k)) < c.n
    && out == Expected(c, k, p)
  }

  ghost predicate LineInv(c: Config, s: State)
    requires WellFormed(c) && Shaped(c, s)
  {
    var g := s.result.stamp;
    && (forall k: nat :: k < g ==> AgreesAt(c, k))
    && (g > 0 && (exists q :: 0 <= q < c.n && s.slots[q].stamp == g) ==> LineHolds(c, s, g - 1))
  }

  ghost predicate Inv(c: Config, s: State) {
    && Hypotheses(c) && Shaped(c, s)
    && LineInv(c, s)
    && forall p: nat :: p < c.n ==> RankInv(c, s, p) && SlotInv(c, s, p) && ReturnsInv(c, s, p)
  }
}
