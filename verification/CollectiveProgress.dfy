/**
 The collective protocol neither deadlocks nor runs on forever: while streams
 agree, some unfinished rank can always take an effective step, and every
 effective step of an unfinished rank brings the whole run closer to its end.
 */
module CollectiveProgress {
  import opened CollectiveModel
  import opened CollectiveInvariant
  import opened CollectiveSteps
  import opened CollectiveTheorems
  import opened ModMath

  /** The first `total` collectives agree and have a writer among the ranks. */
  ghost predicate AgreeUpTo(c: Config, total: nat) {
    forall k: nat, p: nat :: k < total && p < c.n ==> AgreesAt(c, k) && WriterOf(c.calls(p, k)) < c.n
  }

  ghost predicate Unfinished(s: State, p: nat, total: nat)
    requires p < |s.ranks|
  {
    |s.ranks[p].returned| < total
  }

  // ---------- how far a rank is from returning ----------

  /** Bound on the steps the writer still needs once it starts gathering. */
  function GatherBound(c: Config): nat {
    3 * c.cap + 6 + c.n * (c.cap + 1)
  }

  function CallBound(c: Config): nat {
    GatherBound(c) + 3 * c.n + c.cap + 9
  }

  function PcRank(c: Config, pc: PC): int {
    match pc
    case Idle => 0
    case CopyIn(i) => GatherBound(c) + 3 * c.n + 7 + c.cap - i
    case StoreOp => GatherBound(c) + 3 * c.n + 6
    case StoreCount => GatherBound(c) + 3 * c.n + 5
    case StoreStamp => GatherBound(c) + 3 * c.n + 4
    case PollSlot(r) => GatherBound(c) + 3 * (c.n - r) + 3
    case CheckOp(r) => GatherBound(c) + 3 * (c.n - r) + 2
    case CheckCount(r) => GatherBound(c) + 3 * (c.n - r) + 1
    case Gather(r, _, tmp) => 3 * c.cap + 6 + (c.n - r) * (c.cap + 1) - |tmp|
    case Fill(i, _) => 2 * c.cap + 6 - i
    case StoreResOp => c.cap + 5
    case StoreResCount => c.cap + 4
    case StoreResStamp => c.cap + 3
    case CopyOwn(i) => c.cap + 1 - i
    case PollResult => c.cap + 4
    case CheckResOp => c.cap + 3
    case CheckResCount => c.cap + 2
    case CopyOut(i) => c.cap + 1 - i
    case _ => 0
  }

  /** Steps rank `p` may still need to return from `total` collectives. */
  function RankMeasure(c: Config, s: State, p: nat, total: nat): int
    requires p < |s.ranks|
  {
    var rank := s.ranks[p];
    var left := total - |rank.returned|;
    if rank.pc.Idle? then left * CallBound(c) else (left - 1) * CallBound(c) + PcRank(c, rank.pc)
  }

  /** The same, and nothing for a rank that is through with them. */
  function RankLeft(c: Config, s: State, p: nat, total: nat): int
    requires p < |s.ranks|
  {
    if |s.ranks[p].returned| < total then RankMeasure(c, s, p, total) else 0
  }

  function Measure(c: Config, s: State, total: nat, m: nat): int
    requires m <= |s.ranks|
  {
    if m == 0 then 0 else Measure(c, s, total, m - 1) + RankLeft(c, s, m - 1, total)
  }

  lemma RankLeftNat(c: Config, s: State, p: nat, total: nat)
    requires Inv(c, s) && p < c.n
    ensures 0 <= RankLeft(c, s, p, total)
  {
    PcRankNat(c, s, p);
    var left := total - |s.ranks[p].returned|;
    if left > 0 {
      MulNonNeg(left, CallBound(c));
      MulNonNeg(left - 1, CallBound(c));
    }
  }

  lemma {:induction false} MeasureNat(c: Config, s: State, total: nat, m: nat)
    requires Inv(c, s) && m <= c.n
    ensures 0 <= Measure(c, s, total, m)
  {
    if m > 0 {
      MeasureNat(c, s, total, m - 1);
      RankLeftNat(c, s, m - 1, total);
    }
  }

  lemma PcRankNat(c: Config, s: State, p: nat)
    requires Inv(c, s) && p < c.n
    ensures 0 <= PcRank(c, s.ranks[p].pc)
  {
    assert RankInv(c, s, p);
    PcBounds(c, s, p);
    match s.ranks[p].pc
    case Gather(r, _, _) => MulNonNeg(c.n - r, c.cap + 1);
    case _ =>
  }

  /** The counters in the program points stay within their bounds. */
  lemma PcBounds(c: Config, s: State, p: nat)
    requires Inv(c, s) && p < c.n
    ensures Current(c, s, p).count <= c.cap
    ensures match s.ranks[p].pc
      case CopyIn(i) => i <= c.cap
      case PollSlot(r) => r < c.n
      case CheckOp(r) => r < c.n
      case CheckCount(r) => r < c.n
      case Gather(r, _, tmp) => r < c.n && |tmp| <= Current(c, s, p).count
      case Fill(i, _) => i <= c.cap
      case CopyOwn(i) => i <= c.cap
      case CopyOut(i) => i <= c.cap
      case _ => true
  {
    assert RankInv(c, s, p);
    var k := if s.ranks[p].gen == 0 then 0 else s.ranks[p].gen - 1;
    assert ValidCall(c, c.calls(p, k));
    if s.ranks[p].pc.Fill? {
      PayloadLength(c, s.result.stamp, p);
    }
  }

  lemma GatherRankFalls(c: Config, r: nat, tmp: nat)
    requires r < c.n && tmp <= c.cap
    ensures (c.n - (r + 1)) * (c.cap + 1) == (c.n - r) * (c.cap + 1) - (c.cap + 1)
    ensures (c.n - r) * (c.cap + 1) <= c.n * (c.cap + 1)
    ensures (c.n - r) * (c.cap + 1) >= c.cap + 1
  {
    assert c.n * (c.cap + 1) - (c.n - r) * (c.cap + 1) == r * (c.cap + 1);
    assert (c.n - r) * (c.cap + 1) - (c.cap + 1) == (c.n - r - 1) * (c.cap + 1);
    MulNonNeg(r, c.cap + 1);
    MulNonNeg(c.n - r - 1, c.cap + 1);
  }

  /** From `s` to `s'`, rank `p` moves to a program point of smaller rank, or returns. */
  ghost predicate Lowers(c: Config, s: State, s': State, p: nat)
    requires p < |s.ranks| && p < |s'.ranks|
  {
    var r, r' := s.ranks[p], s'.ranks[p];
    if r'.pc.Idle? then |r'.returned| == |r.returned| + 1 && PcRank(c, r.pc) > 0
    else r'.returned == r.returned && PcRank(c, r'.pc) < PcRank(c, r.pc)
  }

  lemma PublishLowers(c: Config, s: State, p: nat)
    requires Inv(c, s) && p < c.n && WritesSlot(s.ranks[p].pc)
    ensures Lowers(c, s, Step(c, s, p), p)
  {
    PcBounds(c, s, p);
  }

  lemma CollectLowers(c: Config, s: State, p: nat)
    requires Inv(c, s) && p < c.n && Step(c, s, p) != s
    requires s.ranks[p].pc.PollSlot? || s.ranks[p].pc.CheckOp? || s.ranks[p].pc.CheckCount?
    ensures Lowers(c, s, Step(c, s, p), p)
  {
    PcBounds(c, s, p);
    MulNonNeg(c.n, c.cap + 1);
  }

  lemma GatherLowers(c: Config, s: State, p: nat)
    requires Inv(c, s) && p < c.n && s.ranks[p].pc.Gather?
    ensures Lowers(c, s, Step(c, s, p), p)
  {
    PcBounds(c, s, p);
    GatherRankFalls(c, s.ranks[p].pc.r, |s.ranks[p].pc.tmp|);
  }

  lemma ProduceLowers(c: Config, s: State, p: nat)
    requires Inv(c, s) && p < c.n && (WritesLine(s.ranks[p].pc) || s.ranks[p].pc.CopyOwn?)
    ensures Lowers(c, s, Step(c, s, p), p)
  {
    PcBounds(c, s, p);
  }

  lemma ReadLowers(c: Config, s: State, p: nat)
    requires Inv(c, s) && p < c.n && Step(c, s, p) != s
    requires s.ranks[p].pc.PollResult? || (ReadsLine(s.ranks[p].pc) && !s.ranks[p].pc.CopyOwn?)
    ensures Lowers(c, s, Step(c, s, p), p)
  {
    PcBounds(c, s, p);
  }

  /** An effective step inside a call lowers the rank of the program point. */
  lemma StepLowersPc(c: Config, s: State, p: nat)
    requires Inv(c, s) && p < c.n && !s.ranks[p].pc.Idle? && Step(c, s, p) != s
    ensures Lowers(c, s, Step(c, s, p), p)
  {
    var pc := s.ranks[p].pc;
    if WritesSlot(pc) {
      PublishLowers(c, s, p);
    } else if pc.PollSlot? || pc.CheckOp? || pc.CheckCount? {
      CollectLowers(c, s, p);
    } else if pc.Gather? {
      GatherLowers(c, s, p);
    } else if WritesLine(pc) || pc.CopyOwn? {
      ProduceLowers(c, s, p);
    } else {
      ReadLowers(c, s, p);
    }
  }

  lemma BeginRank(c: Config, s: State, p: nat)
    requires p < |s.ranks| && p < |s.slots| && s.ranks[p].pc.Idle?
    ensures var r := Step(c, s, p).ranks[p];
      r.returned == s.ranks[p].returned && !r.pc.Idle? && PcRank(c, r.pc) < CallBound(c)
  {
  }

  lemma OneCallLess(left: int, b: nat)
    requires left > 0
    ensures left * b == (left - 1) * b + b && (left - 1) * b >= 0
  {
    MulNonNeg(left - 1, b);
  }

  lemma BeginFalls(c: Config, s: State, p: nat, total: nat)
    requires p < |s.ranks| && p < |s.slots| && Unfinished(s, p, total) && s.ranks[p].pc.Idle?
    ensures |Step(c, s, p).ranks| == |s.ranks|
    ensures RankLeft(c, Step(c, s, p), p, total) < RankLeft(c, s, p, total)
  {
    BeginRank(c, s, p);
    OneCallLess(total - |s.ranks[p].returned|, CallBound(c));
  }

  lemma LowersFalls(c: Config, s: State, s': State, p: nat, total: nat)
    requires p < |s.ranks| && p < |s'.ranks| && Unfinished(s, p, total) && !s.ranks[p].pc.Idle?
    requires Lowers(c, s, s', p)
    ensures RankLeft(c, s', p, total) < RankLeft(c, s, p, total)
  {
    OneCallLess(total - |s.ranks[p].returned|, CallBound(c));
  }

  lemma RankLeftFalls(c: Config, s: State, p: nat, total: nat)
    requires Inv(c, s) && p < c.n && Unfinished(s, p, total) && Step(c, s, p) != s
    ensures |Step(c, s, p).ranks| == c.n
    ensures RankLeft(c, Step(c, s, p), p, total) < RankLeft(c, s, p, total)
  {
    ReturnsGrow(c, s, p, p);
    if s.ranks[p].pc.Idle? {
      BeginFalls(c, s, p, total);
    } else {
      StepLowersPc(c, s, p);
      LowersFalls(c, s, Step(c, s, p), p, total);
    }
  }

  lemma StepTouchesOne(c: Config, s: State, p: nat, q: nat)
    requires p < |s.ranks| && p < |s.slots| && q < |s.ranks| && p != q
    ensures |Step(c, s, p).ranks| == |s.ranks| && Step(c, s, p).ranks[q] == s.ranks[q]
  {
  }

  /** What has been returned stays returned. */
  lemma ReturnsGrow(c: Config, s: State, p: nat, q: nat)
    requires p < |s.ranks| && p < |s.slots| && q < |s.ranks|
    ensures |Step(c, s, p).ranks| == |s.ranks|
    ensures |Step(c, s, p).ranks[q].returned| >= |s.ranks[q].returned|
  {
  }

  /** No step of any rank raises what a rank has left. */
  lemma RankLeftNoMore(c: Config, s: State, p: nat, q: nat, total: nat)
    requires Inv(c, s) && p < c.n && q < c.n
    ensures |Step(c, s, p).ranks| == c.n && RankLeft(c, Step(c, s, p), q, total) <= RankLeft(c, s, q, total)
  {
    ReturnsGrow(c, s, p, q);
    if p != q {
      StepTouchesOne(c, s, p, q);
    } else if Unfinished(s, p, total) && Step(c, s, p) != s {
      RankLeftFalls(c, s, p, total);
    }
  }

  lemma {:induction false} MeasureFallsTo(c: Config, s: State, p: nat, total: nat, m: nat)
    requires Inv(c, s) && p < c.n && m <= c.n
    ensures |Step(c, s, p).ranks| == c.n
    ensures Measure(c, Step(c, s, p), total, m) <= Measure(c, s, total, m)
    ensures p < m && Unfinished(s, p, total) && Step(c, s, p) != s ==>
      Measure(c, Step(c, s, p), total, m) < Measure(c, s, total, m)
  {
    StepKeeps(c, s, p);
    if m > 0 {
      MeasureFallsTo(c, s, p, total, m - 1);
      RankLeftNoMore(c, s, p, m - 1, total);
      if p == m - 1 && Unfinished(s, p, total) && Step(c, s, p) != s {
        RankLeftFalls(c, s, p, total);
      }
    }
  }

  lemma RunOn(c: Config, schedule: seq<nat>, p: nat)
    requires Schedule(c, schedule) && p < c.n
    ensures Schedule(c, schedule + [p]) && Run(c, schedule + [p]) == Step(c, Run(c, schedule), p)
  {
    assert (schedule + [p])[..|schedule|] == schedule;
  }

  /** Every step of an unfinished rank that is not a spin strictly lowers the measure, which
      is never negative; no other step raises it. */
  lemma EffectiveStepsFall(c: Config, schedule: seq<nat>, p: nat, total: nat)
    requires Hypotheses(c) && Schedule(c, schedule) && p < c.n
    ensures Schedule(c, schedule + [p])
    ensures 0 <= Measure(c, Run(c, schedule + [p]), total, c.n) <= Measure(c, Run(c, schedule), total, c.n)
    ensures Unfinished(Run(c, schedule), p, total) && Step(c, Run(c, schedule), p) != Run(c, schedule) ==>
      Measure(c, Run(c, schedule + [p]), total, c.n) < Measure(c, Run(c, schedule), total, c.n)
  {
    ReachableInv(c, schedule);
    RunOn(c, schedule, p);
    MeasureFallsTo(c, Run(c, schedule), p, total, c.n);
    ReachableInv(c, schedule + [p]);
    MeasureNat(c, Run(c, schedule + [p]), total, c.n);
  }

  // ---------- no deadlock ----------

  /** A rank that publishes its own contribution or the result. */
  predicate Working(pc: PC) {
    || pc.CopyIn? || pc.StoreOp? || pc.StoreCount? || pc.StoreStamp?
    || pc.Gather? || pc.Fill? || pc.StoreResOp? || pc.StoreResCount?
  }

  lemma WorkersMove(c: Config, s: State, p: nat)
    requires Inv(c, s) && p < c.n && Working(s.ranks[p].pc)
    ensures Step(c, s, p) != s
  {
    assert RankInv(c, s, p);
    assert Step(c, s, p).ranks[p].pc != s.ranks[p].pc;
  }

  /** A rank that is not waiting for a stamp always has an effective step. */
  lemma OnlyWaitersSpin(c: Config, s: State, p: nat)
    requires Inv(c, s) && p < c.n && Step(c, s, p) == s
    ensures
      || s.ranks[p].pc.AbortDivergence?
      || (s.ranks[p].pc.PollSlot? && s.ranks[p].pc.r < c.n && s.slots[s.ranks[p].pc.r].stamp < s.ranks[p].gen)
      || (s.ranks[p].pc.PollResult? && s.result.stamp < s.ranks[p].gen)
  {
    if Working(s.ranks[p].pc) {
      WorkersMove(c, s, p);
    } else {
      assert RankInv(c, s, p);
      assert Step(c, s, p).ranks[p] == s.ranks[p];
      assert |s.ranks[p].returned + [s.ranks[p].out]| != |s.ranks[p].returned|;
    }
  }

  /** A rank that has not published to the collective being formed can move. */
  lemma LaggardMoves(c: Config, s: State, u: nat)
    requires Inv(c, s) && u < c.n && s.slots[u].stamp == s.result.stamp
    ensures Step(c, s, u) != s
  {
    if Step(c, s, u) == s {
      assert RankInv(c, s, u);
      OnlyWaitersSpin(c, s, u);
    }
  }

  /** Once every rank has published, the writer can move. */
  lemma WriterMoves(c: Config, s: State, w: nat)
    requires Inv(c, s) && w < c.n && AgreesAt(c, s.result.stamp)
    requires w == WriterOf(c.calls(w, s.result.stamp))
    requires forall q :: 0 <= q < c.n ==> s.slots[q].stamp == s.result.stamp + 1
    ensures Step(c, s, w) != s
  {
    if Step(c, s, w) == s {
      assert RankInv(c, s, w) && SlotInv(c, s, w);
      OnlyWaitersSpin(c, s, w);
    }
  }

  /** In every reachable state with an unfinished rank, some unfinished rank can
      take an effective step. */
  lemma NoDeadlock(c: Config, s: State, total: nat, p: nat) returns (q: nat)
    requires Inv(c, s) && AgreeUpTo(c, total) && p < c.n && Unfinished(s, p, total)
    ensures q < c.n && Unfinished(s, q, total) && Step(c, s, q) != s
  {
    q := p;
    if Step(c, s, p) == s {
      var k := s.result.stamp;
      OnlyWaitersSpin(c, s, p);
      assert RankInv(c, s, p) && ReturnsInv(c, s, p);
      NobodyFinished(c, s, total);
      assert AgreesAt(c, k);
      if u :| 0 <= u < c.n && s.slots[u].stamp == k {
        LaggardMoves(c, s, u);
        q := u;
      } else {
        q := WriterOf(c.calls(p, k));
        OneWriter(c, k, p, q);
        forall u: nat | u < c.n
          ensures s.slots[u].stamp == k + 1
        {
          assert SlotInv(c, s, u);
        }
        WriterMoves(c, s, q);
      }
    }
  }

  /** As long as collective `g` is being formed, nobody has returned from it. */
  lemma NobodyFinished(c: Config, s: State, total: nat)
    requires Inv(c, s) && s.result.stamp < total
    ensures forall q: nat :: q < c.n ==> Unfinished(s, q, total)
  {
    forall q: nat | q < c.n
      ensures Unfinished(s, q, total)
    {
      assert RankInv(c, s, q) && ReturnsInv(c, s, q) && SlotInv(c, s, q);
    }
  }

  ghost predicate NotBeyond(c: Config, s: State, total: nat)
    requires |s.ranks| == c.n
  {
    forall p :: 0 <= p < c.n ==> |s.ranks[p].returned| + (if s.ranks[p].pc.Idle? then 0 else 1) <= total
  }

  lemma StaysBelow(c: Config, s: State, q: nat, total: nat)
    requires Inv(c, s) && q < c.n && Unfinished(s, q, total) && Step(c, s, q) != s
    requires NotBeyond(c, s, total)
    ensures |Step(c, s, q).ranks| == c.n && NotBeyond(c, Step(c, s, q), total)
  {
    var s' := Step(c, s, q);
    StepKeeps(c, s, q);
    forall p: nat | p < c.n
      ensures |s'.ranks[p].returned| + (if s'.ranks[p].pc.Idle? then 0 else 1) <= total
    {
      if p != q {
        StepTouchesOne(c, s, q, p);
        assert s'.ranks[p] == s.ranks[p];
      } else if s.ranks[q].pc.Idle? {
        BeginRank(c, s, q);
      } else {
        StepLowersPc(c, s, q);
      }
    }
  }

  /** One effective step of an unfinished rank, from a reachable state that is not
      past `total` collectives: the next state is as good and strictly closer. */
  lemma CloserStep(c: Config, schedule: seq<nat>, total: nat, p: nat) returns (q: nat)
    requires Hypotheses(c) && Schedule(c, schedule) && AgreeUpTo(c, total)
    requires NotBeyond(c, Run(c, schedule), total)
    requires p < c.n && Unfinished(Run(c, schedule), p, total)
    ensures q < c.n && Schedule(c, schedule + [q])
    ensures NotBeyond(c, Run(c, schedule + [q]), total)
    ensures 0 <= Measure(c, Run(c, schedule + [q]), total, c.n) < Measure(c, Run(c, schedule), total, c.n)
  {
    var s := Run(c, schedule);
    ReachableInv(c, schedule);
    q := NoDeadlock(c, s, total, p);
    EffectiveStepsFall(c, schedule, q, total);
    RunOn(c, schedule, q);
    StaysBelow(c, s, q, total);
  }

  ghost predicate AllReturned(c: Config, schedule: seq<nat>, total: nat) {
    Schedule(c, schedule) && forall p :: 0 <= p < c.n ==> |Run(c, schedule).ranks[p].returned| == total
  }

  ghost predicate Extendable(c: Config, schedule: seq<nat>, total: nat, bound: int) {
    && Schedule(c, schedule)
    && NotBeyond(c, Run(c, schedule), total)
    && 0 <= Measure(c, Run(c, schedule), total, c.n) <= bound
  }

  lemma ExtendOnce(c: Config, schedule: seq<nat>, total: nat, bound: int) returns (done: bool, q: nat)
    requires Hypotheses(c) && AgreeUpTo(c, total) && Extendable(c, schedule, total, bound)
    ensures done ==> AllReturned(c, schedule, total)
    ensures !done ==> Extendable(c, schedule + [q], total, bound - 1)
  {
    if p :| 0 <= p < c.n && Unfinished(Run(c, schedule), p, total) {
      q := CloserStep(c, schedule, total, p);
      done := false;
    } else {
      done, q := true, 0;
      forall p | 0 <= p < c.n
        ensures |Run(c, schedule).ranks[p].returned| == total
      {
        assert !Unfinished(Run(c, schedule), p, total);
      }
    }
  }

  /** From every reachable state that has not gone past `total` collectives, the run
      can be continued so that every rank returns from all of them, within as many
      steps as the measure says. */
  lemma {:induction false} CanComplete(c: Config, schedule: seq<nat>, total: nat, bound: int) returns (more: seq<nat>)
    requires Hypotheses(c) && AgreeUpTo(c, total) && Extendable(c, schedule, total, bound)
    ensures AllReturned(c, schedule + more, total) && |more| <= bound
    decreases bound
  {
    var done, q := ExtendOnce(c, schedule, total, bound);
    if done {
      more := [];
      assert schedule + more == schedule;
    } else {
      var rest := CanComplete(c, schedule + [q], total, bound - 1);
      more := [q] + rest;
      assert schedule + more == schedule + [q] + rest;
    }
  }

  // ---------- every fair run completes ----------

  /** What a rank needs for an effective step: the stamp it waits for. */
  ghost predicate Enabled(s: State, q: nat)
    requires q < |s.ranks|
  {
    var rank := s.ranks[q];
    match rank.pc
    case PollSlot(r) => r < |s.slots| && s.slots[r].stamp >= rank.gen
    case PollResult => s.result.stamp >= rank.gen
    case AbortDivergence => false
    case AbortMismatch => false
    case AbortRanAhead => false
    case _ => true
  }

  lemma EnabledMoves(c: Config, s: State, q: nat)
    requires Inv(c, s) && q < c.n
    ensures Enabled(s, q) <==> Step(c, s, q) != s
  {
    if Step(c, s, q) == s { OnlyWaitersSpin(c, s, q); }
  }

  /** Only a publishing rank touches a slot, and only its own. */
  lemma SlotsKept(c: Config, s: State, p: nat)
    requires p < |s.ranks| && p < |s.slots| && !WritesSlot(s.ranks[p].pc)
    ensures Step(c, s, p).slots == s.slots
  {
  }

  lemma SlotStampGrows(c: Config, s: State, p: nat)
    requires p < |s.ranks| && p < |s.slots| && WritesSlot(s.ranks[p].pc)
    requires s.ranks[p].gen >= s.slots[p].stamp
    ensures var s' := Step(c, s, p);
      && s'.slots == s.slots[p := s'.slots[p]] && s'.slots[p].stamp >= s.slots[p].stamp && s'.result == s.result
  {
  }

  lemma LineStampGrows(c: Config, s: State, p: nat)
    requires p < |s.ranks| && p < |s.slots| && !WritesSlot(s.ranks[p].pc)
    requires s.ranks[p].pc.StoreResStamp? ==> s.ranks[p].gen >= s.result.stamp
    ensures Step(c, s, p).result.stamp >= s.result.stamp
  {
  }

  /** No stamp ever falls. */
  lemma StampsGrow(c: Config, s: State, p: nat)
    requires Inv(c, s) && p < c.n
    ensures var s' := Step(c, s, p);
      && |s'.slots| == c.n && s'.result.stamp >= s.result.stamp
      && forall r :: 0 <= r < c.n ==> s'.slots[r].stamp >= s.slots[r].stamp
  {
    assert RankInv(c, s, p);
    if WritesSlot(s.ranks[p].pc) {
      SlotStampGrows(c, s, p);
    } else {
      SlotsKept(c, s, p);
      LineStampGrows(c, s, p);
    }
  }

  /** What a rank is able to do, no other rank can undo. */
  lemma EnabledStays(c: Config, s: State, p: nat, q: nat)
    requires Inv(c, s) && p < c.n && q < c.n && p != q && Enabled(s, q)
    ensures |Step(c, s, p).ranks| == c.n && Enabled(Step(c, s, p), q)
  {
    StepTouchesOne(c, s, p, q);
    StampsGrow(c, s, p);
  }

  lemma {:induction false} StretchNoMore(c: Config, base: seq<nat>, more: seq<nat>, total: nat)
    requires Hypotheses(c) && Schedule(c, base) && Schedule(c, more)
    ensures Schedule(c, base + more)
    ensures 0 <= Measure(c, Run(c, base + more), total, c.n) <= Measure(c, Run(c, base), total, c.n)
    decreases |more|
  {
    if more == [] {
      assert base + more == base;
      ReachableInv(c, base);
      MeasureNat(c, Run(c, base), total, c.n);
    } else {
      EffectiveStepsFall(c, base, more[0], total);
      StretchNoMore(c, base + [more[0]], more[1..], total);
      assert base + [more[0]] + more[1..] == base + more;
    }
  }

  /** A stretch in which an enabled unfinished rank gets its turn lowers the measure,
      whatever the others do meanwhile. */
  lemma {:induction false} EnabledRun(c: Config, base: seq<nat>, more: seq<nat>, total: nat, q: nat)
    requires Hypotheses(c) && Schedule(c, base) && Schedule(c, more) && q < c.n && q in more
    requires Unfinished(Run(c, base), q, total) && Enabled(Run(c, base), q)
    ensures Schedule(c, base + more)
    ensures Measure(c, Run(c, base + more), total, c.n) < Measure(c, Run(c, base), total, c.n)
    decreases |more|
  {
    var p := more[0];
    TurnTaken(c, base, p, total, q);
    assert base + [p] + more[1..] == base + more;
    if p == q {
      StretchNoMore(c, base + [p], more[1..], total);
    } else {
      EnabledRun(c, base + [p], more[1..], total, q);
    }
  }

  /** One turn: the enabled rank lowers the measure, and any other leaves it enabled. */
  lemma TurnTaken(c: Config, base: seq<nat>, p: nat, total: nat, q: nat)
    requires Hypotheses(c) && Schedule(c, base) && p < c.n && q < c.n
    requires Unfinished(Run(c, base), q, total) && Enabled(Run(c, base), q)
    ensures Schedule(c, base + [p])
    ensures Measure(c, Run(c, base + [p]), total, c.n) <= Measure(c, Run(c, base), total, c.n)
    ensures p == q ==> Measure(c, Run(c, base + [p]), total, c.n) < Measure(c, Run(c, base), total, c.n)
    ensures p != q ==> Unfinished(Run(c, base + [p]), q, total) && Enabled(Run(c, base + [p]), q)
  {
    ReachableInv(c, base);
    RunOn(c, base, p);
    EffectiveStepsFall(c, base, p, total);
    if p == q {
      EnabledMoves(c, Run(c, base), q);
    } else {
      EnabledStays(c, Run(c, base), p, q);
      StepTouchesOne(c, Run(c, base), p, q);
    }
  }

  /** Every rank gets a turn. */
  ghost predicate Fair(c: Config, stretch: seq<nat>) {
    Schedule(c, stretch) && forall q: nat :: q < c.n ==> q in stretch
  }

  ghost predicate AllFair(c: Config, stretches: seq<seq<nat>>) {
    forall i :: 0 <= i < |stretches| ==> Fair(c, stretches[i])
  }

  function Joined(stretches: seq<seq<nat>>): seq<nat> {
    if stretches == [] then [] else stretches[0] + Joined(stretches[1..])
  }

  /** Every rank has returned from the first `total` collectives. */
  ghost predicate AllThrough(c: Config, s: State, total: nat)
    requires |s.ranks| == c.n
  {
    forall p: nat :: p < c.n ==> !Unfinished(s, p, total)
  }

  lemma FairStretchProgresses(c: Config, base: seq<nat>, stretch: seq<nat>, total: nat)
    requires Hypotheses(c) && AgreeUpTo(c, total) && Schedule(c, base) && Fair(c, stretch)
    requires !AllThrough(c, Run(c, base), total)
    ensures Schedule(c, base + stretch)
    ensures 0 <= Measure(c, Run(c, base + stretch), total, c.n) < Measure(c, Run(c, base), total, c.n)
  {
    ReachableInv(c, base);
    var p: nat :| p < c.n && Unfinished(Run(c, base), p, total);
    var q := NoDeadlock(c, Run(c, base), total, p);
    EnabledMoves(c, Run(c, base), q);
    EnabledRun(c, base, stretch, total, q);
    StretchNoMore(c, base, stretch, total);
  }

  lemma ThroughStep(c: Config, s: State, p: nat, total: nat)
    requires |s.ranks| == c.n == |s.slots| && p < c.n && AllThrough(c, s, total)
    ensures |Step(c, s, p).ranks| == c.n && AllThrough(c, Step(c, s, p), total)
  {
    forall q: nat | q < c.n
      ensures |Step(c, s, p).ranks| == c.n && !Unfinished(Step(c, s, p), q, total)
    {
      ReturnsGrow(c, s, p, q);
      assert !Unfinished(s, q, total);
    }
  }

  lemma {:induction false} ThroughStays(c: Config, base: seq<nat>, more: seq<nat>, total: nat)
    requires Schedule(c, base) && Schedule(c, more) && AllThrough(c, Run(c, base), total)
    ensures Schedule(c, base + more) && AllThrough(c, Run(c, base + more), total)
    decreases |more|
  {
    if more == [] {
      assert base + more == base;
    } else {
      RunOn(c, base, more[0]);
      ThroughStep(c, Run(c, base), more[0], total);
      ThroughStays(c, base + [more[0]], more[1..], total);
      assert base + [more[0]] + more[1..] == base + more;
    }
  }

  lemma {:induction false} JoinedSchedule(c: Config, stretches: seq<seq<nat>>)
    requires AllFair(c, stretches)
    ensures Schedule(c, Joined(stretches))
    decreases |stretches|
  {
    if stretches != [] {
      assert Fair(c, stretches[0]);
      JoinedSchedule(c, stretches[1..]);
    }
  }

  /** From every reachable state, every schedule with as many fair stretches as the measure
      says completes the first `total` collectives on every rank. */
  lemma {:induction false} FairRunsComplete(c: Config, base: seq<nat>, stretches: seq<seq<nat>>, total: nat)
    requires Hypotheses(c) && AgreeUpTo(c, total) && Schedule(c, base) && AllFair(c, stretches)
    requires |stretches| >= Measure(c, Run(c, base), total, c.n)
    ensures Schedule(c, base + Joined(stretches)) && AllThrough(c, Run(c, base + Joined(stretches)), total)
    decreases |stretches|
  {
    JoinedSchedule(c, stretches);
    if AllThrough(c, Run(c, base), total) {
      ThroughStays(c, base, Joined(stretches), total);
    } else {
      UnfinishedLeft(c, base, total);
      assert Fair(c, stretches[0]);
      FairStretchProgresses(c, base, stretches[0], total);
      FairRunsComplete(c, base + stretches[0], stretches[1..], total);
      assert base + stretches[0] + Joined(stretches[1..]) == base + Joined(stretches);
    }
  }

  lemma UnfinishedLeft(c: Config, base: seq<nat>, total: nat)
    requires Hypotheses(c) && AgreeUpTo(c, total) && Schedule(c, base) && !AllThrough(c, Run(c, base), total)
    ensures Measure(c, Run(c, base), total, c.n) > 0
  {
    ReachableInv(c, base);
    var p: nat :| p < c.n && Unfinished(Run(c, base), p, total);
    var q := NoDeadlock(c, Run(c, base), total, p);
    EffectiveStepsFall(c, base, q, total);
  }

  /** In particular from the start, and with the right results: agreeing streams of `total`
      collectives complete under every fair schedule, and return what they should. */
  lemma Completes(c: Config, stretches: seq<seq<nat>>, total: nat, p: nat, k: nat)
    requires Hypotheses(c) && AgreeUpTo(c, total) && AllFair(c, stretches)
    requires |stretches| >= Measure(c, Run(c, []), total, c.n) && p < c.n && k < total
    ensures Schedule(c, Joined(stretches)) && k < |Run(c, Joined(stretches)).ranks[p].returned|
    ensures AgreesAt(c, k) && WriterOf(c.calls(p, k)) < c.n
    ensures Run(c, Joined(stretches)).ranks[p].returned[k] == Expected(c, k, p)
  {
    FairRunsComplete(c, [], stretches, total);
    var all := Joined(stretches);
    assert [] + all == all;
    assert !Unfinished(Run(c, all), p, total);
    CollectiveCorrect(c, all, p, k);
  }
}
