/** What the collective protocol guarantees in every interleaving. */
module CollectiveTheorems {
  import opened CollectiveModel
  import opened CollectiveInvariant
  import opened CollectiveSteps

  ghost predicate Schedule(c: Config, schedule: seq<nat>) {
    forall j :: 0 <= j < |schedule| ==> schedule[j] < c.n
  }

  /** In no interleaving does a rank return a wrong result: its k-th collective
      returns the rank-order fold of the k-th contributions, or the root's buffer.
      Op and count need not agree anywhere: returning is itself the proof that they did. */
  lemma CollectiveCorrect(c: Config, schedule: seq<nat>, p: nat, k: nat)
    requires Hypotheses(c) && Schedule(c, schedule) && p < c.n
    requires k < |Run(c, schedule).ranks[p].returned|
    ensures AgreesAt(c, k)
    ensures c.calls(p, k).op.Bcast? ==> c.calls(p, k).root < c.n
    ensures Run(c, schedule).ranks[p].returned[k] == Expected(c, k, p)
  {
    ReachableInv(c, schedule);
    var s := Run(c, schedule);
    assert ReturnsInv(c, s, p);
    assert ReturnedRight(c, p, k, s.ranks[p].returned[k]);
  }

  /** Every slot is stamped with the line's generation or the one after it, no rank
      is more than one collective ahead, and the "ran ahead" and "result mismatch"
      aborts are unreachable; the divergence abort needs a real divergence. */
  lemma GenerationWindow(c: Config, schedule: seq<nat>, p: nat)
    requires Hypotheses(c) && Schedule(c, schedule) && p < c.n
    ensures var s := Run(c, schedule);
      && s.result.stamp <= s.slots[p].stamp <= s.result.stamp + 1
      && s.slots[p].stamp <= s.ranks[p].gen <= s.result.stamp + 1
      && !s.ranks[p].pc.AbortRanAhead? && !s.ranks[p].pc.AbortMismatch?
      && (s.ranks[p].pc.AbortDivergence? ==> s.ranks[p].gen > 0 && !AgreesAt(c, s.ranks[p].gen - 1))
  {
    ReachableInv(c, schedule);
    var s := Run(c, schedule);
    assert RankInv(c, s, p) && SlotInv(c, s, p);
  }

  /** If two ranks differ in op or count at index `k`, no rank ever returns from its
      k-th collective, however many ranks take themselves for the writer. */
  lemma DivergenceContained(c: Config, schedule: seq<nat>, k: nat, p: nat)
    requires Hypotheses(c) && Schedule(c, schedule) && p < c.n
    requires !AgreesAt(c, k)
    ensures |Run(c, schedule).ranks[p].returned| <= k
    ensures Run(c, schedule).result.stamp <= k
  {
    ReachableInv(c, schedule);
    if k < |Run(c, schedule).ranks[p].returned| {
      CollectiveCorrect(c, schedule, p, k);
    }
  }

  /** No data race: while a rank reads the line, no other rank is writing it, and
      while the writer reads a slot, its owner is not writing it. */
  lemma NoDataRace(c: Config, schedule: seq<nat>, p: nat, q: nat)
    requires Hypotheses(c) && Schedule(c, schedule) && p < c.n && q < c.n && p != q
    ensures var s := Run(c, schedule);
      && (WritesLine(s.ranks[p].pc) ==> !WritesLine(s.ranks[q].pc) && !ReadsLine(s.ranks[q].pc))
      && (ReadsSlot(s.ranks[p].pc, q) ==> !WritesSlot(s.ranks[q].pc))
  {
    ReachableInv(c, schedule);
    var s := Run(c, schedule);
    assert RankInv(c, s, p) && RankInv(c, s, q);
    if WritesLine(s.ranks[p].pc) {
      OwnerExcludes(c, s, p, q);
    }
  }

  predicate WritesLine(pc: PC) {
    pc.Fill? || pc.StoreResOp? || pc.StoreResCount? || pc.StoreResStamp?
  }

  predicate ReadsLine(pc: PC) {
    pc.CheckResOp? || pc.CheckResCount? || pc.CopyOut? || pc.CopyOwn?
  }

  predicate ReadsSlot(pc: PC, q: nat) {
    (pc.CheckOp? && pc.r == q) || (pc.CheckCount? && pc.r == q) || (pc.Gather? && pc.r == q)
  }

  predicate WritesSlot(pc: PC) {
    pc.CopyIn? || pc.StoreOp? || pc.StoreCount? || pc.StoreStamp?
  }

  /** The imperative form of `combine`: the accumulator starts as slot 0 and takes in
      one further slot after another. */
  method CombineSlots(c: Config, ghost k: nat, op: Op, count: nat, slots: seq<Slot>) returns (dst: seq<Word>)
    requires WellFormed(c) && AgreesAt(c, k) && |slots| == c.n
    requires op == c.calls(0, k).op && count == c.calls(0, k).count
    requires forall r :: 0 <= r < c.n ==> count <= |slots[r].data| && slots[r].data[..count] == c.calls(r, k).input
    ensures dst == Folded(c, k)
  {
    var acc := slots[0].data[..count];
    assert forall q :: 0 <= q < c.n ==> ValidCall(c, c.calls(q, k));
    var r := 1;
    while r < c.n
      invariant 1 <= r <= c.n && |acc| == count
      invariant Accumulated(c, k, r, acc)
    {
      var tmp := slots[r].data[..count];
      ghost var before := acc;
      var i := 0;
      while i < count
        invariant 0 <= i <= count && |acc| == count
        invariant forall j :: i <= j < count ==> acc[j] == before[j]
        invariant forall j :: 0 <= j < i ==> acc[j] == FoldTo(c, k, r + 1, j)
      {
        acc := acc[i := Combine1(c.arith, op, acc[i], tmp[i])];
        i := i + 1;
      }
      r := r + 1;
    }
    dst := acc;
    forall i | 0 <= i < count
      ensures dst[i] == Folded(c, k)[i]
    {
      assert Folded(c, k)[i] == FoldAll(c, k, i);
    }
  }
}
