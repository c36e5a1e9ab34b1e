/** Every step of every rank preserves the invariant of the collective protocol. */
module CollectiveSteps {
  import opened CollectiveModel
  import opened CollectiveInvariant

  // ---------- who may do what at the same time ----------

  /** Ranks that agree on op and count agree on the writer. */
  lemma OneWriter(c: Config, k: nat, p: nat, q: nat)
    requires Hypotheses(c) && AgreesAt(c, k) && p < c.n && q < c.n
    ensures WriterOf(c.calls(p, k)) == WriterOf(c.calls(q, k))
  {
    assert c.calls(p, k).op == c.calls(q, k).op;
  }

  /** Having collected every slot means that all ranks agree. */
  lemma CollectedAgree(c: Config, s: State, p: nat)
    requires Inv(c, s) && p < c.n && Collected(c, s, p, s.result.stamp, c.n)
    ensures AgreesAt(c, s.result.stamp)
  {
    var k := s.result.stamp;
    forall q: nat | q < c.n
      ensures c.calls(q, k).op == c.calls(p, k).op && c.calls(q, k).count == c.calls(p, k).count
    {
      assert SlotInv(c, s, q);
    }
  }

  /** While one rank owns the line, every other rank is waiting for it. */
  lemma OwnerExcludes(c: Config, s: State, p: nat, q: nat)
    requires Inv(c, s) && p < c.n && q < c.n && p != q && Owns(c, s, p)
    ensures s.ranks[q].pc.PollResult? && Forming(s, q)
  {
    var k := s.result.stamp;
    CollectedAgree(c, s, p);
    OneWriter(c, k, p, q);
    assert RankInv(c, s, q) && SlotInv(c, s, q) && SlotInv(c, s, p);
    assert s.slots[q].stamp == k + 1;
  }

  // ---------- the five kinds of step ----------

  lemma PrivateFrame(c: Config, s: State, s': State, q: nat)
    requires WellFormed(c) && Shaped(c, s) && Shaped(c, s') && q < c.n
    requires s'.slots == s.slots && s'.result == s.result && s'.ranks[q] == s.ranks[q]
    requires RankInv(c, s, q)
    ensures RankInv(c, s', q)
  {
  }

  /** A step that changes nothing but rank `p`'s private state. */
  lemma PrivateStep(c: Config, s: State, s': State, p: nat, rank': Rank)
    requires Inv(c, s) && p < c.n
    requires s' == s.(ranks := s.ranks[p := rank'])
    requires RankInv(c, s', p) && SlotInv(c, s', p) && ReturnsInv(c, s', p)
    ensures Inv(c, s')
  {
    forall q: nat | q < c.n && q != p
      ensures RankInv(c, s', q) && SlotInv(c, s', q) && ReturnsInv(c, s', q)
    {
      assert RankInv(c, s, q) && SlotInv(c, s, q) && ReturnsInv(c, s, q);
      PrivateFrame(c, s, s', q);
    }
  }

  /** No rank depends on a slot that is stamped behind generation `g + 1`, whether
      it changes or gets its stamp. */
  lemma SlotFrame(c: Config, s: State, s': State, p: nat, q: nat)
    requires WellFormed(c) && Shaped(c, s) && Shaped(c, s') && p < c.n && q < c.n && q != p
    requires s'.slots == s.slots[p := s'.slots[p]] && s'.result == s.result && s'.ranks[q] == s.ranks[q]
    requires s.slots[p].stamp == s.result.stamp
    requires RankInv(c, s, q)
    ensures RankInv(c, s', q)
  {
    assert s'.slots[q] == s.slots[q];
  }

  /** A step that changes rank `p`'s own slot before it is stamped. */
  lemma UnstampedStep(c: Config, s: State, s': State, p: nat, rank': Rank, slot': Slot)
    requires Inv(c, s) && p < c.n && Preparing(s, p)
    requires s' == s.(ranks := s.ranks[p := rank'], slots := s.slots[p := slot'])
    requires |slot'.data| == c.cap && slot'.stamp == s.slots[p].stamp && rank'.gen == s.ranks[p].gen
    requires RankInv(c, s', p) && ReturnsInv(c, s', p)
    ensures Inv(c, s')
  {
    forall q: nat | q < c.n && q != p
      ensures RankInv(c, s', q) && SlotInv(c, s', q) && ReturnsInv(c, s', q)
    {
      assert RankInv(c, s, q) && SlotInv(c, s, q) && ReturnsInv(c, s, q);
      SlotFrame(c, s, s', p, q);
    }
    assert s.slots[p].stamp == s'.slots[p].stamp == s.result.stamp;
    assert SlotInv(c, s', p);
  }

  /** Stamping the slot. */
  lemma StampStep(c: Config, s: State, s': State, p: nat, rank': Rank)
    requires Inv(c, s) && p < c.n && Preparing(s, p) && Published(c, s, p, s.result.stamp)
    requires s' == s.(ranks := s.ranks[p := rank'], slots := s.slots[p := s.slots[p].(stamp := rank'.gen)])
    requires rank'.gen == s.ranks[p].gen
    requires RankInv(c, s', p) && ReturnsInv(c, s', p)
    ensures Inv(c, s')
  {
    forall q: nat | q < c.n && q != p
      ensures RankInv(c, s', q) && SlotInv(c, s', q) && ReturnsInv(c, s', q)
    {
      assert RankInv(c, s, q) && SlotInv(c, s, q) && ReturnsInv(c, s, q);
      SlotFrame(c, s, s', p, q);
    }
    assert SlotInv(c, s', p);
    assert forall q :: 0 <= q < c.n && s'.slots[q].stamp == s'.result.stamp ==> s.slots[q].stamp == s.result.stamp;
  }

  /** A step of the line's owner that rewrites part of the line. */
  lemma LineStep(c: Config, s: State, s': State, p: nat, rank': Rank, line': Slot)
    requires Inv(c, s) && p < c.n && Owns(c, s, p)
    requires s' == s.(ranks := s.ranks[p := rank'], result := line')
    requires |line'.data| == c.cap && line'.stamp == s.result.stamp && rank'.gen == s.ranks[p].gen
    requires RankInv(c, s', p) && ReturnsInv(c, s', p)
    ensures Inv(c, s')
  {
    forall q: nat | q < c.n && q != p
      ensures RankInv(c, s', q) && SlotInv(c, s', q) && ReturnsInv(c, s', q)
    {
      OwnerExcludes(c, s, p, q);
      assert RankInv(c, s, q) && SlotInv(c, s, q) && ReturnsInv(c, s, q);
    }
    assert SlotInv(c, s, p);
    assert SlotInv(c, s', p);
  }

  /** A rank that was waiting while the line was written finds it stamped. */
  lemma PublishFrame(c: Config, s: State, s': State, p: nat, q: nat)
    requires Inv(c, s) && Shaped(c, s') && p < c.n && q < c.n && q != p && Owns(c, s, p)
    requires s'.slots == s.slots && s'.ranks[q] == s.ranks[q] && s'.result.stamp == s.result.stamp + 1
    ensures RankInv(c, s', q) && SlotInv(c, s', q) && ReturnsInv(c, s', q)
  {
    OwnerExcludes(c, s, p, q);
    assert RankInv(c, s, q) && SlotInv(c, s, q) && ReturnsInv(c, s, q);
    assert Consuming(s', q);
  }

  /** Stamping the line: every rank moves from forming to consuming at once. */
  lemma PublishStep(c: Config, s: State, s': State, p: nat, rank': Rank)
    requires Inv(c, s) && p < c.n && s.ranks[p].pc.StoreResStamp?
    requires s' == s.(ranks := s.ranks[p := rank'], result := s.result.(stamp := s.ranks[p].gen))
    requires rank'.gen == s.ranks[p].gen
    requires RankInv(c, s', p) && ReturnsInv(c, s', p)
    ensures Inv(c, s')
  {
    var k := s.result.stamp;
    assert RankInv(c, s, p);
    forall q: nat | q < c.n && q != p
      ensures RankInv(c, s', q) && SlotInv(c, s', q) && ReturnsInv(c, s', q)
    {
      PublishFrame(c, s, s', p, q);
    }
    assert SlotInv(c, s', p);
    OneWriter(c, k, p, 0);
    assert LineHolds(c, s', k);
  }

  // ---------- program point by program point ----------

  lemma BeginKeeps(c: Config, s: State, p: nat)
    requires Inv(c, s) && p < c.n && s.ranks[p].pc.Idle?
    ensures Inv(c, Step(c, s, p))
  {
    var s' := Step(c, s, p);
    assert RankInv(c, s, p) && SlotInv(c, s, p) && ReturnsInv(c, s, p);
    assert ValidCall(c, c.calls(p, s.ranks[p].gen));
    PrivateStep(c, s, s', p, s'.ranks[p]);
  }

  lemma SentIsInput(c: Config, s: State, p: nat)
    requires WellFormed(c) && Shaped(c, s) && p < c.n && s.ranks[p].out == Current(c, s, p).out0
    ensures SendBuffer(Current(c, s, p), s.ranks[p]) == Current(c, s, p).input
    ensures ValidCall(c, Current(c, s, p))
  {
    var k := if s.ranks[p].gen == 0 then 0 else s.ranks[p].gen - 1;
    assert ValidCall(c, c.calls(p, k));
  }

  lemma PublishKeeps(c: Config, s: State, p: nat)
    requires Inv(c, s) && p < c.n
    requires s.ranks[p].pc.CopyIn? || s.ranks[p].pc.StoreOp? || s.ranks[p].pc.StoreCount?
    ensures Inv(c, Step(c, s, p))
  {
    var s' := Step(c, s, p);
    assert RankInv(c, s, p) && SlotInv(c, s, p) && ReturnsInv(c, s, p);
    SentIsInput(c, s, p);
    if s.ranks[p].pc.CopyIn? {
      var i, call := s.ranks[p].pc.i, Current(c, s, p);
      if i < call.count {
        assert s'.slots[p].data[..i + 1] == s.slots[p].data[..i] + [call.input[i]];
        assert call.input[..i + 1] == call.input[..i] + [call.input[i]];
      } else {
        assert call.input[..i] == call.input;
      }
    }
    assert s'.slots == s.slots[p := s'.slots[p]];
    UnstampedStep(c, s, s', p, s'.ranks[p], s'.slots[p]);
  }

  lemma StampKeeps(c: Config, s: State, p: nat)
    requires Inv(c, s) && p < c.n && s.ranks[p].pc.StoreStamp?
    ensures Inv(c, Step(c, s, p))
  {
    var s' := Step(c, s, p);
    assert RankInv(c, s, p) && SlotInv(c, s, p) && ReturnsInv(c, s, p);
    StampStep(c, s, s', p, s'.ranks[p]);
  }

  lemma PollKeeps(c: Config, s: State, p: nat)
    requires Inv(c, s) && p < c.n && s.ranks[p].pc.PollSlot?
    ensures Inv(c, Step(c, s, p))
  {
    var s' := Step(c, s, p);
    var r := s.ranks[p].pc.r;
    assert RankInv(c, s, p) && SlotInv(c, s, p) && ReturnsInv(c, s, p);
    assert SlotInv(c, s, r);
    if s' != s {
      PrivateStep(c, s, s', p, s'.ranks[p]);
    }
  }

  lemma CheckOpKeeps(c: Config, s: State, p: nat)
    requires Inv(c, s) && p < c.n && s.ranks[p].pc.CheckOp?
    ensures Inv(c, Step(c, s, p))
  {
    var s' := Step(c, s, p);
    var r, k, call := s.ranks[p].pc.r, s.result.stamp, Current(c, s, p);
    assert RankInv(c, s, p) && SlotInv(c, s, p) && ReturnsInv(c, s, p);
    assert SlotInv(c, s, r);
    assert s.slots[r].op == c.calls(r, k).op;
    assert s.slots[r].op != call.op ==> !AgreesAt(c, k);
    assert s' == Goto(s, p, if s.slots[r].op == call.op then CheckCount(r) else AbortDivergence);
    PrivateStep(c, s, s', p, s'.ranks[p]);
  }

  /** The last check hands the result line to the writer. */
  lemma LastCheck(c: Config, s: State, p: nat)
    requires Inv(c, s) && p < c.n && s.ranks[p].pc == CheckCount(c.n - 1)
    requires s.slots[c.n - 1].count == Current(c, s, p).count
    ensures RankInv(c, Step(c, s, p), p)
  {
    var k := s.result.stamp;
    assert RankInv(c, s, p);
    SentIsInput(c, s, p);
    assert Collected(c, s, p, k, c.n);
    CollectedAgree(c, s, p);
    assert Filled(c, s, p, k, 0);
  }

  lemma CheckCountRank(c: Config, s: State, p: nat)
    requires Inv(c, s) && p < c.n && s.ranks[p].pc.CheckCount?
    ensures var s' := Step(c, s, p); RankInv(c, s', p) && SlotInv(c, s', p) && ReturnsInv(c, s', p)
  {
    var r := s.ranks[p].pc.r;
    assert RankInv(c, s, p) && SlotInv(c, s, p) && ReturnsInv(c, s, p);
    CheckedSlot(c, s, p);
    if s.slots[r].count == Current(c, s, p).count {
      if r + 1 == c.n {
        LastCheck(c, s, p);
      } else {
        assert Step(c, s, p) == Goto(s, p, PollSlot(r + 1));
      }
    }
  }

  lemma CheckCountKeeps(c: Config, s: State, p: nat)
    requires Inv(c, s) && p < c.n && s.ranks[p].pc.CheckCount?
    ensures Inv(c, Step(c, s, p))
  {
    CheckCountRank(c, s, p);
    PrivateStep(c, s, Step(c, s, p), p, Step(c, s, p).ranks[p]);
  }

  /** A count that differs is the count of a call that differs. */
  lemma CheckedSlot(c: Config, s: State, p: nat)
    requires Inv(c, s) && p < c.n && s.ranks[p].pc.CheckCount?
    ensures s.ranks[p].pc.r < c.n
    ensures s.slots[s.ranks[p].pc.r].count != Current(c, s, p).count ==> !AgreesAt(c, s.result.stamp)
  {
    var r := s.ranks[p].pc.r;
    assert RankInv(c, s, p);
    assert SlotInv(c, s, r);
    assert s.slots[r].count == c.calls(r, s.result.stamp).count;
  }

  /** The accumulator after one more slot has been folded in. */
  lemma AccumulateOne(c: Config, k: nat, r: nat, acc: seq<Word>, tmp: seq<Word>)
    requires WellFormed(c) && AgreesAt(c, k) && r < c.n
    requires Accumulated(c, k, r, acc) && tmp == c.calls(r, k).input
    ensures r > 0 ==> |acc| == |tmp|
    ensures Accumulated(c, k, r + 1,
                        if r == 0 || |acc| != |tmp| then tmp else CombineVec(c.arith, c.calls(r, k).op, acc, tmp))
  {
    assert forall q :: 0 <= q < c.n ==> ValidCall(c, c.calls(q, k));
    assert c.calls(r, k).count == c.calls(0, k).count && c.calls(r, k).op == c.calls(0, k).op;
  }

  /** The slot being gathered holds its owner's contribution. */
  lemma GatheredSlot(c: Config, s: State, p: nat)
    requires Inv(c, s) && p < c.n && s.ranks[p].pc.Gather?
    ensures s.ranks[p].pc.r < c.n
    ensures var r, k := s.ranks[p].pc.r, s.result.stamp;
      && ValidCall(c, c.calls(r, k))
      && c.calls(r, k).count == Current(c, s, p).count && c.calls(r, k).op == Current(c, s, p).op
      && s.slots[r].data[..c.calls(r, k).count] == c.calls(r, k).input
  {
    assert RankInv(c, s, p) && SlotInv(c, s, s.ranks[p].pc.r);
  }

  /** Folding one gathered slot: on to the next slot, or to filling in the payload. */
  lemma GatherFolds(c: Config, k: nat, p: nat, r: nat, acc: seq<Word>, tmp: seq<Word>, acc': seq<Word>)
    requires WellFormed(c) && AgreesAt(c, k) && p < c.n && r < c.n && Reduces(c.calls(p, k).op)
    requires Accumulated(c, k, r, acc) && tmp == c.calls(r, k).input
    requires acc' == if r == 0 || |acc| != |tmp| then tmp else CombineVec(c.arith, c.calls(p, k).op, acc, tmp)
    ensures Accumulated(c, k, r + 1, acc')
    ensures r + 1 == c.n ==> acc' == Payload(c, p, k)
  {
    assert c.calls(p, k).op == c.calls(r, k).op;
    AccumulateOne(c, k, r, acc, tmp);
    if r + 1 == c.n {
      GatheredIsPayload(c, k, p, acc');
    }
  }

  lemma GatherLoadKeeps(c: Config, s: State, p: nat)
    requires Inv(c, s) && p < c.n && s.ranks[p].pc.Gather? && |s.ranks[p].pc.tmp| < Current(c, s, p).count
    ensures Inv(c, Step(c, s, p))
  {
    var s' := Step(c, s, p);
    GatheredSlot(c, s, p);
    assert RankInv(c, s, p) && SlotInv(c, s, p) && ReturnsInv(c, s, p);
    var r, acc, tmp := s.ranks[p].pc.r, s.ranks[p].pc.acc, s.ranks[p].pc.tmp;
    var theirs := c.calls(r, s.result.stamp);
    assert theirs.input[..|tmp| + 1] == theirs.input[..|tmp|] + [theirs.input[|tmp|]];
    assert s' == Goto(s, p, Gather(r, acc, tmp + [theirs.input[|tmp|]]));
    PrivateStep(c, s, s', p, s'.ranks[p]);
  }

  lemma GatherFoldRank(c: Config, s: State, p: nat)
    requires Inv(c, s) && p < c.n && s.ranks[p].pc.Gather? && |s.ranks[p].pc.tmp| >= Current(c, s, p).count
    ensures var s' := Step(c, s, p);
      && s' == s.(ranks := s.ranks[p := s'.ranks[p]])
      && RankInv(c, s', p) && SlotInv(c, s', p) && ReturnsInv(c, s', p)
  {
    var s' := Step(c, s, p);
    GatheredSlot(c, s, p);
    assert RankInv(c, s, p) && SlotInv(c, s, p) && ReturnsInv(c, s, p);
    var k, r, acc, tmp := s.result.stamp, s.ranks[p].pc.r, s.ranks[p].pc.acc, s.ranks[p].pc.tmp;
    assert tmp == c.calls(r, k).input;
    var acc' := s'.ranks[p].pc.acc;
    GatherFolds(c, k, p, r, acc, tmp, acc');
    assert s' == Goto(s, p, if r + 1 < c.n then Gather(r + 1, acc', []) else Fill(0, acc'));
    assert RankInv(c, s', p);
  }

  lemma GatherFoldKeeps(c: Config, s: State, p: nat)
    requires Inv(c, s) && p < c.n && s.ranks[p].pc.Gather? && |s.ranks[p].pc.tmp| >= Current(c, s, p).count
    ensures Inv(c, Step(c, s, p))
  {
    GatherFoldRank(c, s, p);
    PrivateStep(c, s, Step(c, s, p), p, Step(c, s, p).ranks[p]);
  }

  lemma GatheredIsPayload(c: Config, k: nat, p: nat, acc: seq<Word>)
    requires WellFormed(c) && AgreesAt(c, k) && p < c.n
    requires Reduces(c.calls(p, k).op) && Accumulated(c, k, c.n, acc)
    ensures acc == Payload(c, p, k)
  {
    assert Payload(c, p, k) == Folded(c, k);
    assert |acc| == |Folded(c, k)|;
    forall i | 0 <= i < |acc|
      ensures acc[i] == Folded(c, k)[i]
    {
      assert Folded(c, k)[i] == FoldAll(c, k, i);
    }
  }

  lemma PayloadLength(c: Config, k: nat, p: nat)
    requires WellFormed(c) && AgreesAt(c, k) && p < c.n
    ensures !c.calls(p, k).op.Barrier? ==> |Payload(c, p, k)| == c.calls(p, k).count
    ensures |Payload(c, p, k)| <= c.cap
  {
    assert ValidCall(c, c.calls(p, k)) && ValidCall(c, c.calls(0, k));
    assert c.calls(p, k).count == c.calls(0, k).count;
  }

  lemma FillKeeps(c: Config, s: State, p: nat)
    requires Inv(c, s) && p < c.n && s.ranks[p].pc.Fill?
    ensures Inv(c, Step(c, s, p))
  {
    var s' := Step(c, s, p);
    assert RankInv(c, s, p) && SlotInv(c, s, p) && ReturnsInv(c, s, p);
    var i, acc, k := s.ranks[p].pc.i, s.ranks[p].pc.acc, s.result.stamp;
    PayloadLength(c, k, p);
    if i < |acc| {
      assert s'.result.data[..i + 1] == s.result.data[..i] + [acc[i]];
      assert acc[..i + 1] == acc[..i] + [acc[i]];
      assert Filled(c, s', p, k, i + 1);
    }
    assert RankInv(c, s', p);
    LineStep(c, s, s', p, s'.ranks[p], s'.result);
  }

  lemma LineOpKeeps(c: Config, s: State, p: nat)
    requires Inv(c, s) && p < c.n && (s.ranks[p].pc.StoreResOp? || s.ranks[p].pc.StoreResCount?)
    ensures Inv(c, Step(c, s, p))
  {
    var s' := Step(c, s, p);
    assert RankInv(c, s, p) && SlotInv(c, s, p) && ReturnsInv(c, s, p);
    LineStep(c, s, s', p, s'.ranks[p], s'.result);
  }

  /** A finished rank returns the right buffer. */
  lemma ReturnKeeps(c: Config, s: State, s': State, p: nat, k: nat)
    requires WellFormed(c) && Shaped(c, s) && Shaped(c, s') && p < c.n && ReturnsInv(c, s, p)
    requires !s.ranks[p].pc.Idle? && s.ranks[p].gen == k + 1
    requires s'.ranks[p] == s.ranks[p].(pc := Idle, returned := s.ranks[p].returned + [s.ranks[p].out])
    requires ReturnedRight(c, p, k, s.ranks[p].out)
    ensures ReturnsInv(c, s', p)
  {
    var was, now := s.ranks[p].returned, s'.ranks[p].returned;
    forall j | 0 <= j < |now|
      ensures ReturnedRight(c, p, j, now[j])
    {
      assert j < |was| ==> ReturnedRight(c, p, j, was[j]);
    }
  }

  lemma PublishLineKeeps(c: Config, s: State, p: nat)
    requires Inv(c, s) && p < c.n && s.ranks[p].pc.StoreResStamp?
    ensures Inv(c, Step(c, s, p))
  {
    var s' := Step(c, s, p);
    assert RankInv(c, s, p) && SlotInv(c, s, p) && ReturnsInv(c, s, p);
    var k, call := s.result.stamp, Current(c, s, p);
    SentIsInput(c, s, p);
    assert Consuming(s', p);
    if !Reduces(call.op) {
      assert ReturnedRight(c, p, k, s.ranks[p].out);
      ReturnKeeps(c, s, s', p, k);
    }
    PublishStep(c, s, s', p, s'.ranks[p]);
  }

  /** A rank that is consuming sees the line of the collective it is in. */
  lemma ConsumerSeesLine(c: Config, s: State, p: nat)
    requires Inv(c, s) && p < c.n && Consuming(s, p)
    ensures LineHolds(c, s, s.ranks[p].gen - 1)
    ensures s.result.op == Current(c, s, p).op && s.result.count == Current(c, s, p).count
    ensures WriterOf(Current(c, s, p)) == WriterOf(c.calls(0, s.ranks[p].gen - 1)) < c.n
  {
    assert s.slots[p].stamp == s.result.stamp;
    OneWriter(c, s.ranks[p].gen - 1, p, 0);
    assert c.calls(p, s.ranks[p].gen - 1).op == c.calls(0, s.ranks[p].gen - 1).op;
  }

  /** Once all elements are copied, the receive buffer is the expected one. */
  lemma CopiedIsExpected(c: Config, s: State, p: nat)
    requires Inv(c, s) && p < c.n && Consuming(s, p) && Copied(c, s, p, Current(c, s, p).count)
    requires !Current(c, s, p).op.Barrier?
    requires Reduces(Current(c, s, p).op) || p != WriterOf(Current(c, s, p))
    ensures ReturnedRight(c, p, s.ranks[p].gen - 1, s.ranks[p].out)
  {
    var k, rank, call := s.ranks[p].gen - 1, s.ranks[p], Current(c, s, p);
    ConsumerSeesLine(c, s, p);
    var w := WriterOf(call);
    PayloadLength(c, k, w);
    assert rank.out == rank.out[..call.count];
    assert c.calls(w, k).op == call.op && c.calls(w, k).count == call.count;
    assert rank.out == Payload(c, w, k);
  }

  lemma CopyKeeps(c: Config, s: State, p: nat)
    requires Inv(c, s) && p < c.n && (s.ranks[p].pc.CopyOwn? || s.ranks[p].pc.CopyOut?)
    requires s.ranks[p].pc.i < Current(c, s, p).count
    ensures Inv(c, Step(c, s, p))
  {
    var s' := Step(c, s, p);
    assert RankInv(c, s, p) && SlotInv(c, s, p) && ReturnsInv(c, s, p);
    var i, rank := s.ranks[p].pc.i, s.ranks[p];
    assert s'.ranks[p].out[..i + 1] == rank.out[..i] + [s.result.data[i]];
    assert s.result.data[..i + 1] == s.result.data[..i] + [s.result.data[i]];
    PrivateStep(c, s, s', p, s'.ranks[p]);
  }

  /** Returning with the right buffer keeps the invariant. */
  lemma FinishKeeps(c: Config, s: State, p: nat)
    requires Inv(c, s) && p < c.n && Consuming(s, p) && !s.ranks[p].pc.Idle?
    requires ReturnedRight(c, p, s.ranks[p].gen - 1, s.ranks[p].out)
    ensures Inv(c, Return(s, p))
  {
    var s' := Return(s, p);
    assert SlotInv(c, s, p) && ReturnsInv(c, s, p);
    ReturnKeeps(c, s, s', p, s.ranks[p].gen - 1);
    PrivateStep(c, s, s', p, s'.ranks[p]);
  }

  lemma CopiedKeeps(c: Config, s: State, p: nat)
    requires Inv(c, s) && p < c.n && (s.ranks[p].pc.CopyOwn? || s.ranks[p].pc.CopyOut?)
    requires s.ranks[p].pc.i >= Current(c, s, p).count
    ensures Inv(c, Step(c, s, p))
  {
    assert RankInv(c, s, p);
    CopiedIsExpected(c, s, p);
    FinishKeeps(c, s, p);
  }

  lemma PollResultKeeps(c: Config, s: State, p: nat)
    requires Inv(c, s) && p < c.n && s.ranks[p].pc.PollResult?
    ensures Inv(c, Step(c, s, p))
  {
    var s' := Step(c, s, p);
    assert RankInv(c, s, p) && SlotInv(c, s, p) && ReturnsInv(c, s, p);
    if s' != s {
      assert s' == Goto(s, p, CheckResOp);
      PrivateStep(c, s, s', p, s'.ranks[p]);
    }
  }

  lemma CheckResultKeeps(c: Config, s: State, p: nat)
    requires Inv(c, s) && p < c.n && (s.ranks[p].pc.CheckResOp? || s.ranks[p].pc.CheckResCount?)
    ensures Inv(c, Step(c, s, p))
  {
    var s' := Step(c, s, p);
    assert RankInv(c, s, p) && SlotInv(c, s, p) && ReturnsInv(c, s, p);
    var rank, call := s.ranks[p], Current(c, s, p);
    SentIsInput(c, s, p);
    ConsumerSeesLine(c, s, p);
    if rank.pc.CheckResCount? && call.op.Barrier? {
      assert ReturnedRight(c, p, rank.gen - 1, rank.out);
      FinishKeeps(c, s, p);
    } else {
      assert s' == Goto(s, p, if rank.pc.CheckResOp? then CheckResCount else CopyOut(0));
      PrivateStep(c, s, s', p, s'.ranks[p]);
    }
  }

  lemma StepKeeps(c: Config, s: State, p: nat)
    requires Inv(c, s) && p < c.n
    ensures Inv(c, Step(c, s, p))
  {
    match s.ranks[p].pc
    case Idle => BeginKeeps(c, s, p);
    case CopyIn(_) => PublishKeeps(c, s, p);
    case StoreOp => PublishKeeps(c, s, p);
    case StoreCount => PublishKeeps(c, s, p);
    case StoreStamp => StampKeeps(c, s, p);
    case PollSlot(_) => PollKeeps(c, s, p);
    case CheckOp(_) => CheckOpKeeps(c, s, p);
    case CheckCount(_) => CheckCountKeeps(c, s, p);
    case Gather(_, _, tmp) =>
      if |tmp| < Current(c, s, p).count { GatherLoadKeeps(c, s, p); } else { GatherFoldKeeps(c, s, p); }
    case Fill(_, _) => FillKeeps(c, s, p);
    case StoreResOp => LineOpKeeps(c, s, p);
    case StoreResCount => LineOpKeeps(c, s, p);
    case StoreResStamp => PublishLineKeeps(c, s, p);
    case CopyOwn(i) =>
      if i < Current(c, s, p).count { CopyKeeps(c, s, p); } else { CopiedKeeps(c, s, p); }
    case PollResult => PollResultKeeps(c, s, p);
    case CheckResOp => CheckResultKeeps(c, s, p);
    case CheckResCount => CheckResultKeeps(c, s, p);
    case CopyOut(i) =>
      if i < Current(c, s, p).count { CopyKeeps(c, s, p); } else { CopiedKeeps(c, s, p); }
    case _ =>
  }

  lemma InitHolds(c: Config)
    requires Hypotheses(c)
    ensures Inv(c, Init(c))
  {
  }

  lemma {:induction false} ReachableInv(c: Config, schedule: seq<nat>)
    requires Hypotheses(c)
    requires forall j :: 0 <= j < |schedule| ==> schedule[j] < c.n
    ensures Inv(c, Run(c, schedule))
  {
    if schedule == [] {
      InitHolds(c);
    } else {
      var m := |schedule| - 1;
      ReachableInv(c, schedule[..m]);
      StepKeeps(c, Run(c, schedule[..m]), schedule[m]);
    }
  }
}
