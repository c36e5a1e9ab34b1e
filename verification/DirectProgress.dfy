/**
 The direct halo exchange makes progress: while an epoch is unfinished, its sender or its
 receiver can take an effective step, every such step brings the epoch closer to its
 acknowledgement, and nobody's step takes it further away.
 */
module DirectProgress {
  import opened Bytes
  import opened DirectHalo

  /** Steps a pair needs for a message of `m` bytes. */
  function Cost(m: nat): nat {
    2 * m + 10
  }

  /** Steps a pair still needs for the epoch it is in, whose message has `m` bytes. */
  ghost function EpochLeft(c: Channel, m: nat): int {
    if InTransit(c) then
      match c.receiver
      case RecvIdle => m + 5
      case LoadBytes => m + 4
      case LoadOff => m + 3
      case CopyOut(_, got) => m - |got| + 2
      case StoreAck(_) => 1
      case AbortSize => 0
    else
      match c.sender
      case SendIdle => Cost(m)
      case Staging(i) => 2 * m - i + 9
      case StoreOff => m + 8
      case StoreBytes => m + 7
      case StoreEpoch => m + 6
  }

  /** Steps for the epochs after `e`, up to `total`. */
  function CostAfter(w: World, d: nat, e: nat, total: nat): nat
    decreases if e < total then total - e else 0
  {
    if e >= total then 0 else Cost(|w.message(d, e + 1)|) + CostAfter(w, d, e + 1, total)
  }

  /** Steps pair `d` still needs until epoch `total` is acknowledged. */
  ghost function Left(w: World, c: Channel, d: nat, total: nat): int {
    if c.ack >= total then 0
    else EpochLeft(c, |w.message(d, c.ack + 1)|) + CostAfter(w, d, c.ack + 1, total)
  }

  lemma LeftNat(w: World, s: State, d: nat, total: nat)
    requires Inv(w, s) && d < |s.channels|
    ensures 0 <= Left(w, s.channels[d], d, total)
    ensures s.channels[d].ack < total ==> 0 < Left(w, s.channels[d], d, total)
  {
    assert ChannelInv(w, s, d);
  }

  /** The sender's steps: each that has an effect brings the epoch closer. */
  lemma SendProgress(w: World, s: State, d: nat, block: nat, carved: seq<byte>, total: nat)
    requires Inv(w, s) && d < |s.channels|
    ensures var s' := StepSender(w, s, d, block, carved);
      && |s'.channels| == |s.channels|
      && Left(w, s'.channels[d], d, total) <= Left(w, s.channels[d], d, total)
      && (s' != s && s.channels[d].ack < total ==>
            Left(w, s'.channels[d], d, total) < Left(w, s.channels[d], d, total))
  {
    assert ChannelInv(w, s, d);
  }

  /** An acknowledgement ends one epoch and starts the next. */
  lemma AckProgress(w: World, s: State, d: nat, total: nat)
    requires Inv(w, s) && d < |s.channels| && s.channels[d].receiver.StoreAck? && s.channels[d].ack < total
    ensures var s' := StepReceiver(w, s, d);
      && |s'.channels| == |s.channels|
      && Left(w, s'.channels[d], d, total) < Left(w, s.channels[d], d, total)
  {
    assert ChannelInv(w, s, d);
    var c := s.channels[d];
    assert InTransit(c) && c.sender.SendIdle?;
    assert Left(w, c, d, total) == 1 + CostAfter(w, d, c.ack + 1, total);
  }

  lemma ReceiveProgress(w: World, s: State, d: nat, total: nat)
    requires Inv(w, s) && d < |s.channels|
    ensures var s' := StepReceiver(w, s, d);
      && |s'.channels| == |s.channels|
      && Left(w, s'.channels[d], d, total) <= Left(w, s.channels[d], d, total)
      && (s' != s && s.channels[d].ack < total ==>
            Left(w, s'.channels[d], d, total) < Left(w, s.channels[d], d, total))
  {
    assert ChannelInv(w, s, d);
    if s.channels[d].receiver.StoreAck? && s.channels[d].ack < total { AckProgress(w, s, d, total); }
  }

  /** A step for pair `d`. */
  predicate Serves(a: Action, d: nat) {
    (a.SendTo? || a.ReceiveAt?) && a.d == d
  }

  lemma OtherSteps(w: World, s: State, a: Action, d: nat)
    requires d < |s.channels| && !Serves(a, d)
    ensures |Step(w, s, a).channels| == |s.channels| && Step(w, s, a).channels[d] == s.channels[d]
  {
  }

  /** No step of anybody raises what a pair has left, and every effective step of the pair
      itself lowers it until its last epoch is acknowledged. */
  lemma StepProgress(w: World, s: State, a: Action, d: nat, total: nat)
    requires Inv(w, s) && d < |s.channels|
    ensures var s' := Step(w, s, a);
      && |s'.channels| == |s.channels|
      && 0 <= Left(w, s'.channels[d], d, total) <= Left(w, s.channels[d], d, total)
      && (Serves(a, d) && s' != s && s.channels[d].ack < total ==>
            Left(w, s'.channels[d], d, total) < Left(w, s.channels[d], d, total))
  {
    StepKeeps(w, s, a);
    if !Serves(a, d) {
      OtherSteps(w, s, a, d);
    } else if a.SendTo? {
      SendProgress(w, s, d, a.block, a.carved, total);
    } else {
      ReceiveProgress(w, s, d, total);
    }
    LeftNat(w, Step(w, s, a), d, total);
  }

  /** Some block is not carved yet. */
  lemma FreshBlock(used: set<nat>) returns (b: nat)
    ensures b !in used
  {
    b := 0;
    var rest := used;
    while b in used
      invariant rest <= used && forall x :: x in used && x !in rest ==> x < b
      invariant forall x :: x in rest ==> x >= b
      decreases rest
    {
      rest := rest - {b};
      b := b + 1;
    }
  }

  /** In every reachable state, a pair with an unfinished epoch has an effective step: of the
      receiver while the epoch is in flight, of the sender otherwise.  A sender that needs a
      larger staging block finds one as long as the arena can carve. */
  lemma NoDeadlock(w: World, s: State, d: nat, total: nat) returns (a: Action)
    requires Inv(w, s) && d < |s.channels| && s.channels[d].ack < total
    ensures Serves(a, d) && Step(w, s, a) != s
    ensures a.ReceiveAt? <==> InTransit(s.channels[d])
  {
    assert ChannelInv(w, s, d);
    var c := s.channels[d];
    if InTransit(c) {
      a := ReceiveAt(d);
      ReceiverMoves(w, s, d);
    } else {
      var b := FreshBlock(s.mem.Keys);
      a := SendTo(d, b, w.message(d, c.sent + 1));
      SenderMoves(w, s, d, b);
    }
  }

  lemma ReceiverMoves(w: World, s: State, d: nat)
    requires Inv(w, s) && d < |s.channels| && InTransit(s.channels[d])
    ensures StepReceiver(w, s, d) != s
  {
    assert ChannelInv(w, s, d);
    assert StepReceiver(w, s, d).channels[d].receiver != s.channels[d].receiver;
  }

  lemma SenderMoves(w: World, s: State, d: nat, b: nat)
    requires Inv(w, s) && d < |s.channels| && !InTransit(s.channels[d]) && b !in s.mem
    ensures StepSender(w, s, d, b, w.message(d, s.channels[d].sent + 1)) != s
  {
    assert ChannelInv(w, s, d);
    var s' := StepSender(w, s, d, b, w.message(d, s.channels[d].sent + 1));
    assert s'.channels[d].sender != s.channels[d].sender;
  }

  /** So every run serves pair `d` with at most as many effective steps as it had left. */
  function EffectiveSteps(w: World, s: State, actions: seq<Action>, d: nat): nat
    decreases |actions|
  {
    if actions == [] then 0
    else
      var s' := Step(w, s, actions[0]);
      EffectiveSteps(w, s', actions[1..], d) + if Serves(actions[0], d) && s' != s then 1 else 0
  }

  function RunFrom(w: World, s: State, actions: seq<Action>): State
    decreases |actions|
  {
    if actions == [] then s else RunFrom(w, Step(w, s, actions[0]), actions[1..])
  }

  /** Enough effective steps of the pair acknowledge epoch `total`, in every run. */
  lemma {:induction false} EffectiveRunsEnd(w: World, s: State, actions: seq<Action>, d: nat, total: nat)
    requires Inv(w, s) && d < |s.channels| && EffectiveSteps(w, s, actions, d) >= Left(w, s.channels[d], d, total)
    ensures |RunFrom(w, s, actions).channels| == |s.channels|
    ensures RunFrom(w, s, actions).channels[d].ack >= total
    decreases |actions|
  {
    LeftNat(w, s, d, total);
    if actions != [] {
      var s' := Step(w, s, actions[0]);
      StepKeeps(w, s, actions[0]);
      StepProgress(w, s, actions[0], d, total);
      EffectiveRunsEnd(w, s', actions[1..], d, total);
    }
  }
}
