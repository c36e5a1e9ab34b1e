/**
 The direct halo exchange of one sending rank with all its receivers: the sender
 copies each message into a staging block of its own arena and publishes offset,
 length and epoch; the receiver copies the bytes out of the sender's arena and
 acknowledges the epoch in a line of its own; the sender reuses or recycles the
 staging block only after that.

 Steps are single loads, stores and byte copies.  The arena is shared with other
 users, who take free blocks, overwrite what they hold and give it back at any time.
 */
module DirectHalo {
  import opened Bytes

  /** `message(d, e)` is what goes to receiver `d` in epoch `e`, counted from 1. */
  datatype World = World(receivers: nat, message: (nat, nat) -> seq<byte>)

  datatype Sender = SendIdle | Staging(i: nat) | StoreOff | StoreBytes | StoreEpoch

  datatype Receiver =
    | RecvIdle
    | LoadBytes
    | LoadOff
    | CopyOut(off: nat, got: seq<byte>)
    | StoreAck(got: seq<byte>)
    | AbortSize

  datatype Staged = NoBlock | InBlock(block: nat)

  /** One sender-receiver pair: the sender's side, the published descriptor, the
      acknowledgement line and the receiver's side. */
  datatype Channel = Channel(
    sent: nat, sender: Sender, staged: Staged,
    off: nat, bytes: nat, epoch: nat,
    ack: nat, receiver: Receiver, delivered: seq<seq<byte>>)

  /** Arena blocks by name, with the free-listed ones and those in others' hands. */
  datatype State = State(channels: seq<Channel>, mem: map<nat, seq<byte>>, free: set<nat>, others: set<nat>)

  /** `SendTo` names the block to use should a new staging block be needed: a free one,
      or a newly carved one with the given contents. */
  datatype Action =
    | SendTo(d: nat, block: nat, carved: seq<byte>)
    | ReceiveAt(d: nat)
    | TakeBlock(block: nat, carved: seq<byte>)
    | Scribble(block: nat, i: nat, v: byte)
    | GiveBack(block: nat)

  function Init(w: World): State {
    State(seq(w.receivers, _ => Channel(0, SendIdle, NoBlock, 0, 0, 0, 0, RecvIdle, [])), map[], {}, {})
  }

  // ---------- steps ----------

  /** The arena can hand out `block`: it is free-listed, or not carved yet. */
  predicate Available(s: State, block: nat) {
    block in s.free || block !in s.mem
  }

  function Contents(s: State, block: nat, carved: seq<byte>): seq<byte> {
    if block in s.mem then s.mem[block] else carved
  }

  /** Start on the next epoch: once the previous one is acknowledged, and with a new
      staging block, recycling the old one, if that is too small. */
  function StartSend(w: World, s: State, d: nat, block: nat, carved: seq<byte>): State
    requires d < |s.channels|
  {
    var c := s.channels[d];
    var msg := w.message(d, c.sent + 1);
    var started := c.(sent := c.sent + 1, sender := Staging(0));
    if c.ack < c.sent then s
    else if c.staged.InBlock? && c.staged.block in s.mem && |msg| <= |s.mem[c.staged.block]| then
      s.(channels := s.channels[d := started])
    else if !Available(s, block) || |Contents(s, block, carved)| < |msg| then s
    else
      var recycled := if c.staged.InBlock? then {c.staged.block} else {};
      s.(channels := s.channels[d := started.(staged := InBlock(block))],
         mem := s.mem[block := Contents(s, block, carved)],
         free := s.free - {block} + recycled)
  }

  function StepSender(w: World, s: State, d: nat, block: nat, carved: seq<byte>): State
    requires d < |s.channels|
  {
    var c := s.channels[d];
    var msg := w.message(d, c.sent);
    match c.sender
    case SendIdle => StartSend(w, s, d, block, carved)
    case Staging(i) =>
      if i < |msg| && c.staged.InBlock? && c.staged.block in s.mem && i < |s.mem[c.staged.block]| then
        s.(mem := s.mem[c.staged.block := s.mem[c.staged.block][i := msg[i]]],
           channels := s.channels[d := c.(sender := Staging(i + 1))])
      else s.(channels := s.channels[d := c.(sender := StoreOff)])
    case StoreOff =>
      s.(channels := s.channels[d := c.(sender := StoreBytes, off := if c.staged.InBlock? then c.staged.block else 0)])
    case StoreBytes => s.(channels := s.channels[d := c.(sender := StoreEpoch, bytes := |msg|)])
    case StoreEpoch => s.(channels := s.channels[d := c.(sender := SendIdle, epoch := c.sent)])
  }

  function StepReceiver(w: World, s: State, d: nat): State
    requires d < |s.channels|
  {
    var c := s.channels[d];
    var want := |w.message(d, c.ack + 1)|;
    match c.receiver
    case RecvIdle => if c.epoch >= c.ack + 1 then s.(channels := s.channels[d := c.(receiver := LoadBytes)]) else s
    case LoadBytes => s.(channels := s.channels[d := c.(receiver := if c.bytes != want then AbortSize else LoadOff)])
    case LoadOff => s.(channels := s.channels[d := c.(receiver := CopyOut(c.off, []))])
    case CopyOut(off, got) =>
      if |got| < want && off in s.mem && |got| < |s.mem[off]|
      then s.(channels := s.channels[d := c.(receiver := CopyOut(off, got + [s.mem[off][|got|]]))])
      else s.(channels := s.channels[d := c.(receiver := StoreAck(got))])
    case StoreAck(got) =>
      s.(channels := s.channels[d := c.(receiver := RecvIdle, ack := c.ack + 1, delivered := c.delivered + [got])])
    case AbortSize => s
  }

  function Step(w: World, s: State, a: Action): State {
    match a
    case SendTo(d, block, carved) => if d < |s.channels| then StepSender(w, s, d, block, carved) else s
    case ReceiveAt(d) => if d < |s.channels| then StepReceiver(w, s, d) else s
    case TakeBlock(block, carved) =>
      if Available(s, block)
      then s.(mem := s.mem[block := Contents(s, block, carved)], free := s.free - {block}, others := s.others + {block})
      else s
    case Scribble(block, i, v) =>
      if block in s.others && block in s.mem && i < |s.mem[block]|
      then
        var scribbled: seq<byte> := s.mem[block][i := v];
        s.(mem := s.mem[block := scribbled])
      else s
    case GiveBack(block) =>
      if block in s.others then s.(others := s.others - {block}, free := s.free + {block}) else s
  }

  function Run(w: World, actions: seq<Action>): State {
    if actions == [] then Init(w) else Step(w, Run(w, actions[..|actions| - 1]), actions[|actions| - 1])
  }

  // ---------- the invariant ----------

  /** The first `n` bytes of `c`'s staging block are the first `n` bytes of `msg`. */
  ghost predicate StagedBytes(s: State, c: Channel, msg: seq<byte>, n: nat) {
    && c.staged.InBlock? && c.staged.block in s.mem
    && n <= |msg| <= |s.mem[c.staged.block]|
    && s.mem[c.staged.block][..n] == msg[..n]
  }

  /** An epoch is published and not yet acknowledged. */
  ghost predicate InTransit(c: Channel) {
    c.epoch == c.ack + 1
  }

  ghost predicate SenderInv(w: World, s: State, d: nat)
    requires d < |s.channels|
  {
    var c := s.channels[d];
    var msg := w.message(d, c.sent);
    if c.sender.SendIdle? then c.sent == c.epoch
    else
      && c.sent == c.epoch + 1 && c.ack == c.epoch
      && match c.sender
         case Staging(i) => StagedBytes(s, c, msg, i)
         case StoreOff => StagedBytes(s, c, msg, |msg|)
         case StoreBytes => StagedBytes(s, c, msg, |msg|) && c.off == c.staged.block
         case StoreEpoch => StagedBytes(s, c, msg, |msg|) && c.off == c.staged.block && c.bytes == |msg|
  }

  ghost predicate ReceiverInv(w: World, s: State, d: nat)
    requires d < |s.channels|
  {
    var c := s.channels[d];
    var msg := w.message(d, c.ack + 1);
    && (InTransit(c) ==> StagedBytes(s, c, msg, |msg|) && c.off == c.staged.block && c.bytes == |msg|)
    && (!c.receiver.RecvIdle? ==> InTransit(c))
    && match c.receiver
       case CopyOut(off, got) => off == c.off && |got| <= |msg| && got == msg[..|got|]
       case StoreAck(got) => got == msg
       case AbortSize => false
       case _ => true
  }

  ghost predicate ChannelInv(w: World, s: State, d: nat)
    requires d < |s.channels|
  {
    var c := s.channels[d];
    && c.ack <= c.epoch <= c.ack + 1
    && |c.delivered| == c.ack
    && (forall e :: 0 <= e < c.ack ==> c.delivered[e] == w.message(d, e + 1))
    && SenderInv(w, s, d) && ReceiverInv(w, s, d)
  }

  /** Nobody else holds a staging block, and no two receivers share one. */
  ghost predicate Owned(s: State) {
    && s.free !! s.others && s.free <= s.mem.Keys && s.others <= s.mem.Keys
    && (forall d :: 0 <= d < |s.channels| && s.channels[d].staged.InBlock? ==>
          s.channels[d].staged.block in s.mem &&
          s.channels[d].staged.block !in s.free && s.channels[d].staged.block !in s.others)
    && (forall d, e :: 0 <= d < e < |s.channels| && s.channels[d].staged.InBlock? && s.channels[e].staged.InBlock? ==>
          s.channels[d].staged.block != s.channels[e].staged.block)
  }

  ghost predicate Inv(w: World, s: State) {
    Owned(s) && forall d :: 0 <= d < |s.channels| ==> ChannelInv(w, s, d)
  }

  // ---------- preservation ----------

  /** A channel that a step leaves alone keeps its invariant if its block does. */
  lemma ChannelFrame(w: World, s: State, s': State, d: nat)
    requires d < |s.channels| == |s'.channels| && s'.channels[d] == s.channels[d] && ChannelInv(w, s, d)
    requires s.channels[d].staged.InBlock? && s.channels[d].staged.block in s.mem ==>
      s.channels[d].staged.block in s'.mem && s'.mem[s.channels[d].staged.block] == s.mem[s.channels[d].staged.block]
    ensures ChannelInv(w, s', d)
  {
  }

  lemma OneChannel(w: World, s: State, s': State, d: nat)
    requires Inv(w, s) && d < |s.channels| == |s'.channels| && Owned(s') && ChannelInv(w, s', d)
    requires forall e :: 0 <= e < |s.channels| && e != d ==> s'.channels[e] == s.channels[e]
    requires forall b :: b in s.mem && Foreign(s, d, b) ==> b in s'.mem && s'.mem[b] == s.mem[b]
    ensures Inv(w, s')
  {
    forall e | 0 <= e < |s.channels| && e != d
      ensures ChannelInv(w, s', e)
    {
      assert ChannelInv(w, s, e);
      ChannelFrame(w, s, s', e);
    }
  }

  /** A block staged for some receiver other than `d`. */
  ghost predicate Foreign(s: State, d: nat, b: nat) {
    exists e :: 0 <= e < |s.channels| && e != d && s.channels[e].staged == InBlock(b)
  }

  lemma StartSendKeeps(w: World, s: State, d: nat, block: nat, carved: seq<byte>)
    requires Inv(w, s) && d < |s.channels| && s.channels[d].sender.SendIdle?
    ensures Inv(w, StartSend(w, s, d, block, carved))
  {
    var s' := StartSend(w, s, d, block, carved);
    assert ChannelInv(w, s, d);
    if s' != s {
      OneChannel(w, s, s', d);
    }
  }

  lemma StagingKeeps(w: World, s: State, d: nat, block: nat, carved: seq<byte>)
    requires Inv(w, s) && d < |s.channels| && s.channels[d].sender.Staging?
    ensures Inv(w, StepSender(w, s, d, block, carved))
  {
    var s', c := StepSender(w, s, d, block, carved), s.channels[d];
    assert ChannelInv(w, s, d);
    var msg, i := w.message(d, c.sent), c.sender.i;
    if i < |msg| {
      assert s'.mem[c.staged.block][..i + 1] == s.mem[c.staged.block][..i] + [msg[i]];
      assert msg[..i + 1] == msg[..i] + [msg[i]];
    }
    OneChannel(w, s, s', d);
  }

  lemma PublishKeeps(w: World, s: State, d: nat, block: nat, carved: seq<byte>)
    requires Inv(w, s) && d < |s.channels| && !s.channels[d].sender.SendIdle? && !s.channels[d].sender.Staging?
    ensures Inv(w, StepSender(w, s, d, block, carved))
  {
    var s' := StepSender(w, s, d, block, carved);
    assert ChannelInv(w, s, d);
    OneChannel(w, s, s', d);
  }

  lemma ReceiveKeeps(w: World, s: State, d: nat)
    requires Inv(w, s) && d < |s.channels|
    ensures Inv(w, StepReceiver(w, s, d))
  {
    var s', c := StepReceiver(w, s, d), s.channels[d];
    assert ChannelInv(w, s, d);
    var msg := w.message(d, c.ack + 1);
    if c.receiver.CopyOut? && |c.receiver.got| < |msg| {
      var got := c.receiver.got;
      assert s.mem[c.off][..|msg|] == msg;
      assert s.mem[c.off][|got|] == s.mem[c.off][..|msg|][|got|] == msg[|got|];
      assert msg[..|got| + 1] == msg[..|got|] + [msg[|got|]];
    }
    if s' != s {
      OneChannel(w, s, s', d);
    }
  }

  lemma OthersKeep(w: World, s: State, a: Action)
    requires Inv(w, s) && (a.TakeBlock? || a.Scribble? || a.GiveBack?)
    ensures Inv(w, Step(w, s, a))
  {
    var s' := Step(w, s, a);
    forall d | 0 <= d < |s.channels|
      ensures ChannelInv(w, s', d)
    {
      assert ChannelInv(w, s, d);
      ChannelFrame(w, s, s', d);
    }
  }

  lemma StepKeeps(w: World, s: State, a: Action)
    requires Inv(w, s)
    ensures Inv(w, Step(w, s, a))
  {
    match a
    case SendTo(d, block, carved) =>
      if d < |s.channels| {
        match s.channels[d].sender {
          case SendIdle => StartSendKeeps(w, s, d, block, carved);
          case Staging(_) => StagingKeeps(w, s, d, block, carved);
          case _ => PublishKeeps(w, s, d, block, carved);
        }
      }
    case ReceiveAt(d) => if d < |s.channels| { ReceiveKeeps(w, s, d); }
    case _ => OthersKeep(w, s, a);
  }

  lemma {:induction false} ReachableInv(w: World, actions: seq<Action>)
    ensures Inv(w, Run(w, actions))
    ensures |Run(w, actions).channels| == w.receivers
  {
    if actions != [] {
      var m := |actions| - 1;
      ReachableInv(w, actions[..m]);
      StepKeeps(w, Run(w, actions[..m]), actions[m]);
    }
  }

  // ---------- what holds in every run ----------

  /** At most one epoch is in flight per pair, a length mismatch is never seen, and the
      receiver gets each epoch's bytes once, in order and unchanged. */
  lemma DirectSafe(w: World, actions: seq<Action>, d: nat)
    requires d < w.receivers
    ensures |Run(w, actions).channels| == w.receivers
    ensures var c := Run(w, actions).channels[d];
      && 0 <= c.epoch - c.ack <= 1
      && !c.receiver.AbortSize?
      && |c.delivered| == c.ack
      && forall e :: 0 <= e < |c.delivered| ==> c.delivered[e] == w.message(d, e + 1)
  {
    ReachableInv(w, actions);
    assert ChannelInv(w, Run(w, actions), d);
  }

  /** While an epoch is in flight, no step of anybody changes its staged bytes, its
      descriptor or who holds its block; only the receiver's acknowledgement ends that. */
  lemma StagingStable(w: World, actions: seq<Action>, a: Action, d: nat)
    requires d < w.receivers && |Run(w, actions).channels| == w.receivers
    requires InTransit(Run(w, actions).channels[d])
    ensures |Run(w, actions + [a]).channels| == w.receivers
    ensures var s, s' := Run(w, actions), Run(w, actions + [a]);
      var c, c' := s.channels[d], s'.channels[d];
      && c.staged.InBlock? && c.staged.block in s.mem && c'.staged == c.staged
      && c.staged.block in s'.mem && s'.mem[c.staged.block] == s.mem[c.staged.block]
      && c.staged.block !in s'.free && c.staged.block !in s'.others
      && (c'.ack == c.ack ==> c'.off == c.off && c'.bytes == c.bytes && c'.epoch == c.epoch)
      && (c'.ack != c.ack ==> a == ReceiveAt(d) && c.receiver.StoreAck?)
  {
    ReachableInv(w, actions);
    ReachableInv(w, actions + [a]);
    assert (actions + [a])[..|actions|] == actions;
    var s := Run(w, actions);
    assert ChannelInv(w, s, d);
    if a.SendTo? && a.d < w.receivers && a.d != d {
      assert ChannelInv(w, s, a.d);
    }
  }
}
