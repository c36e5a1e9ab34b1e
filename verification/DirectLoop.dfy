/**
 The direct halo exchange of all ranks: every rank runs the same sequence of exchanges,
 in each of which its progress loop goes round its sends and receives until nothing is
 left, publishing into its own arena and copying out of its peers'.  Nothing but the
 epochs couples the ranks, so they may be in different exchanges at the same time.

 Steps are single loads, stores and byte copies of a visit, or the move from one transfer
 to the next.  Other users of the arenas act in between.
 */
module DirectLoop {
  import opened Bytes
  import Exchange
  import DirectHalo
  import DirectProgress

  // ---------- epochs ----------

  /** How many sends to `q` rank `p` has in exchange `e`. */
  function Posts(w: Exchange.World, e: nat, p: nat, q: nat): nat {
    if e < w.total then multiset(w.plan(e, p))[Exchange.Send(q)] else 0
  }

  /** How many receives from `p` rank `q` has in exchange `e`. */
  function Waits(w: Exchange.World, e: nat, p: nat, q: nat): nat {
    if e < w.total then multiset(w.plan(e, q))[Exchange.Recv(p)] else 0
  }

  /** Both ends have one transfer for a message, and none where there is no message. */
  ghost predicate OnePost(w: Exchange.World, e: nat, p: nat, q: nat) {
    Posts(w, e, p, q) == Waits(w, e, p, q) == if |Exchange.Data(w, e, p, q)| > 0 then 1 else 0
  }

  ghost predicate Setting(w: Exchange.World) {
    && Exchange.WellFormed(w)
    && forall e: nat, p: nat, q: nat {:trigger OnePost(w, e, p, q)} :: p < w.n && q < w.n ==> OnePost(w, e, p, q)
  }

  /** The sender's epoch counter for the pair after `e` exchanges: every send takes one. */
  function SendEp(w: Exchange.World, p: nat, q: nat, e: nat): nat {
    if e == 0 then 0 else SendEp(w, p, q, e - 1) + Posts(w, e - 1, p, q)
  }

  /** The receiver's. */
  function RecvEp(w: Exchange.World, p: nat, q: nat, e: nat): nat {
    if e == 0 then 0 else RecvEp(w, p, q, e - 1) + Waits(w, e - 1, p, q)
  }

  /** The two counters agree although nobody compares them. */
  lemma {:induction false} EpochsAgree(w: Exchange.World, p: nat, q: nat, e: nat)
    requires Setting(w) && p < w.n && q < w.n
    ensures SendEp(w, p, q, e) == RecvEp(w, p, q, e)
  {
    if e > 0 {
      EpochsAgree(w, p, q, e - 1);
      assert OnePost(w, e - 1, p, q);
    }
  }

  lemma {:induction false} EpochsGrow(w: Exchange.World, p: nat, q: nat, a: nat, b: nat)
    requires a <= b
    ensures SendEp(w, p, q, a) <= SendEp(w, p, q, b)
    decreases b
  {
    if a < b {
      EpochsGrow(w, p, q, a, b - 1);
    }
  }

  /** Among the first `e` exchanges, the message that goes from `p` to `q` in epoch `k`. */
  function Message(w: Exchange.World, p: nat, q: nat, k: nat, e: nat): seq<byte> {
    if e == 0 then []
    else if SendEp(w, p, q, e - 1) < k <= SendEp(w, p, q, e) then Exchange.Data(w, e - 1, p, q)
    else Message(w, p, q, k, e - 1)
  }

  lemma {:induction false} MessageIs(w: Exchange.World, p: nat, q: nat, e: nat, upto: nat)
    requires e < upto && SendEp(w, p, q, e) < SendEp(w, p, q, e + 1)
    ensures Message(w, p, q, SendEp(w, p, q, e + 1), upto) == Exchange.Data(w, e, p, q)
    decreases upto
  {
    if e + 1 < upto {
      EpochsGrow(w, p, q, e + 1, upto - 1);
      MessageIs(w, p, q, e, upto - 1);
    }
  }

  /** Rank `p` as a sender. */
  function Halo(w: Exchange.World, p: nat): DirectHalo.World {
    DirectHalo.World(w.n, (q: nat, k: nat) => Message(w, p, q, k, w.total))
  }

  // ---------- states and steps ----------

  /** Where every rank is, and the arena it sends out of with the channels to its peers. */
  datatype State = State(ex: seq<nat>, cursor: seq<nat>, arenas: seq<DirectHalo.State>)

  ghost predicate Shaped(w: Exchange.World, s: State) {
    && |s.ex| == |s.cursor| == |s.arenas| == w.n
    && forall p :: 0 <= p < w.n ==> |s.arenas[p].channels| == w.n
  }

  function Init(w: Exchange.World): State {
    State(seq(w.n, _ => 0), seq(w.n, _ => 0), seq(w.n, p requires 0 <= p < w.n => DirectHalo.Init(Halo(w, p))))
  }

  /** The channel from `p` to `q`. */
  ghost function Chan(w: Exchange.World, s: State, p: nat, q: nat): DirectHalo.Channel
    requires Shaped(w, s) && p < w.n && q < w.n
  {
    s.arenas[p].channels[q]
  }

  /** The send has something left: its epoch is not published. */
  ghost predicate ToSend(w: Exchange.World, s: State, p: nat, q: nat)
    requires Shaped(w, s) && p < w.n && q < w.n
  {
    Chan(w, s, p, q).epoch < SendEp(w, p, q, s.ex[p] + 1)
  }

  /** The receive of `q` from `p` has something left: its epoch is not acknowledged. */
  ghost predicate ToReceive(w: Exchange.World, s: State, p: nat, q: nat)
    requires Shaped(w, s) && p < w.n && q < w.n
  {
    Chan(w, s, p, q).ack < RecvEp(w, p, q, s.ex[q] + 1)
  }

  /** A visit to the send does something: the previous epoch is acknowledged, or the visit
      has already started on this one. */
  ghost predicate CanSend(w: Exchange.World, s: State, p: nat, q: nat)
    requires Shaped(w, s) && p < w.n && q < w.n
  {
    var c := Chan(w, s, p, q);
    ToSend(w, s, p, q) && (c.sender.SendIdle? ==> c.ack >= SendEp(w, p, q, s.ex[p] + 1) - 1)
  }

  ghost predicate CanReceive(w: Exchange.World, s: State, p: nat, q: nat)
    requires Shaped(w, s) && p < w.n && q < w.n
  {
    var c := Chan(w, s, p, q);
    ToReceive(w, s, p, q) && (c.receiver.RecvIdle? ==> c.epoch >= RecvEp(w, p, q, s.ex[q] + 1))
  }

  lemma SomeUncarved(used: set<nat>)
    ensures exists b: nat :: b !in used
  {
    var b := DirectProgress.FreshBlock(used);
  }

  ghost function Uncarved(used: set<nat>): (b: nat)
    ensures b !in used
  {
    SomeUncarved(used);
    var b: nat :| b !in used;
    b
  }

  /** What the arena gives a sender that asks for room for `msg`: the offered block if it
      will do, and otherwise a newly carved one. */
  ghost function Offer(arena: DirectHalo.State, msg: seq<byte>, block: nat, carved: seq<byte>): (nat, seq<byte>) {
    if DirectHalo.Available(arena, block) && |DirectHalo.Contents(arena, block, carved)| >= |msg| then (block, carved)
    else (Uncarved(arena.mem.Keys), msg)
  }

  /** A step on rank `p`'s arena. */
  ghost function Act(w: Exchange.World, s: State, p: nat, a: DirectHalo.Action): State
    requires Shaped(w, s) && p < w.n
  {
    s.(arenas := s.arenas[p := DirectHalo.Step(Halo(w, p), s.arenas[p], a)])
  }

  function Next(s: State, p: nat): State
    requires p < |s.cursor|
  {
    s.(cursor := s.cursor[p := s.cursor[p] + 1])
  }

  ghost function SendAction(w: Exchange.World, s: State, p: nat, q: nat, block: nat, carved: seq<byte>)
    : DirectHalo.Action
    requires Shaped(w, s) && p < w.n && q < w.n
  {
    var offer := Offer(s.arenas[p], Message(w, p, q, Chan(w, s, p, q).sent + 1, w.total), block, carved);
    DirectHalo.SendTo(q, offer.0, offer.1)
  }

  ghost predicate HasLeft(w: Exchange.World, s: State, p: nat, pend: Exchange.Pend)
    requires Shaped(w, s) && p < w.n && pend.peer < w.n
  {
    match pend
    case Send(q) => ToSend(w, s, p, q)
    case Recv(q) => ToReceive(w, s, q, p)
  }

  ghost predicate NothingPending(w: Exchange.World, s: State, p: nat)
    requires Exchange.WellFormed(w) && Shaped(w, s) && p < w.n
  {
    forall i: nat :: i < |w.plan(s.ex[p], p)| ==> !HasLeft(w, s, p, w.plan(s.ex[p], p)[i])
  }

  /** One step of a visit of rank `p` to the transfer it is at, or past it. */
  ghost function Visit(w: Exchange.World, s: State, p: nat, pend: Exchange.Pend, block: nat, carved: seq<byte>): State
    requires Shaped(w, s) && p < w.n && pend.peer < w.n
  {
    match pend
    case Send(q) =>
      if CanSend(w, s, p, q) then Act(w, s, p, SendAction(w, s, p, q, block, carved)) else Next(s, p)
    case Recv(q) =>
      if CanReceive(w, s, q, p) then Act(w, s, q, DirectHalo.ReceiveAt(p)) else Next(s, p)
  }

  /** One step of rank `p`'s progress loop. */
  ghost function Step(w: Exchange.World, s: State, p: nat, block: nat, carved: seq<byte>): State
    requires Exchange.WellFormed(w) && Shaped(w, s) && p < w.n
  {
    if s.ex[p] >= w.total then s
    else if s.cursor[p] < |w.plan(s.ex[p], p)| then Visit(w, s, p, w.plan(s.ex[p], p)[s.cursor[p]], block, carved)
    else if NothingPending(w, s, p) then s.(ex := s.ex[p := s.ex[p] + 1], cursor := s.cursor[p := 0])
    else s.(cursor := s.cursor[p := 0])
  }

  /** `Turn` is a step of a rank, with the block its arena offers; `Use` one of another user
      of a rank's arena. */
  datatype Event = Turn(p: nat, block: nat, carved: seq<byte>) | Use(p: nat, a: DirectHalo.Action)

  predicate IsUse(a: DirectHalo.Action) {
    a.TakeBlock? || a.Scribble? || a.GiveBack?
  }

  ghost function Do(w: Exchange.World, s: State, v: Event): State
    requires Exchange.WellFormed(w) && Shaped(w, s) && v.p < w.n
  {
    match v
    case Turn(p, block, carved) => Step(w, s, p, block, carved)
    case Use(p, a) => if IsUse(a) then Act(w, s, p, a) else s
  }

  predicate Schedule(w: Exchange.World, events: seq<Event>) {
    forall i :: 0 <= i < |events| ==> events[i].p < w.n
  }

  lemma ActShaped(w: Exchange.World, s: State, p: nat, a: DirectHalo.Action)
    requires Shaped(w, s) && p < w.n
    ensures Shaped(w, Act(w, s, p, a))
  {
  }

  lemma DoShaped(w: Exchange.World, s: State, v: Event)
    requires Exchange.WellFormed(w) && Shaped(w, s) && v.p < w.n
    ensures Shaped(w, Do(w, s, v))
  {
    if v.Use? {
      ActShaped(w, s, v.p, v.a);
    } else if s.ex[v.p] < w.total && s.cursor[v.p] < |w.plan(s.ex[v.p], v.p)| {
      match w.plan(s.ex[v.p], v.p)[s.cursor[v.p]]
      case Send(q) => ActShaped(w, s, v.p, SendAction(w, s, v.p, q, v.block, v.carved));
      case Recv(q) => ActShaped(w, s, q, DirectHalo.ReceiveAt(v.p));
    }
  }

  ghost function Run(w: Exchange.World, s: State, events: seq<Event>): (s': State)
    requires Exchange.WellFormed(w) && Shaped(w, s) && Schedule(w, events)
    ensures Shaped(w, s')
    decreases |events|
  {
    if events == [] then s
    else
      DoShaped(w, s, events[0]);
      Run(w, Do(w, s, events[0]), events[1..])
  }

  // ---------- the invariant ----------

  ghost predicate At(w: Exchange.World, s: State, p: nat, pend: Exchange.Pend)
    requires Shaped(w, s) && p < w.n
  {
    && s.ex[p] < w.total && s.cursor[p] < |w.plan(s.ex[p], p)|
    && w.plan(s.ex[p], p)[s.cursor[p]] == pend
  }

  /** What a sender has published fits the exchange it is in, and it is in the middle of
      publishing only where its loop is. */
  ghost predicate SenderAt(w: Exchange.World, s: State, p: nat, q: nat)
    requires Shaped(w, s) && p < w.n && q < w.n
  {
    var c := Chan(w, s, p, q);
    && SendEp(w, p, q, s.ex[p]) <= c.epoch <= SendEp(w, p, q, s.ex[p] + 1)
    && (!c.sender.SendIdle? ==> At(w, s, p, Exchange.Send(q)) && ToSend(w, s, p, q))
  }

  ghost predicate ReceiverAt(w: Exchange.World, s: State, p: nat, q: nat)
    requires Shaped(w, s) && p < w.n && q < w.n
  {
    var c := Chan(w, s, p, q);
    && RecvEp(w, p, q, s.ex[q]) <= c.ack <= RecvEp(w, p, q, s.ex[q] + 1)
    && (!c.receiver.RecvIdle? ==> At(w, s, q, Exchange.Recv(p)) && ToReceive(w, s, p, q))
  }

  ghost predicate PairInv(w: Exchange.World, s: State, p: nat, q: nat)
    requires Shaped(w, s) && p < w.n && q < w.n
  {
    SenderAt(w, s, p, q) && ReceiverAt(w, s, p, q)
  }

  ghost predicate ArenaInv(w: Exchange.World, s: State, p: nat)
    requires Shaped(w, s) && p < w.n
  {
    && DirectHalo.Inv(Halo(w, p), s.arenas[p])
    && s.ex[p] <= w.total && s.cursor[p] <= |w.plan(s.ex[p], p)|
  }

  ghost predicate Inv(w: Exchange.World, s: State) {
    && Setting(w) && Shaped(w, s)
    && (forall p: nat :: p < w.n ==> ArenaInv(w, s, p))
    && (forall p: nat, q: nat :: p < w.n && q < w.n ==> PairInv(w, s, p, q))
  }

  lemma InitHolds(w: Exchange.World)
    requires Setting(w)
    ensures Inv(w, Init(w))
  {
    forall p: nat | p < w.n
      ensures ArenaInv(w, Init(w), p)
    {
      assert Init(w).arenas[p] == DirectHalo.Init(Halo(w, p)) == DirectHalo.Run(Halo(w, p), []);
      DirectHalo.ReachableInv(Halo(w, p), []);
    }
  }

  // ---------- preservation ----------

  /** A step of a sender leaves the receiver's side alone, and publishes at the end only. */
  ghost predicate SenderMoved(c: DirectHalo.Channel, c': DirectHalo.Channel) {
    && c'.ack == c.ack && c'.receiver == c.receiver && c'.delivered == c.delivered
    && (c'.epoch == c.epoch || (c'.epoch == c.sent && c'.sender.SendIdle?))
  }

  ghost predicate ReceiverMoved(c: DirectHalo.Channel, c': DirectHalo.Channel) {
    && c'.sent == c.sent && c'.sender == c.sender && c'.epoch == c.epoch
    && (c'.ack == c.ack || (c'.ack == c.ack + 1 && c'.receiver.RecvIdle?))
  }

  lemma ActFrame(h: DirectHalo.World, t: DirectHalo.State, a: DirectHalo.Action, d: nat)
    requires d < |t.channels|
    ensures var t' := DirectHalo.Step(h, t, a);
      && |t'.channels| == |t.channels|
      && (a.SendTo? && a.d == d ==> SenderMoved(t.channels[d], t'.channels[d]))
      && (a.ReceiveAt? && a.d == d ==> ReceiverMoved(t.channels[d], t'.channels[d]))
      && (!((a.SendTo? || a.ReceiveAt?) && a.d == d) ==> t'.channels[d] == t.channels[d])
  {
  }

  /** The pairs that a step leaves alone. */
  lemma PairFrame(w: Exchange.World, s: State, s': State, p: nat, q: nat)
    requires Shaped(w, s) && Shaped(w, s') && p < w.n && q < w.n && PairInv(w, s, p, q)
    requires s'.ex == s.ex && s'.cursor == s.cursor && Chan(w, s', p, q) == Chan(w, s, p, q)
    ensures PairInv(w, s', p, q)
  {
  }

  lemma ActKeepsArenas(w: Exchange.World, s: State, p: nat, a: DirectHalo.Action, r: nat)
    requires Inv(w, s) && p < w.n && r < w.n && Shaped(w, Act(w, s, p, a))
    ensures ArenaInv(w, Act(w, s, p, a), r)
  {
    assert ArenaInv(w, s, r);
    if r == p {
      DirectHalo.StepKeeps(Halo(w, p), s.arenas[p], a);
    }
  }

  lemma UseKeeps(w: Exchange.World, s: State, p: nat, a: DirectHalo.Action)
    requires Inv(w, s) && p < w.n && IsUse(a)
    ensures Inv(w, Act(w, s, p, a))
  {
    var s' := Act(w, s, p, a);
    ActShaped(w, s, p, a);
    forall r: nat | r < w.n
      ensures ArenaInv(w, s', r)
    {
      ActKeepsArenas(w, s, p, a, r);
    }
    forall r: nat, q: nat | r < w.n && q < w.n
      ensures PairInv(w, s', r, q)
    {
      assert PairInv(w, s, r, q);
      ActFrame(Halo(w, p), s.arenas[p], a, q);
      PairFrame(w, s, s', r, q);
    }
  }

  /** The pair that a sender's step is about. */
  lemma SendPair(w: Exchange.World, s: State, p: nat, q: nat, a: DirectHalo.Action)
    requires Inv(w, s) && p < w.n && q < w.n && At(w, s, p, Exchange.Send(q)) && ToSend(w, s, p, q)
    requires a.SendTo? && a.d == q && Shaped(w, Act(w, s, p, a))
    ensures PairInv(w, Act(w, s, p, a), p, q)
  {
    assert PairInv(w, s, p, q) && ArenaInv(w, s, p);
    assert DirectHalo.ChannelInv(Halo(w, p), s.arenas[p], q);
    ActFrame(Halo(w, p), s.arenas[p], a, q);
  }

  lemma RecvPair(w: Exchange.World, s: State, p: nat, q: nat, a: DirectHalo.Action)
    requires Inv(w, s) && p < w.n && q < w.n && At(w, s, q, Exchange.Recv(p)) && ToReceive(w, s, p, q)
    requires a == DirectHalo.ReceiveAt(q) && Shaped(w, Act(w, s, p, a))
    ensures PairInv(w, Act(w, s, p, a), p, q)
  {
    assert PairInv(w, s, p, q);
    ActFrame(Halo(w, p), s.arenas[p], a, q);
  }

  /** A step on the channel from `p` to `q`. */
  lemma ActKeeps(w: Exchange.World, s: State, p: nat, q: nat, a: DirectHalo.Action)
    requires Inv(w, s) && p < w.n && q < w.n && (a.SendTo? || a.ReceiveAt?) && a.d == q
    requires Shaped(w, Act(w, s, p, a)) && PairInv(w, Act(w, s, p, a), p, q)
    ensures Inv(w, Act(w, s, p, a))
  {
    var s' := Act(w, s, p, a);
    forall r: nat | r < w.n
      ensures ArenaInv(w, s', r)
    {
      ActKeepsArenas(w, s, p, a, r);
    }
    forall r: nat, b: nat | r < w.n && b < w.n
      ensures PairInv(w, s', r, b)
    {
      if (r, b) != (p, q) {
        assert PairInv(w, s, r, b);
        ActFrame(Halo(w, p), s.arenas[p], a, b);
        PairFrame(w, s, s', r, b);
      }
    }
  }

  /** Rank `p` is in the middle of nothing. */
  ghost predicate Resting(w: Exchange.World, s: State, p: nat)
    requires Shaped(w, s) && p < w.n
  {
    forall q: nat :: q < w.n ==> Chan(w, s, p, q).sender.SendIdle? && Chan(w, s, q, p).receiver.RecvIdle?
  }

  lemma PastSend(w: Exchange.World, s: State, p: nat, q: nat)
    requires Inv(w, s) && p < w.n && q < w.n && At(w, s, p, Exchange.Send(q)) && !CanSend(w, s, p, q)
    ensures Resting(w, s, p)
  {
    forall b: nat | b < w.n
      ensures Chan(w, s, p, b).sender.SendIdle? && Chan(w, s, b, p).receiver.RecvIdle?
    {
      assert PairInv(w, s, p, b) && PairInv(w, s, b, p);
    }
  }

  lemma PastRecv(w: Exchange.World, s: State, p: nat, q: nat)
    requires Inv(w, s) && p < w.n && q < w.n && At(w, s, p, Exchange.Recv(q)) && !CanReceive(w, s, q, p)
    ensures Resting(w, s, p)
  {
    forall b: nat | b < w.n
      ensures Chan(w, s, p, b).sender.SendIdle? && Chan(w, s, b, p).receiver.RecvIdle?
    {
      assert PairInv(w, s, p, b) && PairInv(w, s, b, p);
    }
  }

  lemma PastEnd(w: Exchange.World, s: State, p: nat)
    requires Inv(w, s) && p < w.n && s.cursor[p] >= |w.plan(s.ex[p], p)|
    ensures Resting(w, s, p)
  {
    forall b: nat | b < w.n
      ensures Chan(w, s, p, b).sender.SendIdle? && Chan(w, s, b, p).receiver.RecvIdle?
    {
      assert PairInv(w, s, p, b) && PairInv(w, s, b, p);
    }
  }

  /** A rank that is in the middle of nothing may move within its loop. */
  lemma CursorKeeps(w: Exchange.World, s: State, p: nat, k: nat)
    requires Inv(w, s) && p < w.n && Resting(w, s, p) && k <= |w.plan(s.ex[p], p)|
    ensures Inv(w, s.(cursor := s.cursor[p := k]))
  {
    var s' := s.(cursor := s.cursor[p := k]);
    forall r: nat | r < w.n
      ensures ArenaInv(w, s', r)
    {
      assert ArenaInv(w, s, r);
    }
    forall r: nat, b: nat | r < w.n && b < w.n
      ensures PairInv(w, s', r, b)
    {
      assert PairInv(w, s, r, b);
      assert Chan(w, s', r, b) == Chan(w, s, r, b);
    }
  }

  /** What has something left is in the loop. */
  lemma SendInLoop(w: Exchange.World, s: State, p: nat, q: nat) returns (i: nat)
    requires Inv(w, s) && p < w.n && q < w.n && s.ex[p] < w.total && ToSend(w, s, p, q)
    ensures i < |w.plan(s.ex[p], p)| && w.plan(s.ex[p], p)[i] == Exchange.Send(q)
  {
    assert PairInv(w, s, p, q);
    assert Exchange.Send(q) in multiset(w.plan(s.ex[p], p));
    i :| 0 <= i < |w.plan(s.ex[p], p)| && w.plan(s.ex[p], p)[i] == Exchange.Send(q);
  }

  lemma RecvInLoop(w: Exchange.World, s: State, p: nat, q: nat) returns (i: nat)
    requires Inv(w, s) && p < w.n && q < w.n && s.ex[p] < w.total && ToReceive(w, s, q, p)
    ensures i < |w.plan(s.ex[p], p)| && w.plan(s.ex[p], p)[i] == Exchange.Recv(q)
  {
    assert PairInv(w, s, q, p);
    assert Exchange.Recv(q) in multiset(w.plan(s.ex[p], p));
    i :| 0 <= i < |w.plan(s.ex[p], p)| && w.plan(s.ex[p], p)[i] == Exchange.Recv(q);
  }

  /** With nothing pending, everything the exchange sends is published, and everything it
      receives acknowledged. */
  lemma AllThrough(w: Exchange.World, s: State, p: nat, q: nat)
    requires Inv(w, s) && p < w.n && q < w.n && s.ex[p] < w.total && NothingPending(w, s, p)
    ensures !ToSend(w, s, p, q) && !ToReceive(w, s, q, p)
  {
    if ToSend(w, s, p, q) {
      var i := SendInLoop(w, s, p, q);
    } else if ToReceive(w, s, q, p) {
      var i := RecvInLoop(w, s, p, q);
    }
  }

  lemma FinishSender(w: Exchange.World, s: State, s': State, p: nat, r: nat, b: nat)
    requires Inv(w, s) && p < w.n && r < w.n && b < w.n && s.ex[p] < w.total && NothingPending(w, s, p)
    requires Resting(w, s, p) && s' == s.(ex := s.ex[p := s.ex[p] + 1], cursor := s.cursor[p := 0])
    ensures SenderAt(w, s', r, b)
  {
    assert PairInv(w, s, r, b);
    if r == p { AllThrough(w, s, p, b); }
  }

  lemma FinishReceiver(w: Exchange.World, s: State, s': State, p: nat, r: nat, b: nat)
    requires Inv(w, s) && p < w.n && r < w.n && b < w.n && s.ex[p] < w.total && NothingPending(w, s, p)
    requires Resting(w, s, p) && s' == s.(ex := s.ex[p := s.ex[p] + 1], cursor := s.cursor[p := 0])
    ensures ReceiverAt(w, s', r, b)
  {
    assert PairInv(w, s, r, b);
    if b == p { AllThrough(w, s, p, r); }
  }

  lemma FinishKeeps(w: Exchange.World, s: State, p: nat)
    requires Inv(w, s) && p < w.n && s.ex[p] < w.total && NothingPending(w, s, p) && Resting(w, s, p)
    ensures Inv(w, s.(ex := s.ex[p := s.ex[p] + 1], cursor := s.cursor[p := 0]))
  {
    var s' := s.(ex := s.ex[p := s.ex[p] + 1], cursor := s.cursor[p := 0]);
    forall r: nat | r < w.n
      ensures ArenaInv(w, s', r)
    {
      assert ArenaInv(w, s, r);
    }
    forall r: nat, b: nat | r < w.n && b < w.n
      ensures PairInv(w, s', r, b)
    {
      FinishSender(w, s, s', p, r, b);
      FinishReceiver(w, s, s', p, r, b);
    }
  }

  lemma VisitKeeps(w: Exchange.World, s: State, p: nat, pend: Exchange.Pend, block: nat, carved: seq<byte>)
    requires Inv(w, s) && p < w.n && pend.peer < w.n && At(w, s, p, pend)
    ensures Inv(w, Visit(w, s, p, pend, block, carved))
  {
    match pend
    case Send(q) =>
      if CanSend(w, s, p, q) {
        var a := SendAction(w, s, p, q, block, carved);
        ActShaped(w, s, p, a);
        SendPair(w, s, p, q, a);
        ActKeeps(w, s, p, q, a);
      } else {
        PastSend(w, s, p, q);
        CursorKeeps(w, s, p, s.cursor[p] + 1);
      }
    case Recv(q) =>
      if CanReceive(w, s, q, p) {
        var a := DirectHalo.ReceiveAt(p);
        ActShaped(w, s, q, a);
        RecvPair(w, s, q, p, a);
        ActKeeps(w, s, q, p, a);
      } else {
        PastRecv(w, s, p, q);
        CursorKeeps(w, s, p, s.cursor[p] + 1);
      }
  }

  lemma StepKeeps(w: Exchange.World, s: State, p: nat, block: nat, carved: seq<byte>)
    requires Inv(w, s) && p < w.n
    ensures Inv(w, Step(w, s, p, block, carved))
  {
    if s.ex[p] < w.total {
      if s.cursor[p] < |w.plan(s.ex[p], p)| {
        VisitKeeps(w, s, p, w.plan(s.ex[p], p)[s.cursor[p]], block, carved);
      } else {
        PastEnd(w, s, p);
        if NothingPending(w, s, p) {
          FinishKeeps(w, s, p);
        } else {
          CursorKeeps(w, s, p, 0);
        }
      }
    }
  }

  lemma DoKeeps(w: Exchange.World, s: State, v: Event)
    requires Inv(w, s) && v.p < w.n
    ensures Inv(w, Do(w, s, v))
  {
    match v
    case Turn(p, block, carved) => StepKeeps(w, s, p, block, carved);
    case Use(p, a) => if IsUse(a) { UseKeeps(w, s, p, a); }
  }

  lemma {:induction false} RunKeeps(w: Exchange.World, s: State, events: seq<Event>)
    requires Inv(w, s) && Schedule(w, events)
    ensures Inv(w, Run(w, s, events))
    decreases |events|
  {
    if events != [] {
      DoKeeps(w, s, events[0]);
      RunKeeps(w, Do(w, s, events[0]), events[1..]);
    }
  }

  // ---------- what holds in every run ----------

  /** What `q`'s exchange `e` brought it from `p`: the message of the epoch that the exchange
      waited for, if it waited for one. */
  ghost function Brought(w: Exchange.World, s: State, p: nat, q: nat, e: nat): seq<byte>
    requires Shaped(w, s) && p < w.n && q < w.n
  {
    var k := RecvEp(w, p, q, e + 1);
    if 0 < Waits(w, e, p, q) && k <= |Chan(w, s, p, q).delivered| then Chan(w, s, p, q).delivered[k - 1] else []
  }

  lemma WaitedFor(w: Exchange.World, s: State, p: nat, q: nat, e: nat)
    requires Inv(w, s) && p < w.n && q < w.n && e < s.ex[q]
    ensures RecvEp(w, p, q, e + 1) <= Chan(w, s, p, q).ack == |Chan(w, s, p, q).delivered|
  {
    assert PairInv(w, s, p, q) && ArenaInv(w, s, p);
    assert DirectHalo.ChannelInv(Halo(w, p), s.arenas[p], q);
    EpochsAgree(w, p, q, e + 1);
    EpochsAgree(w, p, q, s.ex[q]);
    EpochsGrow(w, p, q, e + 1, s.ex[q]);
  }

  lemma BroughtWhole(w: Exchange.World, s: State, p: nat, q: nat, e: nat)
    requires Inv(w, s) && p < w.n && q < w.n && e < s.ex[q]
    ensures Brought(w, s, p, q, e) == Exchange.Data(w, e, p, q)
  {
    assert OnePost(w, e, p, q) && ArenaInv(w, s, q);
    if Waits(w, e, p, q) > 0 {
      WaitedFor(w, s, p, q, e);
      EpochsAgree(w, p, q, e);
      EpochsAgree(w, p, q, e + 1);
      MessageIs(w, p, q, e, w.total);
      assert ArenaInv(w, s, p);
      assert DirectHalo.ChannelInv(Halo(w, p), s.arenas[p], q);
    }
  }

  /** In every interleaving, of any number of ranks and of the other users of their arenas:
      what `q` takes from `p` in exchange `e` is what `p` sends to `q` in exchange `e`. */
  lemma MessagesArriveWhole(w: Exchange.World, events: seq<Event>, s: State, p: nat, q: nat, e: nat)
    requires Setting(w) && Schedule(w, events) && s == Run(w, Init(w), events)
    requires p < w.n && q < w.n && e < s.ex[q]
    ensures Brought(w, s, p, q, e) == Exchange.Data(w, e, p, q)
  {
    InitHolds(w);
    RunKeeps(w, Init(w), events);
    BroughtWhole(w, s, p, q, e);
  }

  /** No rank ever sees a length other than the one it waits for. */
  lemma NoSizeMismatch(w: Exchange.World, events: seq<Event>, p: nat, q: nat)
    requires Setting(w) && Schedule(w, events) && p < w.n && q < w.n
    ensures !Chan(w, Run(w, Init(w), events), p, q).receiver.AbortSize?
  {
    var s := Run(w, Init(w), events);
    InitHolds(w);
    RunKeeps(w, Init(w), events);
    assert ArenaInv(w, s, p);
    assert DirectHalo.ChannelInv(Halo(w, p), s.arenas[p], q);
  }
}
