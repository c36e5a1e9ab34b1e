/**
 The direct halo exchange of all ranks never deadlocks and always ends: in every reachable
 unfinished state some rank can take a step towards publishing or acknowledging an epoch
 (or leave its exchange), it stays that way until that rank gets to it, and what is left
 to do falls with every such step.
 */
module DirectLoopProgress {
  import opened Bytes
  import opened DirectLoop
  import Exchange
  import ExchangeProgress
  import DirectHalo
  import DirectProgress

  // ---------- what is left to do ----------

  /** Steps on the channel from `p` to `q` until the last epoch of the run is acknowledged. */
  ghost function PairLeft(w: Exchange.World, s: State, p: nat, q: nat): int
    requires Shaped(w, s) && p < w.n && q < w.n
  {
    DirectProgress.Left(Halo(w, p), Chan(w, s, p, q), q, SendEp(w, p, q, w.total))
  }

  ghost function PairsLeft(w: Exchange.World, s: State): (nat, nat) -> int
    requires Shaped(w, s)
  {
    (p: nat, q: nat) => if p < w.n && q < w.n then PairLeft(w, s, p, q) else 0
  }

  ghost function RoundsLeft(w: Exchange.World, s: State): (nat, nat) -> int
    requires Shaped(w, s)
  {
    (p: nat, q: nat) => if p < w.n && q == 0 then w.total - s.ex[p] else 0
  }

  /** Steps left on all channels, plus exchanges left to finish. */
  ghost function Left(w: Exchange.World, s: State): int
    requires Shaped(w, s)
  {
    ExchangeProgress.Grid(PairsLeft(w, s), w.n, w.n) + ExchangeProgress.Grid(RoundsLeft(w, s), w.n, w.n)
  }

  ghost predicate AllDone(w: Exchange.World, s: State)
    requires Shaped(w, s)
  {
    forall p: nat :: p < w.n ==> s.ex[p] >= w.total
  }

  ghost predicate NoMore(w: Exchange.World, s: State, s': State)
    requires Shaped(w, s) && Shaped(w, s')
  {
    && (forall p: nat, q: nat :: p < w.n && q < w.n ==> PairLeft(w, s', p, q) <= PairLeft(w, s, p, q))
    && (forall p: nat :: p < w.n ==> s'.ex[p] >= s.ex[p])
  }

  lemma LeftFalls(w: Exchange.World, s: State, s': State, p: nat, q: nat)
    requires Shaped(w, s) && Shaped(w, s') && NoMore(w, s, s') && p < w.n && q < w.n
    ensures Left(w, s') <= Left(w, s)
    ensures PairLeft(w, s', p, q) < PairLeft(w, s, p, q) || s'.ex[p] > s.ex[p] ==> Left(w, s') < Left(w, s)
  {
    ExchangeProgress.GridFalls(PairsLeft(w, s), PairsLeft(w, s'), w.n, w.n, p, q);
    ExchangeProgress.GridFalls(RoundsLeft(w, s), RoundsLeft(w, s'), w.n, w.n, p, 0);
  }

  lemma PairsNat(w: Exchange.World, s: State)
    requires Inv(w, s)
    ensures 0 <= ExchangeProgress.Grid(PairsLeft(w, s), w.n, w.n)
  {
    forall p: nat, q: nat | p < w.n && q < w.n
      ensures 0 <= PairLeft(w, s, p, q)
    {
      assert ArenaInv(w, s, p);
      DirectProgress.LeftNat(Halo(w, p), s.arenas[p], q, SendEp(w, p, q, w.total));
    }
    ExchangeProgress.GridNat(PairsLeft(w, s), w.n, w.n);
  }

  lemma LeftNat(w: Exchange.World, s: State)
    requires Inv(w, s)
    ensures 0 <= Left(w, s)
  {
    PairsNat(w, s);
    forall p: nat | p < w.n
      ensures s.ex[p] <= w.total
    {
      assert ArenaInv(w, s, p);
    }
    ExchangeProgress.GridNat(RoundsLeft(w, s), w.n, w.n);
  }

  lemma SomethingLeft(w: Exchange.World, s: State)
    requires Inv(w, s) && !AllDone(w, s)
    ensures Left(w, s) > 0
  {
    var p: nat :| p < w.n && s.ex[p] < w.total;
    PairsNat(w, s);
    forall r: nat | r < w.n
      ensures s.ex[r] <= w.total
    {
      assert ArenaInv(w, s, r);
    }
    var zero := (a: nat, b: nat) => 0;
    ExchangeProgress.GridFalls(RoundsLeft(w, s), zero, w.n, w.n, p, 0);
    ExchangeProgress.GridOfZeros(zero, w.n, w.n);
  }

  // ---------- a step never adds to what is left ----------

  lemma ActNoMore(w: Exchange.World, s: State, p: nat, a: DirectHalo.Action)
    requires Inv(w, s) && p < w.n && Shaped(w, Act(w, s, p, a))
    ensures NoMore(w, s, Act(w, s, p, a))
  {
    var s' := Act(w, s, p, a);
    forall r: nat, q: nat | r < w.n && q < w.n
      ensures PairLeft(w, s', r, q) <= PairLeft(w, s, r, q)
    {
      if r == p {
        assert ArenaInv(w, s, p);
        DirectProgress.StepProgress(Halo(w, p), s.arenas[p], a, q, SendEp(w, p, q, w.total));
      }
    }
  }

  /** A step with an effect on the channel from `p` to `q`. */
  lemma ActFalls(w: Exchange.World, s: State, p: nat, q: nat, a: DirectHalo.Action)
    requires Inv(w, s) && p < w.n && q < w.n && DirectProgress.Serves(a, q) && Shaped(w, Act(w, s, p, a))
    requires DirectHalo.Step(Halo(w, p), s.arenas[p], a) != s.arenas[p]
    requires Chan(w, s, p, q).ack < SendEp(w, p, q, w.total)
    ensures NoMore(w, s, Act(w, s, p, a)) && Left(w, Act(w, s, p, a)) < Left(w, s)
  {
    assert ArenaInv(w, s, p);
    DirectProgress.StepProgress(Halo(w, p), s.arenas[p], a, q, SendEp(w, p, q, w.total));
    ActNoMore(w, s, p, a);
    LeftFalls(w, s, Act(w, s, p, a), p, q);
  }

  /** A sender that starts gets a block that will do. */
  lemma StartMoves(h: DirectHalo.World, t: DirectHalo.State, d: nat, block: nat, carved: seq<byte>)
    requires d < |t.channels| && t.channels[d].sender.SendIdle? && t.channels[d].ack >= t.channels[d].sent
    ensures var offer := Offer(t, h.message(d, t.channels[d].sent + 1), block, carved);
      DirectHalo.StartSend(h, t, d, offer.0, offer.1) != t
  {
    var offer := Offer(t, h.message(d, t.channels[d].sent + 1), block, carved);
    assert DirectHalo.StartSend(h, t, d, offer.0, offer.1).channels[d].sender.Staging?;
  }

  lemma GoesOn(h: DirectHalo.World, t: DirectHalo.State, d: nat, block: nat, carved: seq<byte>)
    requires d < |t.channels| && !t.channels[d].sender.SendIdle?
    ensures DirectHalo.StepSender(h, t, d, block, carved) != t
  {
    assert DirectHalo.StepSender(h, t, d, block, carved).channels[d].sender != t.channels[d].sender;
  }

  lemma SendMoves(w: Exchange.World, s: State, p: nat, q: nat, block: nat, carved: seq<byte>)
    requires Inv(w, s) && p < w.n && q < w.n && s.ex[p] < w.total && CanSend(w, s, p, q)
    ensures DirectHalo.Step(Halo(w, p), s.arenas[p], SendAction(w, s, p, q, block, carved)) != s.arenas[p]
    ensures Chan(w, s, p, q).ack < SendEp(w, p, q, w.total)
  {
    var a := SendAction(w, s, p, q, block, carved);
    assert PairInv(w, s, p, q) && ArenaInv(w, s, p) && OnePost(w, s.ex[p], p, q);
    assert DirectHalo.ChannelInv(Halo(w, p), s.arenas[p], q);
    EpochsGrow(w, p, q, s.ex[p] + 1, w.total);
    if Chan(w, s, p, q).sender.SendIdle? {
      StartMoves(Halo(w, p), s.arenas[p], q, block, carved);
    } else {
      GoesOn(Halo(w, p), s.arenas[p], q, a.block, a.carved);
    }
  }

  lemma ReceiveMoves(w: Exchange.World, s: State, p: nat, q: nat)
    requires Inv(w, s) && p < w.n && q < w.n && s.ex[q] < w.total && CanReceive(w, s, p, q)
    ensures DirectHalo.Step(Halo(w, p), s.arenas[p], DirectHalo.ReceiveAt(q)) != s.arenas[p]
    ensures Chan(w, s, p, q).ack < SendEp(w, p, q, w.total)
  {
    assert PairInv(w, s, p, q) && ArenaInv(w, s, p);
    assert DirectHalo.ChannelInv(Halo(w, p), s.arenas[p], q);
    EpochsAgree(w, p, q, s.ex[q] + 1);
    EpochsGrow(w, p, q, s.ex[q] + 1, w.total);
    DirectProgress.ReceiverMoves(Halo(w, p), s.arenas[p], q);
  }

  /** A visit by rank `p` to `pend` would do something. */
  ghost predicate CanMove(w: Exchange.World, s: State, p: nat, pend: Exchange.Pend)
    requires Shaped(w, s) && p < w.n && pend.peer < w.n
  {
    match pend
    case Send(q) => CanSend(w, s, p, q)
    case Recv(q) => CanReceive(w, s, q, p)
  }

  lemma VisitMoves(w: Exchange.World, s: State, p: nat, pend: Exchange.Pend, block: nat, carved: seq<byte>)
    requires Inv(w, s) && p < w.n && pend.peer < w.n && At(w, s, p, pend)
    requires Shaped(w, Visit(w, s, p, pend, block, carved)) && CanMove(w, s, p, pend)
    ensures var s' := Visit(w, s, p, pend, block, carved);
      NoMore(w, s, s') && Left(w, s') < Left(w, s)
  {
    match pend
    case Send(q) =>
      SendMoves(w, s, p, q, block, carved);
      ActFalls(w, s, p, q, SendAction(w, s, p, q, block, carved));
    case Recv(q) =>
      ReceiveMoves(w, s, q, p);
      ActFalls(w, s, q, p, DirectHalo.ReceiveAt(p));
  }

  lemma SameArenas(w: Exchange.World, s: State, s': State)
    requires Shaped(w, s) && Shaped(w, s') && s'.arenas == s.arenas
    requires forall p: nat :: p < w.n ==> s'.ex[p] >= s.ex[p]
    ensures NoMore(w, s, s')
  {
  }

  lemma DoNoMore(w: Exchange.World, s: State, v: Event)
    requires Inv(w, s) && v.p < w.n && Shaped(w, Do(w, s, v))
    ensures NoMore(w, s, Do(w, s, v)) && Left(w, Do(w, s, v)) <= Left(w, s)
  {
    var p, s' := v.p, Do(w, s, v);
    if v.Use? && IsUse(v.a) {
      ActNoMore(w, s, p, v.a);
    } else if v.Turn? && s.ex[p] < w.total && s.cursor[p] < |w.plan(s.ex[p], p)|
              && CanMove(w, s, p, w.plan(s.ex[p], p)[s.cursor[p]]) {
      VisitMoves(w, s, p, w.plan(s.ex[p], p)[s.cursor[p]], v.block, v.carved);
    } else {
      SameArenas(w, s, s');
    }
    LeftFalls(w, s, s', p, p);
  }

  // ---------- no deadlock ----------

  /** Rank `r` is about to make a difference: at position `t` of its pass a visit would do
      something, or, when `t` is the end of the pass, it can leave the exchange. */
  ghost predicate Ripe(w: Exchange.World, s: State, r: nat, t: nat)
    requires Exchange.WellFormed(w) && Shaped(w, s) && r < w.n
  {
    && s.ex[r] < w.total
    && t <= |w.plan(s.ex[r], r)|
    && (if t < |w.plan(s.ex[r], r)| then CanMove(w, s, r, w.plan(s.ex[r], r)[t]) else NothingPending(w, s, r))
  }

  /** `p` is furthest behind and still waits for an epoch of `q`: it is published, or `q`
      can go on publishing it. */
  lemma ReceiverServed(w: Exchange.World, s: State, p: nat, q: nat) returns (r: nat, t: nat)
    requires Inv(w, s) && p < w.n && q < w.n && s.ex[p] < w.total
    requires s.ex[p] <= s.ex[q] && ToReceive(w, s, q, p)
    ensures r < w.n && Ripe(w, s, r, t)
  {
    assert PairInv(w, s, q, p) && ArenaInv(w, s, q) && OnePost(w, s.ex[p], q, p);
    EpochsAgree(w, q, p, s.ex[p]);
    EpochsAgree(w, q, p, s.ex[p] + 1);
    if CanReceive(w, s, q, p) {
      r := p;
      t := RecvInLoop(w, s, p, q);
    } else {
      if s.ex[p] < s.ex[q] {
        EpochsGrow(w, q, p, s.ex[p] + 1, s.ex[q]);
      }
      assert s.ex[q] == s.ex[p] && ToSend(w, s, q, p);
      r := q;
      t := SendInLoop(w, s, q, p);
    }
  }

  /** `p` is furthest behind and still has an epoch to publish to `q`: `q` has acknowledged
      all that `p` published in earlier exchanges. */
  lemma SenderServed(w: Exchange.World, s: State, p: nat, q: nat) returns (r: nat, t: nat)
    requires Inv(w, s) && p < w.n && q < w.n && s.ex[p] < w.total
    requires s.ex[p] <= s.ex[q] && ToSend(w, s, p, q)
    ensures r < w.n && Ripe(w, s, r, t)
  {
    assert PairInv(w, s, p, q) && OnePost(w, s.ex[p], p, q);
    EpochsAgree(w, p, q, s.ex[q]);
    EpochsGrow(w, p, q, s.ex[p], s.ex[q]);
    r := p;
    t := SendInLoop(w, s, p, q);
  }

  /** In every reachable unfinished state some rank can publish, take or move on. */
  lemma NoDeadlock(w: Exchange.World, s: State) returns (r: nat, t: nat)
    requires Inv(w, s) && !AllDone(w, s)
    ensures r < w.n && Ripe(w, s, r, t)
  {
    var p := ExchangeProgress.Slowest(s.ex, w.n);
    if q: nat :| q < w.n && ToReceive(w, s, q, p) {
      r, t := ReceiverServed(w, s, p, q);
    } else if q: nat :| q < w.n && ToSend(w, s, p, q) {
      r, t := SenderServed(w, s, p, q);
    } else {
      r, t := p, |w.plan(s.ex[p], p)|;
    }
  }

  // ---------- fair schedules end ----------

  /** Steps of rank `r` until its pass reaches position `t`, if no visit does anything. */
  ghost function Distance(w: Exchange.World, s: State, r: nat, t: nat): int
    requires Shaped(w, s) && r < w.n
  {
    if s.cursor[r] <= t then t - s.cursor[r] else |w.plan(s.ex[r], r)| + 1 - s.cursor[r] + t
  }

  predicate TurnOf(v: Event, r: nat) {
    v.Turn? && v.p == r
  }

  lemma ActOnlyHelps(w: Exchange.World, s: State, p: nat, a: DirectHalo.Action, r: nat, q: nat)
    requires Inv(w, s) && p < w.n && r < w.n && q < w.n && Shaped(w, Act(w, s, p, a))
    requires (a.SendTo? ==> p != r) && (a.ReceiveAt? ==> a.d != r)
    ensures Helped(w, s, Act(w, s, p, a), r, q)
  {
    assert ArenaInv(w, s, p);
    assert DirectHalo.ChannelInv(Halo(w, p), s.arenas[p], q);
    assert DirectHalo.ChannelInv(Halo(w, p), s.arenas[p], r);
    ActFrame(Halo(w, p), s.arenas[p], a, q);
    ActFrame(Halo(w, p), s.arenas[p], a, r);
  }

  /** Rank `r`'s own side of its channels with `q` is as it was; the other side can only have
      acknowledged and published more. */
  ghost predicate Helped(w: Exchange.World, s: State, s': State, r: nat, q: nat)
    requires Shaped(w, s) && Shaped(w, s') && r < w.n && q < w.n
  {
    var out, out', into, into' := Chan(w, s, r, q), Chan(w, s', r, q), Chan(w, s, q, r), Chan(w, s', q, r);
    && out'.epoch == out.epoch && out'.sender == out.sender && out'.ack >= out.ack
    && into'.ack == into.ack && into'.receiver == into.receiver && into'.epoch >= into.epoch
  }

  /** A step of anybody else leaves rank `r`'s side alone. */
  lemma OthersOnlyHelp(w: Exchange.World, s: State, v: Event, r: nat, q: nat)
    requires Inv(w, s) && v.p < w.n && r < w.n && q < w.n && !TurnOf(v, r) && Shaped(w, Do(w, s, v))
    ensures Do(w, s, v).ex[r] == s.ex[r] && Do(w, s, v).cursor[r] == s.cursor[r]
    ensures Helped(w, s, Do(w, s, v), r, q)
  {
    if v.Use? {
      if IsUse(v.a) {
        ActOnlyHelps(w, s, v.p, v.a, r, q);
      }
    } else if s.ex[v.p] < w.total && s.cursor[v.p] < |w.plan(s.ex[v.p], v.p)| {
      match w.plan(s.ex[v.p], v.p)[s.cursor[v.p]]
      case Send(b) =>
        if CanSend(w, s, v.p, b) {
          ActOnlyHelps(w, s, v.p, SendAction(w, s, v.p, b, v.block, v.carved), r, q);
        }
      case Recv(b) =>
        if CanReceive(w, s, b, v.p) {
          ActOnlyHelps(w, s, b, DirectHalo.ReceiveAt(v.p), r, q);
        }
    }
  }

  lemma LeftStays(w: Exchange.World, s: State, s': State, r: nat, pend: Exchange.Pend)
    requires Shaped(w, s) && Shaped(w, s') && r < w.n && pend.peer < w.n
    requires s'.ex[r] == s.ex[r] && Helped(w, s, s', r, pend.peer)
    ensures HasLeft(w, s', r, pend) == HasLeft(w, s, r, pend)
    ensures CanMove(w, s, r, pend) ==> CanMove(w, s', r, pend)
  {
  }

  /** Nobody but rank `r` can undo what `r` is about to do. */
  lemma RipeStays(w: Exchange.World, s: State, v: Event, r: nat, t: nat)
    requires Inv(w, s) && v.p < w.n && r < w.n && !TurnOf(v, r) && Ripe(w, s, r, t) && Shaped(w, Do(w, s, v))
    ensures Ripe(w, Do(w, s, v), r, t) && Distance(w, Do(w, s, v), r, t) == Distance(w, s, r, t)
  {
    var s', plan := Do(w, s, v), w.plan(s.ex[r], r);
    OthersOnlyHelp(w, s, v, r, r);
    forall i: nat | i < |plan|
      ensures HasLeft(w, s', r, plan[i]) == HasLeft(w, s, r, plan[i])
      ensures CanMove(w, s, r, plan[i]) ==> CanMove(w, s', r, plan[i])
    {
      OthersOnlyHelp(w, s, v, r, plan[i].peer);
      LeftStays(w, s, s', r, plan[i]);
    }
  }

  lemma RipeFrame(w: Exchange.World, s: State, s': State, r: nat, t: nat)
    requires Exchange.WellFormed(w) && Shaped(w, s) && Shaped(w, s') && r < w.n && Ripe(w, s, r, t)
    requires s'.arenas == s.arenas && s'.ex == s.ex
    ensures Ripe(w, s', r, t)
  {
    var plan := w.plan(s.ex[r], r);
    forall i: nat | i < |plan|
      ensures HasLeft(w, s', r, plan[i]) == HasLeft(w, s, r, plan[i])
      ensures CanMove(w, s, r, plan[i]) ==> CanMove(w, s', r, plan[i])
    {
      LeftStays(w, s, s', r, plan[i]);
    }
  }

  /** A rank with a transfer that can move has something pending. */
  lemma BusyPlan(w: Exchange.World, s: State, r: nat, t: nat)
    requires Exchange.WellFormed(w) && Shaped(w, s) && r < w.n && Ripe(w, s, r, t) && t < |w.plan(s.ex[r], r)|
    ensures !NothingPending(w, s, r)
  {
    assert HasLeft(w, s, r, w.plan(s.ex[r], r)[t]);
  }

  /** A step of rank `r` itself brings it closer, or does it. */
  lemma RipeAdvances(w: Exchange.World, s: State, r: nat, block: nat, carved: seq<byte>, t: nat)
    requires Inv(w, s) && r < w.n && Ripe(w, s, r, t) && Shaped(w, Step(w, s, r, block, carved))
    ensures var s' := Step(w, s, r, block, carved);
      || Left(w, s') < Left(w, s)
      || (Ripe(w, s', r, t) && 0 <= Distance(w, s', r, t) < Distance(w, s, r, t))
  {
    var s', m := Step(w, s, r, block, carved), |w.plan(s.ex[r], r)|;
    assert ArenaInv(w, s, r);
    if s.cursor[r] < m {
      var pend := w.plan(s.ex[r], r)[s.cursor[r]];
      if CanMove(w, s, r, pend) {
        VisitMoves(w, s, r, pend, block, carved);
      } else {
        RipeFrame(w, s, s', r, t);
      }
    } else if t == m {
      SameArenas(w, s, s');
      LeftFalls(w, s, s', r, r);
    } else {
      BusyPlan(w, s, r, t);
      RipeFrame(w, s, s', r, t);
    }
  }

  ghost function Turns(events: seq<Event>, r: nat): nat {
    if events == [] then 0 else (if TurnOf(events[0], r) then 1 else 0) + Turns(events[1..], r)
  }

  lemma {:induction false} RunNoMore(w: Exchange.World, s: State, events: seq<Event>)
    requires Inv(w, s) && Schedule(w, events)
    ensures Left(w, Run(w, s, events)) <= Left(w, s)
    decreases |events|
  {
    if events != [] {
      DoKeeps(w, s, events[0]);
      DoNoMore(w, s, events[0]);
      RunNoMore(w, Do(w, s, events[0]), events[1..]);
    }
  }

  lemma {:induction false} RipeRun(w: Exchange.World, s: State, events: seq<Event>, r: nat, t: nat)
    requires Inv(w, s) && Schedule(w, events) && r < w.n && Ripe(w, s, r, t)
    requires Turns(events, r) > Distance(w, s, r, t) >= 0
    ensures Left(w, Run(w, s, events)) < Left(w, s)
    decreases |events|
  {
    var v, rest := events[0], events[1..];
    var s' := Do(w, s, v);
    DoKeeps(w, s, v);
    DoNoMore(w, s, v);
    if TurnOf(v, r) {
      RipeAdvances(w, s, r, v.block, v.carved, t);
    } else {
      RipeStays(w, s, v, r, t);
    }
    if Left(w, s') < Left(w, s) {
      RunNoMore(w, s', rest);
    } else {
      RipeRun(w, s', rest, r, t);
    }
  }

  /** A stretch of the schedule in which every rank gets through two whole passes. */
  ghost predicate Fair(w: Exchange.World, events: seq<Event>) {
    Schedule(w, events) && forall r: nat :: r < w.n ==> Turns(events, r) > 2 * w.width + 2
  }

  /** Every fair stretch makes progress, from any reachable unfinished state. */
  lemma FairStretchProgresses(w: Exchange.World, s: State, events: seq<Event>)
    requires Inv(w, s) && !AllDone(w, s) && Fair(w, events)
    ensures Left(w, Run(w, s, events)) < Left(w, s)
  {
    var r, t := NoDeadlock(w, s);
    assert |w.plan(s.ex[r], r)| <= w.width && ArenaInv(w, s, r);
    RipeRun(w, s, events, r, t);
  }

  ghost predicate AllFair(w: Exchange.World, stretches: seq<seq<Event>>) {
    forall i :: 0 <= i < |stretches| ==> Fair(w, stretches[i])
  }

  ghost function RunAll(w: Exchange.World, s: State, stretches: seq<seq<Event>>): (s': State)
    requires Exchange.WellFormed(w) && Shaped(w, s) && AllFair(w, stretches)
    ensures Shaped(w, s')
    decreases |stretches|
  {
    if stretches == [] then s
    else
      assert Fair(w, stretches[0]);
      RunAll(w, Run(w, s, stretches[0]), stretches[1..])
  }

  lemma {:induction false} RunAllKeeps(w: Exchange.World, s: State, stretches: seq<seq<Event>>)
    requires Inv(w, s) && AllFair(w, stretches)
    ensures Inv(w, RunAll(w, s, stretches))
    decreases |stretches|
  {
    if stretches != [] {
      assert Fair(w, stretches[0]);
      RunKeeps(w, s, stretches[0]);
      RunAllKeeps(w, Run(w, s, stretches[0]), stretches[1..]);
    }
  }

  lemma {:induction false} DoneRun(w: Exchange.World, s: State, events: seq<Event>)
    requires Inv(w, s) && Schedule(w, events) && AllDone(w, s)
    ensures AllDone(w, Run(w, s, events))
    decreases |events|
  {
    if events != [] {
      DoKeeps(w, s, events[0]);
      DoNoMore(w, s, events[0]);
      DoneRun(w, Do(w, s, events[0]), events[1..]);
    }
  }

  lemma {:induction false} DoneStays(w: Exchange.World, s: State, stretches: seq<seq<Event>>)
    requires Inv(w, s) && AllFair(w, stretches) && AllDone(w, s)
    ensures AllDone(w, RunAll(w, s, stretches))
    decreases |stretches|
  {
    if stretches != [] {
      assert Fair(w, stretches[0]);
      DoneRun(w, s, stretches[0]);
      RunKeeps(w, s, stretches[0]);
      DoneStays(w, Run(w, s, stretches[0]), stretches[1..]);
    }
  }

  /** Any schedule made of as many fair stretches as there is left to do finishes every
      exchange on every rank, whatever the other users of the arenas do. */
  lemma {:induction false} FairRunsEnd(w: Exchange.World, s: State, stretches: seq<seq<Event>>)
    requires Inv(w, s) && AllFair(w, stretches) && |stretches| >= Left(w, s)
    ensures AllDone(w, RunAll(w, s, stretches))
    decreases |stretches|
  {
    LeftNat(w, s);
    if AllDone(w, s) {
      DoneStays(w, s, stretches);
    } else if stretches == [] {
      SomethingLeft(w, s);
    } else {
      assert Fair(w, stretches[0]);
      FairStretchProgresses(w, s, stretches[0]);
      RunKeeps(w, s, stretches[0]);
      FairRunsEnd(w, Run(w, s, stretches[0]), stretches[1..]);
    }
  }
}
