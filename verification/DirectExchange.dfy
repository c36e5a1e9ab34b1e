/**
 A sequence of halo exchanges carried out directly between the arenas: what the progress
 loops are told to do comes from the captured plans, and what they leave in the receive
 buffers is what the plans say, in every interleaving of loads, byte copies and stores.
 */
module DirectExchange {
  import opened Bytes
  import opened Exchange
  import opened HaloPlan
  import opened HaloExchange
  import DirectLoop
  import DirectLoopProgress

  // ---------- the plans make up a direct exchange ----------

  /** A loop has one send for every other rank that its layout has bytes for. */
  lemma {:induction false} SendsOnce(self: nat, xs: seq<Xfer>, q: nat)
    requires DistinctProcs(xs)
    ensures multiset(Sends(self, xs))[Send(q)] == if q != self && BytesFor(xs, q) > 0 then 1 else 0
    ensures multiset(Sends(self, xs))[Recv(q)] == 0
  {
    if xs != [] {
      SendsOnce(self, xs[1..], q);
      if xs[0].proc == q { NotAmong(xs[1..], q); }
      assert Sends(self, xs) == (if xs[0].proc == self || xs[0].bytes == 0 then [] else [Send(xs[0].proc)])
                                + Sends(self, xs[1..]);
    }
  }

  lemma {:induction false} RecvsOnce(self: nat, xs: seq<Xfer>, q: nat)
    requires DistinctProcs(xs)
    ensures multiset(Recvs(self, xs))[Recv(q)] == if q != self && BytesFor(xs, q) > 0 then 1 else 0
    ensures multiset(Recvs(self, xs))[Send(q)] == 0
  {
    if xs != [] {
      RecvsOnce(self, xs[1..], q);
      if xs[0].proc == q { NotAmong(xs[1..], q); }
      assert Recvs(self, xs) == (if xs[0].proc == self || xs[0].bytes == 0 then [] else [Recv(xs[0].proc)])
                                + Recvs(self, xs[1..]);
    }
  }

  lemma {:induction false} NotAmong(xs: seq<Xfer>, q: nat)
    requires forall i :: 0 <= i < |xs| ==> xs[i].proc != q
    ensures BytesFor(xs, q) == 0
  {
    if xs != [] {
      NotAmong(xs[1..], q);
    }
  }

  lemma LoopOnce(self: nat, plan: Plan, rev: bool, q: nat)
    requires ValidPlan(plan)
    ensures multiset(Pends(self, plan, rev))[Send(q)] ==
      if q != self && BytesFor(SendLayout(plan, rev), q) > 0 then 1 else 0
    ensures multiset(Pends(self, plan, rev))[Recv(q)] ==
      if q != self && BytesFor(RecvLayout(plan, rev), q) > 0 then 1 else 0
  {
    SendsOnce(self, SendLayout(plan, rev), q);
    RecvsOnce(self, RecvLayout(plan, rev), q);
  }

  lemma PostsAre(plans: seq<Plan>, jobs: seq<Job>, e: nat, p: nat, q: nat)
    requires Consistent(plans) && e < |jobs| && p < |plans|
    ensures DirectLoop.Posts(HaloWorld(plans, jobs, 1), e, p, q) ==
      if q != p && BytesFor(SendLayout(plans[p], jobs[e].rev), q) > 0 then 1 else 0
  {
    LoopOnce(p, plans[p], jobs[e].rev, q);
  }

  lemma WaitsAre(plans: seq<Plan>, jobs: seq<Job>, e: nat, p: nat, q: nat)
    requires Consistent(plans) && e < |jobs| && q < |plans|
    ensures DirectLoop.Waits(HaloWorld(plans, jobs, 1), e, p, q) ==
      if p != q && BytesFor(RecvLayout(plans[q], jobs[e].rev), p) > 0 then 1 else 0
  {
    LoopOnce(q, plans[q], jobs[e].rev, p);
  }

  lemma PostedOnce(plans: seq<Plan>, jobs: seq<Job>, e: nat, p: nat, q: nat)
    requires Consistent(plans) && AllFit(plans, jobs) && p < |plans| && q < |plans|
    ensures DirectLoop.OnePost(HaloWorld(plans, jobs, 1), e, p, q)
  {
    if e < |jobs| {
      PostsAre(plans, jobs, e, p, q);
      WaitsAre(plans, jobs, e, p, q);
      if p != q { MessageLength(plans, jobs, 1, e, p, q); }
    }
  }

  /** Consistent plans make the epoch counters of both ends of every pair count alike.  (The
      capacity of the rings plays no part.) */
  lemma DirectWorld(plans: seq<Plan>, jobs: seq<Job>)
    requires Consistent(plans) && AllFit(plans, jobs)
    ensures DirectLoop.Setting(HaloWorld(plans, jobs, 1))
  {
    HaloWorldWellFormed(plans, jobs, 1);
    forall e: nat, p: nat, q: nat | p < |plans| && q < |plans|
      ensures DirectLoop.OnePost(HaloWorld(plans, jobs, 1), e, p, q)
    {
      PostedOnce(plans, jobs, e, p, q);
    }
  }

  // ---------- the receive buffers ----------

  /** All ranks carry out the jobs; `events` says who moves next. */
  ghost function DirectRun(plans: seq<Plan>, jobs: seq<Job>, events: seq<DirectLoop.Event>): (s: DirectLoop.State)
    requires Consistent(plans) && AllFit(plans, jobs)
    requires DirectLoop.Schedule(HaloWorld(plans, jobs, 1), events)
    ensures DirectLoop.Shaped(HaloWorld(plans, jobs, 1), s)
  {
    HaloWorldWellFormed(plans, jobs, 1);
    var w := HaloWorld(plans, jobs, 1);
    DirectLoop.Run(w, DirectLoop.Init(w), events)
  }

  /** What the first `n` exchanges of rank `q` brought it, by sender. */
  ghost function TakenBy(w: World, s: DirectLoop.State, q: nat, n: nat): nat -> seq<seq<byte>>
    requires DirectLoop.Shaped(w, s) && q < w.n
  {
    (p: nat) =>
      if p < w.n then seq(n, e requires 0 <= e < n => DirectLoop.Brought(w, s, p, q, e)) else []
  }

  /** Rank `q`'s receive buffer once what exchange `e` brought it has been copied in. */
  ghost function Buffer(plans: seq<Plan>, jobs: seq<Job>, s: DirectLoop.State, q: nat, e: nat, im: seq<byte>): seq<byte>
    requires DirectLoop.Shaped(HaloWorld(plans, jobs, 1), s) && e < |jobs| && q < |plans| == |jobs[e].from|
  {
    Receive(im, RecvLayout(plans[q], jobs[e].rev),
            Arrived(plans, jobs[e], e, q, TakenBy(HaloWorld(plans, jobs, 1), s, q, e + 1)))
  }

  lemma BufferIs(plans: seq<Plan>, jobs: seq<Job>, s: DirectLoop.State, q: nat, e: nat, im: seq<byte>)
    requires Consistent(plans) && AllFit(plans, jobs) && DirectLoop.Inv(HaloWorld(plans, jobs, 1), s)
    requires q < |plans| && e < |jobs| && e < s.ex[q]
    ensures |jobs[e].from| == |plans| && Buffer(plans, jobs, s, q, e, im) == Result(plans, jobs[e], q, im)
  {
    var w := HaloWorld(plans, jobs, 1);
    assert BuffersFit(plans, jobs[e]);
    var taken := TakenBy(w, s, q, e + 1);
    forall p: nat | p < |plans|
      ensures e < |taken(p)| && taken(p)[e] == Data(w, e, p, q)
    {
      DirectLoop.BroughtWhole(w, s, p, q, e);
    }
    ArrivedResult(plans, jobs, 1, e, q, taken, im);
  }

  /** Whatever the interleaving of loads, copies and stores, and whatever the other users of
      the arenas do: once rank `q` is through with exchange `e`, its receive buffer holds
      exactly what the plans say. */
  lemma ExchangesDeliver(plans: seq<Plan>, jobs: seq<Job>, events: seq<DirectLoop.Event>,
                         s: DirectLoop.State, q: nat, e: nat, im: seq<byte>)
    requires Consistent(plans) && AllFit(plans, jobs) && DirectLoop.Schedule(HaloWorld(plans, jobs, 1), events)
    requires s == DirectRun(plans, jobs, events) && q < |plans| && e < |jobs| && e < s.ex[q]
    ensures |jobs[e].from| == |plans| && Buffer(plans, jobs, s, q, e, im) == Result(plans, jobs[e], q, im)
  {
    var w := HaloWorld(plans, jobs, 1);
    DirectWorld(plans, jobs);
    DirectLoop.InitHolds(w);
    DirectLoop.RunKeeps(w, DirectLoop.Init(w), events);
    BufferIs(plans, jobs, s, q, e, im);
  }

  /** A forward exchange followed by a reverse exchange of what it brought gives every rank
      its export buffer back, directly between the arenas, in every interleaving. */
  lemma RoundTripDirect(plans: seq<Plan>, jobs: seq<Job>, events: seq<DirectLoop.Event>, s: DirectLoop.State,
                        q: nat, e: nat, f: nat, ims: seq<seq<byte>>, ex: seq<byte>)
    requires Consistent(plans) && AllFit(plans, jobs) && DirectLoop.Schedule(HaloWorld(plans, jobs, 1), events)
    requires s == DirectRun(plans, jobs, events) && q < |plans| == |ims| && e < |jobs| && f < |jobs|
    requires !jobs[e].rev && jobs[f].rev && |jobs[e].from| == |jobs[f].from| == |plans|
    requires forall r :: 0 <= r < |plans| ==> |ims[r]| >= plans[r].intoBytes
    requires forall r :: 0 <= r < |plans| ==> jobs[f].from[r] == Buffer(plans, jobs, s, r, e, ims[r])
    requires forall r :: 0 <= r < |plans| ==> e < s.ex[r]
    requires f < s.ex[q] && |ex| >= plans[q].outBytes
    ensures Buffer(plans, jobs, s, q, f, ex)[..plans[q].outBytes] == jobs[e].from[q][..plans[q].outBytes]
  {
    assert BuffersFit(plans, jobs[e]);
    forall r | 0 <= r < |plans|
      ensures jobs[f].from[r] == Forward(plans, jobs[e].from, r, ims[r])
    {
      ExchangesDeliver(plans, jobs, events, s, r, e, ims[r]);
    }
    ExchangesDeliver(plans, jobs, events, s, q, f, ex);
    ReverseUndoesForward(plans, jobs[e].from, jobs[f].from, ims, q, ex);
  }

  /** And every fair schedule of loads and stores carries all the jobs out: in the end every
      rank's receive buffers hold what the plans say, for every job. */
  lemma ExchangesEnd(plans: seq<Plan>, jobs: seq<Job>, stretches: seq<seq<DirectLoop.Event>>,
                     q: nat, e: nat, im: seq<byte>)
    requires Consistent(plans) && AllFit(plans, jobs) && q < |plans| && e < |jobs|
    requires DirectLoopProgress.AllFair(HaloWorld(plans, jobs, 1), stretches)
    requires var w := HaloWorld(plans, jobs, 1);
      |stretches| >= DirectLoopProgress.Left(w, DirectLoop.Init(w))
    ensures WellFormed(HaloWorld(plans, jobs, 1)) && |jobs[e].from| == |plans|
    ensures var w := HaloWorld(plans, jobs, 1);
      var s := DirectLoopProgress.RunAll(w, DirectLoop.Init(w), stretches);
      s.ex[q] == |jobs| && Buffer(plans, jobs, s, q, e, im) == Result(plans, jobs[e], q, im)
  {
    var w := HaloWorld(plans, jobs, 1);
    DirectWorld(plans, jobs);
    DirectLoop.InitHolds(w);
    DirectLoopProgress.FairRunsEnd(w, DirectLoop.Init(w), stretches);
    DirectLoopProgress.RunAllKeeps(w, DirectLoop.Init(w), stretches);
    var s := DirectLoopProgress.RunAll(w, DirectLoop.Init(w), stretches);
    assert DirectLoop.ArenaInv(w, s, q) && BuffersFit(plans, jobs[e]);
    BufferIs(plans, jobs, s, q, e, im);
  }
}
