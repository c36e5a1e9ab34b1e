/**
 A sequence of halo exchanges carried out over the rings: what the progress loops are
 told to do comes from the captured plans, and what they leave in the receive buffers is
 what the plans say, in every interleaving of loads, byte copies and stores.
 */
module HaloExchange {
  import opened Bytes
  import opened Exchange
  import opened HaloPlan
  import ExchangeProgress
  import Ring
  import RingExchange
  import RingProgress

  /** One call of every rank: the direction, and the buffers they send out of. */
  datatype Job = Job(rev: bool, from: seq<seq<byte>>)

  function SendLayout(plan: Plan, rev: bool): seq<Xfer> {
    if rev then plan.into else plan.out
  }

  function RecvLayout(plan: Plan, rev: bool): seq<Xfer> {
    if rev then plan.out else plan.into
  }

  function SendBytes(plan: Plan, rev: bool): nat {
    if rev then plan.intoBytes else plan.outBytes
  }

  /** The transfers of one layout: a rank's own stretch and empty stretches are skipped. */
  function Sends(self: nat, xs: seq<Xfer>): (r: seq<Pend>)
    ensures |r| <= |xs|
    ensures forall i :: 0 <= i < |r| ==> r[i].Send?
  {
    if xs == [] then []
    else (if xs[0].proc == self || xs[0].bytes == 0 then [] else [Send(xs[0].proc)]) + Sends(self, xs[1..])
  }

  function Recvs(self: nat, xs: seq<Xfer>): (r: seq<Pend>)
    ensures |r| <= |xs|
    ensures forall i :: 0 <= i < |r| ==> r[i].Recv?
  {
    if xs == [] then []
    else (if xs[0].proc == self || xs[0].bytes == 0 then [] else [Recv(xs[0].proc)]) + Recvs(self, xs[1..])
  }

  /** The progress loop goes through the sends, then through the receives. */
  function Pends(self: nat, plan: Plan, rev: bool): seq<Pend> {
    Sends(self, SendLayout(plan, rev)) + Recvs(self, RecvLayout(plan, rev))
  }

  /** Room for the longest plan. */
  function Width(plans: seq<Plan>): nat {
    if plans == [] then 0 else |plans[0].out| + |plans[0].into| + Width(plans[1..])
  }

  function HaloWorld(plans: seq<Plan>, jobs: seq<Job>, cap: nat): World {
    World(
      |plans|, cap, |jobs|, Width(plans),
      (e: nat, p: nat, q: nat) =>
        if e < |jobs| && p < |plans| && p < |jobs[e].from|
        then Outgoing(SendLayout(plans[p], jobs[e].rev), jobs[e].from[p], q) else [],
      (e: nat, p: nat) => if e < |jobs| && p < |plans| then Pends(p, plans[p], jobs[e].rev) else [])
  }

  /** Every rank's send buffer holds what its plan sends. */
  predicate BuffersFit(plans: seq<Plan>, job: Job) {
    && |job.from| == |plans|
    && forall r :: 0 <= r < |plans| ==> |job.from[r]| >= SendBytes(plans[r], job.rev)
  }

  predicate AllFit(plans: seq<Plan>, jobs: seq<Job>) {
    forall e :: 0 <= e < |jobs| ==> BuffersFit(plans, jobs[e])
  }

  // ---------- the plans make up a well-formed exchange ----------

  lemma {:induction false} Sent(self: nat, xs: seq<Xfer>, i: nat)
    requires i < |xs| && xs[i].proc != self && xs[i].bytes > 0
    ensures Send(xs[i].proc) in Sends(self, xs)
  {
    if i > 0 {
      Sent(self, xs[1..], i - 1);
    }
  }

  lemma {:induction false} Received(self: nat, xs: seq<Xfer>, i: nat)
    requires i < |xs| && xs[i].proc != self && xs[i].bytes > 0
    ensures Recv(xs[i].proc) in Recvs(self, xs)
  {
    if i > 0 {
      Received(self, xs[1..], i - 1);
    }
  }

  /** A stretch with bytes for rank `q` is the one `BytesFor` finds. */
  lemma StretchFor(xs: seq<Xfer>, q: nat) returns (i: nat)
    requires DistinctProcs(xs) && BytesFor(xs, q) > 0
    ensures i < |xs| && xs[i].proc == q && xs[i].bytes > 0
  {
    i := FindProc(xs, q);
    BytesForAt(xs, i);
  }

  lemma MessageLength(plans: seq<Plan>, jobs: seq<Job>, cap: nat, e: nat, p: nat, q: nat)
    requires Consistent(plans) && AllFit(plans, jobs) && e < |jobs| && p < |plans| && q < |plans| && p != q
    ensures var w, rev := HaloWorld(plans, jobs, cap), jobs[e].rev;
      && |Data(w, e, p, q)| == BytesFor(SendLayout(plans[p], rev), q)
      && |Data(w, e, p, q)| == BytesFor(RecvLayout(plans[q], rev), p)
  {
    assert BuffersFit(plans, jobs[e]);
    var rev := jobs[e].rev;
    OutgoingLength(SendLayout(plans[p], rev), jobs[e].from[p], q, 0, SendBytes(plans[p], rev));
  }

  lemma SendPlanned(self: nat, xs: seq<Xfer>, q: nat)
    requires DistinctProcs(xs) && BytesFor(xs, q) > 0 && q != self
    ensures Send(q) in Sends(self, xs)
  {
    var i := StretchFor(xs, q);
    Sent(self, xs, i);
  }

  lemma RecvPlanned(self: nat, xs: seq<Xfer>, q: nat)
    requires DistinctProcs(xs) && BytesFor(xs, q) > 0 && q != self
    ensures Recv(q) in Recvs(self, xs)
  {
    var i := StretchFor(xs, q);
    Received(self, xs, i);
  }

  /** Every other rank that a plan has bytes for, or expects bytes from, is in its loop. */
  lemma Planned(self: nat, plan: Plan, rev: bool, q: nat)
    requires ValidPlan(plan) && q != self
    ensures BytesFor(SendLayout(plan, rev), q) > 0 ==> Send(q) in Pends(self, plan, rev)
    ensures BytesFor(RecvLayout(plan, rev), q) > 0 ==> Recv(q) in Pends(self, plan, rev)
  {
    if BytesFor(SendLayout(plan, rev), q) > 0 {
      SendPlanned(self, SendLayout(plan, rev), q);
    }
    if BytesFor(RecvLayout(plan, rev), q) > 0 {
      RecvPlanned(self, RecvLayout(plan, rev), q);
    }
  }

  lemma Covers(plans: seq<Plan>, jobs: seq<Job>, cap: nat, e: nat, p: nat, q: nat)
    requires Consistent(plans) && AllFit(plans, jobs) && p < |plans| && q < |plans|
    ensures PlansCover(HaloWorld(plans, jobs, cap), e, p, q)
  {
    var w := HaloWorld(plans, jobs, cap);
    if |Data(w, e, p, q)| > 0 {
      MessageLength(plans, jobs, cap, e, p, q);
      Planned(p, plans[p], jobs[e].rev, q);
      Planned(q, plans[q], jobs[e].rev, p);
    }
  }

  lemma {:induction false} WidthCovers(plans: seq<Plan>, p: nat)
    requires p < |plans|
    ensures |plans[p].out| + |plans[p].into| <= Width(plans)
  {
    if p > 0 {
      WidthCovers(plans[1..], p - 1);
    }
  }

  lemma {:induction false} SendPeers(self: nat, xs: seq<Xfer>, n: nat)
    requires forall i :: 0 <= i < |xs| ==> xs[i].proc < n
    ensures forall i :: 0 <= i < |Sends(self, xs)| ==> Sends(self, xs)[i].peer < n
  {
    if xs != [] {
      SendPeers(self, xs[1..], n);
    }
  }

  lemma {:induction false} RecvPeers(self: nat, xs: seq<Xfer>, n: nat)
    requires forall i :: 0 <= i < |xs| ==> xs[i].proc < n
    ensures forall i :: 0 <= i < |Recvs(self, xs)| ==> Recvs(self, xs)[i].peer < n
  {
    if xs != [] {
      RecvPeers(self, xs[1..], n);
    }
  }

  lemma PlanFits(plans: seq<Plan>, jobs: seq<Job>, cap: nat, e: nat, p: nat)
    requires Consistent(plans) && p < |plans|
    ensures var pends := HaloWorld(plans, jobs, cap).plan(e, p);
      |pends| <= Width(plans) && forall i :: 0 <= i < |pends| ==> pends[i].peer < |plans|
  {
    if e < |jobs| {
      var rev := jobs[e].rev;
      WidthCovers(plans, p);
      SendPeers(p, SendLayout(plans[p], rev), |plans|);
      RecvPeers(p, RecvLayout(plans[p], rev), |plans|);
    }
  }

  /** Consistent plans make up an exchange in which both ends of every message have it in
      their loops. */
  lemma HaloWorldWellFormed(plans: seq<Plan>, jobs: seq<Job>, cap: nat)
    requires Consistent(plans) && AllFit(plans, jobs) && cap >= 1
    ensures WellFormed(HaloWorld(plans, jobs, cap))
  {
    var w := HaloWorld(plans, jobs, cap);
    forall e: nat, p: nat, q: nat | p < w.n && q < w.n
      ensures PlansCover(w, e, p, q)
    {
      Covers(plans, jobs, cap, e, p, q);
    }
    forall e: nat, p: nat | p < w.n
      ensures |w.plan(e, p)| <= w.width && forall i: nat :: i < |w.plan(e, p)| ==> w.plan(e, p)[i].peer < w.n
    {
      PlanFits(plans, jobs, cap, e, p);
    }
  }

  // ---------- the receive buffers ----------

  /** What an exchange leaves in rank `p`'s receive buffer `im`. */
  function Result(plans: seq<Plan>, job: Job, p: nat, im: seq<byte>): seq<byte>
    requires p < |plans| == |job.from|
  {
    if job.rev then Reverse(plans, job.from, p, im) else Forward(plans, job.from, p, im)
  }

  /** The messages of rank `q`'s e-th exchange as they came out of the rings; its own is
      copied directly. */
  function Arrived(plans: seq<Plan>, job: Job, e: nat, q: nat, got: nat -> seq<seq<byte>>): nat -> seq<byte>
    requires q < |plans| == |job.from|
  {
    (p: nat) =>
      if p == q then Outgoing(SendLayout(plans[q], job.rev), job.from[q], q)
      else if e < |got(p)| then got(p)[e] else []
  }

  lemma {:induction false} SameMessages(im: seq<byte>, xs: seq<Xfer>, a: nat -> seq<byte>, b: nat -> seq<byte>)
    requires forall i :: 0 <= i < |xs| ==> a(xs[i].proc) == b(xs[i].proc)
    ensures Receive(im, xs, a) == Receive(im, xs, b)
    decreases |xs|
  {
    if xs != [] {
      SameMessages(Place(im, xs[0].off, a(xs[0].proc)), xs[1..], a, b);
    }
  }

  /** The messages that reach rank `q` according to the plans. */
  function Expected(plans: seq<Plan>, job: Job, q: nat): nat -> seq<byte>
    requires |plans| == |job.from|
  {
    Inbox(if job.rev then Intos(plans) else Outs(plans), job.from, q)
  }

  lemma ExpectedAt(plans: seq<Plan>, job: Job, p: nat, q: nat)
    requires p < |plans| == |job.from|
    ensures Expected(plans, job, q)(p) == Outgoing(SendLayout(plans[p], job.rev), job.from[p], q)
  {
    if job.rev {
      assert Intos(plans)[p] == plans[p].into;
    } else {
      assert Outs(plans)[p] == plans[p].out;
    }
  }

  lemma ArrivedAt(plans: seq<Plan>, jobs: seq<Job>, cap: nat, e: nat, p: nat, q: nat, got: nat -> seq<seq<byte>>)
    requires e < |jobs| && p < |plans| && q < |plans| && |jobs[e].from| == |plans|
    requires e < |got(p)| && got(p)[e] == Data(HaloWorld(plans, jobs, cap), e, p, q)
    ensures Arrived(plans, jobs[e], e, q, got)(p) == Expected(plans, jobs[e], q)(p)
  {
    ExpectedAt(plans, jobs[e], p, q);
    var sent := Outgoing(SendLayout(plans[p], jobs[e].rev), jobs[e].from[p], q);
    if p != q {
      assert Data(HaloWorld(plans, jobs, cap), e, p, q) == sent;
    }
    assert Arrived(plans, jobs[e], e, q, got)(p) == sent;
  }

  /** Messages that arrive whole leave what the plans say. */
  lemma ArrivedResult(plans: seq<Plan>, jobs: seq<Job>, cap: nat, e: nat, q: nat,
                      got: nat -> seq<seq<byte>>, im: seq<byte>)
    requires Consistent(plans) && e < |jobs| && q < |plans| && |jobs[e].from| == |plans|
    requires forall p: nat :: p < |plans| ==>
      e < |got(p)| && got(p)[e] == Data(HaloWorld(plans, jobs, cap), e, p, q)
    ensures Receive(im, RecvLayout(plans[q], jobs[e].rev), Arrived(plans, jobs[e], e, q, got))
         == Result(plans, jobs[e], q, im)
  {
    var xs := RecvLayout(plans[q], jobs[e].rev);
    var a, b := Arrived(plans, jobs[e], e, q, got), Expected(plans, jobs[e], q);
    forall i | 0 <= i < |xs|
      ensures a(xs[i].proc) == b(xs[i].proc)
    {
      ArrivedAt(plans, jobs, cap, e, xs[i].proc, q, got);
    }
    SameMessages(im, xs, a, b);
  }

  // ---------- over the rings ----------

  /** All ranks carry out the jobs over rings of shape `z`; `ranks` says who moves next. */
  ghost function HaloRun(plans: seq<Plan>, jobs: seq<Job>, z: Ring.Shape, buf: seq<byte>, ranks: seq<nat>)
    : (s: RingExchange.State)
    requires Consistent(plans) && AllFit(plans, jobs) && Ring.ValidShape(z)
    requires forall j :: 0 <= j < |ranks| ==> ranks[j] < |plans|
    ensures RingExchange.Shaped(HaloWorld(plans, jobs, z.cap), s)
  {
    HaloWorldWellFormed(plans, jobs, z.cap);
    var w := HaloWorld(plans, jobs, z.cap);
    RingExchange.Run(w, z, RingExchange.Init(w, buf), ranks)
  }

  /** What rank `q` has taken out of its rings. */
  ghost function TakenBy(s: RingExchange.State, q: nat): nat -> seq<seq<byte>> {
    (p: nat) => if (p, q) in s.links then s.links[(p, q)].delivered else []
  }

  /** Rank `q`'s receive buffer once what exchange `e` brought it has been copied in. */
  ghost function Buffer(plans: seq<Plan>, job: Job, s: RingExchange.State, q: nat, e: nat, im: seq<byte>): seq<byte>
    requires q < |plans| == |job.from|
  {
    Receive(im, RecvLayout(plans[q], job.rev), Arrived(plans, job, e, q, TakenBy(s, q)))
  }

  /** Whatever the interleaving of loads, copies and stores: once rank `q` is through with
      exchange `e`, its receive buffer holds exactly what the plans say. */
  lemma ExchangesDeliver(plans: seq<Plan>, jobs: seq<Job>, z: Ring.Shape, buf: seq<byte>, ranks: seq<nat>,
                         s: RingExchange.State, q: nat, e: nat, im: seq<byte>)
    requires Consistent(plans) && AllFit(plans, jobs) && Ring.ValidShape(z) && |buf| == z.cap
    requires forall j :: 0 <= j < |ranks| ==> ranks[j] < |plans|
    requires s == HaloRun(plans, jobs, z, buf, ranks) && q < |plans| && e < |jobs| && e < s.ex[q]
    ensures |jobs[e].from| == |plans| && Buffer(plans, jobs[e], s, q, e, im) == Result(plans, jobs[e], q, im)
  {
    var w := HaloWorld(plans, jobs, z.cap);
    HaloWorldWellFormed(plans, jobs, z.cap);
    assert BuffersFit(plans, jobs[e]);
    forall p: nat | p < |plans|
      ensures e < |TakenBy(s, q)(p)| && TakenBy(s, q)(p)[e] == Data(w, e, p, q)
    {
      RingExchange.MessagesArriveWhole(w, z, buf, ranks, s, p, q, e);
    }
    ArrivedResult(plans, jobs, z.cap, e, q, TakenBy(s, q), im);
  }

  /** A forward exchange followed by a reverse exchange of what it brought gives every rank
      its export buffer back, over the rings, in every interleaving. */
  lemma RoundTripOverRings(plans: seq<Plan>, jobs: seq<Job>, z: Ring.Shape, buf: seq<byte>, ranks: seq<nat>,
                           s: RingExchange.State, q: nat, e: nat, f: nat, ims: seq<seq<byte>>, ex: seq<byte>)
    requires Consistent(plans) && AllFit(plans, jobs) && Ring.ValidShape(z) && |buf| == z.cap
    requires forall j :: 0 <= j < |ranks| ==> ranks[j] < |plans|
    requires s == HaloRun(plans, jobs, z, buf, ranks) && q < |plans| == |ims| && e < |jobs| && f < |jobs|
    requires !jobs[e].rev && jobs[f].rev && |jobs[e].from| == |jobs[f].from| == |plans|
    requires forall r :: 0 <= r < |plans| ==> |ims[r]| >= plans[r].intoBytes
    requires forall r :: 0 <= r < |plans| ==> jobs[f].from[r] == Buffer(plans, jobs[e], s, r, e, ims[r])
    requires forall r :: 0 <= r < |plans| ==> e < s.ex[r]
    requires f < s.ex[q] && |ex| >= plans[q].outBytes
    ensures Buffer(plans, jobs[f], s, q, f, ex)[..plans[q].outBytes] == jobs[e].from[q][..plans[q].outBytes]
  {
    assert BuffersFit(plans, jobs[e]);
    forall r | 0 <= r < |plans|
      ensures jobs[f].from[r] == Forward(plans, jobs[e].from, r, ims[r])
    {
      ExchangesDeliver(plans, jobs, z, buf, ranks, s, r, e, ims[r]);
    }
    ExchangesDeliver(plans, jobs, z, buf, ranks, s, q, f, ex);
    ReverseUndoesForward(plans, jobs[e].from, jobs[f].from, ims, q, ex);
  }

  /** And every fair schedule of loads and stores carries all the jobs out, whatever the
      capacity of the rings. */
  lemma ExchangesEnd(plans: seq<Plan>, jobs: seq<Job>, z: Ring.Shape, buf: seq<byte>, stretches: seq<seq<nat>>, p: nat)
    requires Consistent(plans) && AllFit(plans, jobs) && Ring.ValidShape(z) && |buf| == z.cap && p < |plans|
    requires RingProgress.AllFair(HaloWorld(plans, jobs, z.cap), z, stretches)
    requires var w := HaloWorld(plans, jobs, z.cap);
      |stretches| >= ExchangeProgress.Left(w, Init(w))
    ensures RingExchange.Setting(HaloWorld(plans, jobs, z.cap), z)
    ensures var w := HaloWorld(plans, jobs, z.cap);
      RingProgress.RunAll(w, z, RingExchange.Init(w, buf), stretches).ex[p] >= |jobs|
  {
    HaloWorldWellFormed(plans, jobs, z.cap);
    RingProgress.FairRunsEnd(HaloWorld(plans, jobs, z.cap), z, buf, stretches, p);
  }
}
