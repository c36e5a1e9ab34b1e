/**
 The exchange over the rings always ends, at the granularity of loads, byte copies and
 stores: between two effects of one rank there are at most as many of its own steps as
 it takes to fill a ring, whatever the other ranks do, so a fair schedule of loads and
 stores is a fair schedule of visits.
 */
module RingProgress {
  import opened Bytes
  import opened ModMath
  import opened RingExchange
  import Exchange
  import ExchangeProgress
  import Ring

  // ---------- how long a visit takes ----------

  /** Steps of a visit to a send before the one that takes effect. */
  function PushLeft(z: Ring.Shape, l: Link): int {
    if l.toSend == [] then 0
    else
      match l.ring.prod
      case PushIdle => z.cap + 3
      case LoadHead(_) => z.cap + 2
      case LoadTail(_, _) => z.cap + 1
      case CopyIn(_, _, n, i) => n - i
  }

  /** Steps of a visit to a receive before the one that takes effect.  A visit that has
      missed has taken effect, and what is left is the next visit and its own return. */
  function PopLeft(z: Ring.Shape, l: Link, wanted: nat): int {
    if Missed(l.ring) then z.cap + 4
    else if wanted == 0 then 0
    else
      match l.ring.cons
      case PopIdle => z.cap + 3
      case PeekHead(_) => z.cap + 2
      case PeekTail(_, _) => z.cap + 1
      case CopyOut(_, n, got) => n - |got|
  }

  lemma PushLeftFalls(z: Ring.Shape, l: Link)
    requires Ring.Inv(z, l.ring) && (l.ring.prod.PushIdle? || Pushing(l))
    ensures 0 <= PushLeft(z, l) <= z.cap + 3
    ensures var (l', over) := PushStep(z, l);
      !over ==> PushLeft(z, l') < PushLeft(z, l)
  {
    if l.toSend != [] {
      if l.ring.prod.LoadTail? {
        Ring.LoadTailKeeps(z, l.ring);
      } else if l.ring.prod.CopyIn? && l.ring.prod.i < l.ring.prod.n {
        Ring.CellIsModular(z, |l.ring.pushed|, l.ring.prod.n, l.ring.prod.i);
      }
    }
  }

  lemma PopLeftBounds(z: Ring.Shape, l: Link, wanted: nat)
    requires Ring.Inv(z, l.ring) && (l.ring.cons.PopIdle? || Popping(l, wanted))
    ensures 0 <= PopLeft(z, l, wanted) <= z.cap + 4
    ensures !Missed(l.ring) ==> PopLeft(z, l, wanted) <= z.cap + 3
  {
  }

  lemma PopLeftFalls(z: Ring.Shape, l: Link, wanted: nat)
    requires Ring.Inv(z, l.ring) && (l.ring.cons.PopIdle? || Popping(l, wanted))
    ensures var after := PopStep(z, l, wanted);
      !TakesEffect(l, after) ==>
        if after.1 then Missed(l.ring) else PopLeft(z, after.0, wanted) < PopLeft(z, l, wanted)
  {
    var want := PopLink(z, l, wanted);
    if wanted > 0 {
      if l.ring.cons.PeekTail? {
        Ring.PeekTailKeeps(z, l.ring);
      } else if l.ring.cons.CopyOut? && |l.ring.cons.got| < l.ring.cons.n {
        Ring.CellIsModular(z, |l.ring.popped|, l.ring.cons.n, |l.ring.cons.got|);
      }
    }
  }

  // ---------- how long a rank takes ----------

  /** Steps of rank `p` before its next effective one. */
  ghost function Patience(w: Exchange.World, z: Ring.Shape, s: State, p: nat): int
    requires Exchange.WellFormed(w) && Shaped(w, s) && p < w.n
  {
    if !Busy(w, s, p) then 0
    else
      match w.plan(s.ex[p], p)[s.cursor[p]]
      case Send(q) => PushLeft(z, s.links[(p, q)])
      case Recv(q) => PopLeft(z, s.links[(q, p)], Wanted(w, s, q, p))
  }

  lemma PatienceBounds(w: Exchange.World, z: Ring.Shape, s: State, p: nat)
    requires Inv(w, z, s) && p < w.n
    ensures 0 <= Patience(w, z, s, p) <= z.cap + 4
  {
    if Busy(w, s, p) {
      match w.plan(s.ex[p], p)[s.cursor[p]]
      case Send(q) =>
        assert LinkInv(w, z, s, p, q);
        PushLeftFalls(z, s.links[(p, q)]);
      case Recv(q) =>
        assert LinkInv(w, z, s, q, p);
        PopLeftBounds(z, s.links[(q, p)], Wanted(w, s, q, p));
    }
  }

  /** A rank that comes to a new place in its loop has missed nothing there yet. */
  lemma FreshPatience(w: Exchange.World, z: Ring.Shape, s: State, p: nat)
    requires Inv(w, z, s) && p < w.n && forall a: nat :: a < w.n ==> s.links[(a, p)].ring.cons.PopIdle?
    ensures Patience(w, z, s, p) <= z.cap + 3
  {
    PatienceBounds(w, z, s, p);
    if Busy(w, s, p) {
      match w.plan(s.ex[p], p)[s.cursor[p]]
      case Send(q) =>
        assert LinkInv(w, z, s, p, q);
        PushLeftFalls(z, s.links[(p, q)]);
      case Recv(q) =>
        assert LinkInv(w, z, s, q, p);
        PopLeftBounds(z, s.links[(q, p)], Wanted(w, s, q, p));
    }
  }

  lemma SendPatience(w: Exchange.World, z: Ring.Shape, s: State, p: nat, q: nat)
    requires Inv(w, z, s) && p < w.n && q < w.n && At(w, s, p, Exchange.Send(q)) && !Effective(w, z, s, p)
    ensures Patience(w, z, Step(w, z, s, p), p) < Patience(w, z, s, p)
  {
    assert LinkInv(w, z, s, p, q);
    PushLeftFalls(z, s.links[(p, q)]);
  }

  /** A pop that goes on. */
  lemma RecvPatience(w: Exchange.World, z: Ring.Shape, s: State, p: nat, q: nat)
    requires Inv(w, z, s) && p < w.n && q < w.n && At(w, s, p, Exchange.Recv(q)) && !Effective(w, z, s, p)
    requires !PopStep(z, s.links[(q, p)], Wanted(w, s, q, p)).1
    ensures Patience(w, z, Step(w, z, s, p), p) < Patience(w, z, s, p)
  {
    assert LinkInv(w, z, s, q, p);
    PopLeftFalls(z, s.links[(q, p)], Wanted(w, s, q, p));
    var want := PopLink(z, s.links[(q, p)], Wanted(w, s, q, p));
  }

  /** A pop that returns after having missed. */
  lemma ReturnPatience(w: Exchange.World, z: Ring.Shape, s: State, p: nat, q: nat)
    requires Inv(w, z, s) && p < w.n && q < w.n && At(w, s, p, Exchange.Recv(q)) && !Effective(w, z, s, p)
    requires PopStep(z, s.links[(q, p)], Wanted(w, s, q, p)).1
    ensures Patience(w, z, Step(w, z, s, p), p) < Patience(w, z, s, p)
  {
    assert LinkInv(w, z, s, q, p);
    PopLeftFalls(z, s.links[(q, p)], Wanted(w, s, q, p));
    var want := PopLink(z, s.links[(q, p)], Wanted(w, s, q, p));
    var visits := StepSimulates(w, z, s, p);
    var s' := Step(w, z, s, p);
    forall a: nat | a < w.n
      ensures s'.links[(a, p)].ring.cons.PopIdle?
    {
      OnlyRecv(w, z, s, p, q, a);
    }
    FreshPatience(w, z, s', p);
  }

  lemma OwnPatience(w: Exchange.World, z: Ring.Shape, s: State, p: nat)
    requires Inv(w, z, s) && p < w.n && !Effective(w, z, s, p)
    ensures Patience(w, z, Step(w, z, s, p), p) < Patience(w, z, s, p)
  {
    match w.plan(s.ex[p], p)[s.cursor[p]]
    case Send(q) => SendPatience(w, z, s, p, q);
    case Recv(q) =>
      if PopStep(z, s.links[(q, p)], Wanted(w, s, q, p)).1 {
        ReturnPatience(w, z, s, p, q);
      } else {
        RecvPatience(w, z, s, p, q);
      }
  }

  // ---------- the other ranks do not matter ----------

  /** What a rank's patience depends on: its own place, and its own side of the rings. */
  ghost predicate SameFor(w: Exchange.World, s: State, s': State, r: nat)
    requires Shaped(w, s) && Shaped(w, s') && r < w.n
  {
    && s'.ex[r] == s.ex[r] && s'.cursor[r] == s.cursor[r]
    && forall a: nat :: a < w.n ==>
         && SameSender(s.links[(r, a)], s'.links[(r, a)])
         && s'.links[(a, r)].ring.cons == s.links[(a, r)].ring.cons
         && s'.links[(a, r)].ring.tail == s.links[(a, r)].ring.tail
         && s'.links[(a, r)].got == s.links[(a, r)].got
  }

  lemma SamePatience(w: Exchange.World, z: Ring.Shape, s: State, s': State, r: nat)
    requires Exchange.WellFormed(w) && Shaped(w, s) && Shaped(w, s') && r < w.n && SameFor(w, s, s', r)
    ensures Patience(w, z, s', r) == Patience(w, z, s, r)
  {
  }

  lemma OtherSend(w: Exchange.World, s: State, p: nat, q: nat, after: (Link, bool), r: nat)
    requires Shaped(w, s) && p < w.n && q < w.n && r < w.n && p != r && SameReceiver(s.links[(p, q)], after.0)
    requires Shaped(w, Move(s, p, (p, q), after))
    ensures SameFor(w, s, Move(s, p, (p, q), after), r)
  {
  }

  lemma OtherRecv(w: Exchange.World, s: State, p: nat, q: nat, after: (Link, bool), r: nat)
    requires Shaped(w, s) && p < w.n && q < w.n && r < w.n && p != r && SameSender(s.links[(q, p)], after.0)
    requires Shaped(w, Move(s, p, (q, p), after))
    ensures SameFor(w, s, Move(s, p, (q, p), after), r)
  {
  }

  lemma OtherFinish(w: Exchange.World, s: State, p: nat, r: nat)
    requires Shaped(w, s) && p < w.n && r < w.n && p != r && Shaped(w, Finish(w, s, p))
    ensures SameFor(w, s, Finish(w, s, p), r)
  {
  }

  lemma OtherPush(w: Exchange.World, z: Ring.Shape, s: State, p: nat, q: nat, r: nat)
    requires Setting(w, z) && Shaped(w, s) && p < w.n && q < w.n && r < w.n && p != r && At(w, s, p, Exchange.Send(q))
    requires SameReceiver(s.links[(p, q)], PushStep(z, s.links[(p, q)]).0)
    ensures SameFor(w, s, Step(w, z, s, p), r)
  {
    OtherSend(w, s, p, q, PushStep(z, s.links[(p, q)]), r);
  }

  lemma OtherPop(w: Exchange.World, z: Ring.Shape, s: State, p: nat, q: nat, r: nat)
    requires Setting(w, z) && Shaped(w, s) && p < w.n && q < w.n && r < w.n && p != r && At(w, s, p, Exchange.Recv(q))
    requires SameSender(s.links[(q, p)], PopStep(z, s.links[(q, p)], Wanted(w, s, q, p)).0)
    ensures SameFor(w, s, Step(w, z, s, p), r)
  {
    OtherRecv(w, s, p, q, PopStep(z, s.links[(q, p)], Wanted(w, s, q, p)), r);
  }

  lemma PushFrame(w: Exchange.World, z: Ring.Shape, s: State, p: nat, q: nat)
    requires Inv(w, z, s) && p < w.n && q < w.n
    ensures SameReceiver(s.links[(p, q)], PushStep(z, s.links[(p, q)]).0)
  {
    assert LinkInv(w, z, s, p, q);
    var want := PushLink(z, s.links[(p, q)]);
  }

  lemma PopFrame(w: Exchange.World, z: Ring.Shape, s: State, p: nat, q: nat)
    requires Inv(w, z, s) && p < w.n && q < w.n
    ensures SameSender(s.links[(q, p)], PopStep(z, s.links[(q, p)], Wanted(w, s, q, p)).0)
  {
    assert LinkInv(w, z, s, q, p);
    var want := PopLink(z, s.links[(q, p)], Wanted(w, s, q, p));
  }

  lemma OtherRank(w: Exchange.World, z: Ring.Shape, s: State, p: nat, r: nat)
    requires Inv(w, z, s) && p < w.n && r < w.n && p != r
    ensures SameFor(w, s, Step(w, z, s, p), r)
  {
    if Busy(w, s, p) {
      match w.plan(s.ex[p], p)[s.cursor[p]]
      case Send(q) => PushFrame(w, z, s, p, q); OtherPush(w, z, s, p, q, r);
      case Recv(q) => PopFrame(w, z, s, p, q); OtherPop(w, z, s, p, q, r);
    } else if s.ex[p] < w.total && NothingPending(w, s, p) {
      OtherFinish(w, s, p, r);
    }
  }

  // ---------- a fair schedule of loads and stores is a fair schedule of visits ----------

  function Turns(ranks: seq<nat>, r: nat): nat {
    if ranks == [] then 0 else (if ranks[0] == r then 1 else 0) + Turns(ranks[1..], r)
  }

  lemma {:induction false} CountJoins(a: seq<(nat, nat)>, b: seq<(nat, nat)>, r: nat)
    ensures ExchangeProgress.Count(a + b, r) == ExchangeProgress.Count(a, r) + ExchangeProgress.Count(b, r)
  {
    if a == [] {
      assert a + b == b;
    } else {
      CountJoins(a[1..], b, r);
      assert (a + b)[1..] == a[1..] + b;
    }
  }

  /** The turns that rank `r` has are enough for its visits. */
  ghost predicate Served(w: Exchange.World, z: Ring.Shape, s: State, turns: nat, visits: seq<(nat, nat)>, r: nat)
    requires Exchange.WellFormed(w) && Shaped(w, s) && r < w.n
  {
    turns <= (z.cap + 5) * ExchangeProgress.Count(visits, r) + Patience(w, z, s, r)
  }

  /** A step of rank `p` pays for itself: with a visit, or with patience. */
  lemma StepPaid(w: Exchange.World, z: Ring.Shape, s: State, p: nat, r: nat)
    requires Inv(w, z, s) && p < w.n && r < w.n && Inv(w, z, Step(w, z, s, p))
    ensures var spent, visit := if r == p then 1 else 0, if r == p && Effective(w, z, s, p) then 1 else 0;
      Patience(w, z, Step(w, z, s, p), r) + spent <= Patience(w, z, s, r) + (z.cap + 5) * visit
  {
    PatienceBounds(w, z, s, r);
    PatienceBounds(w, z, Step(w, z, s, p), r);
    if r != p {
      OtherRank(w, z, s, p, r);
      SamePatience(w, z, s, Step(w, z, s, p), r);
    } else if !Effective(w, z, s, p) {
      OwnPatience(w, z, s, p);
    }
  }

  lemma ServedLonger(w: Exchange.World, z: Ring.Shape, s: State, p: nat, first: seq<(nat, nat)>,
                     turns: nat, rest: seq<(nat, nat)>, r: nat)
    requires Inv(w, z, s) && p < w.n && r < w.n && Inv(w, z, Step(w, z, s, p))
    requires VisitsOf(p, Effective(w, z, s, p), first) && Served(w, z, Step(w, z, s, p), turns, rest, r)
    ensures Served(w, z, s, turns + (if r == p then 1 else 0), first + rest, r)
  {
    CountJoins(first, rest, r);
    CountVisits(p, Effective(w, z, s, p), first, r);
    StepPaid(w, z, s, p, r);
    PaidInAll(z.cap + 5, ExchangeProgress.Count(first, r), ExchangeProgress.Count(rest, r), turns,
              if r == p then 1 else 0, Patience(w, z, s, r), Patience(w, z, Step(w, z, s, p), r));
  }

  lemma PaidInAll(k: nat, c: nat, d: nat, turns: nat, spent: nat, before: int, after: int)
    requires after + spent <= before + k * c && turns <= k * d + after
    ensures turns + spent <= k * (c + d) + before
  {
    assert k * (c + d) == k * c + k * d;
  }

  lemma CountVisits(p: nat, effective: bool, visits: seq<(nat, nat)>, r: nat)
    requires VisitsOf(p, effective, visits)
    ensures ExchangeProgress.Count(visits, r) == if effective && r == p then 1 else 0
  {
    if effective {
      assert visits[1..] == [];
      assert ExchangeProgress.Count(visits[1..], r) == 0;
    }
  }

  /** Every run is a run of the exchange in which every rank gets its share of visits. */
  lemma {:induction false} RunServes(w: Exchange.World, z: Ring.Shape, s: State, ranks: seq<nat>)
    returns (visits: seq<(nat, nat)>)
    requires Inv(w, z, s) && forall j :: 0 <= j < |ranks| ==> ranks[j] < w.n
    ensures Inv(w, z, Run(w, z, s, ranks)) && Simulates(w, s, Run(w, z, s, ranks), visits)
    ensures forall r: nat :: r < w.n ==> Served(w, z, s, Turns(ranks, r), visits, r)
    decreases |ranks|
  {
    if ranks == [] {
      visits := [];
      forall r: nat | r < w.n
        ensures Served(w, z, s, 0, visits, r)
      {
        PatienceBounds(w, z, s, r);
      }
    } else {
      var first := StepSimulates(w, z, s, ranks[0]);
      var s' := Step(w, z, s, ranks[0]);
      var rest := RunServes(w, z, s', ranks[1..]);
      RunJoins(w, Abs(w, s), first, rest);
      visits := first + rest;
      forall r: nat | r < w.n
        ensures Served(w, z, s, Turns(ranks, r), visits, r)
      {
        ServedLonger(w, z, s, ranks[0], first, Turns(ranks[1..], r), rest, r);
      }
    }
  }

  /** A stretch in which every rank has turns enough for two whole passes of visits. */
  ghost predicate Fair(w: Exchange.World, z: Ring.Shape, ranks: seq<nat>) {
    && (forall j :: 0 <= j < |ranks| ==> ranks[j] < w.n)
    && (forall r: nat :: r < w.n ==> Turns(ranks, r) >= (z.cap + 5) * (2 * w.width + 3))
  }

  lemma EnoughVisits(k: nat, count: nat, patience: int, passes: nat)
    requires k * passes <= k * count + patience && patience < k
    ensures count >= passes
  {
    MulSign(passes - count, k);
    assert (passes - count) * k == k * passes - k * count;
  }

  lemma FairVisits(w: Exchange.World, z: Ring.Shape, s: State, ranks: seq<nat>) returns (visits: seq<(nat, nat)>)
    requires Inv(w, z, s) && Fair(w, z, ranks)
    ensures Inv(w, z, Run(w, z, s, ranks)) && Simulates(w, s, Run(w, z, s, ranks), visits)
    ensures ExchangeProgress.Fair(w, visits)
  {
    visits := RunServes(w, z, s, ranks);
    forall r: nat | r < w.n
      ensures ExchangeProgress.Count(visits, r) > 2 * w.width + 2
    {
      assert Served(w, z, s, Turns(ranks, r), visits, r);
      PatienceBounds(w, z, s, r);
      EnoughVisits(z.cap + 5, ExchangeProgress.Count(visits, r), Patience(w, z, s, r), 2 * w.width + 3);
    }
  }

  // ---------- every fair run ends ----------

  ghost predicate AllFair(w: Exchange.World, z: Ring.Shape, stretches: seq<seq<nat>>) {
    forall i :: 0 <= i < |stretches| ==> Fair(w, z, stretches[i])
  }

  ghost function RunAll(w: Exchange.World, z: Ring.Shape, s: State, stretches: seq<seq<nat>>): (s': State)
    requires Setting(w, z) && Shaped(w, s) && AllFair(w, z, stretches)
    ensures Shaped(w, s')
    decreases |stretches|
  {
    if stretches == [] then s
    else
      assert Fair(w, z, stretches[0]);
      RunAll(w, z, Run(w, z, s, stretches[0]), stretches[1..])
  }

  /** A schedule of fair stretches of loads and stores is one of fair stretches of visits. */
  lemma {:induction false} FairStretches(w: Exchange.World, z: Ring.Shape, s: State, stretches: seq<seq<nat>>)
    returns (visits: seq<seq<(nat, nat)>>)
    requires Inv(w, z, s) && AllFair(w, z, stretches)
    ensures |visits| == |stretches| && ExchangeProgress.AllFair(w, visits)
    ensures Abs(w, RunAll(w, z, s, stretches)) == ExchangeProgress.RunAll(w, Abs(w, s), visits)
    decreases |stretches|
  {
    if stretches == [] {
      visits := [];
    } else {
      assert Fair(w, z, stretches[0]);
      var first := FairVisits(w, z, s, stretches[0]);
      var rest := FairStretches(w, z, Run(w, z, s, stretches[0]), stretches[1..]);
      visits := [first] + rest;
      assert visits[1..] == rest;
    }
  }

  /** Any schedule made of as many fair stretches of loads and stores as there is left to
      do finishes every exchange on every rank, whatever the capacity of the rings. */
  lemma FairRunsEnd(w: Exchange.World, z: Ring.Shape, buf: seq<byte>, stretches: seq<seq<nat>>, p: nat)
    requires Setting(w, z) && |buf| == z.cap && AllFair(w, z, stretches) && p < w.n
    requires |stretches| >= ExchangeProgress.Left(w, Exchange.Init(w))
    ensures RunAll(w, z, Init(w, buf), stretches).ex[p] >= w.total
  {
    InitHolds(w, z, buf);
    InitAbs(w, buf);
    Exchange.InitHolds(w);
    var visits := FairStretches(w, z, Init(w, buf), stretches);
    ExchangeProgress.FairRunsEnd(w, Exchange.Init(w), visits);
  }
}
