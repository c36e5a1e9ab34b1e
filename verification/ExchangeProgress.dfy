/**
 The ring exchange never deadlocks and always ends: in every reachable unfinished
 state some transfer of some rank can move a byte (or some rank can leave its
 exchange), it stays that way until that rank gets to it, and what is left to push
 and pop falls with every move.
 */
module ExchangeProgress {
  import opened Exchange

  // ---------- what is left to do ----------

  /** Bytes that `p` has yet to push to `q`, and `q` to pop from `p`, in the whole run. */
  ghost function PairLeft(w: World, s: State, p: nat, q: nat): int
    requires Shaped(w, s) && p < w.n && q < w.n
  {
    var pair, all := s.pairs[(p, q)], |Stream(w, p, q, w.total)|;
    (all - |Stream(w, p, q, s.ex[p] + 1)| + |pair.toSend|) + (all - |Stream(w, p, q, s.ex[q])| - |pair.got|)
  }

  ghost function PairsLeft(w: World, s: State): (nat, nat) -> int
    requires Shaped(w, s)
  {
    (p: nat, q: nat) => if p < w.n && q < w.n then PairLeft(w, s, p, q) else 0
  }

  ghost function RoundsLeft(w: World, s: State): (nat, nat) -> int
    requires Shaped(w, s)
  {
    (p: nat, q: nat) => if p < w.n && q == 0 then w.total - s.ex[p] else 0
  }

  /** Bytes left to push, plus bytes left to pop, plus exchanges left to finish. */
  ghost function Left(w: World, s: State): int
    requires Shaped(w, s)
  {
    Grid(PairsLeft(w, s), w.n, w.n) + Grid(RoundsLeft(w, s), w.n, w.n)
  }

  ghost function Row(f: (nat, nat) -> int, p: nat, m: nat): int {
    if m == 0 then 0 else Row(f, p, m - 1) + f(p, m - 1)
  }

  /** The sum of `f` over the first `m` rows of an `n`-column grid. */
  ghost function Grid(f: (nat, nat) -> int, n: nat, m: nat): int {
    if m == 0 then 0 else Grid(f, n, m - 1) + Row(f, m - 1, n)
  }

  ghost predicate AllDone(w: World, s: State)
    requires Shaped(w, s)
  {
    forall p: nat :: p < w.n ==> s.ex[p] >= w.total
  }

  // ---------- sums ----------

  ghost predicate NoMore(w: World, s: State, s': State)
    requires Shaped(w, s) && Shaped(w, s')
  {
    && (forall p: nat, q: nat :: p < w.n && q < w.n ==> PairLeft(w, s', p, q) <= PairLeft(w, s, p, q))
    && (forall p: nat :: p < w.n ==> s'.ex[p] >= s.ex[p])
  }

  lemma {:induction false} RowFalls(f: (nat, nat) -> int, g: (nat, nat) -> int, p: nat, m: nat, q: nat)
    requires forall b: nat :: b < m ==> g(p, b) <= f(p, b)
    ensures Row(g, p, m) <= Row(f, p, m)
    ensures q < m && g(p, q) < f(p, q) ==> Row(g, p, m) < Row(f, p, m)
  {
    if m > 0 {
      RowFalls(f, g, p, m - 1, q);
    }
  }

  lemma {:induction false} GridFalls(f: (nat, nat) -> int, g: (nat, nat) -> int, n: nat, m: nat, p: nat, q: nat)
    requires forall a: nat, b: nat :: a < m && b < n ==> g(a, b) <= f(a, b)
    ensures Grid(g, n, m) <= Grid(f, n, m)
    ensures p < m && q < n && g(p, q) < f(p, q) ==> Grid(g, n, m) < Grid(f, n, m)
  {
    if m > 0 {
      GridFalls(f, g, n, m - 1, p, q);
      RowFalls(f, g, m - 1, n, q);
    }
  }

  lemma {:induction false} GridNat(f: (nat, nat) -> int, n: nat, m: nat)
    requires forall a: nat, b: nat :: a < m && b < n ==> 0 <= f(a, b)
    ensures 0 <= Grid(f, n, m)
  {
    var zero := (a: nat, b: nat) => 0;
    GridFalls(f, zero, n, m, 0, 0);
    GridOfZeros(zero, n, m);
  }

  lemma {:induction false} GridOfZeros(f: (nat, nat) -> int, n: nat, m: nat)
    requires forall a: nat, b: nat :: f(a, b) == 0
    ensures Grid(f, n, m) == 0
  {
    if m > 0 {
      GridOfZeros(f, n, m - 1);
      RowOfZeros(f, m - 1, n);
    }
  }

  lemma {:induction false} RowOfZeros(f: (nat, nat) -> int, p: nat, m: nat)
    requires forall a: nat, b: nat :: f(a, b) == 0
    ensures Row(f, p, m) == 0
  {
    if m > 0 {
      RowOfZeros(f, p, m - 1);
    }
  }

  lemma LeftFalls(w: World, s: State, s': State, p: nat, q: nat)
    requires Shaped(w, s) && Shaped(w, s') && NoMore(w, s, s') && p < w.n && q < w.n
    ensures Left(w, s') <= Left(w, s)
    ensures PairLeft(w, s', p, q) < PairLeft(w, s, p, q) || s'.ex[p] > s.ex[p] ==> Left(w, s') < Left(w, s)
  {
    GridFalls(PairsLeft(w, s), PairsLeft(w, s'), w.n, w.n, p, q);
    GridFalls(RoundsLeft(w, s), RoundsLeft(w, s'), w.n, w.n, p, 0);
  }

  lemma PairLeftNat(w: World, s: State, p: nat, q: nat)
    requires Inv(w, s) && p < w.n && q < w.n
    ensures 0 <= PairLeft(w, s, p, q)
  {
    assert PairInv(w, s, p, q);
    StreamGrows(w, p, q, s.ex[q], w.total);
    BeyondEnd(w, p, q, s.ex[p]);
    BeyondEnd(w, p, q, s.ex[q]);
    var next := Stream(w, p, q, s.ex[q]) + Data(w, s.ex[q], p, q);
    assert |Stream(w, p, q, s.ex[q])| + |s.pairs[(p, q)].got| <= |next|;
  }

  lemma BeyondEnd(w: World, p: nat, q: nat, e: nat)
    requires e <= w.total
    ensures |Stream(w, p, q, e + 1)| <= |Stream(w, p, q, w.total)|
  {
    if e < w.total {
      StreamGrows(w, p, q, e + 1, w.total);
    }
  }

  lemma LeftNat(w: World, s: State)
    requires Inv(w, s)
    ensures 0 <= Left(w, s)
  {
    forall p: nat, q: nat | p < w.n && q < w.n
      ensures 0 <= PairLeft(w, s, p, q)
    {
      PairLeftNat(w, s, p, q);
    }
    GridNat(PairsLeft(w, s), w.n, w.n);
    GridNat(RoundsLeft(w, s), w.n, w.n);
  }

  // ---------- a step never adds to what is left ----------

  lemma OnePair(w: World, s: State, s': State, p: nat, q: nat)
    requires Shaped(w, s) && Shaped(w, s') && p < w.n && q < w.n
    requires s'.ex == s.ex && s'.pairs == s.pairs[(p, q) := s'.pairs[(p, q)]]
    requires PairLeft(w, s', p, q) <= PairLeft(w, s, p, q)
    ensures NoMore(w, s, s')
  {
    forall a: nat, b: nat | a < w.n && b < w.n
      ensures PairLeft(w, s', a, b) <= PairLeft(w, s, a, b)
    {
      if (a, b) != (p, q) {
        assert s'.pairs[(a, b)] == s.pairs[(a, b)];
      }
    }
  }

  lemma FinishKeepsPairs(w: World, s: State, p: nat)
    requires Inv(w, s) && p < w.n && s.ex[p] < w.total && NothingPending(w, s, p)
    ensures NoMore(w, s, Finish(w, s, p))
  {
    var s' := Finish(w, s, p);
    forall a: nat, b: nat | a < w.n && b < w.n
      ensures PairLeft(w, s', a, b) <= PairLeft(w, s, a, b)
    {
      assert PairInv(w, s, a, b);
      assert s'.pairs[(a, b)] == TurnOver(w, p, s.ex[p], (a, b), s.pairs[(a, b)]);
      if a == p {
        assert s.pairs[(p, b)].toSend == [];
      }
      if b == p {
        assert Wanted(w, s, a, p) == 0;
      }
    }
  }

  /** A visit by rank `p` to `pend` would move at least one byte. */
  ghost predicate CanMove(w: World, s: State, p: nat, pend: Pend)
    requires Shaped(w, s) && p < w.n && pend.peer < w.n
  {
    match pend
    case Send(q) => s.pairs[(p, q)].toSend != [] && |s.pairs[(p, q)].queue| < w.cap
    case Recv(q) => Wanted(w, s, q, p) > 0 && s.pairs[(q, p)].queue != []
  }

  lemma VisitMoves(w: World, s: State, p: nat, want: nat)
    requires Inv(w, s) && p < w.n && s.ex[p] < w.total && s.cursor[p] < |w.plan(s.ex[p], p)|
    ensures NoMore(w, s, Step(w, s, p, want))
    ensures CanMove(w, s, p, w.plan(s.ex[p], p)[s.cursor[p]]) ==> Left(w, Step(w, s, p, want)) < Left(w, s)
  {
    var s', pend := Step(w, s, p, want), w.plan(s.ex[p], p)[s.cursor[p]];
    var a, b := if pend.Send? then p else pend.peer, if pend.Send? then pend.peer else p;
    assert PairInv(w, s, a, b);
    OnePair(w, s, s', a, b);
    LeftFalls(w, s, s', a, b);
  }

  lemma StepNoMore(w: World, s: State, p: nat, want: nat)
    requires Inv(w, s) && p < w.n
    ensures NoMore(w, s, Step(w, s, p, want))
    ensures Left(w, Step(w, s, p, want)) <= Left(w, s)
  {
    var s' := Step(w, s, p, want);
    if s.ex[p] >= w.total {
    } else if s.cursor[p] < |w.plan(s.ex[p], p)| {
      VisitMoves(w, s, p, want);
    } else if NothingPending(w, s, p) {
      FinishKeepsPairs(w, s, p);
    }
    LeftFalls(w, s, s', p, p);
  }

  // ---------- no deadlock ----------

  /** Rank `r` is about to make a difference: at position `t` of its pass it can move a
      byte, or, when `t` is the end of the pass, it can leave the exchange. */
  ghost predicate Ripe(w: World, s: State, r: nat, t: nat)
    requires WellFormed(w) && Shaped(w, s) && r < w.n
  {
    && s.ex[r] < w.total
    && t <= |w.plan(s.ex[r], r)|
    && (if t < |w.plan(s.ex[r], r)| then CanMove(w, s, r, w.plan(s.ex[r], r)[t]) else NothingPending(w, s, r))
  }

  lemma RipeAt(w: World, s: State, r: nat, pend: Pend) returns (t: nat)
    requires Inv(w, s) && r < w.n && s.ex[r] < w.total && pend.peer < w.n
    requires pend in w.plan(s.ex[r], r) && CanMove(w, s, r, pend)
    ensures Ripe(w, s, r, t)
  {
    t :| 0 <= t < |w.plan(s.ex[r], r)| && w.plan(s.ex[r], r)[t] == pend;
  }

  /** `p` is furthest behind and still wants bytes from `q`: they are in the ring, or
      `q` can push them. */
  lemma ReceiverServed(w: World, s: State, p: nat, q: nat) returns (r: nat, t: nat)
    requires Inv(w, s) && p < w.n && q < w.n && s.ex[p] < w.total
    requires s.ex[p] <= s.ex[q] && Wanted(w, s, q, p) > 0
    ensures r < w.n && Ripe(w, s, r, t)
  {
    assert PairInv(w, s, q, p);
    assert PlansCover(w, s.ex[p], q, p);
    var pair := s.pairs[(q, p)];
    StreamGrows(w, q, p, s.ex[p] + 1, s.ex[q] + 1);
    if pair.queue != [] {
      r := p;
      t := RipeAt(w, s, p, Recv(q));
    } else {
      var base := Stream(w, q, p, s.ex[p]);
      assert |base + pair.got + pair.queue + pair.toSend| >= |base| + |Data(w, s.ex[p], q, p)|;
      assert pair.toSend != [];
      assert PlansCover(w, s.ex[q], q, p);
      r := q;
      t := RipeAt(w, s, q, Send(p));
    }
  }

  /** `p` is furthest behind and still has bytes for `q`: there is room for them, or
      `q` can take some out. */
  lemma SenderServed(w: World, s: State, p: nat, q: nat) returns (r: nat, t: nat)
    requires Inv(w, s) && p < w.n && q < w.n && s.ex[p] < w.total
    requires s.ex[p] <= s.ex[q] && s.pairs[(p, q)].toSend != []
    ensures r < w.n && Ripe(w, s, r, t)
  {
    assert PairInv(w, s, p, q);
    assert PlansCover(w, s.ex[p], p, q);
    var pair := s.pairs[(p, q)];
    if |pair.queue| < w.cap {
      r := p;
      t := RipeAt(w, s, p, Send(q));
    } else {
      var base := Stream(w, p, q, s.ex[q]);
      assert |base + pair.got + pair.queue + pair.toSend| == |Stream(w, p, q, s.ex[p] + 1)|;
      if s.ex[p] < s.ex[q] {
        StreamGrows(w, p, q, s.ex[p] + 1, s.ex[q]);
      }
      assert s.ex[q] == s.ex[p];
      r := q;
      t := RipeAt(w, s, q, Recv(p));
    }
  }

  /** Some rank that is furthest behind. */
  lemma {:induction false} Slowest(ex: seq<nat>, m: nat) returns (p: nat)
    requires 0 < m <= |ex|
    ensures p < m && forall q :: 0 <= q < m ==> ex[p] <= ex[q]
  {
    p := 0;
    if m > 1 {
      p := Slowest(ex, m - 1);
      if ex[m - 1] < ex[p] {
        p := m - 1;
      }
    }
  }

  /** In every reachable unfinished state some rank can push, pop or move on. */
  lemma NoDeadlock(w: World, s: State) returns (r: nat, t: nat)
    requires Inv(w, s) && !AllDone(w, s)
    ensures r < w.n && Ripe(w, s, r, t)
  {
    var p := Slowest(s.ex, w.n);
    if q: nat :| q < w.n && Wanted(w, s, q, p) > 0 {
      r, t := ReceiverServed(w, s, p, q);
    } else if q: nat :| q < w.n && s.pairs[(p, q)].toSend != [] {
      r, t := SenderServed(w, s, p, q);
    } else {
      r, t := p, |w.plan(s.ex[p], p)|;
    }
  }

  // ---------- fair schedules end ----------

  /** Steps of rank `r` until its pass reaches position `t`. */
  ghost function Distance(w: World, s: State, r: nat, t: nat): int
    requires WellFormed(w) && Shaped(w, s) && r < w.n
  {
    if s.cursor[r] <= t then t - s.cursor[r] else |w.plan(s.ex[r], r)| + 1 - s.cursor[r] + t
  }

  /** Nobody but rank `r` can undo what `r` is about to do. */
  lemma RipeStays(w: World, s: State, p: nat, want: nat, r: nat, t: nat)
    requires Inv(w, s) && p < w.n && r < w.n && p != r && Ripe(w, s, r, t)
    ensures var s' := Step(w, s, p, want);
      Ripe(w, s', r, t) && Distance(w, s', r, t) == Distance(w, s, r, t)
  {
    var s' := Step(w, s, p, want);
    assert s'.ex[r] == s.ex[r] && s'.cursor[r] == s.cursor[r];
    if t < |w.plan(s.ex[r], r)| {
      OthersOnlyHelp(w, s, p, want, r, w.plan(s.ex[r], r)[t].peer);
    } else {
      forall q: nat | q < w.n
        ensures s'.pairs[(r, q)].toSend == [] && Wanted(w, s', q, r) == 0
      {
        assert s.pairs[(r, q)].toSend == [] && Wanted(w, s, q, r) == 0;
        OthersOnlyHelp(w, s, p, want, r, q);
      }
    }
  }

  /** A step of another rank leaves what `r` has to send and has received alone; it can
      only make room in `r`'s outgoing rings and add to its incoming ones. */
  lemma OthersOnlyHelp(w: World, s: State, p: nat, want: nat, r: nat, q: nat)
    requires Inv(w, s) && p < w.n && r < w.n && q < w.n && p != r
    ensures var s' := Step(w, s, p, want);
      && s'.pairs[(r, q)].toSend == s.pairs[(r, q)].toSend
      && |s'.pairs[(r, q)].queue| <= |s.pairs[(r, q)].queue|
      && s'.pairs[(q, r)].got == s.pairs[(q, r)].got
      && |s'.pairs[(q, r)].queue| >= |s.pairs[(q, r)].queue|
  {
    var s' := Step(w, s, p, want);
    if s.ex[p] >= w.total {
    } else if s.cursor[p] < |w.plan(s.ex[p], p)| {
    } else if NothingPending(w, s, p) {
      assert s'.pairs[(r, q)] == TurnOver(w, p, s.ex[p], (r, q), s.pairs[(r, q)]);
      assert s'.pairs[(q, r)] == TurnOver(w, p, s.ex[p], (q, r), s.pairs[(q, r)]);
    }
  }

  /** A step of rank `r` itself brings it closer, or does it. */
  lemma RipeAdvances(w: World, s: State, want: nat, r: nat, t: nat)
    requires Inv(w, s) && r < w.n && Ripe(w, s, r, t)
    ensures var s' := Step(w, s, r, want);
      || Left(w, s') < Left(w, s)
      || (Ripe(w, s', r, t) && 0 <= Distance(w, s', r, t) < Distance(w, s, r, t))
  {
    var s' := Step(w, s, r, want);
    var m := |w.plan(s.ex[r], r)|;
    if s.cursor[r] == t {
      if t < m {
        VisitMoves(w, s, r, want);
      } else {
        FinishKeepsPairs(w, s, r);
        LeftFalls(w, s, s', r, r);
      }
    } else if s.cursor[r] < m {
      VisitMoves(w, s, r, want);
      if !CanMove(w, s, r, w.plan(s.ex[r], r)[s.cursor[r]]) {
        IdleVisit(w, s, r, want);
        RipeFrame(w, s, s', r, t);
      }
    } else {
      BusyPlan(w, s, r, t);
      RipeFrame(w, s, s', r, t);
    }
  }

  lemma IdlePush(w: World, s: State, p: nat, q: nat, want: nat)
    requires Shaped(w, s) && p < w.n && q < w.n && (s.pairs[(p, q)].toSend == [] || |s.pairs[(p, q)].queue| >= w.cap)
    ensures Push(w, s, p, q, want) == s
  {
    var pair := s.pairs[(p, q)];
    assert pair.toSend[0..] == pair.toSend && pair.queue + [] == pair.queue;
    assert Push(w, s, p, q, want).pairs == s.pairs;
  }

  lemma IdlePop(w: World, s: State, p: nat, q: nat, want: nat)
    requires Shaped(w, s) && p < w.n && q < w.n && (Wanted(w, s, p, q) == 0 || s.pairs[(p, q)].queue == [])
    ensures Pop(w, s, p, q, want) == s
  {
    var pair := s.pairs[(p, q)];
    assert pair.queue[0..] == pair.queue && pair.got + [] == pair.got;
    assert Pop(w, s, p, q, want).pairs == s.pairs;
  }

  /** Visiting a transfer that cannot move changes nothing. */
  lemma IdleVisit(w: World, s: State, r: nat, want: nat)
    requires WellFormed(w) && Shaped(w, s) && r < w.n && s.cursor[r] < |w.plan(s.ex[r], r)|
    requires !CanMove(w, s, r, w.plan(s.ex[r], r)[s.cursor[r]])
    ensures Visit(w, s, r, want) == s
  {
    match w.plan(s.ex[r], r)[s.cursor[r]]
    case Send(q) => IdlePush(w, s, r, q, want);
    case Recv(q) => IdlePop(w, s, q, r, want);
  }

  lemma RipeFrame(w: World, s: State, s': State, r: nat, t: nat)
    requires WellFormed(w) && Shaped(w, s) && Shaped(w, s') && r < w.n && Ripe(w, s, r, t)
    requires s'.pairs == s.pairs && s'.ex == s.ex
    ensures Ripe(w, s', r, t)
  {
    if t == |w.plan(s.ex[r], r)| {
      forall q: nat | q < w.n
        ensures s'.pairs[(r, q)].toSend == [] && Wanted(w, s', q, r) == 0
      {
        assert s.pairs[(r, q)].toSend == [] && Wanted(w, s, q, r) == 0;
      }
    }
  }

  /** A rank with a transfer that can move has something pending. */
  lemma BusyPlan(w: World, s: State, r: nat, t: nat)
    requires Inv(w, s) && r < w.n && Ripe(w, s, r, t) && t < |w.plan(s.ex[r], r)|
    ensures !NothingPending(w, s, r)
  {
    var q := w.plan(s.ex[r], r)[t].peer;
    assert s.pairs[(r, q)].toSend != [] || Wanted(w, s, q, r) > 0;
  }

  ghost function Count(schedule: seq<(nat, nat)>, r: nat): nat {
    if schedule == [] then 0 else (if schedule[0].0 == r then 1 else 0) + Count(schedule[1..], r)
  }

  lemma {:induction false} RunNoMore(w: World, s: State, schedule: seq<(nat, nat)>)
    requires Inv(w, s) && Schedule(w, schedule)
    ensures Left(w, Run(w, s, schedule)) <= Left(w, s)
    decreases |schedule|
  {
    if schedule != [] {
      StepKeeps(w, s, schedule[0].0, schedule[0].1);
      StepNoMore(w, s, schedule[0].0, schedule[0].1);
      RunNoMore(w, Step(w, s, schedule[0].0, schedule[0].1), schedule[1..]);
    }
  }

  lemma {:induction false} RipeRun(w: World, s: State, schedule: seq<(nat, nat)>, r: nat, t: nat)
    requires Inv(w, s) && Schedule(w, schedule) && r < w.n && Ripe(w, s, r, t)
    requires Count(schedule, r) > Distance(w, s, r, t) >= 0
    ensures Left(w, Run(w, s, schedule)) < Left(w, s)
    decreases |schedule|
  {
    var p, want, rest := schedule[0].0, schedule[0].1, schedule[1..];
    var s' := Step(w, s, p, want);
    StepKeeps(w, s, p, want);
    StepNoMore(w, s, p, want);
    if p == r {
      RipeAdvances(w, s, want, r, t);
    } else {
      RipeStays(w, s, p, want, r, t);
    }
    if Left(w, s') < Left(w, s) {
      RunNoMore(w, s', rest);
    } else {
      RipeRun(w, s', rest, r, t);
    }
  }

  /** A stretch of the schedule in which every rank gets through two whole passes. */
  ghost predicate Fair(w: World, schedule: seq<(nat, nat)>) {
    Schedule(w, schedule) && forall r: nat :: r < w.n ==> Count(schedule, r) > 2 * w.width + 2
  }

  /** Every fair stretch makes progress, from any reachable unfinished state. */
  lemma FairStretchProgresses(w: World, s: State, schedule: seq<(nat, nat)>)
    requires Inv(w, s) && !AllDone(w, s) && Fair(w, schedule)
    ensures Left(w, Run(w, s, schedule)) < Left(w, s)
  {
    var r, t := NoDeadlock(w, s);
    assert |w.plan(s.ex[r], r)| <= w.width;
    RipeRun(w, s, schedule, r, t);
  }

  ghost predicate AllFair(w: World, stretches: seq<seq<(nat, nat)>>) {
    forall i :: 0 <= i < |stretches| ==> Fair(w, stretches[i])
  }

  ghost function RunAll(w: World, s: State, stretches: seq<seq<(nat, nat)>>): (s': State)
    requires WellFormed(w) && Shaped(w, s) && AllFair(w, stretches)
    ensures Shaped(w, s')
    decreases |stretches|
  {
    if stretches == [] then s
    else
      assert Fair(w, stretches[0]);
      RunAll(w, Run(w, s, stretches[0]), stretches[1..])
  }

  /** Any schedule made of as many fair stretches as there is left to do finishes every
      exchange on every rank, whatever the ring capacity. */
  lemma {:induction false} FairRunsEnd(w: World, s: State, stretches: seq<seq<(nat, nat)>>)
    requires Inv(w, s) && AllFair(w, stretches) && |stretches| >= Left(w, s)
    ensures AllDone(w, RunAll(w, s, stretches))
    decreases |stretches|
  {
    LeftNat(w, s);
    if AllDone(w, s) {
      DoneStays(w, s, stretches);
    } else if stretches == [] {
      SomethingLeft(w, s);
    } else {
      assert Fair(w, stretches[0]);
      FairStretchProgresses(w, s, stretches[0]);
      RunKeeps(w, s, stretches[0]);
      FairRunsEnd(w, Run(w, s, stretches[0]), stretches[1..]);
    }
  }

  lemma SomethingLeft(w: World, s: State)
    requires Inv(w, s) && !AllDone(w, s)
    ensures Left(w, s) > 0
  {
    var p: nat :| p < w.n && s.ex[p] < w.total;
    forall a: nat, b: nat | a < w.n && b < w.n
      ensures 0 <= PairLeft(w, s, a, b)
    {
      PairLeftNat(w, s, a, b);
    }
    GridNat(PairsLeft(w, s), w.n, w.n);
    var zero := (a: nat, b: nat) => 0;
    GridFalls(RoundsLeft(w, s), zero, w.n, w.n, p, 0);
    GridOfZeros(zero, w.n, w.n);
  }

  lemma {:induction false} DoneStays(w: World, s: State, stretches: seq<seq<(nat, nat)>>)
    requires Inv(w, s) && AllFair(w, stretches) && AllDone(w, s)
    ensures RunAll(w, s, stretches) == s
    decreases |stretches|
  {
    if stretches != [] {
      assert Fair(w, stretches[0]);
      DoneRun(w, s, stretches[0]);
      DoneStays(w, s, stretches[1..]);
    }
  }

  lemma {:induction false} DoneRun(w: World, s: State, schedule: seq<(nat, nat)>)
    requires Inv(w, s) && Schedule(w, schedule) && AllDone(w, s)
    ensures Run(w, s, schedule) == s
    decreases |schedule|
  {
    if schedule != [] {
      DoneRun(w, s, schedule[1..]);
    }
  }
}
