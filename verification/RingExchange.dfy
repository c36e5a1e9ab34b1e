/**
 The halo exchange over the actual rings: the progress loops of all ranks, interleaved
 at the granularity of the rings' individual loads, byte copies and stores.  Every run
 is a run of the exchange over bounded byte queues, so what holds of that exchange in
 every interleaving of whole visits holds of the rings in every interleaving of loads
 and stores.

 A visit takes effect when its push or pop publishes its counter.  One that moves
 nothing takes effect when it looks: a push when it loads the tail, a pop when it loads
 the head, although it returns later and bytes may have arrived by then.
 */
module RingExchange {
  import opened Bytes
  import Exchange
  import Ring

  /** One ordered pair of ranks: as in the exchange, with the ring in place of a queue. */
  datatype Link = Link(toSend: seq<byte>, ring: Ring.State, got: seq<byte>, delivered: seq<seq<byte>>)

  datatype State = State(ex: seq<nat>, cursor: seq<nat>, links: map<(nat, nat), Link>)

  ghost predicate Setting(w: Exchange.World, z: Ring.Shape) {
    Exchange.WellFormed(w) && Ring.ValidShape(z) && z.cap == w.cap
  }

  ghost predicate Shaped(w: Exchange.World, s: State) {
    && |s.ex| == w.n == |s.cursor|
    && (forall p: nat, q: nat :: p < w.n && q < w.n ==> (p, q) in s.links)
    && (forall key :: key in s.links ==> key.0 < w.n && key.1 < w.n)
  }

  ghost function Init(w: Exchange.World, buf: seq<byte>): State {
    State(
      seq(w.n, _ => 0), seq(w.n, _ => 0),
      map p: nat, q: nat | p < w.n && q < w.n :: (p, q) := Link(Exchange.Data(w, 0, p, q), Ring.Init(buf), [], []))
  }

  // ---------- steps ----------

  /** One step of a visit to a send: the link after it, and whether the visit is over. */
  function PushStep(z: Ring.Shape, l: Link): (Link, bool)
    requires z.cap > 0 && z.modulus > 0
  {
    if l.toSend == [] then (l, true)
    else if l.ring.prod.PushIdle? then (l.(ring := Ring.Step(z, l.ring, Ring.StartPush(l.toSend))), false)
    else
      var r := Ring.Step(z, l.ring, Ring.Produce);
      var n := if l.ring.prod.CopyIn? then Min(l.ring.prod.n, |l.toSend|) else 0;
      if r.prod.PushIdle? then (l.(ring := r, toSend := l.toSend[n..]), true) else (l.(ring := r), false)
  }

  /** One step of a visit to a receive that still wants `want` bytes. */
  function PopStep(z: Ring.Shape, l: Link, want: nat): (Link, bool)
    requires z.cap > 0 && z.modulus > 0
  {
    if want == 0 then (l, true)
    else if l.ring.cons.PopIdle? then (l.(ring := Ring.Step(z, l.ring, Ring.StartPop(want))), false)
    else
      var r := Ring.Step(z, l.ring, Ring.Consume);
      var took := if l.ring.cons.CopyOut? then l.ring.cons.got else [];
      if r.cons.PopIdle? then (l.(ring := r, got := l.got + took), true) else (l.(ring := r), false)
  }

  function Wanted(w: Exchange.World, s: State, p: nat, q: nat): nat
    requires q < |s.ex| && (p, q) in s.links
  {
    Exchange.Missing(w, s.ex[q], p, q, |s.links[(p, q)].got|)
  }

  ghost predicate NothingPending(w: Exchange.World, s: State, p: nat)
    requires Shaped(w, s) && p < w.n
  {
    forall q: nat :: q < w.n ==> s.links[(p, q)].toSend == [] && Wanted(w, s, q, p) == 0
  }

  /** The bytes in a ring, and the pair that a link with that ring stands for. */
  function InRing(r: Ring.State): seq<byte> {
    if |r.popped| <= |r.pushed| then Ring.Queue(r) else []
  }

  function PairOf(l: Link): Exchange.Pair {
    Exchange.Pair(l.toSend, InRing(l.ring), l.got, l.delivered)
  }

  /** The two ends of the link turn over as those of a pair; the ring stays. */
  function TurnOver(w: Exchange.World, p: nat, e: nat, key: (nat, nat), l: Link): Link {
    var pair := Exchange.TurnOver(w, p, e, key, PairOf(l));
    Link(pair.toSend, l.ring, pair.got, pair.delivered)
  }

  ghost function Finish(w: Exchange.World, s: State, p: nat): State
    requires Shaped(w, s) && p < w.n
  {
    s.(ex := s.ex[p := s.ex[p] + 1], cursor := s.cursor[p := 0],
       links := map key | key in s.links :: TurnOver(w, p, s.ex[p], key, s.links[key]))
  }

  /** Rank `p` has taken a step of its visit to the pair `key`. */
  function Move(s: State, p: nat, key: (nat, nat), after: (Link, bool)): State
    requires p < |s.cursor|
  {
    s.(links := s.links[key := after.0],
       cursor := if after.1 then s.cursor[p := s.cursor[p] + 1] else s.cursor)
  }

  ghost predicate Busy(w: Exchange.World, s: State, p: nat)
    requires Shaped(w, s) && p < w.n
  {
    s.ex[p] < w.total && s.cursor[p] < |w.plan(s.ex[p], p)|
  }

  /** One load, byte copy or store of rank `p`, or a test of its progress loop. */
  ghost function Step(w: Exchange.World, z: Ring.Shape, s: State, p: nat): (s': State)
    requires Setting(w, z) && Shaped(w, s) && p < w.n
    ensures Shaped(w, s')
  {
    if Busy(w, s, p) then
      match w.plan(s.ex[p], p)[s.cursor[p]]
      case Send(q) => Move(s, p, (p, q), PushStep(z, s.links[(p, q)]))
      case Recv(q) => Move(s, p, (q, p), PopStep(z, s.links[(q, p)], Wanted(w, s, q, p)))
    else if s.ex[p] >= w.total then s
    else if NothingPending(w, s, p) then Finish(w, s, p)
    else s.(cursor := s.cursor[p := 0])
  }

  ghost function Run(w: Exchange.World, z: Ring.Shape, s: State, ranks: seq<nat>): (s': State)
    requires Setting(w, z) && Shaped(w, s) && forall j :: 0 <= j < |ranks| ==> ranks[j] < w.n
    ensures Shaped(w, s')
    decreases |ranks|
  {
    if ranks == [] then s else Run(w, z, Step(w, z, s, ranks[0]), ranks[1..])
  }

  // ---------- the invariant ----------

  /** Rank `p`'s progress loop is at `pend`. */
  ghost predicate At(w: Exchange.World, s: State, p: nat, pend: Exchange.Pend)
    requires Shaped(w, s) && p < w.n
  {
    Busy(w, s, p) && w.plan(s.ex[p], p)[s.cursor[p]] == pend
  }

  /** A push under way is the one the sender's loop is at, of all it has left. */
  ghost predicate PushOk(w: Exchange.World, s: State, p: nat, q: nat)
    requires Shaped(w, s) && p < w.n && q < w.n
  {
    var l := s.links[(p, q)];
    l.ring.prod.PushIdle? ||
    (At(w, s, p, Exchange.Send(q)) && l.ring.prod.p == l.toSend != [] && (l.ring.prod.CopyIn? ==> l.ring.prod.n >= 1))
  }

  /** A pop under way is the one the receiver's loop is at, for no more than it wants. */
  ghost predicate PopOk(w: Exchange.World, s: State, p: nat, q: nat)
    requires Shaped(w, s) && p < w.n && q < w.n
  {
    var cons := s.links[(p, q)].ring.cons;
    cons.PopIdle? || (At(w, s, q, Exchange.Recv(p)) && 1 <= cons.n <= Wanted(w, s, p, q))
  }

  ghost predicate LinkInv(w: Exchange.World, z: Ring.Shape, s: State, p: nat, q: nat)
    requires Shaped(w, s) && p < w.n && q < w.n
  {
    Ring.Inv(z, s.links[(p, q)].ring) && PushOk(w, s, p, q) && PopOk(w, s, p, q)
  }

  ghost predicate Inv(w: Exchange.World, z: Ring.Shape, s: State) {
    && Setting(w, z) && Shaped(w, s)
    && forall p: nat, q: nat :: p < w.n && q < w.n ==> LinkInv(w, z, s, p, q)
  }

  // ---------- the abstraction ----------

  /** A pop that has looked at an empty ring and has yet to return. */
  predicate Missed(r: Ring.State) {
    r.cons.PeekTail? && r.cons.h == r.tail
  }

  /** Where rank `p`'s loop is, counting a visit that has already missed as over. */
  ghost function CursorOf(w: Exchange.World, s: State, p: nat): nat
    requires Exchange.WellFormed(w) && Shaped(w, s) && p < w.n
  {
    if !Busy(w, s, p) then s.cursor[p]
    else
      match w.plan(s.ex[p], p)[s.cursor[p]]
      case Send(_) => s.cursor[p]
      case Recv(q) => if Missed(s.links[(q, p)].ring) then s.cursor[p] + 1 else s.cursor[p]
  }

  ghost function Abs(w: Exchange.World, s: State): (a: Exchange.State)
    requires Exchange.WellFormed(w) && Shaped(w, s)
    ensures Exchange.Shaped(w, a)
  {
    Exchange.State(
      s.ex,
      seq(w.n, p requires 0 <= p < w.n => CursorOf(w, s, p)),
      map key | key in s.links :: PairOf(s.links[key]))
  }

  // ---------- what one step does to the abstraction ----------

  /** The move of one link shows up as the move of one pair. */
  lemma AbsMove(w: Exchange.World, s: State, p: nat, key: (nat, nat), after: (Link, bool))
    requires Exchange.WellFormed(w) && Shaped(w, s) && p < w.n && key in s.links
    requires forall a: nat :: a < w.n && a != p ==>
      CursorOf(w, Move(s, p, key, after), a) == CursorOf(w, s, a)
    ensures Abs(w, Move(s, p, key, after)).ex == s.ex
    ensures Abs(w, Move(s, p, key, after)).pairs == Abs(w, s).pairs[key := PairOf(after.0)]
    ensures Abs(w, Move(s, p, key, after)).cursor
            == Abs(w, s).cursor[p := CursorOf(w, Move(s, p, key, after), p)]
  {
  }

  /** A push that the link may be in the middle of. */
  predicate Pushing(l: Link) {
    !l.ring.prod.PushIdle? && l.ring.prod.p == l.toSend != [] && (l.ring.prod.CopyIn? ==> l.ring.prod.n >= 1)
  }

  predicate Popping(l: Link, wanted: nat) {
    !l.ring.cons.PopIdle? && 1 <= l.ring.cons.n <= wanted
  }

  /** The consumer's side of a ring is not touched by a push. */
  predicate SameReceiver(l: Link, l': Link) {
    l'.ring.cons == l.ring.cons && l'.ring.tail == l.ring.tail && l'.got == l.got && l'.delivered == l.delivered
  }

  /** Nor the producer's side by a pop. */
  predicate SameSender(l: Link, l': Link) {
    l'.ring.prod == l.ring.prod && l'.toSend == l.toSend
  }

  /** One step of a push: nothing on the pair while it is under way, and a whole visit
      when it is over. */
  lemma PushLink(z: Ring.Shape, l: Link) returns (want: nat)
    requires Ring.Inv(z, l.ring) && (l.ring.prod.PushIdle? || Pushing(l))
    ensures var (l', over) := PushStep(z, l);
      && Ring.Inv(z, l'.ring) && SameReceiver(l, l')
      && (if over then l'.ring.prod.PushIdle? && PairOf(l') == Exchange.Pushed(z.cap, PairOf(l), want)
          else Pushing(l') && PairOf(l') == PairOf(l))
  {
    want := 0;
    if l.toSend == [] {
      assert PairOf(l) == Exchange.Pushed(z.cap, PairOf(l), want);
    } else if l.ring.prod.PushIdle? {
      Ring.StepKeeps(z, l.ring, Ring.StartPush(l.toSend));
    } else {
      Ring.StepRefinesQueue(z, l.ring, Ring.Produce);
      if l.ring.prod.LoadTail? {
        Ring.PushAccepts(z, l.ring);
        FullRing(z.cap, PairOf(l));
      } else if l.ring.prod.CopyIn? {
        want := l.ring.prod.n;
        PushPublished(z, l);
      }
    }
  }

  lemma FullRing(cap: nat, pair: Exchange.Pair)
    ensures |pair.queue| >= cap ==> Exchange.Pushed(cap, pair, 0) == pair
  {
    assert pair.queue + [] == pair.queue;
  }

  /** Publishing the head appends what was copied in. */
  lemma PushPublished(z: Ring.Shape, l: Link)
    requires Ring.Inv(z, l.ring) && Pushing(l) && l.ring.prod.CopyIn?
    ensures var (l', over) := PushStep(z, l);
      if over then l'.ring.prod.PushIdle? && PairOf(l') == Exchange.Pushed(z.cap, PairOf(l), l.ring.prod.n)
      else Pushing(l') && PairOf(l') == PairOf(l)
  {
    Ring.StepRefinesQueue(z, l.ring, Ring.Produce);
    var n, i := l.ring.prod.n, l.ring.prod.i;
    if i < n {
      Ring.CellIsModular(z, |l.ring.pushed|, n, i);
    } else {
      Ring.PublishHeadKeeps(z, l.ring);
    }
  }

  /** What one step of a pop does: nothing on the pair while it is under way, and a whole
      visit when it publishes the tail or when it looks at an empty ring. */
  ghost predicate PopEffect(z: Ring.Shape, l: Link, wanted: nat, want: nat)
    requires z.cap > 0 && z.modulus > 0
  {
    var (l', over) := PopStep(z, l, wanted);
    && Ring.Inv(z, l'.ring) && SameSender(l, l')
    && (over <==> l'.ring.cons.PopIdle?)
    && (!over ==> Popping(l', wanted) && l'.got == l.got)
    && (over && !Missed(l.ring) ==> PairOf(l') == Exchange.Popped(PairOf(l), wanted, want))
    && (!over || Missed(l.ring) ==> PairOf(l') == PairOf(l))
    && (Missed(l'.ring) ==> PairOf(l') == Exchange.Popped(PairOf(l), wanted, want))
    && (Missed(l.ring) ==> over)
  }

  lemma PopLink(z: Ring.Shape, l: Link, wanted: nat) returns (want: nat)
    requires Ring.Inv(z, l.ring) && (l.ring.cons.PopIdle? || Popping(l, wanted))
    ensures PopEffect(z, l, wanted, want)
  {
    want := 0;
    if l.ring.cons.PopIdle? {
      PopStarted(z, l, wanted);
    } else if l.ring.cons.PeekHead? {
      PopPeeked(z, l, wanted);
    } else if l.ring.cons.PeekTail? {
      PopLooked(z, l, wanted);
    } else {
      want := l.ring.cons.n;
      PopPublished(z, l, wanted);
    }
  }

  lemma PopStarted(z: Ring.Shape, l: Link, wanted: nat)
    requires Ring.Inv(z, l.ring) && l.ring.cons.PopIdle?
    ensures PopEffect(z, l, wanted, 0)
  {
    Ring.StepKeeps(z, l.ring, Ring.StartPop(wanted));
    if wanted == 0 {
      assert PairOf(l) == Exchange.Popped(PairOf(l), wanted, 0);
    }
  }

  /** Loading the head: a pop misses exactly when the ring is empty at that moment. */
  lemma PopPeeked(z: Ring.Shape, l: Link, wanted: nat)
    requires Ring.Inv(z, l.ring) && Popping(l, wanted) && l.ring.cons.PeekHead?
    ensures PopEffect(z, l, wanted, 0)
  {
    Ring.StepKeeps(z, l.ring, Ring.Consume);
    if l.ring.head == l.ring.tail {
      NothingInRing(z, l.ring);
      EmptyRing(PairOf(l), wanted);
    }
  }

  lemma NothingInRing(z: Ring.Shape, r: Ring.State)
    requires Ring.Inv(z, r) && r.head == r.tail
    ensures InRing(r) == []
  {
    Ring.WrappedDifference(z, |r.pushed|, |r.popped|);
  }

  lemma EmptyRing(pair: Exchange.Pair, wanted: nat)
    ensures pair.queue == [] ==> Exchange.Popped(pair, wanted, 0) == pair
  {
    assert pair.got + [] == pair.got;
  }

  /** Loading the tail: a pop goes on exactly when it has not missed. */
  lemma PopLooked(z: Ring.Shape, l: Link, wanted: nat)
    requires Ring.Inv(z, l.ring) && Popping(l, wanted) && l.ring.cons.PeekTail?
    ensures PopEffect(z, l, wanted, 0)
  {
    var seen: nat :| |l.ring.popped| <= seen <= |l.ring.pushed| && l.ring.cons.h == seen % z.modulus;
    Ring.WrappedDifference(z, seen, |l.ring.popped|);
    Ring.PopTakes(z, l.ring, seen);
    Ring.StepRefinesQueue(z, l.ring, Ring.Consume);
  }

  /** Publishing the tail removes what was copied out. */
  lemma PopPublished(z: Ring.Shape, l: Link, wanted: nat)
    requires Ring.Inv(z, l.ring) && Popping(l, wanted) && l.ring.cons.CopyOut?
    ensures PopEffect(z, l, wanted, l.ring.cons.n)
  {
    Ring.StepRefinesQueue(z, l.ring, Ring.Consume);
    var n, got := l.ring.cons.n, l.ring.cons.got;
    if |got| < n {
      Ring.CellIsModular(z, |l.ring.popped|, n, |got|);
    } else {
      Ring.PublishTailKeeps(z, l.ring);
      assert got == Ring.Queue(l.ring)[..n];
    }
  }

  // ---------- every step is a step of the exchange, or none ----------

  /** While rank `p` is at a send, it is in the middle of no pop, and of no other push. */
  lemma OnlySend(w: Exchange.World, z: Ring.Shape, s: State, p: nat, q: nat, a: nat)
    requires Inv(w, z, s) && p < w.n && q < w.n && a < w.n && At(w, s, p, Exchange.Send(q))
    ensures s.links[(a, p)].ring.cons.PopIdle?
    ensures a != q ==> s.links[(p, a)].ring.prod.PushIdle?
  {
    assert LinkInv(w, z, s, a, p) && LinkInv(w, z, s, p, a);
  }

  /** While rank `p` is at a receive, it is in the middle of no push, and of no other pop. */
  lemma OnlyRecv(w: Exchange.World, z: Ring.Shape, s: State, p: nat, q: nat, a: nat)
    requires Inv(w, z, s) && p < w.n && q < w.n && a < w.n && At(w, s, p, Exchange.Recv(q))
    ensures s.links[(p, a)].ring.prod.PushIdle?
    ensures a != q ==> s.links[(a, p)].ring.cons.PopIdle?
  {
    assert LinkInv(w, z, s, a, p) && LinkInv(w, z, s, p, a);
  }

  /** What a step of a push leaves the other side of the link to rely on. */
  ghost predicate PushedWell(z: Ring.Shape, l: Link, after: (Link, bool)) {
    && Ring.Inv(z, after.0.ring) && SameReceiver(l, after.0)
    && (if after.1 then after.0.ring.prod.PushIdle? else Pushing(after.0))
  }

  ghost predicate PoppedWell(z: Ring.Shape, l: Link, wanted: nat, after: (Link, bool)) {
    && Ring.Inv(z, after.0.ring) && SameSender(l, after.0)
    && (if after.1 then after.0.ring.cons.PopIdle? else Popping(after.0, wanted) && after.0.got == l.got)
  }

  /** A rank that is in the middle of nothing else may move on. */
  lemma UntouchedLink(w: Exchange.World, z: Ring.Shape, s: State, p: nat, key: (nat, nat), after: (Link, bool),
                      a: nat, b: nat)
    requires Inv(w, z, s) && p < w.n && key in s.links && a < w.n && b < w.n && (a, b) != key
    requires a == p && after.1 ==> s.links[(a, b)].ring.prod.PushIdle?
    requires b == p && after.1 ==> s.links[(a, b)].ring.cons.PopIdle?
    ensures LinkInv(w, z, Move(s, p, key, after), a, b)
  {
    assert LinkInv(w, z, s, a, b);
    var s' := Move(s, p, key, after);
    assert s'.links[(a, b)] == s.links[(a, b)];
  }

  lemma PushedLink(w: Exchange.World, z: Ring.Shape, s: State, p: nat, q: nat, after: (Link, bool))
    requires Inv(w, z, s) && p < w.n && q < w.n && At(w, s, p, Exchange.Send(q))
    requires PushedWell(z, s.links[(p, q)], after)
    ensures LinkInv(w, z, Move(s, p, (p, q), after), p, q)
  {
    assert LinkInv(w, z, s, p, q);
    OnlySend(w, z, s, p, q, p);
    var s' := Move(s, p, (p, q), after);
    assert s'.links[(p, q)] == after.0;
  }

  lemma PoppedLink(w: Exchange.World, z: Ring.Shape, s: State, p: nat, q: nat, after: (Link, bool))
    requires Inv(w, z, s) && p < w.n && q < w.n && At(w, s, p, Exchange.Recv(q))
    requires PoppedWell(z, s.links[(q, p)], Wanted(w, s, q, p), after)
    ensures LinkInv(w, z, Move(s, p, (q, p), after), q, p)
  {
    assert LinkInv(w, z, s, q, p);
    OnlyRecv(w, z, s, p, q, p);
    var s' := Move(s, p, (q, p), after);
    assert s'.links[(q, p)] == after.0;
  }

  lemma PushKeeps(w: Exchange.World, z: Ring.Shape, s: State, p: nat, q: nat, after: (Link, bool))
    requires Inv(w, z, s) && p < w.n && q < w.n && At(w, s, p, Exchange.Send(q))
    requires PushedWell(z, s.links[(p, q)], after)
    ensures Inv(w, z, Move(s, p, (p, q), after))
  {
    forall a: nat, b: nat | a < w.n && b < w.n
      ensures LinkInv(w, z, Move(s, p, (p, q), after), a, b)
    {
      if (a, b) == (p, q) {
        PushedLink(w, z, s, p, q, after);
      } else {
        OnlySend(w, z, s, p, q, a);
        OnlySend(w, z, s, p, q, b);
        UntouchedLink(w, z, s, p, (p, q), after, a, b);
      }
    }
  }

  lemma PopKeeps(w: Exchange.World, z: Ring.Shape, s: State, p: nat, q: nat, after: (Link, bool))
    requires Inv(w, z, s) && p < w.n && q < w.n && At(w, s, p, Exchange.Recv(q))
    requires PoppedWell(z, s.links[(q, p)], Wanted(w, s, q, p), after)
    ensures Inv(w, z, Move(s, p, (q, p), after))
  {
    forall a: nat, b: nat | a < w.n && b < w.n
      ensures LinkInv(w, z, Move(s, p, (q, p), after), a, b)
    {
      if (a, b) == (q, p) {
        PoppedLink(w, z, s, p, q, after);
      } else {
        OnlyRecv(w, z, s, p, q, a);
        OnlyRecv(w, z, s, p, q, b);
        UntouchedLink(w, z, s, p, (q, p), after, a, b);
      }
    }
  }

  /** No rank has missed at a place its loop has just come to. */
  lemma NotMissed(w: Exchange.World, s: State, p: nat)
    requires Exchange.WellFormed(w) && Shaped(w, s) && p < w.n
    requires forall a: nat :: a < w.n ==> !Missed(s.links[(a, p)].ring)
    ensures CursorOf(w, s, p) == s.cursor[p]
  {
  }

  /** The loops of the other ranks are where they were. */
  lemma PushCursors(w: Exchange.World, z: Ring.Shape, s: State, p: nat, q: nat, after: (Link, bool), a: nat)
    requires Inv(w, z, s) && p < w.n && q < w.n && a < w.n && At(w, s, p, Exchange.Send(q))
    requires SameReceiver(s.links[(p, q)], after.0)
    ensures var s' := Move(s, p, (p, q), after);
      CursorOf(w, s', a) == if a == p then s'.cursor[p] else CursorOf(w, s, a)
  {
    var s' := Move(s, p, (p, q), after);
    if a == p {
      forall b: nat | b < w.n
        ensures !Missed(s'.links[(b, p)].ring)
      {
        OnlySend(w, z, s, p, q, b);
      }
      NotMissed(w, s', p);
    } else if Busy(w, s, a) {
      match w.plan(s.ex[a], a)[s.cursor[a]]
      case Send(_) =>
      case Recv(b) => assert Missed(s'.links[(b, a)].ring) == Missed(s.links[(b, a)].ring);
    }
  }

  lemma PopCursors(w: Exchange.World, z: Ring.Shape, s: State, p: nat, q: nat, after: (Link, bool), a: nat)
    requires Inv(w, z, s) && p < w.n && q < w.n && a < w.n && At(w, s, p, Exchange.Recv(q))
    requires after.1 ==> after.0.ring.cons.PopIdle?
    ensures var s' := Move(s, p, (q, p), after);
      CursorOf(w, s', a) ==
        if a != p then CursorOf(w, s, a) else s'.cursor[p] + if Missed(after.0.ring) then 1 else 0
  {
    var s' := Move(s, p, (q, p), after);
    if a != p {
      assert forall b: nat :: b < w.n ==> s'.links[(b, a)] == s.links[(b, a)];
    } else if after.1 {
      forall b: nat | b < w.n
        ensures !Missed(s'.links[(b, p)].ring)
      {
        OnlyRecv(w, z, s, p, q, b);
      }
      NotMissed(w, s', p);
    }
  }

  /** The step from `s` to `s'` is a stretch of the exchange's steps. */
  ghost predicate Simulates(w: Exchange.World, s: State, s': State, visits: seq<(nat, nat)>)
    requires Exchange.WellFormed(w) && Shaped(w, s) && Shaped(w, s')
  {
    Exchange.Schedule(w, visits) && Abs(w, s') == Exchange.Run(w, Abs(w, s), visits)
  }

  /** The exchange's steps that one step of rank `p` amounts to: one of its own, or none. */
  predicate VisitsOf(p: nat, effective: bool, visits: seq<(nat, nat)>) {
    |visits| == (if effective then 1 else 0) && (effective ==> visits[0].0 == p)
  }

  lemma SamePair(w: Exchange.World, s: State, p: nat, q: nat)
    requires Exchange.WellFormed(w) && Shaped(w, s) && p < w.n && q < w.n
    ensures Abs(w, s).pairs[(p, q)] == PairOf(s.links[(p, q)])
    ensures Exchange.Wanted(w, Abs(w, s), p, q) == Wanted(w, s, p, q)
  {
  }

  lemma OneVisit(w: Exchange.World, a: Exchange.State, p: nat, want: nat)
    requires Exchange.WellFormed(w) && Exchange.Shaped(w, a) && p < w.n
    ensures Exchange.Schedule(w, [(p, want)])
    ensures Exchange.Run(w, a, [(p, want)]) == Exchange.Step(w, a, p, want)
  {
    assert [(p, want)][1..] == [];
  }

  /** A whole visit to a send, in the exchange. */
  lemma VisitedPush(w: Exchange.World, a: Exchange.State, p: nat, q: nat, want: nat)
    requires Exchange.WellFormed(w) && Exchange.Shaped(w, a) && p < w.n && q < w.n
    requires a.ex[p] < w.total && a.cursor[p] < |w.plan(a.ex[p], p)|
    requires w.plan(a.ex[p], p)[a.cursor[p]] == Exchange.Send(q)
    ensures Exchange.Schedule(w, [(p, want)])
    ensures Exchange.Run(w, a, [(p, want)]) ==
      Exchange.State(a.ex, a.cursor[p := a.cursor[p] + 1],
                     a.pairs[(p, q) := Exchange.Pushed(w.cap, a.pairs[(p, q)], want)])
  {
    OneVisit(w, a, p, want);
  }

  lemma VisitedPop(w: Exchange.World, a: Exchange.State, p: nat, q: nat, want: nat)
    requires Exchange.WellFormed(w) && Exchange.Shaped(w, a) && p < w.n && q < w.n
    requires a.ex[p] < w.total && a.cursor[p] < |w.plan(a.ex[p], p)|
    requires w.plan(a.ex[p], p)[a.cursor[p]] == Exchange.Recv(q)
    ensures Exchange.Schedule(w, [(p, want)])
    ensures Exchange.Run(w, a, [(p, want)]) ==
      Exchange.State(a.ex, a.cursor[p := a.cursor[p] + 1],
                     a.pairs[(q, p) := Exchange.Popped(a.pairs[(q, p)], Exchange.Wanted(w, a, q, p), want)])
  {
    OneVisit(w, a, p, want);
  }

  lemma PushMatches(w: Exchange.World, s: State, s': State, p: nat, q: nat, l': Link, want: nat)
    requires Exchange.WellFormed(w) && Shaped(w, s) && Shaped(w, s') && p < w.n && q < w.n
    requires At(w, s, p, Exchange.Send(q)) && PairOf(l') == Exchange.Pushed(w.cap, PairOf(s.links[(p, q)]), want)
    requires var a := Abs(w, s);
      Abs(w, s') == Exchange.State(a.ex, a.cursor[p := s.cursor[p] + 1], a.pairs[(p, q) := PairOf(l')])
    ensures Simulates(w, s, s', [(p, want)])
  {
    SamePair(w, s, p, q);
    VisitedPush(w, Abs(w, s), p, q, want);
  }

  lemma PopMatches(w: Exchange.World, s: State, s': State, p: nat, q: nat, l': Link, want: nat)
    requires Exchange.WellFormed(w) && Shaped(w, s) && Shaped(w, s') && p < w.n && q < w.n
    requires At(w, s, p, Exchange.Recv(q)) && !Missed(s.links[(q, p)].ring)
    requires PairOf(l') == Exchange.Popped(PairOf(s.links[(q, p)]), Wanted(w, s, q, p), want)
    requires var a := Abs(w, s);
      Abs(w, s') == Exchange.State(a.ex, a.cursor[p := s.cursor[p] + 1], a.pairs[(q, p) := PairOf(l')])
    ensures Simulates(w, s, s', [(p, want)])
  {
    SamePair(w, s, q, p);
    VisitedPop(w, Abs(w, s), p, q, want);
  }

  /** The step of a push with which its visit is over. */
  lemma PushTaken(w: Exchange.World, z: Ring.Shape, s: State, p: nat, q: nat, after: (Link, bool), want: nat)
    requires Inv(w, z, s) && p < w.n && q < w.n && At(w, s, p, Exchange.Send(q))
    requires after.1 && SameReceiver(s.links[(p, q)], after.0)
    requires PairOf(after.0) == Exchange.Pushed(w.cap, PairOf(s.links[(p, q)]), want)
    ensures Simulates(w, s, Move(s, p, (p, q), after), [(p, want)])
  {
    PushAbs(w, z, s, p, q, after);
    PushMatches(w, s, Move(s, p, (p, q), after), p, q, after.0, want);
  }

  lemma PushUnderWay(w: Exchange.World, z: Ring.Shape, s: State, p: nat, q: nat, after: (Link, bool))
    requires Inv(w, z, s) && p < w.n && q < w.n && At(w, s, p, Exchange.Send(q))
    requires !after.1 && SameReceiver(s.links[(p, q)], after.0) && PairOf(after.0) == PairOf(s.links[(p, q)])
    ensures Simulates(w, s, Move(s, p, (p, q), after), [])
  {
    PushAbs(w, z, s, p, q, after);
    SamePair(w, s, p, q);
    var a := Abs(w, s);
    assert a.pairs[(p, q) := a.pairs[(p, q)]] == a.pairs && a.cursor[p := a.cursor[p]] == a.cursor;
  }

  lemma PushSimulates(w: Exchange.World, z: Ring.Shape, s: State, p: nat, q: nat) returns (visits: seq<(nat, nat)>)
    requires Inv(w, z, s) && p < w.n && q < w.n && At(w, s, p, Exchange.Send(q))
    ensures var s' := Move(s, p, (p, q), PushStep(z, s.links[(p, q)]));
      && Inv(w, z, s') && Simulates(w, s, s', visits)
      && VisitsOf(p, PushStep(z, s.links[(p, q)]).1, visits)
  {
    assert LinkInv(w, z, s, p, q);
    var want := PushLink(z, s.links[(p, q)]);
    var after := PushStep(z, s.links[(p, q)]);
    PushKeeps(w, z, s, p, q, after);
    if after.1 {
      visits := [(p, want)];
      PushTaken(w, z, s, p, q, after, want);
    } else {
      visits := [];
      PushUnderWay(w, z, s, p, q, after);
    }
  }

  lemma PushAbs(w: Exchange.World, z: Ring.Shape, s: State, p: nat, q: nat, after: (Link, bool))
    requires Inv(w, z, s) && p < w.n && q < w.n && At(w, s, p, Exchange.Send(q))
    requires SameReceiver(s.links[(p, q)], after.0)
    ensures var a, s' := Abs(w, s), Move(s, p, (p, q), after);
      && a.cursor[p] == s.cursor[p]
      && Abs(w, s') == Exchange.State(a.ex, a.cursor[p := s'.cursor[p]], a.pairs[(p, q) := PairOf(after.0)])
  {
    forall a: nat | a < w.n
      ensures CursorOf(w, Move(s, p, (p, q), after), a) ==
              if a == p then Move(s, p, (p, q), after).cursor[p] else CursorOf(w, s, a)
    {
      PushCursors(w, z, s, p, q, after, a);
    }
    AbsMove(w, s, p, (p, q), after);
  }

  lemma PopAbs(w: Exchange.World, z: Ring.Shape, s: State, p: nat, q: nat, after: (Link, bool))
    requires Inv(w, z, s) && p < w.n && q < w.n && At(w, s, p, Exchange.Recv(q))
    requires after.1 ==> after.0.ring.cons.PopIdle?
    ensures var a, moved := Abs(w, s), if after.1 || Missed(after.0.ring) then 1 else 0;
      && a.cursor[p] == s.cursor[p] + (if Missed(s.links[(q, p)].ring) then 1 else 0)
      && Abs(w, Move(s, p, (q, p), after)) ==
         Exchange.State(a.ex, a.cursor[p := s.cursor[p] + moved], a.pairs[(q, p) := PairOf(after.0)])
  {
    forall a: nat | a < w.n
      ensures CursorOf(w, Move(s, p, (q, p), after), a) ==
              if a != p then CursorOf(w, s, a)
              else Move(s, p, (q, p), after).cursor[p] + if Missed(after.0.ring) then 1 else 0
    {
      PopCursors(w, z, s, p, q, after, a);
    }
    AbsMove(w, s, p, (q, p), after);
  }

  /** A visit to a receive takes effect when it is over, or when it misses. */
  predicate TakesEffect(l: Link, after: (Link, bool)) {
    !Missed(l.ring) && (after.1 || Missed(after.0.ring))
  }

  /** The step of a pop with which its visit takes effect. */
  lemma PopTaken(w: Exchange.World, z: Ring.Shape, s: State, p: nat, q: nat, after: (Link, bool), want: nat)
    requires Inv(w, z, s) && p < w.n && q < w.n && At(w, s, p, Exchange.Recv(q))
    requires after.1 ==> after.0.ring.cons.PopIdle?
    requires TakesEffect(s.links[(q, p)], after)
    requires PairOf(after.0) == Exchange.Popped(PairOf(s.links[(q, p)]), Wanted(w, s, q, p), want)
    ensures Simulates(w, s, Move(s, p, (q, p), after), [(p, want)])
  {
    PopAbs(w, z, s, p, q, after);
    PopMatches(w, s, Move(s, p, (q, p), after), p, q, after.0, want);
  }

  /** A step of a pop that has yet to take effect, or has missed before. */
  lemma PopUnderWay(w: Exchange.World, z: Ring.Shape, s: State, p: nat, q: nat, after: (Link, bool))
    requires Inv(w, z, s) && p < w.n && q < w.n && At(w, s, p, Exchange.Recv(q))
    requires after.1 ==> after.0.ring.cons.PopIdle?
    requires Missed(s.links[(q, p)].ring) ==> after.1
    requires !TakesEffect(s.links[(q, p)], after) && PairOf(after.0) == PairOf(s.links[(q, p)])
    ensures Simulates(w, s, Move(s, p, (q, p), after), [])
  {
    PopAbs(w, z, s, p, q, after);
    var a := Abs(w, s);
    SamePair(w, s, q, p);
    assert a.pairs[(q, p) := a.pairs[(q, p)]] == a.pairs && a.cursor[p := a.cursor[p]] == a.cursor;
  }

  lemma PopSimulates(w: Exchange.World, z: Ring.Shape, s: State, p: nat, q: nat) returns (visits: seq<(nat, nat)>)
    requires Inv(w, z, s) && p < w.n && q < w.n && At(w, s, p, Exchange.Recv(q))
    ensures var s' := Move(s, p, (q, p), PopStep(z, s.links[(q, p)], Wanted(w, s, q, p)));
      && Inv(w, z, s') && Simulates(w, s, s', visits)
      && VisitsOf(p, TakesEffect(s.links[(q, p)], PopStep(z, s.links[(q, p)], Wanted(w, s, q, p))), visits)
  {
    assert LinkInv(w, z, s, q, p);
    var want := PopLink(z, s.links[(q, p)], Wanted(w, s, q, p));
    var after := PopStep(z, s.links[(q, p)], Wanted(w, s, q, p));
    PopKeeps(w, z, s, p, q, after);
    if TakesEffect(s.links[(q, p)], after) {
      visits := [(p, want)];
      PopTaken(w, z, s, p, q, after, want);
    } else {
      visits := [];
      PopUnderWay(w, z, s, p, q, after);
    }
  }

  // ---------- the end of a pass ----------

  /** A rank at the end of its pass is in the middle of nothing. */
  lemma AtRest(w: Exchange.World, z: Ring.Shape, s: State, p: nat, a: nat)
    requires Inv(w, z, s) && p < w.n && a < w.n && !Busy(w, s, p)
    ensures s.links[(p, a)].ring.prod.PushIdle? && s.links[(a, p)].ring.cons.PopIdle?
  {
    assert LinkInv(w, z, s, a, p) && LinkInv(w, z, s, p, a);
  }

  lemma FinishKeeps(w: Exchange.World, z: Ring.Shape, s: State, p: nat)
    requires Inv(w, z, s) && p < w.n && !Busy(w, s, p)
    ensures Inv(w, z, Finish(w, s, p))
  {
    forall a: nat, b: nat | a < w.n && b < w.n
      ensures LinkInv(w, z, Finish(w, s, p), a, b)
    {
      assert LinkInv(w, z, s, a, b);
      AtRest(w, z, s, p, a);
      AtRest(w, z, s, p, b);
      assert Finish(w, s, p).links[(a, b)] == TurnOver(w, p, s.ex[p], (a, b), s.links[(a, b)]);
    }
  }

  lemma RestartKeeps(w: Exchange.World, z: Ring.Shape, s: State, p: nat)
    requires Inv(w, z, s) && p < w.n && !Busy(w, s, p)
    ensures Inv(w, z, s.(cursor := s.cursor[p := 0]))
  {
    var s' := s.(cursor := s.cursor[p := 0]);
    forall a: nat, b: nat | a < w.n && b < w.n
      ensures LinkInv(w, z, s', a, b)
    {
      assert LinkInv(w, z, s, a, b);
      AtRest(w, z, s, p, a);
      AtRest(w, z, s, p, b);
    }
  }

  /** Both loops make the same test. */
  lemma SameTest(w: Exchange.World, s: State, p: nat)
    requires Exchange.WellFormed(w) && Shaped(w, s) && p < w.n
    ensures NothingPending(w, s, p) <==> Exchange.NothingPending(w, Abs(w, s), p)
  {
    forall q: nat | q < w.n
      ensures Abs(w, s).pairs[(p, q)].toSend == s.links[(p, q)].toSend
      ensures Exchange.Wanted(w, Abs(w, s), q, p) == Wanted(w, s, q, p)
    {
      SamePair(w, s, p, q);
      SamePair(w, s, q, p);
    }
  }

  lemma RestCursors(w: Exchange.World, z: Ring.Shape, s: State, s': State, p: nat, a: nat)
    requires Inv(w, z, s) && Shaped(w, s') && p < w.n && a < w.n && !Busy(w, s, p) && s'.cursor == s.cursor[p := 0]
    requires forall b: nat :: b < w.n && b != p ==> s'.ex[b] == s.ex[b]
    requires forall b: nat, c: nat :: b < w.n && c < w.n ==> s'.links[(b, c)].ring == s.links[(b, c)].ring
    ensures CursorOf(w, s', a) == if a == p then 0 else CursorOf(w, s, a)
  {
    if a == p {
      forall b: nat | b < w.n
        ensures !Missed(s'.links[(b, p)].ring)
      {
        AtRest(w, z, s, p, b);
      }
      NotMissed(w, s', p);
    }
  }

  /** All loops but `p`'s are where they were, and `p`'s is at its start. */
  lemma AllRestCursors(w: Exchange.World, z: Ring.Shape, s: State, s': State, p: nat)
    requires Inv(w, z, s) && Shaped(w, s') && p < w.n && !Busy(w, s, p) && s'.cursor == s.cursor[p := 0]
    requires forall b: nat :: b < w.n && b != p ==> s'.ex[b] == s.ex[b]
    requires forall b: nat, c: nat :: b < w.n && c < w.n ==> s'.links[(b, c)].ring == s.links[(b, c)].ring
    ensures Abs(w, s').cursor == Abs(w, s).cursor[p := 0] && Abs(w, s).cursor[p] == s.cursor[p]
  {
    forall b: nat | b < w.n
      ensures CursorOf(w, s', b) == if b == p then 0 else CursorOf(w, s, b)
    {
      RestCursors(w, z, s, s', p, b);
    }
  }

  lemma FinishPairs(w: Exchange.World, s: State, p: nat)
    requires Exchange.WellFormed(w) && Shaped(w, s) && p < w.n
    ensures Abs(w, Finish(w, s, p)).pairs == Exchange.Finish(w, Abs(w, s), p).pairs
  {
  }

  lemma FinishCursors(w: Exchange.World, z: Ring.Shape, s: State, p: nat)
    requires Inv(w, z, s) && p < w.n && !Busy(w, s, p)
    ensures Abs(w, Finish(w, s, p)).cursor == Abs(w, s).cursor[p := 0] && Abs(w, s).cursor[p] == s.cursor[p]
  {
    AllRestCursors(w, z, s, Finish(w, s, p), p);
  }

  lemma FinishSimulates(w: Exchange.World, z: Ring.Shape, s: State, p: nat)
    requires Inv(w, z, s) && p < w.n && !Busy(w, s, p) && s.ex[p] < w.total && NothingPending(w, s, p)
    ensures Simulates(w, s, Finish(w, s, p), [(p, 0)])
  {
    var a := Abs(w, s);
    SameTest(w, s, p);
    FinishCursors(w, z, s, p);
    FinishPairs(w, s, p);
    FinishVisit(w, a, p);
    OneVisit(w, a, p, 0);
  }

  lemma FinishVisit(w: Exchange.World, a: Exchange.State, p: nat)
    requires Exchange.WellFormed(w) && Exchange.Shaped(w, a) && p < w.n
    requires a.ex[p] < w.total && a.cursor[p] >= |w.plan(a.ex[p], p)| && Exchange.NothingPending(w, a, p)
    ensures Exchange.Step(w, a, p, 0) ==
      Exchange.State(a.ex[p := a.ex[p] + 1], a.cursor[p := 0], Exchange.Finish(w, a, p).pairs)
  {
  }

  lemma RestartSimulates(w: Exchange.World, z: Ring.Shape, s: State, p: nat)
    requires Inv(w, z, s) && p < w.n && !Busy(w, s, p) && s.ex[p] < w.total && !NothingPending(w, s, p)
    ensures Simulates(w, s, s.(cursor := s.cursor[p := 0]), [(p, 0)])
  {
    SameTest(w, s, p);
    OneVisit(w, Abs(w, s), p, 0);
    AllRestCursors(w, z, s, s.(cursor := s.cursor[p := 0]), p);
  }

  // ---------- every run is a run of the exchange ----------

  /** The steps with which a visit takes effect, and the tests at the end of a pass. */
  ghost predicate Effective(w: Exchange.World, z: Ring.Shape, s: State, p: nat)
    requires Setting(w, z) && Shaped(w, s) && p < w.n
  {
    if !Busy(w, s, p) then true
    else
      match w.plan(s.ex[p], p)[s.cursor[p]]
      case Send(q) => PushStep(z, s.links[(p, q)]).1
      case Recv(q) => TakesEffect(s.links[(q, p)], PopStep(z, s.links[(q, p)], Wanted(w, s, q, p)))
  }

  /** Every load, copy and store is one step of the exchange over queues, or none. */
  lemma StepSimulates(w: Exchange.World, z: Ring.Shape, s: State, p: nat) returns (visits: seq<(nat, nat)>)
    requires Inv(w, z, s) && p < w.n
    ensures Inv(w, z, Step(w, z, s, p)) && Simulates(w, s, Step(w, z, s, p), visits)
    ensures VisitsOf(p, Effective(w, z, s, p), visits)
  {
    if Busy(w, s, p) {
      match w.plan(s.ex[p], p)[s.cursor[p]]
      case Send(q) => visits := PushSimulates(w, z, s, p, q);
      case Recv(q) => visits := PopSimulates(w, z, s, p, q);
    } else if s.ex[p] >= w.total {
      visits := [(p, 0)];
      OneVisit(w, Abs(w, s), p, 0);
    } else if NothingPending(w, s, p) {
      visits := [(p, 0)];
      FinishKeeps(w, z, s, p);
      FinishSimulates(w, z, s, p);
    } else {
      visits := [(p, 0)];
      RestartKeeps(w, z, s, p);
      RestartSimulates(w, z, s, p);
    }
  }

  lemma {:induction false} RunJoins(w: Exchange.World, a: Exchange.State, v1: seq<(nat, nat)>, v2: seq<(nat, nat)>)
    requires Exchange.WellFormed(w) && Exchange.Shaped(w, a) && Exchange.Schedule(w, v1) && Exchange.Schedule(w, v2)
    requires Exchange.Schedule(w, v1 + v2)
    ensures Exchange.Run(w, a, v1 + v2) == Exchange.Run(w, Exchange.Run(w, a, v1), v2)
    decreases |v1|
  {
    if v1 == [] {
      assert v1 + v2 == v2;
    } else {
      var a' := Exchange.Step(w, a, v1[0].0, v1[0].1);
      var v := v1 + v2;
      assert v[1..] == v1[1..] + v2 && v[0] == v1[0];
      RunJoins(w, a', v1[1..], v2);
      assert Exchange.Run(w, a, v) == Exchange.Run(w, a', v[1..]);
    }
  }

  lemma {:induction false} RunSimulates(w: Exchange.World, z: Ring.Shape, s: State, ranks: seq<nat>)
    returns (visits: seq<(nat, nat)>)
    requires Inv(w, z, s) && forall j :: 0 <= j < |ranks| ==> ranks[j] < w.n
    ensures Inv(w, z, Run(w, z, s, ranks)) && Simulates(w, s, Run(w, z, s, ranks), visits)
    decreases |ranks|
  {
    if ranks == [] {
      visits := [];
    } else {
      var first := StepSimulates(w, z, s, ranks[0]);
      var rest := RunSimulates(w, z, Step(w, z, s, ranks[0]), ranks[1..]);
      RunJoins(w, Abs(w, s), first, rest);
      visits := first + rest;
    }
  }

  lemma InitHolds(w: Exchange.World, z: Ring.Shape, buf: seq<byte>)
    requires Setting(w, z) && |buf| == z.cap
    ensures Inv(w, z, Init(w, buf))
  {
    Ring.ReachableInv(z, buf, []);
    forall p: nat, q: nat | p < w.n && q < w.n
      ensures LinkInv(w, z, Init(w, buf), p, q)
    {
      assert Init(w, buf).links[(p, q)].ring == Ring.Init(buf) == Ring.Run(z, buf, []);
    }
  }

  lemma IdleCursors(w: Exchange.World, s: State)
    requires Exchange.WellFormed(w) && Shaped(w, s)
    requires forall a: nat, p: nat :: a < w.n && p < w.n ==> !Missed(s.links[(a, p)].ring)
    ensures Abs(w, s).cursor == s.cursor
  {
    forall p: nat | p < w.n
      ensures CursorOf(w, s, p) == s.cursor[p]
    {
      NotMissed(w, s, p);
    }
  }

  lemma InitCursors(w: Exchange.World, buf: seq<byte>)
    requires Exchange.WellFormed(w)
    ensures Abs(w, Init(w, buf)).cursor == Exchange.Init(w).cursor
  {
    IdleCursors(w, Init(w, buf));
  }

  lemma InitPairs(w: Exchange.World, buf: seq<byte>)
    requires Exchange.WellFormed(w)
    ensures Abs(w, Init(w, buf)).pairs == Exchange.Init(w).pairs
  {
    assert InRing(Ring.Init(buf)) == [];
  }

  lemma InitAbs(w: Exchange.World, buf: seq<byte>)
    requires Exchange.WellFormed(w)
    ensures Abs(w, Init(w, buf)) == Exchange.Init(w)
  {
    InitCursors(w, buf);
    InitPairs(w, buf);
  }

  /** Whatever the interleaving of loads, copies and stores, the exchange over the rings
      does what some interleaving of whole visits to bounded queues does. */
  lemma RingsRefineQueues(w: Exchange.World, z: Ring.Shape, buf: seq<byte>, ranks: seq<nat>)
    returns (visits: seq<(nat, nat)>)
    requires Setting(w, z) && |buf| == z.cap && forall j :: 0 <= j < |ranks| ==> ranks[j] < w.n
    ensures Exchange.Schedule(w, visits)
    ensures Abs(w, Run(w, z, Init(w, buf), ranks)) == Exchange.Run(w, Exchange.Init(w), visits)
  {
    InitHolds(w, z, buf);
    InitAbs(w, buf);
    visits := RunSimulates(w, z, Init(w, buf), ranks);
  }

  /** So the e-th message rank `q` takes from rank `p` out of the ring is the e-th message
      `p` sent, in every interleaving of loads and stores. */
  lemma MessagesArriveWhole(
    w: Exchange.World, z: Ring.Shape, buf: seq<byte>, ranks: seq<nat>, s: State, p: nat, q: nat, e: nat)
    requires Setting(w, z) && |buf| == z.cap && forall j :: 0 <= j < |ranks| ==> ranks[j] < w.n
    requires s == Run(w, z, Init(w, buf), ranks) && p < w.n && q < w.n && e < s.ex[q]
    ensures |s.links[(p, q)].delivered| > e && s.links[(p, q)].delivered[e] == Exchange.Data(w, e, p, q)
  {
    var visits := RingsRefineQueues(w, z, buf, ranks);
    DeliveredWhole(w, s, visits, p, q, e);
  }

  lemma DeliveredWhole(w: Exchange.World, s: State, visits: seq<(nat, nat)>, p: nat, q: nat, e: nat)
    requires Exchange.WellFormed(w) && Shaped(w, s) && Exchange.Schedule(w, visits)
    requires Abs(w, s) == Exchange.Run(w, Exchange.Init(w), visits)
    requires p < w.n && q < w.n && e < s.ex[q]
    ensures |s.links[(p, q)].delivered| > e && s.links[(p, q)].delivered[e] == Exchange.Data(w, e, p, q)
  {
    Exchange.MessagesArriveWhole(w, visits, p, q, e);
    SamePair(w, s, p, q);
  }
}
