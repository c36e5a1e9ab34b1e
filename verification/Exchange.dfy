/**
 The ring-based halo exchange: every rank runs the same sequence of exchanges, in
 each of which it pushes one message to and pops one message from every peer its
 plan names, and moves on when nothing is left.  Nothing but the rings couples the
 ranks, so they may be in different exchanges at the same time.

 The rings appear as bounded byte queues, which is what the ring module shows them
 to be.  One step is one visit of the progress loop to one pending transfer, or the
 test at the end of a pass.  A visit moves any number of bytes between one and what
 room and data allow, since the ring's view of the other side may be stale.
 */
module Exchange {
  import opened Bytes

  datatype Pend = Send(peer: nat) | Recv(peer: nat)

  /** `data(e, p, q)` is what rank `p` sends to rank `q` in exchange `e`; `plan(e, p)`
      lists the transfers that rank `p`'s progress loop visits, in its order. */
  datatype World = World(
    n: nat, cap: nat, total: nat, width: nat,
    data: (nat, nat, nat) -> seq<byte>, plan: (nat, nat) -> seq<Pend>)

  /** Messages between different ranks within the run; a rank's message to itself is
      copied directly and never enters a ring. */
  function Data(w: World, e: nat, p: nat, q: nat): seq<byte> {
    if p == q || e >= w.total then [] else w.data(e, p, q)
  }

  /** Both ends have the transfer in their plans: the byte counts match pairwise. */
  ghost predicate PlansCover(w: World, e: nat, p: nat, q: nat) {
    |Data(w, e, p, q)| > 0 ==> Send(q) in w.plan(e, p) && Recv(p) in w.plan(e, q)
  }

  ghost predicate WellFormed(w: World) {
    && w.cap >= 1
    && (forall e: nat, p: nat, q: nat :: p < w.n && q < w.n ==> PlansCover(w, e, p, q))
    && (forall e: nat, p: nat :: p < w.n ==> |w.plan(e, p)| <= w.width)
    && (forall e: nat, p: nat, i: nat :: p < w.n && i < |w.plan(e, p)| ==> w.plan(e, p)[i].peer < w.n)
  }

  /** One ordered pair of ranks: what the sender has left of its current exchange, the
      bytes in the ring, and what the receiver has of its current exchange and before. */
  datatype Pair = Pair(toSend: seq<byte>, queue: seq<byte>, got: seq<byte>, delivered: seq<seq<byte>>)

  datatype State = State(ex: seq<nat>, cursor: seq<nat>, pairs: map<(nat, nat), Pair>)

  ghost predicate Shaped(w: World, s: State) {
    && |s.ex| == w.n == |s.cursor|
    && forall p: nat, q: nat :: p < w.n && q < w.n ==> (p, q) in s.pairs
  }

  ghost function Init(w: World): State {
    State(
      seq(w.n, _ => 0), seq(w.n, _ => 0),
      map p: nat, q: nat | p < w.n && q < w.n :: (p, q) := Pair(Data(w, 0, p, q), [], [], []))
  }

  // ---------- steps ----------

  /** How much one visit moves. */
  function Amount(want: nat, left: nat, room: nat): nat {
    var most := Min(left, room);
    if most == 0 then 0 else if want == 0 then 1 else Min(want, most)
  }

  /** A visit that pushes, on the pair alone. */
  function Pushed(cap: nat, pair: Pair, want: nat): Pair {
    var room := if |pair.queue| < cap then cap - |pair.queue| else 0;
    var n := Amount(want, |pair.toSend|, room);
    pair.(toSend := pair.toSend[n..], queue := pair.queue + pair.toSend[..n])
  }

  /** A visit that pops, on the pair alone. */
  function Popped(pair: Pair, wanted: nat, want: nat): Pair {
    var n := Amount(want, wanted, |pair.queue|);
    pair.(queue := pair.queue[n..], got := pair.got + pair.queue[..n])
  }

  ghost function Push(w: World, s: State, p: nat, q: nat, want: nat): State
    requires Shaped(w, s) && p < w.n && q < w.n
  {
    s.(pairs := s.pairs[(p, q) := Pushed(w.cap, s.pairs[(p, q)], want)])
  }

  /** What rank `q` still wants from rank `p` in exchange `e` when it has `have` bytes. */
  function Missing(w: World, e: nat, p: nat, q: nat, have: nat): nat {
    var need := |Data(w, e, p, q)|;
    if have < need then need - have else 0
  }

  function Wanted(w: World, s: State, p: nat, q: nat): nat
    requires q < |s.ex| && (p, q) in s.pairs
  {
    Missing(w, s.ex[q], p, q, |s.pairs[(p, q)].got|)
  }

  ghost function Pop(w: World, s: State, p: nat, q: nat, want: nat): State
    requires Shaped(w, s) && p < w.n && q < w.n
  {
    s.(pairs := s.pairs[(p, q) := Popped(s.pairs[(p, q)], Wanted(w, s, p, q), want)])
  }

  ghost predicate NothingPending(w: World, s: State, p: nat)
    requires Shaped(w, s) && p < w.n
  {
    forall q: nat :: q < w.n ==> s.pairs[(p, q)].toSend == [] && Wanted(w, s, q, p) == 0
  }

  /** Rank `p` is through with exchange `e`: its senders load the next messages, its
      receivers hand over what they have got. */
  function TurnOver(w: World, p: nat, e: nat, key: (nat, nat), pair: Pair): Pair {
    var sent := if key.0 == p then pair.(toSend := Data(w, e + 1, p, key.1)) else pair;
    if key.1 == p then sent.(got := [], delivered := sent.delivered + [sent.got]) else sent
  }

  ghost function Finish(w: World, s: State, p: nat): State
    requires Shaped(w, s) && p < w.n
  {
    s.(ex := s.ex[p := s.ex[p] + 1], cursor := s.cursor[p := 0],
       pairs := map key | key in s.pairs :: TurnOver(w, p, s.ex[p], key, s.pairs[key]))
  }

  ghost function Visit(w: World, s: State, p: nat, want: nat): State
    requires WellFormed(w) && Shaped(w, s) && p < w.n && s.cursor[p] < |w.plan(s.ex[p], p)|
  {
    match w.plan(s.ex[p], p)[s.cursor[p]]
    case Send(q) => Push(w, s, p, q, want)
    case Recv(q) => Pop(w, s, q, p, want)
  }

  /** One step of rank `p`'s progress loop. */
  ghost function Step(w: World, s: State, p: nat, want: nat): (s': State)
    requires WellFormed(w) && Shaped(w, s) && p < w.n
    ensures Shaped(w, s')
  {
    if s.ex[p] >= w.total then s
    else if s.cursor[p] < |w.plan(s.ex[p], p)| then
      Visit(w, s, p, want).(cursor := s.cursor[p := s.cursor[p] + 1])
    else if NothingPending(w, s, p) then Finish(w, s, p)
    else s.(cursor := s.cursor[p := 0])
  }

  ghost predicate Schedule(w: World, schedule: seq<(nat, nat)>) {
    forall j :: 0 <= j < |schedule| ==> schedule[j].0 < w.n
  }

  ghost function Run(w: World, s: State, schedule: seq<(nat, nat)>): (s': State)
    requires WellFormed(w) && Shaped(w, s) && Schedule(w, schedule)
    ensures Shaped(w, s')
    decreases |schedule|
  {
    if schedule == [] then s
    else Run(w, Step(w, s, schedule[0].0, schedule[0].1), schedule[1..])
  }

  // ---------- conservation ----------

  /** Everything `p` sends to `q` in the first `e` exchanges. */
  function Stream(w: World, p: nat, q: nat, e: nat): seq<byte> {
    if e == 0 then [] else Stream(w, p, q, e - 1) + Data(w, e - 1, p, q)
  }

  /** No byte is lost, duplicated or reordered: what `q` has received, what is in the
      ring and what `p` has yet to push make up exactly what `p` has to send so far. */
  ghost predicate Conserved(w: World, s: State, p: nat, q: nat)
    requires Shaped(w, s) && p < w.n && q < w.n
  {
    var pair := s.pairs[(p, q)];
    Stream(w, p, q, s.ex[q]) + pair.got + pair.queue + pair.toSend == Stream(w, p, q, s.ex[p] + 1)
  }

  ghost predicate PairInv(w: World, s: State, p: nat, q: nat)
    requires Shaped(w, s) && p < w.n && q < w.n
  {
    var pair := s.pairs[(p, q)];
    && Conserved(w, s, p, q)
    && |pair.queue| <= w.cap
    && |pair.got| <= |Data(w, s.ex[q], p, q)|
    && |pair.toSend| <= |Data(w, s.ex[p], p, q)|
    && |pair.delivered| == s.ex[q]
    && forall e :: 0 <= e < s.ex[q] ==> pair.delivered[e] == Data(w, e, p, q)
  }

  ghost predicate Inv(w: World, s: State) {
    && WellFormed(w) && Shaped(w, s)
    && (forall p: nat :: p < w.n ==> s.ex[p] <= w.total && s.cursor[p] <= |w.plan(s.ex[p], p)|)
    && (forall p: nat, q: nat :: p < w.n && q < w.n ==> PairInv(w, s, p, q))
  }

  lemma {:induction false} StreamGrows(w: World, p: nat, q: nat, a: nat, b: nat)
    requires a <= b
    ensures Stream(w, p, q, a) <= Stream(w, p, q, b)
  {
    if a < b {
      StreamGrows(w, p, q, a, b - 1);
    }
  }

  /** What comes after a common beginning, and is as long, is the same. */
  lemma SameMiddle(base: seq<byte>, got: seq<byte>, rest: seq<byte>, data: seq<byte>, more: seq<byte>)
    requires base + got + rest == base + data + more && |got| == |data|
    ensures got == data
  {
    var all := base + got + rest;
    assert all[|base|..|base| + |got|] == got;
    assert (base + data + more)[|base|..|base| + |data|] == data;
  }

  /** The first bytes that follow `e` whole exchanges are those of exchange `e`. */
  lemma FirstOfRest(w: World, p: nat, q: nat, e: nat, upto: nat, got: seq<byte>, rest: seq<byte>)
    requires Stream(w, p, q, e) + got + rest == Stream(w, p, q, upto) && |got| == |Data(w, e, p, q)|
    ensures got == Data(w, e, p, q)
  {
    var base, data, all := Stream(w, p, q, e), Data(w, e, p, q), Stream(w, p, q, upto);
    if e < upto {
      StreamGrows(w, p, q, e + 1, upto);
      assert Stream(w, p, q, e + 1) == base + data;
      SameMiddle(base, got, rest, data, all[|base + data|..]);
    } else {
      StreamGrows(w, p, q, upto, e);
    }
  }

  /** Once everything has arrived, it is the message that was sent. */
  lemma ArrivedIsData(w: World, s: State, p: nat, q: nat)
    requires Shaped(w, s) && p < w.n && q < w.n && PairInv(w, s, p, q)
    requires |s.pairs[(p, q)].got| == |Data(w, s.ex[q], p, q)|
    ensures s.pairs[(p, q)].got == Data(w, s.ex[q], p, q)
  {
    var pair, base := s.pairs[(p, q)], Stream(w, p, q, s.ex[q]);
    assert base + pair.got + pair.queue + pair.toSend == base + pair.got + (pair.queue + pair.toSend);
    FirstOfRest(w, p, q, s.ex[q], s.ex[p] + 1, pair.got, pair.queue + pair.toSend);
  }

  // ---------- preservation ----------

  lemma PushSum(base: seq<byte>, queue: seq<byte>, toSend: seq<byte>, n: nat)
    requires n <= |toSend|
    ensures base + (queue + toSend[..n]) + toSend[n..] == base + queue + toSend
  {
    assert toSend[..n] + toSend[n..] == toSend;
    assert base + (queue + toSend[..n]) + toSend[n..] == base + queue + (toSend[..n] + toSend[n..]);
  }

  lemma PopSum(base: seq<byte>, got: seq<byte>, queue: seq<byte>, rest: seq<byte>, n: nat)
    requires n <= |queue|
    ensures base + (got + queue[..n]) + queue[n..] + rest == base + got + queue + rest
  {
    PushSum(base, got, queue, n);
  }

  lemma PushPairKeeps(w: World, s: State, p: nat, q: nat, want: nat)
    requires Shaped(w, s) && p < w.n && q < w.n && PairInv(w, s, p, q)
    ensures PairInv(w, Push(w, s, p, q, want), p, q)
  {
    var pair := s.pairs[(p, q)];
    var room := if |pair.queue| < w.cap then w.cap - |pair.queue| else 0;
    PushSum(Stream(w, p, q, s.ex[q]) + pair.got, pair.queue, pair.toSend, Amount(want, |pair.toSend|, room));
  }

  lemma PopPairKeeps(w: World, s: State, p: nat, q: nat, want: nat)
    requires Shaped(w, s) && p < w.n && q < w.n && PairInv(w, s, p, q)
    ensures PairInv(w, Pop(w, s, p, q, want), p, q)
  {
    var pair := s.pairs[(p, q)];
    var n := Amount(want, Wanted(w, s, p, q), |pair.queue|);
    PopSum(Stream(w, p, q, s.ex[q]), pair.got, pair.queue, pair.toSend, n);
  }

  /** A step that changes one pair only. */
  lemma OtherPairs(w: World, s: State, s': State, p: nat, q: nat)
    requires Inv(w, s) && Shaped(w, s') && p < w.n && q < w.n && PairInv(w, s', p, q)
    requires s'.ex == s.ex && s'.cursor == s.cursor
    requires forall a: nat, b: nat :: a < w.n && b < w.n && (a, b) != (p, q) ==> s'.pairs[(a, b)] == s.pairs[(a, b)]
    ensures Inv(w, s')
  {
    forall a: nat, b: nat | a < w.n && b < w.n
      ensures PairInv(w, s', a, b)
    {
      assert PairInv(w, s, a, b);
    }
  }

  lemma PushKeeps(w: World, s: State, p: nat, q: nat, want: nat)
    requires Inv(w, s) && p < w.n && q < w.n
    ensures Inv(w, Push(w, s, p, q, want))
  {
    assert PairInv(w, s, p, q);
    PushPairKeeps(w, s, p, q, want);
    OtherPairs(w, s, Push(w, s, p, q, want), p, q);
  }

  lemma PopKeeps(w: World, s: State, p: nat, q: nat, want: nat)
    requires Inv(w, s) && p < w.n && q < w.n
    ensures Inv(w, Pop(w, s, p, q, want))
  {
    assert PairInv(w, s, p, q);
    PopPairKeeps(w, s, p, q, want);
    OtherPairs(w, s, Pop(w, s, p, q, want), p, q);
  }

  lemma AllArrived(w: World, s: State, p: nat, a: nat)
    requires Inv(w, s) && p < w.n && a < w.n && NothingPending(w, s, p)
    ensures s.pairs[(a, p)].got == Data(w, s.ex[p], a, p)
  {
    assert PairInv(w, s, a, p);
    assert Wanted(w, s, a, p) == 0;
    ArrivedIsData(w, s, a, p);
  }

  /** What `p` has received is handed over. */
  lemma FinishReceived(w: World, s: State, p: nat, a: nat)
    requires Inv(w, s) && p < w.n && a < w.n && a != p
    requires s.ex[p] < w.total && NothingPending(w, s, p)
    ensures PairInv(w, Finish(w, s, p), a, p)
  {
    var pair, s' := s.pairs[(a, p)], Finish(w, s, p);
    assert PairInv(w, s, a, p);
    AllArrived(w, s, p, a);
    assert s'.pairs[(a, p)] == pair.(got := [], delivered := pair.delivered + [pair.got]);
    assert s'.ex[a] == s.ex[a] && s'.ex[p] == s.ex[p] + 1;
    var next := Stream(w, a, p, s.ex[p] + 1);
    assert next == Stream(w, a, p, s.ex[p]) + pair.got;
    assert next + [] + pair.queue + pair.toSend == next + pair.queue + pair.toSend;
  }

  /** `p` loads its next messages. */
  lemma FinishSent(w: World, s: State, p: nat, b: nat)
    requires Inv(w, s) && p < w.n && b < w.n && b != p
    requires s.ex[p] < w.total && NothingPending(w, s, p)
    ensures PairInv(w, Finish(w, s, p), p, b)
  {
    var pair := s.pairs[(p, b)];
    assert PairInv(w, s, p, b);
    assert Finish(w, s, p).pairs[(p, b)] == TurnOver(w, p, s.ex[p], (p, b), pair);
    assert pair.toSend == [];
    var have := Stream(w, p, b, s.ex[b]) + pair.got + pair.queue;
    assert have + [] == have;
    assert Stream(w, p, b, s.ex[p] + 2) == Stream(w, p, b, s.ex[p] + 1) + Data(w, s.ex[p] + 1, p, b);
  }

  lemma FinishPairKeeps(w: World, s: State, p: nat, a: nat, b: nat)
    requires Inv(w, s) && p < w.n && a < w.n && b < w.n
    requires s.ex[p] < w.total && NothingPending(w, s, p)
    ensures PairInv(w, Finish(w, s, p), a, b)
  {
    if a == p && b == p {
      FinishSelf(w, s, p);
    } else if a == p {
      FinishSent(w, s, p, b);
    } else if b == p {
      FinishReceived(w, s, p, a);
    } else {
      assert PairInv(w, s, a, b);
    }
  }

  lemma FinishSelf(w: World, s: State, p: nat)
    requires Inv(w, s) && p < w.n && s.ex[p] < w.total && NothingPending(w, s, p)
    ensures PairInv(w, Finish(w, s, p), p, p)
  {
    var pair := s.pairs[(p, p)];
    assert PairInv(w, s, p, p);
    assert Finish(w, s, p).pairs[(p, p)] == TurnOver(w, p, s.ex[p], (p, p), pair);
    assert pair.toSend == [] && Wanted(w, s, p, p) == 0;
    ArrivedIsData(w, s, p, p);
    var have := Stream(w, p, p, s.ex[p]) + pair.got + pair.queue;
    assert have + [] == have;
    assert Stream(w, p, p, s.ex[p] + 1) == Stream(w, p, p, s.ex[p]) + pair.got;
    assert Stream(w, p, p, s.ex[p] + 2) == Stream(w, p, p, s.ex[p] + 1) + Data(w, s.ex[p] + 1, p, p);
    assert pair.queue == [] && Data(w, s.ex[p] + 1, p, p) == [];
  }

  lemma StepKeeps(w: World, s: State, p: nat, want: nat)
    requires Inv(w, s) && p < w.n
    ensures Inv(w, Step(w, s, p, want))
  {
    if s.ex[p] >= w.total {
    } else if s.cursor[p] < |w.plan(s.ex[p], p)| {
      match w.plan(s.ex[p], p)[s.cursor[p]]
      case Send(q) => PushKeeps(w, s, p, q, want); MovedCursor(w, s, Push(w, s, p, q, want), p);
      case Recv(q) => PopKeeps(w, s, q, p, want); MovedCursor(w, s, Pop(w, s, q, p, want), p);
    } else if NothingPending(w, s, p) {
      forall a: nat, b: nat | a < w.n && b < w.n
        ensures PairInv(w, Finish(w, s, p), a, b)
      {
        FinishPairKeeps(w, s, p, a, b);
      }
    } else {
      CursorFrame(w, s, s.(cursor := s.cursor[p := 0]));
    }
  }

  lemma CursorFrame(w: World, s: State, s': State)
    requires Inv(w, s) && s' == s.(cursor := s'.cursor) && |s'.cursor| == w.n
    requires forall p: nat :: p < w.n ==> s'.cursor[p] <= |w.plan(s.ex[p], p)|
    ensures Inv(w, s')
  {
    forall a: nat, b: nat | a < w.n && b < w.n
      ensures PairInv(w, s', a, b)
    {
      assert PairInv(w, s, a, b);
    }
  }

  lemma MovedCursor(w: World, s: State, s1: State, p: nat)
    requires Shaped(w, s) && Inv(w, s1) && p < w.n && s1.ex == s.ex && s1.cursor == s.cursor
    requires s.cursor[p] < |w.plan(s.ex[p], p)|
    ensures Inv(w, s1.(cursor := s.cursor[p := s.cursor[p] + 1]))
  {
    CursorFrame(w, s1, s1.(cursor := s.cursor[p := s.cursor[p] + 1]));
  }

  lemma InitPair(w: World, p: nat, q: nat)
    requires WellFormed(w) && p < w.n && q < w.n
    ensures PairInv(w, Init(w), p, q)
  {
    var d := Data(w, 0, p, q);
    assert Init(w).pairs[(p, q)] == Pair(d, [], [], []);
    assert Stream(w, p, q, 0) == [] && Stream(w, p, q, 1) == [] + d;
    assert [] + [] + [] + d == [] + d;
  }

  lemma InitHolds(w: World)
    requires WellFormed(w)
    ensures Inv(w, Init(w))
  {
    forall p: nat, q: nat | p < w.n && q < w.n
      ensures PairInv(w, Init(w), p, q)
    {
      InitPair(w, p, q);
    }
  }

  lemma {:induction false} RunKeeps(w: World, s: State, schedule: seq<(nat, nat)>)
    requires Inv(w, s) && Schedule(w, schedule)
    ensures Inv(w, Run(w, s, schedule))
    decreases |schedule|
  {
    if schedule != [] {
      StepKeeps(w, s, schedule[0].0, schedule[0].1);
      RunKeeps(w, Step(w, s, schedule[0].0, schedule[0].1), schedule[1..]);
    }
  }

  /** In every interleaving, the e-th message `q` takes from `p` is the e-th message `p`
      sent to `q`, although the rings carry no message boundaries. */
  lemma MessagesArriveWhole(w: World, schedule: seq<(nat, nat)>, p: nat, q: nat, e: nat)
    requires WellFormed(w) && Schedule(w, schedule) && p < w.n && q < w.n
    requires e < Run(w, Init(w), schedule).ex[q]
    ensures |Run(w, Init(w), schedule).pairs[(p, q)].delivered| > e
    ensures Run(w, Init(w), schedule).pairs[(p, q)].delivered[e] == Data(w, e, p, q)
  {
    InitHolds(w);
    RunKeeps(w, Init(w), schedule);
    assert PairInv(w, Run(w, Init(w), schedule), p, q);
  }
}
