/**
 The single-producer single-consumer byte ring between two ranks, at the
 granularity of its individual loads, byte copies and stores.

 The two sides run concurrently.  Each starts from its own counter and a snapshot
 of the other side's counter that may be stale by the time the copy is under way.
 Counters are unsigned words that wrap at `modulus`; a slot of the buffer is
 addressed by the counter modulo the capacity.
 */
module Ring {
  import opened Bytes
  import opened ModMath

  /** A counter wraps at `modulus` (2^64), the capacity is a power of two below
      it; all that matters is that the capacity divides the modulus. */
  datatype Shape = Shape(cap: nat, modulus: nat)

  ghost predicate ValidShape(z: Shape) {
    0 < z.cap < z.modulus && z.modulus % z.cap == 0
  }

  /** `ring_push`: load head, load tail, copy the bytes, store head. */
  datatype Producer =
    | PushIdle
    | LoadHead(p: seq<byte>)
    | LoadTail(p: seq<byte>, h: nat)
    | CopyIn(p: seq<byte>, h: nat, n: nat, i: nat)

  /** `ring_pop`: load head, load tail, copy the bytes out, store tail. */
  datatype Consumer =
    | PopIdle
    | PeekHead(n: nat)
    | PeekTail(n: nat, h: nat)
    | CopyOut(t: nat, n: nat, got: seq<byte>)

  /** `pushed` and `popped` record the bytes whose push or pop has completed. */
  datatype State = State(
    head: nat, tail: nat, buf: seq<byte>,
    prod: Producer, cons: Consumer,
    pushed: seq<byte>, popped: seq<byte>)

  /** A caller starting a push of `p` or a pop of up to `n`, or one side moving on. */
  datatype Action = StartPush(p: seq<byte>) | StartPop(n: nat) | Produce | Consume

  function Init(buf: seq<byte>): State {
    State(0, 0, buf, PushIdle, PopIdle, [], [])
  }

  /** Unsigned subtraction of counters. */
  function Minus(z: Shape, a: nat, b: nat): nat
    requires z.modulus > 0
  {
    (a - b) % z.modulus
  }

  /** Where byte `i` of an `n`-byte copy that starts at counter `c` lands: the copy
      runs to the end of the buffer and continues at its start. */
  function Cell(z: Shape, c: nat, n: nat, i: nat): nat
    requires z.cap > 0 && i < n
  {
    var off := c % z.cap;
    var first := Min(z.cap - off, n);
    if i < first then off + i else i - first
  }

  function StepProducer(z: Shape, s: State): State
    requires z.cap > 0 && z.modulus > 0
  {
    match s.prod
    case PushIdle => s
    case LoadHead(p) => s.(prod := LoadTail(p, s.head))
    case LoadTail(p, h) =>
      var used := Minus(z, h, s.tail);
      if used >= z.cap then s.(prod := PushIdle)
      else s.(prod := CopyIn(p, h, Min(|p|, z.cap - used), 0))
    case CopyIn(p, h, n, i) =>
      if i < n && i < |p| && Cell(z, h, n, i) < |s.buf|
      then s.(buf := s.buf[Cell(z, h, n, i) := p[i]], prod := CopyIn(p, h, n, i + 1))
      else s.(head := (h + n) % z.modulus, prod := PushIdle, pushed := s.pushed + p[..Min(n, |p|)])
  }

  function StepConsumer(z: Shape, s: State): State
    requires z.cap > 0 && z.modulus > 0
  {
    match s.cons
    case PopIdle => s
    case PeekHead(n) => s.(cons := PeekTail(n, s.head))
    case PeekTail(n, h) =>
      var avail := Minus(z, h, s.tail);
      if avail == 0 then s.(cons := PopIdle)
      else s.(cons := CopyOut(s.tail, Min(n, avail), []))
    case CopyOut(t, n, got) =>
      if |got| < n && Cell(z, t, n, |got|) < |s.buf|
      then s.(cons := CopyOut(t, n, got + [s.buf[Cell(z, t, n, |got|)]]))
      else s.(tail := (t + n) % z.modulus, cons := PopIdle, popped := s.popped + got)
  }

  function Step(z: Shape, s: State, a: Action): State
    requires z.cap > 0 && z.modulus > 0
  {
    match a
    case StartPush(p) => if s.prod.PushIdle? then s.(prod := LoadHead(p)) else s
    case StartPop(n) => if s.cons.PopIdle? then s.(cons := PeekHead(n)) else s
    case Produce => StepProducer(z, s)
    case Consume => StepConsumer(z, s)
  }

  function Run(z: Shape, buf: seq<byte>, actions: seq<Action>): State
    requires z.cap > 0 && z.modulus > 0
  {
    if actions == [] then Init(buf)
    else Step(z, Run(z, buf, actions[..|actions| - 1]), actions[|actions| - 1])
  }

  // ---------- counter arithmetic ----------

  /** An unsigned difference of wrapped counters is the true difference. */
  lemma WrappedDifference(z: Shape, a: nat, b: nat)
    requires ValidShape(z) && b <= a < b + z.modulus
    ensures Minus(z, a % z.modulus, b % z.modulus) == a - b
  {
    var m := z.modulus;
    var qa, qb := a / m, b / m;
    assert a % m - b % m == a - b - (qa - qb) * m;
    ModShift(a - b, m, -(qa - qb));
    assert a - b + -(qa - qb) * m == a % m - b % m;
    SmallMod(a - b, m);
  }

  /** Wrapping a counter does not change the buffer cell it addresses. */
  lemma WrappedCell(z: Shape, c: nat)
    requires ValidShape(z)
    ensures (c % z.modulus) % z.cap == c % z.cap
  {
    var k, q := z.modulus / z.cap, c / z.modulus;
    assert z.modulus == k * z.cap;
    assert c == q * z.modulus + c % z.modulus;
    assert q * (k * z.cap) == (q * k) * z.cap;
    ModShift(c % z.modulus, z.cap, q * k);
  }

  /** The two-part copy puts byte `i` into the cell of counter `c + i`. */
  lemma CellIsModular(z: Shape, c: nat, n: nat, i: nat)
    requires ValidShape(z) && i < n <= z.cap
    ensures Cell(z, c % z.modulus, n, i) == (c + i) % z.cap
  {
    WrappedCell(z, c);
    ModAdd(c, i, z.cap);
    ModSmallSum(c % z.cap, i, z.cap);
  }

  // ---------- the invariant ----------

  /** The producer's copy, once it has chosen how many bytes to accept. */
  ghost predicate ProducerInv(z: Shape, s: State)
    requires ValidShape(z) && |s.buf| == z.cap
  {
    match s.prod
    case PushIdle => true
    case LoadHead(_) => true
    case LoadTail(_, h) => h == s.head
    case CopyIn(p, h, n, i) =>
      && h == s.head && i <= n <= |p|
      && |s.pushed| + n <= |s.popped| + z.cap
      && forall j :: 0 <= j < i ==> s.buf[(|s.pushed| + j) % z.cap] == p[j]
  }

  ghost predicate ConsumerInv(z: Shape, s: State)
    requires ValidShape(z)
  {
    match s.cons
    case PopIdle => true
    case PeekHead(_) => true
    case PeekTail(_, h) =>
      exists seen: nat :: |s.popped| <= seen <= |s.pushed| && h == seen % z.modulus
    case CopyOut(t, n, got) =>
      && t == s.tail && |got| <= n
      && |s.popped| + n <= |s.pushed|
      && got == s.pushed[|s.popped|..|s.popped| + |got|]
  }

  /** What is in flight: published and not yet taken. */
  ghost predicate InFlight(z: Shape, s: State)
    requires ValidShape(z) && |s.buf| == z.cap
  {
    forall j :: |s.popped| <= j < |s.pushed| ==> s.buf[j % z.cap] == s.pushed[j]
  }

  ghost predicate Inv(z: Shape, s: State) {
    && ValidShape(z)
    && |s.buf| == z.cap
    && |s.popped| <= |s.pushed| <= |s.popped| + z.cap
    && s.popped == s.pushed[..|s.popped|]
    && s.head == |s.pushed| % z.modulus && s.tail == |s.popped| % z.modulus
    && InFlight(z, s) && ProducerInv(z, s) && ConsumerInv(z, s)
  }

  // ---------- preservation ----------

  lemma CopyInKeeps(z: Shape, s: State)
    requires Inv(z, s) && s.prod.CopyIn? && s.prod.i < s.prod.n
    ensures Inv(z, StepProducer(z, s))
  {
    var p, h, n, i := s.prod.p, s.prod.h, s.prod.n, s.prod.i;
    var s' := StepProducer(z, s);
    var at := |s.pushed| + i;
    CellIsModular(z, |s.pushed|, n, i);
    assert s'.buf == s.buf[at % z.cap := p[i]];
    forall j | |s.popped| <= j < at
      ensures j % z.cap != at % z.cap
    {
      ModDistinct(j, at, z.cap);
    }
    forall j | 0 <= j < i + 1
      ensures s'.buf[(|s.pushed| + j) % z.cap] == p[j]
    {
      if j < i {
        assert (|s.pushed| + j) % z.cap != at % z.cap;
      }
    }
  }

  lemma PublishHeadKeeps(z: Shape, s: State)
    requires Inv(z, s) && s.prod.CopyIn? && s.prod.i >= s.prod.n
    ensures Inv(z, StepProducer(z, s))
    ensures StepProducer(z, s).pushed == s.pushed + s.prod.p[..s.prod.n]
  {
    var p, n := s.prod.p, s.prod.n;
    var s' := StepProducer(z, s);
    assert s'.pushed == s.pushed + p[..n];
    WrapAdd(z, |s.pushed|, n);
    forall j | |s'.popped| <= j < |s'.pushed|
      ensures s'.buf[j % z.cap] == s'.pushed[j]
    {
      if j >= |s.pushed| {
        var d := j - |s.pushed|;
        assert s.buf[(|s.pushed| + d) % z.cap] == p[d];
      }
    }
    assert s'.popped == s'.pushed[..|s'.popped|];
    if s.cons.CopyOut? {
      assert s'.pushed[|s.popped|..|s.popped| + |s.cons.got|] == s.pushed[|s.popped|..|s.popped| + |s.cons.got|];
    }
  }

  lemma WrapAdd(z: Shape, a: nat, n: nat)
    requires ValidShape(z)
    ensures (a % z.modulus + n) % z.modulus == (a + n) % z.modulus
  {
    ModAdd(a, n, z.modulus);
  }

  lemma LoadTailKeeps(z: Shape, s: State)
    requires Inv(z, s) && s.prod.LoadTail?
    ensures Inv(z, StepProducer(z, s))
    ensures StepProducer(z, s).prod.PushIdle? <==> |s.pushed| == |s.popped| + z.cap
  {
    WrappedDifference(z, |s.pushed|, |s.popped|);
  }

  lemma PeekTailKeeps(z: Shape, s: State)
    requires Inv(z, s) && s.cons.PeekTail?
    ensures Inv(z, StepConsumer(z, s))
  {
    var seen: nat :| |s.popped| <= seen <= |s.pushed| && s.cons.h == seen % z.modulus;
    WrappedDifference(z, seen, |s.popped|);
  }

  lemma CopyOutKeeps(z: Shape, s: State)
    requires Inv(z, s) && s.cons.CopyOut? && |s.cons.got| < s.cons.n
    ensures Inv(z, StepConsumer(z, s))
  {
    var n, got := s.cons.n, s.cons.got;
    var j := |s.popped| + |got|;
    CellIsModular(z, |s.popped|, n, |got|);
    assert s.buf[j % z.cap] == s.pushed[j];
    assert s.pushed[|s.popped|..j + 1] == s.pushed[|s.popped|..j] + [s.pushed[j]];
  }

  lemma PublishTailKeeps(z: Shape, s: State)
    requires Inv(z, s) && s.cons.CopyOut? && |s.cons.got| >= s.cons.n
    ensures Inv(z, StepConsumer(z, s))
    ensures StepConsumer(z, s).popped == s.pushed[..|s.popped| + s.cons.n]
  {
    var s', n := StepConsumer(z, s), s.cons.n;
    WrapAdd(z, |s.popped|, n);
    assert s.pushed[..|s.popped| + n] == s.pushed[..|s.popped|] + s.pushed[|s.popped|..|s.popped| + n];
    assert s'.popped == s.pushed[..|s.popped| + n];
  }

  lemma StepKeeps(z: Shape, s: State, a: Action)
    requires Inv(z, s)
    ensures Inv(z, Step(z, s, a))
  {
    match a
    case Produce =>
      match s.prod {
        case LoadTail(_, _) => LoadTailKeeps(z, s);
        case CopyIn(_, _, n, i) => if i < n { CopyInKeeps(z, s); } else { PublishHeadKeeps(z, s); }
        case _ =>
      }
    case Consume =>
      match s.cons {
        case PeekTail(_, _) => PeekTailKeeps(z, s);
        case CopyOut(_, n, got) => if |got| < n { CopyOutKeeps(z, s); } else { PublishTailKeeps(z, s); }
        case _ =>
      }
    case _ =>
  }

  lemma {:induction false} ReachableInv(z: Shape, buf: seq<byte>, actions: seq<Action>)
    requires ValidShape(z) && |buf| == z.cap
    ensures Inv(z, Run(z, buf, actions))
  {
    if actions == [] {
      assert 0 % z.modulus == 0;
    } else {
      var m := |actions| - 1;
      ReachableInv(z, buf, actions[..m]);
      StepKeeps(z, Run(z, buf, actions[..m]), actions[m]);
    }
  }

  // ---------- what the ring guarantees ----------

  /** The bytes in flight. */
  function Queue(s: State): seq<byte>
    requires |s.popped| <= |s.pushed|
  {
    s.pushed[|s.popped|..]
  }

  /** Publishing the head appends to the bytes in flight. */
  lemma PushedQueue(z: Shape, s: State)
    requires Inv(z, s) && s.prod.CopyIn? && s.prod.i >= s.prod.n
    ensures var s' := StepProducer(z, s);
      Inv(z, s') && s'.popped == s.popped && Queue(s') == Queue(s) + s.prod.p[..s.prod.n] && |Queue(s')| <= z.cap
  {
    PublishHeadKeeps(z, s);
    assert Queue(StepProducer(z, s)) == Queue(s) + s.prod.p[..s.prod.n];
  }

  /** Publishing the tail removes from them. */
  lemma PoppedQueue(z: Shape, s: State)
    requires Inv(z, s) && s.cons.CopyOut? && |s.cons.got| >= s.cons.n
    ensures s.cons.n <= |Queue(s)|
    ensures var s' := StepConsumer(z, s);
      && Inv(z, s') && s'.pushed == s.pushed
      && s'.popped == s.popped + Queue(s)[..s.cons.n] && Queue(s') == Queue(s)[s.cons.n..]
  {
    PublishTailKeeps(z, s);
    assert StepConsumer(z, s).popped == s.popped + Queue(s)[..s.cons.n];
  }

  /** Every step of either side is, on the bytes in flight, nothing, an append of a
      prefix of what was offered, or the removal of a prefix. */
  lemma StepRefinesQueue(z: Shape, s: State, a: Action)
    requires Inv(z, s)
    ensures Inv(z, Step(z, s, a))
    ensures var s' := Step(z, s, a);
      || (s'.pushed == s.pushed && s'.popped == s.popped && Queue(s') == Queue(s))
      || (&& a.Produce? && s.prod.CopyIn? && s'.popped == s.popped
          && Queue(s') == Queue(s) + s.prod.p[..s.prod.n] && |Queue(s')| <= z.cap)
      || (&& a.Consume? && s.cons.CopyOut? && s'.pushed == s.pushed && s.cons.n <= |Queue(s)|
          && s'.popped == s.popped + Queue(s)[..s.cons.n] && Queue(s') == Queue(s)[s.cons.n..])
  {
    StepKeeps(z, s, a);
    if a.Produce? && s.prod.CopyIn? && s.prod.i >= s.prod.n {
      PushedQueue(z, s);
    } else if a.Consume? && s.cons.CopyOut? && |s.cons.got| >= s.cons.n {
      PoppedQueue(z, s);
    }
  }

  /** In every interleaving the bytes popped are a prefix of the bytes pushed, and
      the unsigned difference of the two counters is the number in flight, at most
      the capacity. */
  lemma PoppedIsPrefix(z: Shape, buf: seq<byte>, actions: seq<Action>)
    requires ValidShape(z) && |buf| == z.cap
    ensures var s := Run(z, buf, actions);
      && s.popped <= s.pushed
      && Minus(z, s.head, s.tail) == |s.pushed| - |s.popped| <= z.cap
  {
    ReachableInv(z, buf, actions);
    var s := Run(z, buf, actions);
    WrappedDifference(z, |s.pushed|, |s.popped|);
  }

  /** In every interleaving the cells a push still has to write differ from the
      cells a concurrent pop still has to read. */
  lemma CopiesAreDisjoint(z: Shape, buf: seq<byte>, actions: seq<Action>, i: nat, j: nat)
    requires ValidShape(z) && |buf| == z.cap
    requires Run(z, buf, actions).prod.CopyIn? && Run(z, buf, actions).cons.CopyOut?
    requires i < Run(z, buf, actions).prod.n && j < Run(z, buf, actions).cons.n
    ensures var s := Run(z, buf, actions);
      Cell(z, s.prod.h, s.prod.n, i) != Cell(z, s.cons.t, s.cons.n, j)
  {
    ReachableInv(z, buf, actions);
    var s := Run(z, buf, actions);
    CellIsModular(z, |s.pushed|, s.prod.n, i);
    CellIsModular(z, |s.popped|, s.cons.n, j);
    ModDistinct(|s.popped| + j, |s.pushed| + i, z.cap);
  }

  /** A push is refused exactly when the ring is full at the moment it looks, and
      otherwise accepts all it can see room for, whatever happens meanwhile. */
  lemma PushAccepts(z: Shape, s: State)
    requires Inv(z, s) && s.prod.LoadTail?
    ensures var s', room := StepProducer(z, s), z.cap - |Queue(s)|;
      if room == 0 then s'.prod.PushIdle?
      else s'.prod.CopyIn? && s'.prod.p == s.prod.p && s'.prod.n == Min(|s.prod.p|, room)
  {
    WrappedDifference(z, |s.pushed|, |s.popped|);
  }

  /** A pop that finds nothing has looked at an empty ring; otherwise it takes all
      it has seen, and what it has seen is there. */
  lemma PopTakes(z: Shape, s: State, seen: nat)
    requires Inv(z, s) && s.cons.PeekTail?
    requires |s.popped| <= seen <= |s.pushed| && s.cons.h == seen % z.modulus
    ensures var s' := StepConsumer(z, s);
      if seen == |s.popped| then s'.cons.PopIdle?
      else s'.cons.CopyOut? && s'.cons.n == Min(s.cons.n, seen - |s.popped|)
  {
    WrappedDifference(z, seen, |s.popped|);
  }

  // ---------- the two operations as they are written ----------

  /** One ring in memory.  The ghost logs say what has gone through it. */
  class SpscRing {
    const z: Shape
    const buf: array<byte>
    var head: nat
    var tail: nat
    ghost var pushed: seq<byte>
    ghost var popped: seq<byte>

    ghost function View(prod: Producer, cons: Consumer): State
      reads this, buf
    {
      State(head, tail, buf[..], prod, cons, pushed, popped)
    }

    ghost predicate Valid()
      reads this, buf
    {
      Inv(z, View(PushIdle, PopIdle))
    }

    constructor (z: Shape)
      requires ValidShape(z)
      ensures Valid() && fresh(buf) && this.z == z && pushed == [] && popped == []
    {
      this.z := z;
      buf := new byte[z.cap](_ => 0);
      head, tail, pushed, popped := 0, 0, [], [];
      new;
      SmallMod(0, z.modulus);
    }

    /** One of the two `memcpy` calls of a push: bytes `lo..hi` of `p`, to `base`. */
    method CopyRangeIn(p: seq<byte>, h: nat, n: nat, lo: nat, hi: nat, base: nat)
      requires lo <= hi <= n && Inv(z, View(CopyIn(p, h, n, lo), PopIdle))
      requires forall i :: lo <= i < hi ==> Cell(z, h, n, i) == base + i - lo
      modifies buf
      ensures Inv(z, View(CopyIn(p, h, n, hi), PopIdle))
    {
      var i := lo;
      while i < hi
        invariant lo <= i <= hi
        invariant Inv(z, View(CopyIn(p, h, n, i), PopIdle))
      {
        ghost var s := View(CopyIn(p, h, n, i), PopIdle);
        CopyInKeeps(z, s);
        CellIsModular(z, |pushed|, n, i);
        buf[base + i - lo] := p[i];
        i := i + 1;
        assert View(CopyIn(p, h, n, i), PopIdle) == StepProducer(z, s);
      }
    }

    /** The copy into the buffer, in two parts when it runs over the end. */
    method CopyWrappedIn(p: seq<byte>, h: nat, n: nat)
      requires Inv(z, View(CopyIn(p, h, n, 0), PopIdle))
      modifies buf
      ensures Inv(z, View(CopyIn(p, h, n, n), PopIdle))
    {
      var off := h % z.cap;
      var first := Min(z.cap - off, n);
      CopyRangeIn(p, h, n, 0, first, off);
      if n > first { CopyRangeIn(p, h, n, first, n, 0); }
    }

    /** `ring_push`: accepts as many bytes as there is room for. */
    method Push(p: seq<byte>) returns (n: nat)
      requires Valid()
      modifies this`head, this`pushed, buf
      ensures Valid()
      ensures n == Min(|p|, z.cap - (|old(pushed)| - |old(popped)|))
      ensures pushed == old(pushed) + p[..n]
    {
      var h, t := head, tail;
      WrappedDifference(z, |pushed|, |popped|);
      var space: nat := z.cap - Minus(z, h, t);
      if space == 0 { return 0; }
      n := Min(|p|, space);
      CopyWrappedIn(p, h, n);
      ghost var s := View(CopyIn(p, h, n, n), PopIdle);
      PublishHeadKeeps(z, s);
      head := (h + n) % z.modulus;
      pushed := pushed + p[..n];
      assert View(PushIdle, PopIdle) == StepProducer(z, s);
    }

    /** One of the two `memcpy` calls of a pop: from `base`, until `hi` bytes are out. */
    method CopyRangeOut(t: nat, n: nat, lo: seq<byte>, hi: nat, base: nat) returns (got: seq<byte>)
      requires |lo| <= hi <= n && Inv(z, View(PushIdle, CopyOut(t, n, lo)))
      requires forall i :: |lo| <= i < hi ==> Cell(z, t, n, i) == base + i - |lo|
      ensures |got| == hi && Inv(z, View(PushIdle, CopyOut(t, n, got)))
    {
      got := lo;
      while |got| < hi
        invariant |lo| <= |got| <= hi
        invariant Inv(z, View(PushIdle, CopyOut(t, n, got)))
      {
        CopyOutKeeps(z, View(PushIdle, CopyOut(t, n, got)));
        CellIsModular(z, |popped|, n, |got|);
        got := got + [buf[base + |got| - |lo|]];
      }
    }

    method CopyWrappedOut(t: nat, n: nat) returns (got: seq<byte>)
      requires Inv(z, View(PushIdle, CopyOut(t, n, [])))
      ensures |got| == n && Inv(z, View(PushIdle, CopyOut(t, n, got)))
    {
      var off := t % z.cap;
      var first := Min(z.cap - off, n);
      got := CopyRangeOut(t, n, [], first, off);
      if n > first { got := CopyRangeOut(t, n, got, n, 0); }
    }

    /** `ring_pop`: delivers up to `want` of the bytes in flight. */
    method Pop(want: nat) returns (got: seq<byte>)
      requires Valid()
      modifies this`tail, this`popped
      ensures Valid()
      ensures |got| == Min(want, |old(pushed)| - |old(popped)|)
      ensures got == pushed[|old(popped)|..|old(popped)| + |got|]
      ensures popped == old(popped) + got
    {
      var h, t := head, tail;
      WrappedDifference(z, |pushed|, |popped|);
      var avail := Minus(z, h, t);
      if avail == 0 { return []; }
      var n := Min(want, avail);
      got := CopyWrappedOut(t, n);
      ghost var s := View(PushIdle, CopyOut(t, n, got));
      PublishTailKeeps(z, s);
      tail := (t + n) % z.modulus;
      popped := popped + got;
      assert View(PushIdle, PopIdle) == StepConsumer(z, s);
    }
  }
}
