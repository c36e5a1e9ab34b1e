/** The round trip of a packet, and exactly when the walk over it is right. */
module PbvTheorem {
  import opened Bytes
  import opened ModMath
  import opened Pbv

  // ---------- words and numbers ----------

  /** The low bytes spell the register modulo their weight. */
  lemma {:induction false} LowSplit(v: nat, n: nat) returns (q: nat)
    ensures v == q * Pow256(n) + Number(LowBytes(v, n)) && Number(LowBytes(v, n)) < Pow256(n)
  {
    if n == 0 {
      q := v;
    } else {
      q := LowSplit(v / 256, n - 1);
      var low := LowBytes(v / 256, n - 1);
      assert LowBytes(v, n)[1..] == low;
      assert Number(LowBytes(v, n)) == v % 256 + 256 * Number(low);
      OneMoreByte(v, q, Pow256(n - 1), Number(low));
    }
  }

  lemma OneMoreByte(v: nat, q: nat, weight: nat, low: nat)
    requires v / 256 == q * weight + low && low < weight
    ensures v == q * (256 * weight) + (v % 256 + 256 * low) && v % 256 + 256 * low < 256 * weight
  {
    assert q * (256 * weight) == 256 * (q * weight);
    assert v == 256 * (v / 256) + v % 256;
  }

  lemma LowIsMod(v: nat, n: nat)
    ensures Number(LowBytes(v, n)) == v % Pow256(n)
  {
    var q := LowSplit(v, n);
    ModUnique(v, Pow256(n), q, Number(LowBytes(v, n)));
  }

  // ---------- reading one record back ----------

  /** A header field holds its number modulo 2^32. */
  lemma FieldIs(s: seq<byte>, p: nat, k: nat, v: nat)
    requires p + HEADER <= |s| && k < 4 && s[p + 4 * k..p + 4 * k + 4] == LowBytes(v, 4)
    ensures FieldAt(s, p, k) == Unsigned(v)
  {
    LowIsMod(v, 4);
    assert Pow256(4) == WORD32;
  }

  lemma HeaderFields(r: Record)
    ensures HeaderOf(r)[0..4] == LowBytes(r.idx, 4) && HeaderOf(r)[12..16] == LowBytes(|r.data|, 4)
  {
  }

  lemma SubSlice(s: seq<byte>, p: nat, n: nat, a: nat, b: nat)
    requires p + n <= |s| && a <= b <= n
    ensures s[p..p + n][a..b] == s[p + a..p + b]
  {
    var t := s[p..p + n];
    assert |t[a..b]| == |s[p + a..p + b]| == b - a;
    forall k | 0 <= k < b - a
      ensures t[a..b][k] == s[p + a..p + b][k]
    {
      assert t[a + k] == s[p + (a + k)];
    }
  }

  lemma Slices(s: seq<byte>, p: nat, h: seq<byte>, d: seq<byte>)
    requires |h| == HEADER && p + HEADER + |d| <= |s| && s[p..p + HEADER + |d|] == h + d
    ensures s[p..p + 4] == h[0..4] && s[p + 12..p + 16] == h[12..16] && s[p + HEADER..p + HEADER + |d|] == d
  {
    var n := HEADER + |d|;
    SubSlice(s, p, n, 0, 4);
    SubSlice(s, p, n, 12, 16);
    SubSlice(s, p, n, HEADER, n);
    assert (h + d)[0..4] == h[0..4] && (h + d)[12..16] == h[12..16];
  }

  /** Record `r` stands in `s` at `p`. */
  predicate LaidOne(s: seq<byte>, p: nat, r: Record) {
    && p + Width(r) <= |s|
    && FieldAt(s, p, 0) == Unsigned(r.idx) && FieldAt(s, p, 3) == Unsigned(|r.data|)
    && s[p + HEADER..p + Width(r)] == r.data
  }

  lemma LaysOne(s: seq<byte>, p: nat, r: Record)
    requires p + Width(r) <= |s| && s[p..p + Width(r)] == RecordBytes(r)
    ensures LaidOne(s, p, r)
  {
    HeaderFields(r);
    Slices(s, p, HeaderOf(r), r.data);
    FieldIs(s, p, 0, r.idx);
    FieldIs(s, p, 3, |r.data|);
  }

  ghost predicate LaidAt(s: seq<byte>, recs: seq<Record>, i: nat)
    requires i < |recs|
  {
    LaidOne(s, Offset(recs, i), recs[i])
  }

  /** Every record stands in `s` at its offset, and `s` ends behind the last. */
  ghost predicate Laid(s: seq<byte>, recs: seq<Record>) {
    && |s| == Offset(recs, |recs|)
    && forall i {:trigger LaidAt(s, recs, i)} :: 0 <= i < |recs| ==> LaidAt(s, recs, i)
  }

  /** Chunk `i` stands in the joined bytes behind the first `i`. */
  lemma {:induction false} JoinAt(chunks: seq<seq<byte>>, i: nat, j: nat)
    requires i < j <= |chunks|
    ensures var s := Join(chunks, j); var p := |Join(chunks, i)|;
      p + |chunks[i]| <= |s| && s[p..p + |chunks[i]|] == chunks[i]
    decreases j
  {
    if i + 1 < j {
      JoinAt(chunks, i, j - 1);
      var s, p := Join(chunks, j - 1), |Join(chunks, i)|;
      assert Join(chunks, j)[p..p + |chunks[i]|] == s[p..p + |chunks[i]|];
    }
  }

  lemma {:induction false} JoinWidths(chunks: seq<seq<byte>>, recs: seq<Record>, i: nat)
    requires i <= |recs| == |chunks| && forall k :: 0 <= k < |recs| ==> |chunks[k]| == Width(recs[k])
    ensures |Join(chunks, i)| == Offset(recs, i)
  {
    if i > 0 { JoinWidths(chunks, recs, i - 1); }
  }

  lemma JoinSize(recs: seq<Record>, i: nat)
    requires i <= |recs|
    ensures |Join(Chunks(recs), i)| == Offset(recs, i)
  {
    JoinWidths(Chunks(recs), recs, i);
  }

  lemma FlatLaysAt(s: seq<byte>, recs: seq<Record>, i: nat)
    requires s == Flat(recs) && i < |recs|
    ensures LaidAt(s, recs, i)
  {
    var chunks := Chunks(recs);
    JoinAt(chunks, i, |recs|);
    JoinSize(recs, i);
    assert chunks[i] == RecordBytes(recs[i]);
    LaysOne(s, Offset(recs, i), recs[i]);
  }

  lemma FlatLays(s: seq<byte>, recs: seq<Record>)
    requires s == Flat(recs)
    ensures Laid(s, recs)
  {
    JoinSize(recs, |recs|);
    forall i | 0 <= i < |recs|
      ensures LaidAt(s, recs, i)
    {
      FlatLaysAt(s, recs, i);
    }
  }

  // ---------- the walk ----------

  /** The offsets at which the walk reads a header, and the one at which it ends. */
  function Trace(pkt: Packet, p: nat): (t: seq<nat>)
    ensures |t| >= 1 && t[0] == p
    decreases pkt.total - p
  {
    if p >= pkt.total || p + HEADER > |pkt.payload| then [p]
    else [p] + Trace(pkt, p + HEADER + FieldAt(pkt.payload, p, 3))
  }

  /** The offsets from record `i` on at which records were written, and the end. */
  function Offsets(recs: seq<Record>, i: nat): (t: seq<nat>)
    requires i <= |recs|
    ensures |t| == |recs| - i + 1 && t[0] == Offset(recs, i)
    decreases |recs| - i
  {
    if i == |recs| then [Offset(recs, i)] else [Offset(recs, i)] + Offsets(recs, i + 1)
  }

  /** A record starts before the recorded total and has a size that its header can hold. */
  predicate Reached(recs: seq<Record>, i: nat, total: nat)
    requires i < |recs|
  {
    Offset(recs, i) < total && |recs[i].data| < WORD32
  }

  ghost predicate Walkable(recs: seq<Record>, i: nat, total: nat) {
    forall k {:trigger Reached(recs, k, total)} :: i <= k < |recs| ==> Reached(recs, k, total)
  }

  lemma TraceHead(pkt: Packet, p: nat, r: Record)
    requires LaidOne(pkt.payload, p, r) && p < pkt.total
    ensures Trace(pkt, p) == [p] + Trace(pkt, p + HEADER + Unsigned(|r.data|))
  {
  }

  lemma SameTail(p: nat, a: seq<nat>, b: seq<nat>)
    ensures [p] + a == [p] + b <==> a == b
  {
    assert ([p] + a)[1..] == a && ([p] + b)[1..] == b;
  }

  lemma WalkableStep(recs: seq<Record>, i: nat, total: nat)
    requires i < |recs|
    ensures Walkable(recs, i, total) <==> Reached(recs, i, total) && Walkable(recs, i + 1, total)
  {
    if Reached(recs, i, total) && Walkable(recs, i + 1, total) {
      forall k | i <= k < |recs|
        ensures Reached(recs, k, total)
      {
      }
    }
  }

  /** The walk from record `i` on reads exactly the headers that were written, and ends at
      the payload's end. */
  ghost predicate Exact(pkt: Packet, recs: seq<Record>, i: nat)
    requires i <= |recs|
  {
    Trace(pkt, Offset(recs, i)) == Offsets(recs, i)
  }

  lemma ExactStops(pkt: Packet, recs: seq<Record>, i: nat)
    requires i < |recs| && Offset(recs, i) >= pkt.total
    ensures !Exact(pkt, recs, i)
  {
    assert |Trace(pkt, Offset(recs, i))| == 1 && |Offsets(recs, i)| > 1;
  }

  /** Behind a record that is reached, walk and layout agree as far as they agreed before. */
  lemma ExactTail(pkt: Packet, recs: seq<Record>, i: nat, q: nat)
    requires i < |recs| && LaidAt(pkt.payload, recs, i) && Offset(recs, i) < pkt.total
    requires q == Offset(recs, i) + HEADER + Unsigned(|recs[i].data|)
    ensures Exact(pkt, recs, i) <==> Trace(pkt, q) == Offsets(recs, i + 1)
  {
    TraceHead(pkt, Offset(recs, i), recs[i]);
    ExactSplit(pkt, recs, i, q);
  }

  lemma ExactSplit(pkt: Packet, recs: seq<Record>, i: nat, q: nat)
    requires i < |recs| && Trace(pkt, Offset(recs, i)) == [Offset(recs, i)] + Trace(pkt, q)
    ensures Exact(pkt, recs, i) <==> Trace(pkt, q) == Offsets(recs, i + 1)
  {
    SameTail(Offset(recs, i), Trace(pkt, q), Offsets(recs, i + 1));
  }

  lemma ExactGoesOn(pkt: Packet, recs: seq<Record>, i: nat)
    requires i < |recs| && Laid(pkt.payload, recs) && Offset(recs, i) < pkt.total && |recs[i].data| < WORD32
    ensures Exact(pkt, recs, i) <==> Exact(pkt, recs, i + 1)
  {
    assert LaidAt(pkt.payload, recs, i);
    ExactTail(pkt, recs, i, Offset(recs, i + 1));
  }

  lemma ExactStrays(pkt: Packet, recs: seq<Record>, i: nat)
    requires i < |recs| && Laid(pkt.payload, recs) && Offset(recs, i) < pkt.total && |recs[i].data| >= WORD32
    ensures !Exact(pkt, recs, i)
  {
    var q := Offset(recs, i) + HEADER + Unsigned(|recs[i].data|);
    assert LaidAt(pkt.payload, recs, i);
    ExactTail(pkt, recs, i, q);
    GoesAstray(pkt, recs, i + 1, q);
  }

  /** The walk is exact if and only if every record is reached. */
  lemma {:induction false} TraceIsExact(pkt: Packet, recs: seq<Record>, i: nat)
    requires Laid(pkt.payload, recs) && pkt.total <= |pkt.payload| && i <= |recs|
    ensures Exact(pkt, recs, i) <==> Walkable(recs, i, pkt.total)
    decreases |recs| - i
  {
    if i < |recs| {
      WalkableStep(recs, i, pkt.total);
      if Offset(recs, i) >= pkt.total {
        ExactStops(pkt, recs, i);
      } else if |recs[i].data| >= WORD32 {
        ExactStrays(pkt, recs, i);
      } else {
        ExactGoesOn(pkt, recs, i);
        TraceIsExact(pkt, recs, i + 1);
      }
    }
  }

  lemma GoesAstray(pkt: Packet, recs: seq<Record>, i: nat, q: nat)
    requires i <= |recs| && q != Offset(recs, i)
    ensures Trace(pkt, q) != Offsets(recs, i)
  {
    assert Trace(pkt, q)[0] != Offsets(recs, i)[0];
  }

  // ---------- the condition on sizes ----------

  predicate SmallData(recs: seq<Record>) {
    forall i :: 0 <= i < |recs| ==> |recs[i].data| < WORD32
  }

  lemma {:induction false} OffsetsGrow(recs: seq<Record>, i: nat, j: nat)
    requires i <= j <= |recs|
    ensures Offset(recs, i) <= Offset(recs, j)
    decreases j
  {
    if i < j { OffsetsGrow(recs, i, j - 1); }
  }

  /** All records are reached exactly when the last one is, and the headers hold the sizes. */
  lemma WalkableMeans(recs: seq<Record>, total: nat)
    requires recs != []
    ensures Walkable(recs, 0, total) <==> SmallData(recs) && Offset(recs, |recs| - 1) < total
  {
    if SmallData(recs) && Offset(recs, |recs| - 1) < total {
      forall k | 0 <= k < |recs|
        ensures Reached(recs, k, total)
      {
        OffsetsGrow(recs, k, |recs| - 1);
      }
    }
    if Walkable(recs, 0, total) {
      forall k | 0 <= k < |recs|
        ensures |recs[k].data| < WORD32
      {
        assert Reached(recs, k, total);
      }
      assert Reached(recs, |recs| - 1, total);
    }
  }

  /** Sizes for which the truncated total does no harm: the payload fits in 32 bits, or its
      last record alone reaches past them. */
  predicate Transportable(recs: seq<Record>) {
    recs == [] ||
    (var size, last := Offset(recs, |recs|), |recs[|recs| - 1].data|;
     SmallData(recs) && (size < WORD32 || (size < 2 * WORD32 && last > WORD32 - HEADER)))
  }

  lemma TotalCovers(n: nat, last: nat)
    requires n >= HEADER + last && last < WORD32
    ensures n - HEADER - last < n % WORD32 <==> n < WORD32 || (n < 2 * WORD32 && last > WORD32 - HEADER)
  {
  }

  /** A packet as serialized is walked exactly if and only if it is transportable. */
  lemma WalkedExactly(pkt: Packet, recs: seq<Record>)
    requires pkt.payload == Flat(recs) && pkt.total == |pkt.payload| % WORD32
    ensures Trace(pkt, 0) == Offsets(recs, 0) <==> Transportable(recs)
    ensures Walkable(recs, 0, pkt.total) <==> Transportable(recs)
  {
    FlatLays(pkt.payload, recs);
    TraceIsExact(pkt, recs, 0);
    if recs != [] {
      WalkableMeans(recs, pkt.total);
      if SmallData(recs) { TotalCovers(Offset(recs, |recs|), |recs[|recs| - 1].data|); }
    }
  }

  // ---------- what arrives ----------

  function Place(args: seq<Arg>, ctx: Context, r: Record): (c: Context)
    requires |ctx.slots| == |args| && r.idx < |args|
    ensures |c.slots| == |args|
  {
    if args[r.idx].direction == VAL
    then ctx.(slots := ctx.slots[r.idx := Scalar(Number(r.data[..Min(|r.data|, 8)]))])
    else Context(ctx.slots[r.idx := Buffer(r.data)], ctx.allocs + 1)
  }

  predicate Indexed(args: seq<Arg>, recs: seq<Record>) {
    |args| <= MAX_ARGS && forall i :: 0 <= i < |recs| ==> recs[i].idx < |args|
  }

  /** Records `i` and later are placed, in order. */
  function PlaceFrom(args: seq<Arg>, ctx: Context, recs: seq<Record>, i: nat): (c: Context)
    requires |ctx.slots| == |args| && Indexed(args, recs) && i <= |recs|
    ensures |c.slots| == |args|
    decreases |recs| - i
  {
    if i == |recs| then ctx else PlaceFrom(args, Place(args, ctx, recs[i]), recs, i + 1)
  }

  lemma {:induction false} PlaceShift(args: seq<Arg>, ctx: Context, r: Record, recs: seq<Record>, i: nat)
    requires |ctx.slots| == |args| && Indexed(args, [r] + recs) && Indexed(args, recs) && i <= |recs|
    ensures PlaceFrom(args, ctx, [r] + recs, i + 1) == PlaceFrom(args, ctx, recs, i)
    decreases |recs| - i
  {
    if i < |recs| { PlaceShift(args, Place(args, ctx, recs[i]), r, recs, i + 1); }
  }

  lemma ReadsBack(args: seq<Arg>, pkt: Packet, p: nat, r: Record, ctx: Context)
    requires LaidOne(pkt.payload, p, r) && |r.data| < WORD32
    requires r.idx < |args| <= MAX_ARGS && |ctx.slots| == |args| && ctx.allocs < MAX_ARGS
    ensures ReadRecord(args, pkt, p, ctx) == Go(p + Width(r), Place(args, ctx, r))
  {
    SmallMod(r.idx, WORD32);
    SmallMod(|r.data|, WORD32);
    SubSlice(pkt.payload, p + HEADER, |r.data|, 0, Min(|r.data|, 8));
  }

  lemma ReadsAt(args: seq<Arg>, pkt: Packet, recs: seq<Record>, i: nat, ctx: Context)
    requires Laid(pkt.payload, recs) && i < |recs| && |recs[i].data| < WORD32
    requires Indexed(args, recs) && |ctx.slots| == |args| && ctx.allocs < MAX_ARGS
    ensures ReadRecord(args, pkt, Offset(recs, i), ctx) == Go(Offset(recs, i + 1), Place(args, ctx, recs[i]))
  {
    assert LaidAt(pkt.payload, recs, i);
    ReadsBack(args, pkt, Offset(recs, i), recs[i], ctx);
  }

  lemma Unroll(args: seq<Arg>, pkt: Packet, p: nat, ctx: Context, p': nat, ctx': Context)
    requires |ctx.slots| == |ctx'.slots| == |args| && p < pkt.total && ReadRecord(args, pkt, p, ctx) == Go(p', ctx')
    ensures Deserialized(args, pkt, p, ctx) == Deserialized(args, pkt, p', ctx')
  {
  }

  /** Deserializing a walkable payload places every record, in order, and ends at its end. */
  lemma {:induction false} DeserializesAll(args: seq<Arg>, pkt: Packet, recs: seq<Record>, i: nat, ctx: Context)
    requires Laid(pkt.payload, recs) && pkt.total <= |pkt.payload| && Walkable(recs, 0, pkt.total) && i <= |recs|
    requires Indexed(args, recs) && |ctx.slots| == |args| && ctx.allocs + |recs| - i <= MAX_ARGS
    ensures Deserialized(args, pkt, Offset(recs, i), ctx) == Done(PlaceFrom(args, ctx, recs, i), |pkt.payload|)
    decreases |recs| - i
  {
    if i < |recs| {
      assert Reached(recs, i, pkt.total);
      ReadsAt(args, pkt, recs, i, ctx);
      Unroll(args, pkt, Offset(recs, i), ctx, Offset(recs, i + 1), Place(args, ctx, recs[i]));
      DeserializesAll(args, pkt, recs, i + 1, Place(args, ctx, recs[i]));
    }
  }

  lemma DeliversAll(args: seq<Arg>, pkt: Packet, recs: seq<Record>, ctx: Context)
    requires pkt.payload == Flat(recs) && pkt.total == |pkt.payload| % WORD32 && Transportable(recs)
    requires Indexed(args, recs) && |ctx.slots| == |args| && ctx.allocs + |recs| <= MAX_ARGS
    ensures Deserialized(args, pkt, 0, ctx) == Done(PlaceFrom(args, ctx, recs, 0), |pkt.payload|)
  {
    TransportableWalks(pkt, recs);
    assert Offset(recs, 0) == 0;
    DeserializesAll(args, pkt, recs, 0, ctx);
  }

  lemma TransportableWalks(pkt: Packet, recs: seq<Record>)
    requires pkt.payload == Flat(recs) && pkt.total == |pkt.payload| % WORD32 && Transportable(recs)
    ensures Laid(pkt.payload, recs) && pkt.total <= |pkt.payload| && Walkable(recs, 0, pkt.total)
  {
    FlatLays(pkt.payload, recs);
    WalkedExactly(pkt, recs);
  }

  /** What a slot must hold afterwards: the low bytes of a value, a copy of the memory behind
      a pointer, or what it held before. */
  ghost predicate GotBack(a: Arg, v: Value, capture: bool, before: Slot, after: Slot)
    requires Readable(a, v)
  {
    if !Wanted(a, capture) then after == before
    else if a.direction == VAL then after == Scalar(v.reg % Pow256(Min(DataSize(a, v), 8)))
    else after.Buffer? && |after.bytes| == DataSize(a, v) && (v.reg != 0 ==> after.bytes == v.mem[..DataSize(a, v)])
  }

  /** The record of argument `i` puts back argument `i`. */
  lemma PlacesOne(args: seq<Arg>, vals: seq<Value>, capture: bool, junk: seq<byte>, i: nat, ctx: Context)
    requires ValidCall(args, vals) && i < |args| && Wanted(args[i], capture) && |ctx.slots| == |args|
    requires |junk| == DataSize(args[i], vals[i])
    ensures var r := Record(i, args[i].direction, args[i].ty, DataOf(args[i], vals[i], junk));
      BackAt(args, vals, capture, ctx, Place(args, ctx, r), i)
  {
    var a, v := args[i], vals[i];
    if a.direction == VAL {
      var n := Min(DataSize(a, v), 8);
      LowIsMod(v.reg, n);
      assert DataOf(a, v, junk)[..n] == LowBytes(v.reg, n);
    }
  }

  ghost predicate BackAt(args: seq<Arg>, vals: seq<Value>, capture: bool, before: Context, after: Context, k: nat)
    requires ValidCall(args, vals) && |before.slots| == |after.slots| == |args| && k < |args|
  {
    GotBack(args[k], vals[k], capture, before.slots[k], after.slots[k])
  }

  /** Arguments from `i` on are put back and the slots below are untouched. */
  ghost predicate AllBack(args: seq<Arg>, vals: seq<Value>, capture: bool, i: nat, before: Context, after: Context) {
    && ValidCall(args, vals) && |before.slots| == |after.slots| == |args| && i <= |args|
    && after.allocs <= before.allocs + |args| - i
    && before.slots[..i] == after.slots[..i]
    && forall k {:trigger BackAt(args, vals, capture, before, after, k)} :: i <= k < |args| ==>
         BackAt(args, vals, capture, before, after, k)
  }

  lemma BackSkip(args: seq<Arg>, vals: seq<Value>, capture: bool, i: nat, before: Context, after: Context)
    requires i < |args| && AllBack(args, vals, capture, i + 1, before, after) && !Wanted(args[i], capture)
    ensures AllBack(args, vals, capture, i, before, after)
  {
    assert before.slots[i] == before.slots[..i + 1][i] == after.slots[..i + 1][i];
    assert before.slots[..i] == before.slots[..i + 1][..i] == after.slots[..i];
  }

  lemma BackCons(args: seq<Arg>, vals: seq<Value>, capture: bool, i: nat, before: Context, mid: Context, after: Context)
    requires i < |args| && AllBack(args, vals, capture, i + 1, mid, after) && |before.slots| == |args|
    requires mid.slots == before.slots[i := mid.slots[i]] && mid.allocs <= before.allocs + 1
    requires BackAt(args, vals, capture, before, mid, i)
    ensures AllBack(args, vals, capture, i, before, after)
  {
    assert mid.slots[i] == mid.slots[..i + 1][i] == after.slots[..i + 1][i];
    assert before.slots[..i] == mid.slots[..i + 1][..i] == after.slots[..i];
    forall k | i <= k < |args|
      ensures BackAt(args, vals, capture, before, after, k)
    {
      if k > i { assert BackAt(args, vals, capture, mid, after, k); }
    }
  }

  lemma {:induction false} PlacesRest(args: seq<Arg>, vals: seq<Value>, capture: bool, junk: seq<byte>,
                                      i: nat, ctx: Context)
    requires ValidCall(args, vals) && i <= |args| && |junk| == SizeFrom(args, vals, capture, i) && |ctx.slots| == |args|
    ensures var recs := Records(args, vals, capture, junk, i);
      && Indexed(args, recs) && |recs| <= |args| - i
      && AllBack(args, vals, capture, i, ctx, PlaceFrom(args, ctx, recs, 0))
    decreases |args| - i
  {
    if i < |args| {
      if Wanted(args[i], capture) {
        var n := DataSize(args[i], vals[i]);
        var r := Record(i, args[i].direction, args[i].ty, DataOf(args[i], vals[i], junk[HEADER..HEADER + n]));
        var mid, rest := Place(args, ctx, r), Records(args, vals, capture, junk[HEADER + n..], i + 1);
        PlacesOne(args, vals, capture, junk[HEADER..HEADER + n], i, ctx);
        PlacesRest(args, vals, capture, junk[HEADER + n..], i + 1, mid);
        BackCons(args, vals, capture, i, ctx, mid, PlaceFrom(args, mid, rest, 0));
        PlaceCons(args, ctx, r, rest);
      } else {
        PlacesRest(args, vals, capture, junk, i + 1, ctx);
        BackSkip(args, vals, capture, i, ctx, PlaceFrom(args, ctx, Records(args, vals, capture, junk, i + 1), 0));
      }
    }
  }

  lemma PlaceCons(args: seq<Arg>, ctx: Context, r: Record, recs: seq<Record>)
    requires |ctx.slots| == |args| && r.idx < |args| && Indexed(args, recs)
    ensures Indexed(args, [r] + recs)
    ensures PlaceFrom(args, ctx, [r] + recs, 0) == PlaceFrom(args, Place(args, ctx, r), recs, 0)
  {
    PlaceShift(args, Place(args, ctx, r), r, recs, 0);
  }

  /** The round trip: for every signature and call, in either direction, and whatever the
      payload block held, a transportable packet gives every argument back, ends exactly at
      the payload's end and needs at most eight buffers. */
  lemma RoundTrip(args: seq<Arg>, vals: seq<Value>, capture: bool, junk: seq<byte>)
    requires ValidCall(args, vals) && |junk| == SizeFrom(args, vals, capture, 0)
    requires Transportable(Records(args, vals, capture, junk, 0))
    ensures var out := Deserialized(args, Serialized(args, vals, capture, junk), 0, Empty(args));
      && out.Done? && out.p == SizeFrom(args, vals, capture, 0) && out.ctx.allocs <= MAX_ARGS
      && |out.ctx.slots| == |args|
      && forall k :: 0 <= k < |args| ==> GotBack(args[k], vals[k], capture, Scalar(0), out.ctx.slots[k])
  {
    var recs, empty := Records(args, vals, capture, junk, 0), Empty(args);
    PlacesRest(args, vals, capture, junk, 0, empty);
    JoinSize(recs, |recs|);
    DeliversAll(args, Serialized(args, vals, capture, junk), recs, empty);
    forall k | 0 <= k < |args|
      ensures GotBack(args[k], vals[k], capture, Scalar(0), PlaceFrom(args, empty, recs, 0).slots[k])
    {
      assert BackAt(args, vals, capture, empty, PlaceFrom(args, empty, recs, 0), k);
    }
  }

  /** A payload below 4 GiB is always transportable. */
  lemma SmallIsTransportable(args: seq<Arg>, vals: seq<Value>, capture: bool, junk: seq<byte>)
    requires ValidCall(args, vals) && |junk| == SizeFrom(args, vals, capture, 0) < WORD32
    ensures Transportable(Records(args, vals, capture, junk, 0))
  {
    var recs := Records(args, vals, capture, junk, 0);
    forall i | 0 <= i < |recs|
      ensures |recs[i].data| < WORD32
    {
      OffsetsGrow(recs, i + 1, |recs|);
    }
  }

  lemma HugeRecords(args: seq<Arg>, v: Value, junk: seq<byte>)
    requires args == [Arg(PTR_IN, 8, WORD32)] && v.reg != 0 && |v.mem| == WORD32 && |junk| == WORD32 + HEADER
    ensures ValidCall(args, [v]) && SizeFrom(args, [v], false, 0) == |junk|
    ensures Records(args, [v], false, junk, 0) == [Record(0, PTR_IN, 8, v.mem)]
  {
    assert SizeFrom(args, [v], false, 1) == 0;
    assert junk[HEADER + WORD32..] == [] && v.mem[..WORD32] == v.mem;
  }

  lemma HugeLaid(s: seq<byte>, r: Record)
    requires s == Flat([r])
    ensures LaidOne(s, 0, r)
  {
    FlatLays(s, [r]);
    assert LaidAt(s, [r], 0);
  }

  lemma HugeWalk(args: seq<Arg>, pkt: Packet, r: Record, ctx: Context)
    requires |args| == 1 && args[0].direction == PTR_IN && r.idx == 0 && |r.data| == WORD32
    requires LaidOne(pkt.payload, 0, r) && pkt.total == HEADER && |ctx.slots| == 1 && ctx.allocs == 0
    ensures Deserialized(args, pkt, 0, ctx) == Done(Context([Buffer([])], 1), HEADER)
  {
    assert Unsigned(WORD32) == 0 && Unsigned(0) == 0;
    var c := Context(ctx.slots[0 := Buffer(pkt.payload[HEADER..HEADER])], 1);
    assert ReadRecord(args, pkt, 0, ctx) == Go(HEADER, c);
    assert Deserialized(args, pkt, HEADER, c) == Done(c, HEADER);
    assert c.slots == [Buffer([])];
  }

  /** A block of exactly 4 GiB does not survive: the header says zero, and an empty buffer
      comes back. */
  lemma HugeBlockIsLost(v: Value, junk: seq<byte>)
    requires v.reg != 0 && |v.mem| == WORD32 && |junk| == WORD32 + HEADER
    ensures var args := [Arg(PTR_IN, 8, WORD32)];
      && ValidCall(args, [v]) && SizeFrom(args, [v], false, 0) == |junk|
      && Deserialized(args, Serialized(args, [v], false, junk), 0, Empty(args)) ==
         Done(Context([Buffer([])], 1), HEADER)
  {
    var args, r := [Arg(PTR_IN, 8, WORD32)], Record(0, PTR_IN, 8, v.mem);
    HugeRecords(args, v, junk);
    var pkt := Serialized(args, [v], false, junk);
    HugeLaid(pkt.payload, r);
    HugeWalk(args, pkt, r, Empty(args));
  }
}
