/** The codec's loops: two passes that measure and fill a payload block, and the walk over one. */
module PbvCodec {
  import opened Bytes
  import opened Pbv

  /** `ldx_strlen`. */
  method StrLen(mem: seq<byte>) returns (n: nat)
    requires 0 in mem
    ensures n == StringLength(mem)
  {
    n := 0;
    while mem[n] != 0
      invariant n < |mem| && 0 in mem[n..] && forall i :: 0 <= i < n ==> mem[i] != 0
      decreases |mem| - n
    {
      assert mem[n..][1..] == mem[n + 1..];
      assert mem[n..] == [mem[n]] + mem[n + 1..];
      n := n + 1;
    }
  }

  /** The first pass. */
  method Measure(args: seq<Arg>, vals: seq<Value>, capture: bool) returns (size: nat)
    requires ValidCall(args, vals)
    ensures size == SizeFrom(args, vals, capture, 0)
  {
    size := 0;
    var i := 0;
    while i < |args|
      invariant 0 <= i <= |args| && size + SizeFrom(args, vals, capture, i) == SizeFrom(args, vals, capture, 0)
    {
      if Wanted(args[i], capture) { size := size + HEADER + DataSize(args[i], vals[i]); }
      i := i + 1;
    }
  }

  /** Bytes are copied into a block at `p`. */
  method CopyInto(block: array<byte>, p: nat, src: seq<byte>)
    requires p + |src| <= block.Length
    modifies block
    ensures block[p..p + |src|] == src
    ensures block[..p] == old(block[..p]) && block[p + |src|..] == old(block[p + |src|..])
  {
    forall k | 0 <= k < |src| {
      block[p + k] := src[k];
    }
    assert forall k :: 0 <= k < |src| ==> block[p + k] == src[k];
  }

  /** Writing the first `m` of `n` bytes leaves the others. */
  lemma LowPart(b: seq<byte>, b': seq<byte>, q: nat, m: nat, n: nat, low: seq<byte>)
    requires |b| == |b'| && m == |low| <= n && q + n <= |b|
    requires b'[q..q + m] == low && b'[q + m..] == b[q + m..]
    ensures b'[q..q + n] == low + b[q..q + n][m..] && b'[q + n..] == b[q + n..]
  {
    assert b'[q + m..q + n] == b'[q + m..][..n - m];
    assert b[q..q + n][m..] == b[q + m..q + n] == b[q + m..][..n - m];
    assert b'[q..q + n] == b'[q..q + m] + b'[q + m..q + n];
    assert b'[q + n..] == b'[q + m..][n - m..];
    assert b[q + n..] == b[q + m..][n - m..];
  }

  /** Writes the data of one record: a value's low bytes, or the memory behind a pointer. */
  method PutData(block: array<byte>, q: nat, a: Arg, v: Value, n: nat)
    requires Readable(a, v) && n == DataSize(a, v) && q + n <= block.Length
    modifies block
    ensures block[q..q + n] == DataOf(a, v, old(block[q..q + n]))
    ensures block[..q] == old(block[..q]) && block[q + n..] == old(block[q + n..])
  {
    ghost var junk := block[q..q + n];
    if a.direction == VAL {
      ghost var b := block[..];
      var m := if n <= 8 then n else 8;
      CopyInto(block, q, LowBytes(v.reg, m));
      LowPart(b, block[..], q, m, n, LowBytes(v.reg, m));
    } else if v.reg != 0 && n > 0 {
      CopyInto(block, q, v.mem[..n]);
    }
  }

  /** A header and data written behind one another. */
  lemma Assemble(b0: seq<byte>, b1: seq<byte>, b2: seq<byte>, p: nat, h: seq<byte>, d: seq<byte>)
    requires |b0| == |b1| == |b2| && p + |h| + |d| <= |b0|
    requires b1[..p] == b0[..p] && b1[p..p + |h|] == h && b1[p + |h|..] == b0[p + |h|..]
    requires b2[..p + |h|] == b1[..p + |h|] && b2[p + |h|..p + |h| + |d|] == d
    requires b2[p + |h| + |d|..] == b1[p + |h| + |d|..]
    ensures b2[p..p + |h| + |d|] == h + d
    ensures b2[..p] == b0[..p] && b2[p + |h| + |d|..] == b0[p + |h| + |d|..]
  {
    var q, e := p + |h|, p + |h| + |d|;
    assert b2[p..q] == b2[..q][p..] == b1[..q][p..] == b1[p..q];
    assert b2[p..e] == b2[p..q] + b2[q..e];
    assert b2[..p] == b2[..q][..p] == b1[..q][..p] == b1[..p];
    assert b1[e..] == b1[q..][e - q..] == b0[q..][e - q..] == b0[e..];
  }

  /** `bytes` stand at `p`, and nothing else has changed. */
  ghost predicate Patched(b: seq<byte>, b': seq<byte>, p: nat, bytes: seq<byte>) {
    && |b'| == |b| && p + |bytes| <= |b|
    && b'[..p] == b[..p] && b'[p..p + |bytes|] == bytes && b'[p + |bytes|..] == b[p + |bytes|..]
  }

  /** Writes one record: the header, then the data. */
  method PutRecord(block: array<byte>, p: nat, h: seq<byte>, a: Arg, v: Value, n: nat)
    requires Readable(a, v) && n == DataSize(a, v) && |h| == HEADER && p + HEADER + n <= block.Length
    modifies block
    ensures Patched(old(block[..]), block[..], p, h + DataOf(a, v, old(block[p + HEADER..p + HEADER + n])))
  {
    var q := p + HEADER;
    ghost var b0 := block[..];
    CopyInto(block, p, h);
    ghost var b1 := block[..];
    assert b1[q..q + n] == b1[q..][..n] == b0[q..][..n] == b0[q..q + n];
    PutData(block, q, a, v, n);
    Assemble(b0, b1, block[..], p, h, block[q..q + n]);
  }

  lemma JoinAppend(chunks: seq<seq<byte>>, c: seq<byte>, i: nat)
    requires i <= |chunks|
    ensures Join(chunks + [c], i) == Join(chunks, i)
  {
    if i > 0 { JoinAppend(chunks, c, i - 1); }
  }

  lemma FlatAppend(recs: seq<Record>, r: Record)
    ensures Flat(recs + [r]) == Flat(recs) + RecordBytes(r)
  {
    assert Chunks(recs + [r]) == Chunks(recs) + [RecordBytes(r)];
    JoinAppend(Chunks(recs), RecordBytes(r), |recs|);
  }

  /** The block holds the records so far, and behind `p` what it held before. */
  ghost predicate Written(block: seq<byte>, junk: seq<byte>, done: seq<Record>, p: nat) {
    |block| == |junk| && p <= |junk| && block[..p] == Flat(done) && block[p..] == junk[p..]
  }

  /** The records so far and those still to come are those of the whole call. */
  ghost predicate Planned(args: seq<Arg>, vals: seq<Value>, capture: bool, junk: seq<byte>, i: nat,
                          done: seq<Record>, p: nat)
  {
    && ValidCall(args, vals) && i <= |args| && |junk| == SizeFrom(args, vals, capture, 0) && p <= |junk|
    && |junk| - p == SizeFrom(args, vals, capture, i)
    && done + Records(args, vals, capture, junk[p..], i) == Records(args, vals, capture, junk, 0)
  }

  lemma PlannedStart(args: seq<Arg>, vals: seq<Value>, capture: bool, junk: seq<byte>)
    requires ValidCall(args, vals) && |junk| == SizeFrom(args, vals, capture, 0)
    ensures Planned(args, vals, capture, junk, 0, [], 0)
  {
    assert junk[0..] == junk;
  }

  lemma PlannedSkip(args: seq<Arg>, vals: seq<Value>, capture: bool, junk: seq<byte>, i: nat, done: seq<Record>, p: nat)
    requires Planned(args, vals, capture, junk, i, done, p) && i < |args| && !Wanted(args[i], capture)
    ensures Planned(args, vals, capture, junk, i + 1, done, p)
  {
  }

  lemma PlannedEnd(args: seq<Arg>, vals: seq<Value>, capture: bool, junk: seq<byte>, done: seq<Record>, p: nat)
    requires Planned(args, vals, capture, junk, |args|, done, p)
    ensures p == |junk| && done == Records(args, vals, capture, junk, 0)
  {
    assert done + [] == done;
  }

  lemma PlannedRoom(args: seq<Arg>, vals: seq<Value>, capture: bool, junk: seq<byte>, i: nat, done: seq<Record>, p: nat)
    requires Planned(args, vals, capture, junk, i, done, p) && i < |args| && Wanted(args[i], capture)
    ensures p + HEADER + DataSize(args[i], vals[i]) <= |junk|
  {
  }

  /** The record of argument `i` in a block that holds `b` before. */
  ghost function RecordOf(i: nat, a: Arg, v: Value, b: seq<byte>, p: nat): Record
    requires Readable(a, v) && p + HEADER + DataSize(a, v) <= |b|
  {
    Record(i, a.direction, a.ty, DataOf(a, v, b[p + HEADER..p + HEADER + DataSize(a, v)]))
  }

  /** The next record, over the block's content behind `p`. */
  lemma PlannedRecord(args: seq<Arg>, vals: seq<Value>, capture: bool, junk: seq<byte>, i: nat, done: seq<Record>,
                      p: nat, q: nat)
    requires Planned(args, vals, capture, junk, i, done, p) && i < |args| && Wanted(args[i], capture)
    requires q == p + HEADER + DataSize(args[i], vals[i]) <= |junk|
    ensures Planned(args, vals, capture, junk, i + 1, done + [RecordOf(i, args[i], vals[i], junk, p)], q)
  {
    var n, r := DataSize(args[i], vals[i]), RecordOf(i, args[i], vals[i], junk, p);
    assert junk[p..][HEADER..HEADER + n] == junk[p + HEADER..p + HEADER + n];
    assert junk[p..][HEADER + n..] == junk[p + HEADER + n..];
    var rest := Records(args, vals, capture, junk[q..], i + 1);
    assert Records(args, vals, capture, junk[p..], i) == [r] + rest;
    assert done + ([r] + rest) == (done + [r]) + rest;
  }

  /** Bytes written at `p` extend what is written. */
  lemma Extends(b: seq<byte>, b': seq<byte>, junk: seq<byte>, f: seq<byte>, p: nat, q: nat, rb: seq<byte>)
    requires |b| == |b'| == |junk| && p <= q <= |b| && b[..p] == f && b[p..] == junk[p..]
    requires b'[..p] == b[..p] && b'[p..q] == rb && b'[q..] == b[q..]
    ensures b'[..q] == f + rb && b'[q..] == junk[q..]
  {
    assert b'[..q] == b'[..p] + b'[p..q];
    assert b[q..] == b[p..][q - p..] == junk[p..][q - p..] == junk[q..];
  }

  lemma SameBehind(b: seq<byte>, junk: seq<byte>, p: nat, lo: nat, hi: nat)
    requires |b| == |junk| && p <= lo <= hi <= |b| && b[p..] == junk[p..]
    ensures b[lo..hi] == junk[lo..hi]
  {
    forall k | lo <= k < hi
      ensures b[k] == junk[k]
    {
      assert b[k] == b[p..][k - p] && junk[k] == junk[p..][k - p];
    }
  }

  lemma RecordIs(i: nat, a: Arg, data: seq<byte>)
    ensures RecordBytes(Record(i, a.direction, a.ty, data)) == Header(i, a.direction, a.ty, |data|) + data
  {
  }

  lemma SameRecord(i: nat, a: Arg, v: Value, b: seq<byte>, junk: seq<byte>, p: nat)
    requires Readable(a, v) && |b| == |junk| && p + HEADER + DataSize(a, v) <= |b| && b[p..] == junk[p..]
    ensures RecordOf(i, a, v, b, p) == RecordOf(i, a, v, junk, p)
  {
    SameBehind(b, junk, p, p + HEADER, p + HEADER + DataSize(a, v));
  }

  /** One argument's record is written where the block so far ends. */
  method PutArgument(block: array<byte>, p: nat, i: nat, a: Arg, v: Value)
    requires Readable(a, v) && p + HEADER + DataSize(a, v) <= block.Length
    modifies block
    ensures Patched(old(block[..]), block[..], p, RecordBytes(RecordOf(i, a, v, old(block[..]), p)))
  {
    var n := DataSize(a, v);
    ghost var data := DataOf(a, v, block[..][p + HEADER..p + HEADER + n]);
    assert block[..][p + HEADER..p + HEADER + n] == block[p + HEADER..p + HEADER + n];
    PutRecord(block, p, Header(i, a.direction, a.ty, n), a, v, n);
    RecordIs(i, a, data);
  }

  /** One wanted argument of the second pass. */
  method Advance(block: array<byte>, p: nat, i: nat, a: Arg, v: Value, ghost junk: seq<byte>, ghost done: seq<Record>)
    returns (q: nat, ghost r: Record)
    requires Readable(a, v) && Written(block[..], junk, done, p) && p + HEADER + DataSize(a, v) <= block.Length
    modifies block
    ensures q == p + HEADER + DataSize(a, v)
    ensures r == RecordOf(i, a, v, junk, p)
    ensures Written(block[..], junk, done + [r], q)
  {
    q := p + HEADER + DataSize(a, v);
    ghost var before := block[..];
    SameRecord(i, a, v, before, junk, p);
    r := RecordOf(i, a, v, junk, p);
    PutArgument(block, p, i, a, v);
    WrittenOne(before, block[..], junk, done, r, p, q);
  }

  lemma WrittenOne(b: seq<byte>, b': seq<byte>, junk: seq<byte>, done: seq<Record>, r: Record, p: nat, q: nat)
    requires Written(b, junk, done, p) && q == p + |RecordBytes(r)| && Patched(b, b', p, RecordBytes(r))
    ensures Written(b', junk, done + [r], q)
  {
    FlatAppend(done, r);
    Extends(b, b', junk, Flat(done), p, q, RecordBytes(r));
  }

  /** One turn of the second pass. */
  method Turn(args: seq<Arg>, vals: seq<Value>, capture: bool, block: array<byte>, i: nat, p: nat,
              ghost junk: seq<byte>, ghost done: seq<Record>) returns (q: nat, ghost done': seq<Record>)
    requires i < |args| && Written(block[..], junk, done, p) && Planned(args, vals, capture, junk, i, done, p)
    modifies block
    ensures Written(block[..], junk, done', q) && Planned(args, vals, capture, junk, i + 1, done', q)
  {
    if !Wanted(args[i], capture) {
      PlannedSkip(args, vals, capture, junk, i, done, p);
      return p, done;
    }
    PlannedRoom(args, vals, capture, junk, i, done, p);
    ghost var r;
    q, r := Advance(block, p, i, args[i], vals[i], junk, done);
    done' := done + [r];
    PlannedRecord(args, vals, capture, junk, i, done, p, q);
  }

  /** The second pass. */
  method Fill(args: seq<Arg>, vals: seq<Value>, capture: bool, block: array<byte>)
    requires ValidCall(args, vals) && block.Length == SizeFrom(args, vals, capture, 0)
    modifies block
    ensures block[..] == Flat(Records(args, vals, capture, old(block[..]), 0))
  {
    ghost var junk, done := block[..], [];
    PlannedStart(args, vals, capture, junk);
    var i, p := 0, 0;
    while i < |args|
      invariant 0 <= i <= |args| && 0 <= p
      invariant Written(block[..], junk, done, p)
      invariant Planned(args, vals, capture, junk, i, done, p)
    {
      p, done := Turn(args, vals, capture, block, i, p, junk, done);
      i := i + 1;
    }
    PlannedEnd(args, vals, capture, junk, done, p);
    assert block[..p] == block[..];
  }

  /** `ldx_pbv_serialize`; `junk` is what the allocator's block happens to hold. */
  method Serialize(args: seq<Arg>, vals: seq<Value>, capture: bool, junk: seq<byte>) returns (pkt: Packet)
    requires ValidCall(args, vals) && |junk| == SizeFrom(args, vals, capture, 0)
    ensures pkt == Serialized(args, vals, capture, junk)
  {
    var size := Measure(args, vals, capture);
    var block := new byte[size](i requires 0 <= i < |junk| => junk[i]);
    assert block[..] == junk;
    Fill(args, vals, capture, block);
    pkt := Packet(size % WORD32, block[..]);
  }

  /** One turn of the walk. */
  method TakeRecord(args: seq<Arg>, pkt: Packet, p: nat, ctx: Context) returns (m: Move)
    requires |ctx.slots| == |args|
    ensures m == ReadRecord(args, pkt, p, ctx)
  {
    if p + HEADER > |pkt.payload| { return Fail(Overrun); }
    var idx, n := FieldAt(pkt.payload, p, 0), FieldAt(pkt.payload, p, 3);
    var q := p + HEADER;
    if idx >= |args| { return Go(q + n, ctx); }
    if args[idx].direction == VAL {
      var k := if n <= 8 then n else 8;
      if q + k > |pkt.payload| { return Fail(Overrun); }
      return Go(q + n, ctx.(slots := ctx.slots[idx := Scalar(Number(pkt.payload[q..q + k]))]));
    }
    if q + n > |pkt.payload| { return Fail(Overrun); }
    if ctx.allocs >= MAX_ARGS { return Fail(TooMany); }
    return Go(q + n, Context(ctx.slots[idx := Buffer(pkt.payload[q..q + n])], ctx.allocs + 1));
  }

  /** `ldx_pbv_deserialize`. */
  method Deserialize(args: seq<Arg>, pkt: Packet) returns (out: Outcome)
    ensures out == Deserialized(args, pkt, 0, Empty(args))
  {
    var ctx, p := Empty(args), 0;
    while p < pkt.total
      invariant 0 <= p && |ctx.slots| == |args|
      invariant Deserialized(args, pkt, p, ctx) == Deserialized(args, pkt, 0, Empty(args))
      decreases pkt.total - p
    {
      var m := TakeRecord(args, pkt, p, ctx);
      if m.Fail? { return m.out; }
      p, ctx := m.p, m.ctx;
    }
    out := Done(ctx, p);
  }
}
