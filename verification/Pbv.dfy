/**
 The pass-by-value packet codec.

 A signature lists up to eight arguments with a direction and a type; a call gives each a
 register value and, for a pointer, the memory it points to.  A packet's payload is a row of
 records, one for each argument that the direction selects.
 */
module Pbv {
  import opened Bytes

  const VAL: int := 0
  const PTR_IN: int := 1
  const PTR_OUT: int := 2
  const PTR_INOUT: int := 3
  const TYPE_STRING: int := 9
  const MAX_ARGS: nat := 8
  const HEADER: nat := 16

  datatype Arg = Arg(direction: int, ty: int, size: nat)

  /** A register value and the bytes that can be read behind it. */
  datatype Value = Value(reg: nat, mem: seq<byte>)

  /** The default sizes of the scalar types on a 64-bit machine. */
  function DefaultSize(ty: int): nat {
    if ty == 1 || ty == 2 || ty == 5 then 4
    else if ty == 3 || ty == 4 || ty == 6 || ty == 7 then 8
    else 0
  }

  function StringLength(mem: seq<byte>): (n: nat)
    requires 0 in mem
    ensures n < |mem| && mem[n] == 0 && forall i :: 0 <= i < n ==> mem[i] != 0
    decreases |mem|
  {
    if mem[0] == 0 then 0 else 1 + StringLength(mem[1..])
  }

  /** What the caller owes: a non-null string is terminated and a non-null pointer to
      anything else can be read for its size. */
  predicate Readable(a: Arg, v: Value) {
    && (a.ty == TYPE_STRING && v.reg != 0 ==> 0 in v.mem)
    && (a.ty != TYPE_STRING && a.direction != VAL && v.reg != 0 ==> DataSize(a, v) <= |v.mem|)
  }

  function DataSize(a: Arg, v: Value): nat
    requires a.ty == TYPE_STRING && v.reg != 0 ==> 0 in v.mem
  {
    if a.ty == TYPE_STRING then (if v.reg != 0 then StringLength(v.mem) + 1 else 0)
    else if a.size > 0 then a.size
    else DefaultSize(a.ty)
  }

  /** Inputs and values are sent on entry, outputs on exit. */
  predicate Wanted(a: Arg, capture: bool) {
    || (!capture && (a.direction == PTR_IN || a.direction == PTR_INOUT))
    || (capture && (a.direction == PTR_OUT || a.direction == PTR_INOUT))
    || (a.direction == VAL && !capture)
  }

  // ---------- records ----------

  datatype Record = Record(idx: nat, direction: int, ty: int, data: seq<byte>)

  function Unsigned(x: int): nat {
    x % WORD32
  }

  function Header(idx: nat, direction: int, ty: int, n: nat): (h: seq<byte>)
    ensures |h| == HEADER
  {
    LowBytes(idx, 4) + LowBytes(Unsigned(direction), 4) + LowBytes(Unsigned(ty), 4) + LowBytes(n, 4)
  }

  function HeaderOf(r: Record): (h: seq<byte>)
    ensures |h| == HEADER
  {
    Header(r.idx, r.direction, r.ty, |r.data|)
  }

  function Width(r: Record): nat {
    HEADER + |r.data|
  }

  function RecordBytes(r: Record): (s: seq<byte>)
    ensures |s| == Width(r)
  {
    HeaderOf(r) + r.data
  }

  /** The first `i` chunks end to end. */
  function Join(chunks: seq<seq<byte>>, i: nat): seq<byte>
    requires i <= |chunks|
  {
    if i == 0 then [] else Join(chunks, i - 1) + chunks[i - 1]
  }

  function Chunks(recs: seq<Record>): (c: seq<seq<byte>>)
    ensures |c| == |recs| && forall i :: 0 <= i < |recs| ==> c[i] == RecordBytes(recs[i])
  {
    seq(|recs|, i requires 0 <= i < |recs| => RecordBytes(recs[i]))
  }

  /** The records end to end. */
  function Flat(recs: seq<Record>): seq<byte> {
    Join(Chunks(recs), |recs|)
  }

  /** Where record `i` starts. */
  function Offset(recs: seq<Record>, i: nat): nat
    requires i <= |recs|
  {
    if i == 0 then 0 else Offset(recs, i - 1) + Width(recs[i - 1])
  }

  lemma {:induction false} OffsetCons(r: Record, recs: seq<Record>, i: nat)
    requires i <= |recs|
    ensures Offset([r] + recs, i + 1) == Width(r) + Offset(recs, i)
  {
    if i == 0 {
      assert Offset([r] + recs, 0) == 0;
    } else {
      OffsetCons(r, recs, i - 1);
    }
  }

  /** The low bytes of a register, little end first. */
  function LowBytes(v: nat, n: nat): (s: seq<byte>)
    ensures |s| == n
    decreases n
  {
    if n == 0 then [] else [v % 256] + LowBytes(v / 256, n - 1)
  }

  function Number(s: seq<byte>): nat {
    if s == [] then 0 else s[0] as int + 256 * Number(s[1..])
  }

  function Pow256(n: nat): (p: nat)
    ensures p > 0
  {
    if n == 0 then 1 else 256 * Pow256(n - 1)
  }

  /** The data bytes of one record; what the codec does not write keeps the block's content. */
  function DataOf(a: Arg, v: Value, junk: seq<byte>): (s: seq<byte>)
    requires Readable(a, v) && |junk| == DataSize(a, v)
    ensures |s| == DataSize(a, v)
  {
    var n := DataSize(a, v);
    if a.direction == VAL then LowBytes(v.reg, Min(n, 8)) + junk[Min(n, 8)..]
    else if v.reg != 0 then v.mem[..n]
    else junk
  }

  predicate ValidCall(args: seq<Arg>, vals: seq<Value>) {
    |args| == |vals| && |args| <= MAX_ARGS && forall i :: 0 <= i < |args| ==> Readable(args[i], vals[i])
  }

  /** First pass: the payload's size, from argument `i` on. */
  function SizeFrom(args: seq<Arg>, vals: seq<Value>, capture: bool, i: nat): nat
    requires ValidCall(args, vals) && i <= |args|
    decreases |args| - i
  {
    if i == |args| then 0
    else
      (if Wanted(args[i], capture) then HEADER + DataSize(args[i], vals[i]) else 0)
      + SizeFrom(args, vals, capture, i + 1)
  }

  /** The records from argument `i` on, over a block whose remaining content is `junk`. */
  function Records(args: seq<Arg>, vals: seq<Value>, capture: bool, junk: seq<byte>, i: nat): (recs: seq<Record>)
    requires ValidCall(args, vals) && i <= |args| && |junk| == SizeFrom(args, vals, capture, i)
    ensures Offset(recs, |recs|) == |junk|
    decreases |args| - i
  {
    if i == |args| then []
    else if !Wanted(args[i], capture) then Records(args, vals, capture, junk, i + 1)
    else
      var n := DataSize(args[i], vals[i]);
      var r := Record(i, args[i].direction, args[i].ty, DataOf(args[i], vals[i], junk[HEADER..HEADER + n]));
      var rest := Records(args, vals, capture, junk[HEADER + n..], i + 1);
      OffsetCons(r, rest, |rest|);
      [r] + rest
  }

  /** A packet: the truncated size and the payload block. */
  datatype Packet = Packet(total: nat, payload: seq<byte>)

  function Serialized(args: seq<Arg>, vals: seq<Value>, capture: bool, junk: seq<byte>): Packet
    requires ValidCall(args, vals) && |junk| == SizeFrom(args, vals, capture, 0)
  {
    var recs := Records(args, vals, capture, junk, 0);
    Packet(|junk| % WORD32, Flat(recs))
  }

  // ---------- deserializing ----------

  /** A register after deserializing: a number, or a pointer to a fresh buffer. */
  datatype Slot = Scalar(v: nat) | Buffer(bytes: seq<byte>)

  datatype Context = Context(slots: seq<Slot>, allocs: nat)

  /** The walk ends at `p`, or leaves the payload, or needs a ninth buffer. */
  datatype Outcome = Done(ctx: Context, p: nat) | Overrun | TooMany

  function Empty(args: seq<Arg>): Context {
    Context(seq(|args|, _ => Scalar(0)), 0)
  }

  function FieldAt(s: seq<byte>, p: nat, k: nat): nat
    requires p + HEADER <= |s| && k < 4
  {
    Number(s[p + 4 * k..p + 4 * k + 4])
  }

  /** What reading one record at `p` leads to: the next position and context, or an error. */
  datatype Move = Go(p: nat, ctx: Context) | Fail(out: Outcome)

  function ReadRecord(args: seq<Arg>, pkt: Packet, p: nat, ctx: Context): (m: Move)
    requires |ctx.slots| == |args|
    ensures m.Go? ==> m.p > p && |m.ctx.slots| == |args|
  {
    if p + HEADER > |pkt.payload| then Fail(Overrun)
    else
      var idx, n := FieldAt(pkt.payload, p, 0), FieldAt(pkt.payload, p, 3);
      var q := p + HEADER;
      if idx >= |args| then Go(q + n, ctx)
      else if args[idx].direction == VAL then
        if q + Min(n, 8) > |pkt.payload| then Fail(Overrun)
        else Go(q + n, ctx.(slots := ctx.slots[idx := Scalar(Number(pkt.payload[q..q + Min(n, 8)]))]))
      else if q + n > |pkt.payload| then Fail(Overrun)
      else if ctx.allocs >= MAX_ARGS then Fail(TooMany)
      else Go(q + n, Context(ctx.slots[idx := Buffer(pkt.payload[q..q + n])], ctx.allocs + 1))
  }

  /** The walk from `p` on. */
  function Deserialized(args: seq<Arg>, pkt: Packet, p: nat, ctx: Context): Outcome
    requires |ctx.slots| == |args|
    decreases pkt.total - p
  {
    if p >= pkt.total then Done(ctx, p)
    else
      match ReadRecord(args, pkt, p, ctx)
      case Go(p', ctx') => Deserialized(args, pkt, p', ctx')
      case Fail(out) => out
  }
}
