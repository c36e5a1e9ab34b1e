/**
 What a halo exchange does to the buffers: the plan captured from the export list,
 the two buffer layouts derived from it, and the law that a reverse exchange undoes
 a forward one.
 */
module HaloPlan {
  import opened Bytes

  const MAX_RANKS := 64

  /** One run of consecutive export items for one destination. */
  datatype Block = Block(proc: nat, start: nat, len: nat)

  /** All destinations are ranks, and each destination is one contiguous run. */
  predicate InRange(nranks: nat, pids: seq<int>) {
    forall i :: 0 <= i < |pids| ==> 0 <= pids[i] < nranks
  }

  predicate Grouped(pids: seq<int>) {
    forall i, j, k :: 0 <= i < j < k < |pids| && pids[i] == pids[k] ==> pids[j] == pids[i]
  }

  /** The blocks cut `pids` into its runs, in order, one per destination: the last
      block is the tail of the list, its destination occurs in no earlier block, and
      the earlier blocks cut what comes before. */
  predicate Partitions(blocks: seq<Block>, pids: seq<int>) {
    if blocks == [] then pids == []
    else
      var last, rest := blocks[|blocks| - 1], blocks[..|blocks| - 1];
      && last.len >= 1 && last.start + last.len == |pids|
      && (forall i :: last.start <= i < |pids| ==> pids[i] == last.proc)
      && (forall b :: 0 <= b < |rest| ==> rest[b].proc != last.proc)
      && Partitions(rest, pids[..last.start])
  }

  /** Every item's destination has a block. */
  lemma {:induction false} Covered(blocks: seq<Block>, pids: seq<int>, i: nat) returns (b: nat)
    requires Partitions(blocks, pids) && i < |pids|
    ensures b < |blocks| && blocks[b].proc == pids[i]
  {
    b := |blocks| - 1;
    if i < blocks[b].start {
      b := Covered(blocks[..b], pids[..blocks[b].start], i);
    }
  }

  /** Every block's destination occurs among the items. */
  lemma {:induction false} Occurs(blocks: seq<Block>, pids: seq<int>, b: nat) returns (i: nat)
    requires Partitions(blocks, pids) && b < |blocks|
    ensures i < |pids| && pids[i] == blocks[b].proc
    ensures b < |blocks| - 1 ==> i < blocks[|blocks| - 1].start
  {
    var m := |blocks| - 1;
    if b == m {
      i := blocks[b].start;
    } else {
      i := Occurs(blocks[..m], pids[..blocks[m].start], b);
    }
  }

  /** `seen` marks exactly the destinations that have a block. */
  predicate Marks(blocks: seq<Block>, seen: seq<bool>) {
    && (forall b :: 0 <= b < |blocks| ==> blocks[b].proc < |seen| && seen[blocks[b].proc])
    && (forall p :: 0 <= p < |seen| && seen[p] ==> exists b :: 0 <= b < |blocks| && blocks[b].proc == p)
  }

  /** Adding one more item with the destination of the last block. */
  lemma ExtendLast(blocks: seq<Block>, pids: seq<int>, p: nat, seen: seq<bool>)
    requires Partitions(blocks, pids) && blocks != [] && blocks[|blocks| - 1].proc == p && Marks(blocks, seen)
    ensures var longer := blocks[|blocks| - 1 := blocks[|blocks| - 1].(len := blocks[|blocks| - 1].len + 1)];
      Partitions(longer, pids + [p]) && Marks(longer, seen)
  {
    var m := |blocks| - 1;
    var longer := blocks[m := blocks[m].(len := blocks[m].len + 1)];
    assert forall b :: 0 <= b < |blocks| ==> longer[b].proc == blocks[b].proc;
    assert longer[..m] == blocks[..m];
    assert (pids + [p])[..blocks[m].start] == pids[..blocks[m].start];
  }

  lemma MarkNew(blocks: seq<Block>, x: Block, seen: seq<bool>)
    requires Marks(blocks, seen) && x.proc < |seen|
    ensures Marks(blocks + [x], seen[x.proc := true])
  {
    var more, now := blocks + [x], seen[x.proc := true];
    forall p | 0 <= p < |now| && now[p]
      ensures exists b :: 0 <= b < |more| && more[b].proc == p
    {
      if p == x.proc {
        assert more[|blocks|].proc == p;
      } else {
        var b :| 0 <= b < |blocks| && blocks[b].proc == p;
        assert more[b].proc == p;
      }
    }
  }

  /** Adding one more item with a destination not seen before. */
  lemma AddBlock(blocks: seq<Block>, pids: seq<int>, p: nat, seen: seq<bool>)
    requires Partitions(blocks, pids) && Marks(blocks, seen) && p < |seen| && !seen[p]
    ensures Partitions(blocks + [Block(p, |pids|, 1)], pids + [p])
    ensures Marks(blocks + [Block(p, |pids|, 1)], seen[p := true])
  {
    var more := blocks + [Block(p, |pids|, 1)];
    MarkNew(blocks, Block(p, |pids|, 1), seen);
    assert more[..|blocks|] == blocks && (pids + [p])[..|pids|] == pids;
  }

  /** A partitioned list is grouped. */
  lemma {:induction false} PartitionedIsGrouped(blocks: seq<Block>, pids: seq<int>)
    requires Partitions(blocks, pids)
    ensures Grouped(pids)
  {
    if blocks != [] {
      var m := |blocks| - 1;
      var before := pids[..blocks[m].start];
      PartitionedIsGrouped(blocks[..m], before);
      forall i | 0 <= i < blocks[m].start
        ensures pids[i] == before[i] != blocks[m].proc
      {
        var b := Covered(blocks[..m], before, i);
      }
    }
  }

  /** One turn of the capture loop: item `i` continues the last run, or opens a new one,
      or shows that its destination has a second run. */
  method CaptureItem(pids: seq<int>, i: nat, before: seq<Block>, seen: array<bool>)
    returns (ok: bool, blocks: seq<Block>)
    requires i < |pids| && 0 <= pids[i] < seen.Length
    requires Partitions(before, pids[..i]) && Marks(before, seen[..])
    modifies seen
    ensures ok ==> Partitions(blocks, pids[..i + 1]) && Marks(blocks, seen[..])
    ensures !ok ==> !Grouped(pids)
  {
    var p := pids[i];
    var m := |before| - 1;
    assert pids[..i + 1] == pids[..i] + [p];
    if before != [] && before[m].proc == p {
      ExtendLast(before, pids[..i], p, seen[..]);
      return true, before[m := before[m].(len := before[m].len + 1)];
    }
    if seen[p] {
      SecondRun(before, pids, i, seen[..]);
      return false, before;
    }
    AddBlock(before, pids[..i], p, seen[..]);
    ghost var marks := seen[..];
    seen[p] := true;
    assert seen[..] == marks[p := true];
    return true, before + [Block(p, i, 1)];
  }

  /** `capture`: accepts exactly the grouped lists of ranks, and then yields their runs. */
  method Capture(nranks: nat, pids: seq<int>) returns (ok: bool, blocks: seq<Block>)
    requires nranks <= MAX_RANKS
    ensures ok <==> InRange(nranks, pids) && Grouped(pids)
    ensures ok ==> Partitions(blocks, pids)
  {
    blocks, ok := [], true;
    var seen := new bool[MAX_RANKS](_ => false);
    var i := 0;
    while i < |pids|
      invariant 0 <= i <= |pids|
      invariant forall j :: 0 <= j < i ==> 0 <= pids[j] < nranks
      invariant Partitions(blocks, pids[..i])
      invariant Marks(blocks, seen[..])
    {
      if pids[i] < 0 || pids[i] >= nranks { return false, blocks; }
      ok, blocks := CaptureItem(pids, i, blocks, seen);
      if !ok { return; }
      i := i + 1;
    }
    assert pids[..i] == pids;
    PartitionedIsGrouped(blocks, pids);
    ok := true;
  }

  /** A destination that shows up again after its run has ended. */
  lemma SecondRun(blocks: seq<Block>, pids: seq<int>, i: nat, seen: seq<bool>)
    requires i < |pids| && Partitions(blocks, pids[..i]) && Marks(blocks, seen)
    requires 0 <= pids[i] < |seen| && seen[pids[i]] && (blocks != [] ==> blocks[|blocks| - 1].proc != pids[i])
    ensures !Grouped(pids)
  {
    var b :| 0 <= b < |blocks| && blocks[b].proc == pids[i];
    var mid := blocks[|blocks| - 1].start;
    var from := Occurs(blocks, pids[..i], b);
    assert pids[..i][from] == pids[from] && pids[..i][mid] == pids[mid];
    assert from < mid < i && pids[from] == pids[i] != pids[mid];
  }

  // ---------- buffer layouts ----------

  /** A stretch of a buffer that goes to, or comes from, one rank. */
  datatype Xfer = Xfer(proc: nat, off: nat, bytes: nat)

  /** One entry of the receive plan: source rank and number of items. */
  datatype Entry = Entry(proc: nat, len: nat)

  /** The export layout: each block where the capture found it. */
  function ExportLayout(blocks: seq<Block>, osz: nat): (xs: seq<Xfer>)
    ensures |xs| == |blocks|
  {
    seq(|blocks|, b requires 0 <= b < |blocks| =>
      Xfer(blocks[b].proc, blocks[b].start * osz, blocks[b].len * osz))
  }

  /** The import layout: the entries one after another, in plan order. */
  function ImportLayout(from: seq<Entry>, osz: nat, off: nat): (xs: seq<Xfer>)
    ensures |xs| == |from|
  {
    if from == [] then []
    else [Xfer(from[0].proc, off, from[0].len * osz)] + ImportLayout(from[1..], osz, off + from[0].len * osz)
  }

  function ItemCount(from: seq<Entry>): nat {
    if from == [] then 0 else from[0].len + ItemCount(from[1..])
  }

  /** The stretches lie end to end from `lo` to `hi`. */
  predicate Tiles(xs: seq<Xfer>, lo: nat, hi: nat) {
    if xs == [] then lo == hi
    else xs[0].off == lo && Tiles(xs[1..], lo + xs[0].bytes, hi)
  }

  predicate DistinctProcs(xs: seq<Xfer>) {
    forall i, j :: 0 <= i < j < |xs| ==> xs[i].proc != xs[j].proc
  }

  lemma {:induction false} TilesAppend(xs: seq<Xfer>, lo: nat, mid: nat, x: Xfer)
    requires Tiles(xs, lo, mid) && x.off == mid
    ensures Tiles(xs + [x], lo, mid + x.bytes)
  {
    if xs != [] {
      TilesAppend(xs[1..], lo + xs[0].bytes, mid, x);
      assert (xs + [x])[1..] == xs[1..] + [x];
    }
  }

  /** The export layout of captured blocks covers the export buffer, one stretch per rank. */
  lemma {:induction false} ExportTiles(blocks: seq<Block>, pids: seq<int>, osz: nat)
    requires Partitions(blocks, pids)
    ensures Tiles(ExportLayout(blocks, osz), 0, |pids| * osz)
    ensures DistinctProcs(ExportLayout(blocks, osz))
  {
    var xs := ExportLayout(blocks, osz);
    if blocks != [] {
      var m := |blocks| - 1;
      var last, rest := blocks[m], blocks[..m];
      ExportTiles(rest, pids[..last.start], osz);
      assert xs == ExportLayout(rest, osz) + [xs[m]];
      TilesAppend(ExportLayout(rest, osz), 0, last.start * osz, xs[m]);
      assert (last.start + last.len) * osz == last.start * osz + last.len * osz;
      assert forall b :: 0 <= b < m ==> xs[b].proc == rest[b].proc;
    }
  }

  lemma {:induction false} ImportTiles(from: seq<Entry>, osz: nat, off: nat)
    ensures Tiles(ImportLayout(from, osz, off), off, off + ItemCount(from) * osz)
  {
    if from != [] {
      ImportTiles(from[1..], osz, off + from[0].len * osz);
      assert ImportLayout(from, osz, off)[1..] == ImportLayout(from[1..], osz, off + from[0].len * osz);
      assert (from[0].len + ItemCount(from[1..])) * osz == from[0].len * osz + ItemCount(from[1..]) * osz;
    }
  }

  lemma {:induction false} TilesReach(xs: seq<Xfer>, lo: nat, hi: nat)
    requires Tiles(xs, lo, hi) && xs != []
    ensures xs[|xs| - 1].off + xs[|xs| - 1].bytes == hi
  {
    if |xs| > 1 {
      TilesReach(xs[1..], lo + xs[0].bytes, hi);
    }
  }

  /** Every stretch ends below `limit`. */
  predicate Within(xs: seq<Xfer>, limit: nat) {
    forall i :: 0 <= i < |xs| ==> xs[i].off + xs[i].bytes < limit
  }

  lemma TilesWithin(xs: seq<Xfer>, total: nat, limit: nat)
    requires Tiles(xs, 0, total) && limit > 0
    ensures Within(xs, limit) <==> total < limit
  {
    TilesOrdered(xs, 0, total);
    if xs != [] { TilesReach(xs, 0, total); }
  }

  /** The running offset is an `int`: it stays in range, block by block, exactly when the
      whole import buffer is shorter than 2^31 bytes. */
  lemma OffsetsFit(from: seq<Entry>, osz: nat)
    ensures Within(ImportLayout(from, osz, 0), 0x8000_0000) <==> ItemCount(from) * osz < 0x8000_0000
  {
    ImportTiles(from, osz, 0);
    TilesWithin(ImportLayout(from, osz, 0), ItemCount(from) * osz, 0x8000_0000);
  }

  /** The receive plan's arrays come without a length: it is recovered by adding up
      item counts until the known total is reached.  What is cut off carries nothing. */
  method ReceiveBlocks(from: seq<Entry>, total: nat) returns (n: nat)
    requires total == ItemCount(from)
    ensures n <= |from| && ItemCount(from[..n]) == total
    ensures forall i :: n <= i < |from| ==> from[i].len == 0
  {
    var sum := 0;
    n := 0;
    assert from[0..] == from;
    while sum < total
      invariant n <= |from| && sum == ItemCount(from[..n]) && sum + ItemCount(from[n..]) == total
      decreases |from| - n
    {
      assert from[n..] == [from[n]] + from[n + 1..];
      CountAppend(from[..n], from[n]);
      assert from[..n + 1] == from[..n] + [from[n]];
      sum := sum + from[n].len;
      n := n + 1;
    }
    NothingCounted(from[n..]);
    assert forall i :: n <= i < |from| ==> from[i] == from[n..][i - n];
  }

  lemma {:induction false} CountAppend(from: seq<Entry>, e: Entry)
    ensures ItemCount(from + [e]) == ItemCount(from) + e.len
  {
    if from != [] {
      CountAppend(from[1..], e);
      assert (from + [e])[1..] == from[1..] + [e];
    }
  }

  lemma {:induction false} NothingCounted(from: seq<Entry>)
    requires ItemCount(from) == 0
    ensures forall i :: 0 <= i < |from| ==> from[i].len == 0
  {
    if from != [] {
      NothingCounted(from[1..]);
      assert forall i :: 1 <= i < |from| ==> from[i] == from[1..][i - 1];
    }
  }

  // ---------- one exchange ----------

  /** The message that a rank with layout `xs` sends to rank `q` out of buffer `ex`. */
  function Outgoing(xs: seq<Xfer>, ex: seq<byte>, q: nat): seq<byte> {
    if xs == [] then []
    else if xs[0].proc == q then
      if xs[0].off + xs[0].bytes <= |ex| then ex[xs[0].off..xs[0].off + xs[0].bytes] else []
    else Outgoing(xs[1..], ex, q)
  }

  /** Copying `msg` to offset `off`. */
  function Place(im: seq<byte>, off: nat, msg: seq<byte>): seq<byte> {
    if off + |msg| <= |im| then im[..off] + msg + im[off + |msg|..] else im
  }

  /** The receive buffer after the message of every stretch has been copied in; the
      self message is one of them. */
  function Receive(im: seq<byte>, xs: seq<Xfer>, msg: nat -> seq<byte>): (r: seq<byte>)
    ensures |r| == |im|
    decreases |xs|
  {
    if xs == [] then im else Receive(Place(im, xs[0].off, msg(xs[0].proc)), xs[1..], msg)
  }

  /** Each stretch of the receive buffer ends up holding the message of its rank, and
      nothing outside the stretches is touched, whatever the buffer held before. */
  lemma {:induction false} ReceivedAt(im: seq<byte>, xs: seq<Xfer>, msg: nat -> seq<byte>, lo: nat, hi: nat, i: nat)
    requires Tiles(xs, lo, hi) && hi <= |im|
    requires forall j :: 0 <= j < |xs| ==> |msg(xs[j].proc)| == xs[j].bytes
    ensures lo <= hi && Receive(im, xs, msg)[..lo] == im[..lo] && Receive(im, xs, msg)[hi..] == im[hi..]
    ensures i < |xs| ==> xs[i].off + xs[i].bytes <= |im|
    ensures i < |xs| ==> Receive(im, xs, msg)[xs[i].off..xs[i].off + xs[i].bytes] == msg(xs[i].proc)
    decreases |xs|
  {
    if xs != [] {
      var m := msg(xs[0].proc);
      TilesOrdered(xs[1..], lo + |m|, hi);
      var im' := Place(im, xs[0].off, m);
      assert im'[..lo + |m|] == im[..lo] + m;
      assert im'[hi..] == im[hi..];
      ReceivedAt(im', xs[1..], msg, lo + |m|, hi, if i == 0 then 0 else i - 1);
      var r := Receive(im, xs, msg);
      assert r[..lo] == r[..lo + |m|][..lo];
      if i == 0 {
        assert r[lo..lo + |m|] == r[..lo + |m|][lo..];
      }
    }
  }

  lemma {:induction false} TilesOrdered(xs: seq<Xfer>, lo: nat, hi: nat)
    requires Tiles(xs, lo, hi)
    ensures lo <= hi
    ensures forall i :: 0 <= i < |xs| ==> lo <= xs[i].off && xs[i].off + xs[i].bytes <= hi
  {
    if xs != [] {
      TilesOrdered(xs[1..], lo + xs[0].bytes, hi);
      assert forall i :: 1 <= i < |xs| ==> xs[i] == xs[1..][i - 1];
    }
  }

  lemma {:induction false} OutgoingAt(xs: seq<Xfer>, ex: seq<byte>, i: nat)
    requires DistinctProcs(xs) && i < |xs| && xs[i].off + xs[i].bytes <= |ex|
    ensures Outgoing(xs, ex, xs[i].proc) == ex[xs[i].off..xs[i].off + xs[i].bytes]
  {
    if i > 0 {
      OutgoingAt(xs[1..], ex, i - 1);
    }
  }

  /** Two buffers that agree on every stretch of a tiling agree. */
  lemma {:induction false} AgreeOnTiles(xs: seq<Xfer>, a: seq<byte>, b: seq<byte>, lo: nat, hi: nat)
    requires Tiles(xs, lo, hi) && hi <= |a| && hi <= |b|
    requires forall i :: 0 <= i < |xs| ==>
      xs[i].off + xs[i].bytes <= hi &&
      a[xs[i].off..xs[i].off + xs[i].bytes] == b[xs[i].off..xs[i].off + xs[i].bytes]
    ensures lo <= hi && a[lo..hi] == b[lo..hi]
  {
    TilesOrdered(xs, lo, hi);
    if xs != [] {
      var mid := lo + xs[0].bytes;
      assert forall i :: 0 <= i < |xs| - 1 ==> xs[1..][i] == xs[i + 1];
      AgreeOnTiles(xs[1..], a, b, mid, hi);
      assert a[lo..mid] == b[lo..mid];
      assert a[lo..hi] == a[lo..mid] + a[mid..hi];
      assert b[lo..hi] == b[lo..mid] + b[mid..hi];
    }
  }

  // ---------- all ranks: forward, then reverse ----------

  /** One rank's plan: the export layout and the import layout, in bytes. */
  datatype Plan = Plan(out: seq<Xfer>, outBytes: nat, into: seq<Xfer>, intoBytes: nat)

  predicate ValidPlan(p: Plan) {
    Tiles(p.out, 0, p.outBytes) && DistinctProcs(p.out) && Tiles(p.into, 0, p.intoBytes) && DistinctProcs(p.into)
  }

  function BytesFor(xs: seq<Xfer>, q: nat): nat {
    if xs == [] then 0 else if xs[0].proc == q then xs[0].bytes else BytesFor(xs[1..], q)
  }

  /** What `p` sends to `q` is as long as what `q` expects from `p`. */
  predicate Consistent(plans: seq<Plan>) {
    && (forall p :: 0 <= p < |plans| ==> ValidPlan(plans[p]))
    && (forall p, q :: 0 <= p < |plans| && 0 <= q < |plans| ==>
          BytesFor(plans[p].out, q) == BytesFor(plans[q].into, p))
    && (forall p, i :: 0 <= p < |plans| && 0 <= i < |plans[p].out| ==> plans[p].out[i].proc < |plans|)
    && (forall p, i :: 0 <= p < |plans| && 0 <= i < |plans[p].into| ==> plans[p].into[i].proc < |plans|)
  }

  /** The messages that reach rank `p` when layouts `xs` send out of buffers `from`. */
  function Inbox(xs: seq<seq<Xfer>>, from: seq<seq<byte>>, p: nat): nat -> seq<byte>
    requires |xs| == |from|
  {
    (q: nat) => if q < |xs| then Outgoing(xs[q], from[q], p) else []
  }

  function Outs(plans: seq<Plan>): (xs: seq<seq<Xfer>>)
    ensures |xs| == |plans|
  {
    seq(|plans|, p requires 0 <= p < |plans| => plans[p].out)
  }

  function Intos(plans: seq<Plan>): (xs: seq<seq<Xfer>>)
    ensures |xs| == |plans|
  {
    seq(|plans|, p requires 0 <= p < |plans| => plans[p].into)
  }

  /** The forward exchange as rank `p` sees it: export layouts send, import layouts receive. */
  function Forward(plans: seq<Plan>, exports: seq<seq<byte>>, p: nat, im: seq<byte>): seq<byte>
    requires p < |plans| == |exports|
  {
    Receive(im, plans[p].into, Inbox(Outs(plans), exports, p))
  }

  /** The reverse exchange: import layouts send, export layouts receive. */
  function Reverse(plans: seq<Plan>, imports: seq<seq<byte>>, p: nat, ex: seq<byte>): seq<byte>
    requires p < |plans| == |imports|
  {
    Receive(ex, plans[p].out, Inbox(Intos(plans), imports, p))
  }

  lemma {:induction false} BytesForAt(xs: seq<Xfer>, i: nat)
    requires DistinctProcs(xs) && i < |xs|
    ensures BytesFor(xs, xs[i].proc) == xs[i].bytes
  {
    if i > 0 {
      BytesForAt(xs[1..], i - 1);
    }
  }

  lemma {:induction false} OutgoingLength(xs: seq<Xfer>, ex: seq<byte>, q: nat, lo: nat, hi: nat)
    requires Tiles(xs, lo, hi) && hi <= |ex|
    ensures |Outgoing(xs, ex, q)| == BytesFor(xs, q)
  {
    TilesOrdered(xs, lo, hi);
    if xs != [] && xs[0].proc != q {
      OutgoingLength(xs[1..], ex, q, lo + xs[0].bytes, hi);
    }
  }

  lemma {:induction false} FindProc(xs: seq<Xfer>, q: nat) returns (i: nat)
    requires BytesFor(xs, q) > 0
    ensures i < |xs| && xs[i].proc == q
  {
    if xs[0].proc == q {
      i := 0;
    } else {
      var j := FindProc(xs[1..], q);
      i := j + 1;
    }
  }

  /** Every message is as long as the stretch it is received into. */
  lemma MessagesFit(plans: seq<Plan>, exports: seq<seq<byte>>, q: nat)
    requires Consistent(plans) && |plans| == |exports| && q < |plans|
    requires forall r :: 0 <= r < |plans| ==> |exports[r]| >= plans[r].outBytes
    ensures var msg := Inbox(Outs(plans), exports, q);
      forall j :: 0 <= j < |plans[q].into| ==> |msg(plans[q].into[j].proc)| == plans[q].into[j].bytes
  {
    var msg := Inbox(Outs(plans), exports, q);
    forall j | 0 <= j < |plans[q].into|
      ensures |msg(plans[q].into[j].proc)| == plans[q].into[j].bytes
    {
      var r := plans[q].into[j].proc;
      assert r < |plans|;
      OutgoingLength(plans[r].out, exports[r], q, 0, plans[r].outBytes);
      BytesForAt(plans[q].into, j);
    }
  }

  /** After the forward exchange, what `q` would send back to `p` is what `p` sent. */
  lemma SentBack(plans: seq<Plan>, exports: seq<seq<byte>>, im: seq<byte>, p: nat, q: nat)
    requires Consistent(plans) && |plans| == |exports| && p < |plans| && q < |plans|
    requires forall r :: 0 <= r < |plans| ==> |exports[r]| >= plans[r].outBytes
    requires |im| >= plans[q].intoBytes
    ensures Outgoing(plans[q].into, Forward(plans, exports, q, im), p) == Outgoing(plans[p].out, exports[p], q)
  {
    var into, back := plans[q].into, Forward(plans, exports, q, im);
    OutgoingLength(plans[p].out, exports[p], q, 0, plans[p].outBytes);
    OutgoingLength(into, back, p, 0, plans[q].intoBytes);
    if BytesFor(into, p) > 0 {
      var i := FindProc(into, p);
      MessagesFit(plans, exports, q);
      ReceivedAt(im, into, Inbox(Outs(plans), exports, q), 0, plans[q].intoBytes, i);
      OutgoingAt(into, back, i);
    }
  }

  /** What the reverse exchange brings back for each stretch is what was in it. */
  lemma BroughtBack(plans: seq<Plan>, exports: seq<seq<byte>>, imports: seq<seq<byte>>,
                    ims: seq<seq<byte>>, p: nat, i: nat)
    requires Consistent(plans) && |plans| == |exports| == |imports| == |ims| && p < |plans| && i < |plans[p].out|
    requires forall r :: 0 <= r < |plans| ==> |exports[r]| >= plans[r].outBytes && |ims[r]| >= plans[r].intoBytes
    requires forall r :: 0 <= r < |plans| ==> imports[r] == Forward(plans, exports, r, ims[r])
    ensures var x := plans[p].out[i];
      && x.off + x.bytes <= plans[p].outBytes
      && Inbox(Intos(plans), imports, p)(x.proc) == exports[p][x.off..x.off + x.bytes]
  {
    var out := plans[p].out;
    TilesOrdered(out, 0, plans[p].outBytes);
    assert out[i].proc < |plans|;
    SentBack(plans, exports, ims[out[i].proc], p, out[i].proc);
    OutgoingAt(out, exports[p], i);
  }

  /** Forward then reverse is the identity on every rank's export buffer, byte for
      byte, self block included, whatever the receive buffers held before. */
  lemma ReverseUndoesForward(plans: seq<Plan>, exports: seq<seq<byte>>, imports: seq<seq<byte>>,
                             ims: seq<seq<byte>>, p: nat, ex: seq<byte>)
    requires Consistent(plans) && |plans| == |exports| == |imports| == |ims| && p < |plans|
    requires forall r :: 0 <= r < |plans| ==> |exports[r]| >= plans[r].outBytes && |ims[r]| >= plans[r].intoBytes
    requires forall r :: 0 <= r < |plans| ==> imports[r] == Forward(plans, exports, r, ims[r])
    requires |ex| >= plans[p].outBytes
    ensures Reverse(plans, imports, p, ex)[..plans[p].outBytes] == exports[p][..plans[p].outBytes]
  {
    var out, n, msg := plans[p].out, plans[p].outBytes, Inbox(Intos(plans), imports, p);
    forall i | 0 <= i < |out|
      ensures out[i].off + out[i].bytes <= n && |msg(out[i].proc)| == out[i].bytes
      ensures msg(out[i].proc) == exports[p][out[i].off..out[i].off + out[i].bytes]
    {
      BroughtBack(plans, exports, imports, ims, p, i);
    }
    RestoresTiles(out, exports[p], ex, msg, n);
  }

  /** Receiving into every stretch what it held in `a` restores `a`. */
  lemma RestoresTiles(xs: seq<Xfer>, a: seq<byte>, b: seq<byte>, msg: nat -> seq<byte>, n: nat)
    requires Tiles(xs, 0, n) && n <= |a| && n <= |b|
    requires forall i :: 0 <= i < |xs| ==> xs[i].off + xs[i].bytes <= n && |msg(xs[i].proc)| == xs[i].bytes
    requires forall i :: 0 <= i < |xs| ==> msg(xs[i].proc) == a[xs[i].off..xs[i].off + xs[i].bytes]
    ensures Receive(b, xs, msg)[..n] == a[..n]
  {
    var r := Receive(b, xs, msg);
    forall i | 0 <= i < |xs|
      ensures r[xs[i].off..xs[i].off + xs[i].bytes] == a[xs[i].off..xs[i].off + xs[i].bytes]
    {
      ReceivedAt(b, xs, msg, 0, n, i);
    }
    AgreeOnTiles(xs, r, a, 0, n);
    assert r[..n] == r[0..n] && a[..n] == a[0..n];
  }

  // ---------- from captured blocks to plans ----------

  /** The layouts derived from a captured export list and a receive plan that names
      each source once are a valid plan. */
  lemma CapturedPlanIsValid(blocks: seq<Block>, pids: seq<int>, from: seq<Entry>, osz: nat)
    requires Partitions(blocks, pids)
    requires forall i, j :: 0 <= i < j < |from| ==> from[i].proc != from[j].proc
    ensures ValidPlan(Plan(ExportLayout(blocks, osz), |pids| * osz, ImportLayout(from, osz, 0), ItemCount(from) * osz))
  {
    ExportTiles(blocks, pids, osz);
    ImportTiles(from, osz, 0);
    ImportProcs(from, osz, 0);
  }

  lemma {:induction false} ImportProcs(from: seq<Entry>, osz: nat, off: nat)
    ensures forall i :: 0 <= i < |from| ==> ImportLayout(from, osz, off)[i].proc == from[i].proc
  {
    if from != [] {
      ImportProcs(from[1..], osz, off + from[0].len * osz);
    }
  }
}
