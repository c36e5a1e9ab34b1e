/** Rewriting the calls that a scan finds: what changes, and what a second scan sees. */
module RiscVRewrite {
  import opened Bytes
  import opened RiscV

  // ---------- where the calls are ----------

  /** After a long call the scan meets its second word, which is no call, and goes on behind it. */
  lemma AfterLong(j: Job, d: seq<byte>, off: nat)
    requires Inside(j, d, off) && off + 4 <= End(j) && IsJalr(WordAt(d, off + 4))
    ensures Sites(j, d, off + 4) == Sites(j, d, off + 8)
  {
    if off + 4 < End(j) {
      assert WordAt(d, off + 4) % 4 == 3 by { OpcodeLow(WordAt(d, off + 4)); }
      assert SitesAt(j, d, off + 4) == [];
    }
  }

  lemma OpcodeLow(w: nat)
    ensures w % 4 == Opcode(w) % 4
  {
  }

  /** The scan from `off` on, one step at a time: the calls at `off`, then those behind them. */
  lemma SitesStep(j: Job, d: seq<byte>, off: nat)
    requires Inside(j, d, off)
    ensures var here := SitesAt(j, d, off);
      Sites(j, d, off) == here + Sites(j, d, if here != [] then Stop(here[0]) else NextOff(d, off))
  {
    var here := SitesAt(j, d, off);
    if here != [] && here[0].long { AfterLong(j, d, off); }
  }

  predicate Behind(a: Site, b: Site) {
    Stop(a) <= b.off
  }

  predicate SiteIn(j: Job, s: Site, lo: nat) {
    lo <= s.off && Stop(s) <= j.lo + j.size && (Covered(j) ==> s.func in j.repl)
  }

  /** Calls lie behind one another, inside the text, and name functions that have replacements. */
  ghost predicate InOrder(j: Job, sites: seq<Site>, lo: nat) {
    && (forall i :: 0 <= i < |sites| ==> SiteIn(j, sites[i], lo))
    && (forall i, k {:trigger Behind(sites[i], sites[k])} :: 0 <= i < k < |sites| ==> Behind(sites[i], sites[k]))
  }

  lemma OrderCons(j: Job, here: seq<Site>, rest: seq<Site>, off: nat, n: nat)
    requires InOrder(j, rest, n) && off <= n && |here| <= 1
    requires here != [] ==> SiteIn(j, here[0], off) && Stop(here[0]) == n
    ensures InOrder(j, here + rest, off)
  {
    var sites := here + rest;
    forall i | 0 <= i < |sites|
      ensures SiteIn(j, sites[i], off)
    {
      if i >= |here| { assert SiteIn(j, rest[i - |here|], n); }
    }
    forall i, k | 0 <= i < k < |sites|
      ensures Behind(sites[i], sites[k])
    {
      assert SiteIn(j, rest[k - |here|], n);
      if i >= |here| { assert Behind(rest[i - |here|], rest[k - |here|]); }
    }
  }

  /** The calls found are pairwise disjoint, in ascending order. */
  lemma {:induction false} SitesInOrder(j: Job, d: seq<byte>, off: nat)
    requires Fits(j, d) && j.lo <= off
    ensures InOrder(j, Sites(j, d, off), off)
    decreases End(j) - off
  {
    if off < End(j) {
      var here := SitesAt(j, d, off);
      SitesStep(j, d, off);
      var n := if here != [] then Stop(here[0]) else NextOff(d, off);
      SitesInOrder(j, d, n);
      OrderCons(j, here, Sites(j, d, n), off, n);
    }
  }

  // ---------- what patching changes ----------

  ghost predicate Agree(a: seq<byte>, b: seq<byte>, lo: nat) {
    |a| == |b| && forall i :: lo <= i < |a| ==> a[i] == b[i]
  }

  /** One patch writes its words and nothing else. */
  lemma PatchSiteIs(j: Job, d: seq<byte>, s: Site)
    requires Covered(j) && SiteFits(j, s, |d|)
    ensures var d' := PatchSite(j, d, s);
      && WordAt(d', s.off) == j.repl[s.func].first
      && (s.long ==> WordAt(d', s.off + 4) == j.repl[s.func].second)
      && forall i :: 0 <= i < |d| && !(s.off <= i < Stop(s)) ==> d'[i] == d[i]
  {
    var p := j.repl[s.func];
    var d1 := WriteAt(d, s.off, p.first);
    WriteBytes(d, s.off, p.first);
    if s.long {
      WriteBytes(d1, s.off + 4, p.second);
      SameWord(d1, PatchSite(j, d, s), s.off);
    }
  }

  lemma SameWord(a: seq<byte>, b: seq<byte>, off: nat)
    requires |a| == |b| && off + 4 <= |a| && forall i :: off <= i < off + 4 ==> a[i] == b[i]
    ensures WordAt(a, off) == WordAt(b, off)
  {
    assert a[off] == b[off] && a[off + 1] == b[off + 1] && a[off + 2] == b[off + 2] && a[off + 3] == b[off + 3];
  }

  ghost predicate Patchable(j: Job, sites: seq<Site>, size: nat) {
    Covered(j) && forall i :: 0 <= i < |sites| ==> SiteFits(j, sites[i], size)
  }

  /** Whether a byte belongs to one of the calls. */
  ghost predicate Covers(sites: seq<Site>, i: nat) {
    exists k :: 0 <= k < |sites| && sites[k].off <= i < Stop(sites[k])
  }

  /** Bytes outside the calls are unchanged. */
  lemma {:induction false} OutsideUnchanged(j: Job, d: seq<byte>, sites: seq<Site>, i: nat)
    requires Patchable(j, sites, |d|) && i < |d| && !Covers(sites, i)
    ensures PatchAll(j, d, sites)[i] == d[i]
    decreases |sites|
  {
    if sites != [] {
      PatchSiteIs(j, d, sites[0]);
      assert forall k :: 0 <= k < |sites[1..]| ==> sites[1..][k] == sites[k + 1];
      OutsideUnchanged(j, PatchSite(j, d, sites[0]), sites[1..], i);
    }
  }

  lemma PatchBelow(j: Job, d: seq<byte>, sites: seq<Site>, lo: nat)
    requires Patchable(j, sites, |d|) && forall k :: 0 <= k < |sites| ==> lo <= sites[k].off
    ensures forall i :: 0 <= i < lo && i < |d| ==> PatchAll(j, d, sites)[i] == d[i]
  {
    forall i | 0 <= i < lo && i < |d|
      ensures PatchAll(j, d, sites)[i] == d[i]
    {
      OutsideUnchanged(j, d, sites, i);
    }
  }

  lemma FirstReplaced(j: Job, d: seq<byte>, sites: seq<Site>)
    requires Patchable(j, sites, |d|) && sites != [] && InOrder(j, sites, 0)
    ensures var d' := PatchAll(j, d, sites); var s := sites[0];
      && WordAt(d', s.off) == j.repl[s.func].first
      && (s.long ==> WordAt(d', s.off + 4) == j.repl[s.func].second)
  {
    var s := sites[0];
    var d1, d' := PatchSite(j, d, s), PatchAll(j, d, sites);
    assert d' == PatchAll(j, d1, sites[1..]);
    PatchSiteIs(j, d, s);
    assert forall k :: 0 < k < |sites| ==> Behind(s, sites[k]);
    PatchBelow(j, d1, sites[1..], Stop(s));
    SameWord(d1, d', s.off);
    if s.long { SameWord(d1, d', s.off + 4); }
  }

  lemma OrderTail(j: Job, sites: seq<Site>)
    requires sites != [] && InOrder(j, sites, 0)
    ensures InOrder(j, sites[1..], 0)
  {
    forall i, k | 0 <= i < k < |sites| - 1
      ensures Behind(sites[1..][i], sites[1..][k])
    {
      assert Behind(sites[i + 1], sites[k + 1]);
    }
  }

  /** Every call is replaced, by the words for its function. */
  lemma {:induction false} InsideReplaced(j: Job, d: seq<byte>, sites: seq<Site>, k: nat)
    requires Patchable(j, sites, |d|) && k < |sites| && InOrder(j, sites, 0)
    ensures var d' := PatchAll(j, d, sites); var s := sites[k];
      && WordAt(d', s.off) == j.repl[s.func].first
      && (s.long ==> WordAt(d', s.off + 4) == j.repl[s.func].second)
    decreases |sites|
  {
    if k == 0 {
      FirstReplaced(j, d, sites);
    } else {
      OrderTail(j, sites);
      InsideReplaced(j, PatchSite(j, d, sites[0]), sites[1..], k - 1);
    }
  }

  // ---------- scanning again ----------

  lemma AgreeWord(a: seq<byte>, b: seq<byte>, lo: nat, off: nat)
    requires Agree(a, b, lo) && lo <= off && off + 4 <= |a|
    ensures WordAt(a, off) == WordAt(b, off)
  {
    SameWord(a, b, off);
  }

  /** A scan sees only what lies behind its start. */
  lemma {:induction false} ScanFrame(j: Job, a: seq<byte>, b: seq<byte>, off: nat)
    requires Fits(j, a) && j.lo <= off && Agree(a, b, off)
    ensures Visited(j, a, off) == Visited(j, b, off) && Sites(j, a, off) == Sites(j, b, off)
    decreases End(j) - off
  {
    if off < End(j) {
      AgreeWord(a, b, off, off);
      if off + 4 <= End(j) { AgreeWord(a, b, off, off + 4); }
      ScanFrame(j, a, b, NextOff(a, off));
    }
  }

  lemma {:induction false} PatchAgrees(j: Job, a: seq<byte>, b: seq<byte>, sites: seq<Site>, lo: nat)
    requires Patchable(j, sites, |a|) && Agree(a, b, lo) && forall k :: 0 <= k < |sites| ==> lo <= sites[k].off
    ensures Agree(PatchAll(j, a, sites), PatchAll(j, b, sites), lo)
    decreases |sites|
  {
    if sites != [] {
      PatchSame(j, a, b, sites[0], lo);
      PatchAgrees(j, PatchSite(j, a, sites[0]), PatchSite(j, b, sites[0]), sites[1..], lo);
    }
  }

  lemma PatchSame(j: Job, a: seq<byte>, b: seq<byte>, s: Site, lo: nat)
    requires Covered(j) && SiteFits(j, s, |a|) && Agree(a, b, lo) && lo <= s.off
    ensures Agree(PatchSite(j, a, s), PatchSite(j, b, s), lo)
  {
    WriteSame(a, b, s.off, j.repl[s.func].first, lo);
    if s.long {
      var first, second := j.repl[s.func].first, j.repl[s.func].second;
      WriteSame(WriteAt(a, s.off, first), WriteAt(b, s.off, first), s.off + 4, second, lo);
    }
  }

  lemma WriteSame(a: seq<byte>, b: seq<byte>, off: nat, w: nat, lo: nat)
    requires Agree(a, b, lo) && lo <= off && off + 4 <= |a| && w < WORD32
    ensures Agree(WriteAt(a, off, w), WriteAt(b, off, w), lo)
  {
  }

  /** A word that the scan passes over as one 32-bit instruction that calls nothing and
      begins no call: neither a `jal` that links nor an `auipc`. */
  predicate Passive(w: nat) {
    w % 4 == 3 && !(IsJal(w) && Rd(w) == RA) && !IsAuipc(w)
  }

  /** A passive word that also completes no call that the word before it begins. */
  predicate Inert(w: nat) {
    Passive(w) && !IsJalr(w)
  }

  ghost predicate InertJob(j: Job) {
    Covered(j) && forall f :: f in j.repl ==> Inert(j.repl[f].first) && Passive(j.repl[f].second)
  }

  /** The custom instructions and the no-operation are inert. */
  lemma CustomIsInert(opcode: nat, funct3: nat, funct7: nat, rd: nat, rs1: nat, rs2: nat)
    requires CustomOpcode(opcode)
    ensures Inert(CustomR(opcode, funct3, funct7, rd, rs1, rs2)) && Inert(NOP)
  {
    CustomFields(opcode, funct3, funct7, rd, rs1, rs2);
    OpcodeLow(CustomR(opcode, funct3, funct7, rd, rs1, rs2));
  }

  /** The text with the calls from `off` on replaced. */
  ghost function Rewritten(j: Job, d: seq<byte>, off: nat): (d': seq<byte>)
    requires Covered(j) && Fits(j, d) && j.lo <= off
    ensures |d'| == |d|
  {
    SitesInOrder(j, d, off);
    PatchAll(j, d, Sites(j, d, off))
  }

  lemma RewrittenBelow(j: Job, d: seq<byte>, off: nat)
    requires Covered(j) && Fits(j, d) && j.lo <= off
    ensures forall i :: 0 <= i < off && i < |d| ==> Rewritten(j, d, off)[i] == d[i]
  {
    SitesInOrder(j, d, off);
    PatchBelow(j, d, Sites(j, d, off), off);
  }

  /** Where nothing is found at `off`, the rewriting is that of the rest. */
  lemma RewrittenSkip(j: Job, d: seq<byte>, off: nat)
    requires Covered(j) && Inside(j, d, off) && SitesAt(j, d, off) == []
    ensures Rewritten(j, d, off) == Rewritten(j, d, NextOff(d, off))
  {
    SitesStep(j, d, off);
    assert Sites(j, d, off) == Sites(j, d, NextOff(d, off));
  }

  /** Where a call is found at `off`, its words are replaced and the rest is rewritten as before. */
  lemma RewrittenSite(j: Job, d: seq<byte>, off: nat)
    requires Covered(j) && Inside(j, d, off) && SitesAt(j, d, off) != []
    ensures var s := SitesAt(j, d, off)[0]; var d' := Rewritten(j, d, off);
      && s.func in j.repl
      && WordAt(d', off) == j.repl[s.func].first
      && (s.long ==> WordAt(d', off + 4) == j.repl[s.func].second)
      && Agree(d', Rewritten(j, d, Stop(s)), Stop(s))
  {
    var s := SitesAt(j, d, off)[0];
    SitesStep(j, d, off);
    SitesInOrder(j, d, off);
    SitesInOrder(j, d, Stop(s));
    var sites := Sites(j, d, off);
    assert sites[1..] == Sites(j, d, Stop(s));
    InsideReplaced(j, d, sites, 0);
    PatchSiteIs(j, d, s);
    PatchAgrees(j, PatchSite(j, d, s), d, sites[1..], Stop(s));
  }

  /** A word that has become or stayed a `jalr` is the word that was there. */
  lemma NoNewJalr(j: Job, d: seq<byte>, n: nat)
    requires InertJob(j) && Fits(j, d) && j.lo <= n <= End(j)
    ensures var w := WordAt(Rewritten(j, d, n), n); IsJalr(w) ==> w == WordAt(d, n)
  {
    var d' := Rewritten(j, d, n);
    if n == End(j) {
      assert d' == d;
    } else if SitesAt(j, d, n) != [] {
      RewrittenSite(j, d, n);
    } else {
      RewrittenSkip(j, d, n);
      RewrittenBelow(j, d, NextOff(d, n));
      if Short(d, n) {
        LowByte(d, n);
        LowByte(d', n);
        OpcodeLow(WordAt(d', n));
      } else {
        SameWord(d, d', n);
      }
    }
  }

  /** Two scans, before and after: the same offsets, and no call any more. */
  ghost predicate Quiet(j: Job, d: seq<byte>, d': seq<byte>, off: nat) {
    Fits(j, d) && Fits(j, d') && j.lo <= off && Visited(j, d', off) == Visited(j, d, off) && Sites(j, d', off) == []
  }

  lemma QuietSkip(j: Job, d: seq<byte>, off: nat)
    requires InertJob(j) && Inside(j, d, off) && SitesAt(j, d, off) == []
    requires Quiet(j, d, Rewritten(j, d, NextOff(d, off)), NextOff(d, off))
    ensures Quiet(j, d, Rewritten(j, d, off), off)
  {
    var d', n := Rewritten(j, d, off), NextOff(d, off);
    RewrittenSkip(j, d, off);
    RewrittenBelow(j, d, n);
    LowByte(d, off);
    LowByte(d', off);
    if !Short(d, off) {
      SameWord(d, d', off);
      if off + 4 <= End(j) { NoNewJalr(j, d, off + 4); }
    }
    assert SitesAt(j, d', off) == [];
  }

  /** A passive word in place of a 32-bit instruction. */
  lemma QuietWord(j: Job, d: seq<byte>, d': seq<byte>, off: nat)
    requires Inside(j, d, off) && Inside(j, d', off) && !Short(d, off) && Passive(WordAt(d', off))
    requires Quiet(j, d, d', off + 4)
    ensures Quiet(j, d, d', off)
  {
    assert SitesAt(j, d', off) == [] && NextOff(d', off) == off + 4;
  }

  lemma SiteShape(j: Job, d: seq<byte>, off: nat)
    requires Inside(j, d, off) && SitesAt(j, d, off) != []
    ensures var s := SitesAt(j, d, off)[0];
      s.off == off && !Short(d, off) && (s.long ==> off + 4 <= End(j) && !Short(d, off + 4))
  {
    if SitesAt(j, d, off)[0].long { OpcodeLow(WordAt(d, off + 4)); }
  }

  lemma QuietSite(j: Job, d: seq<byte>, off: nat)
    requires InertJob(j) && Inside(j, d, off) && SitesAt(j, d, off) != []
    requires var n := Stop(SitesAt(j, d, off)[0]); Quiet(j, d, Rewritten(j, d, n), n)
    ensures Quiet(j, d, Rewritten(j, d, off), off)
  {
    var s := SitesAt(j, d, off)[0];
    var d' := Rewritten(j, d, off);
    SiteShape(j, d, off);
    RewrittenSite(j, d, off);
    ScanFrame(j, d', Rewritten(j, d, Stop(s)), Stop(s));
    if s.long && off + 4 < End(j) { QuietWord(j, d, d', off + 4); }
    QuietWord(j, d, d', off);
  }

  /** Scanning the rewritten text visits exactly the offsets that the first scan visited and
      finds no call. */
  lemma {:induction false} RescanFindsNothing(j: Job, d: seq<byte>, off: nat)
    requires InertJob(j) && Fits(j, d) && j.lo <= off
    ensures Quiet(j, d, Rewritten(j, d, off), off)
    decreases End(j) - off
  {
    if off < End(j) {
      if SitesAt(j, d, off) == [] {
        RescanFindsNothing(j, d, NextOff(d, off));
        QuietSkip(j, d, off);
      } else {
        RescanFindsNothing(j, d, Stop(SitesAt(j, d, off)[0]));
        QuietSite(j, d, off);
      }
    }
  }

  /** So rewriting twice is rewriting once. */
  lemma RewriteIsIdempotent(j: Job, d: seq<byte>)
    requires InertJob(j) && Fits(j, d)
    ensures Rewritten(j, Rewritten(j, d, j.lo), j.lo) == Rewritten(j, d, j.lo)
  {
    RescanFindsNothing(j, d, j.lo);
  }

  // ---------- the loops ----------

  /** What the scan does at one 32-bit instruction. */
  method Examine(j: Job, d: seq<byte>, off: nat) returns (here: seq<Site>)
    requires Inside(j, d, off) && !Short(d, off)
    ensures here == SitesAt(j, d, off)
  {
    here := [];
    var insn := WordAt(d, off);
    if IsJal(insn) && Rd(insn) == RA {
      var target := JalTarget(j, off, insn);
      if Known(j, target) { here := [Site(off, false, j.funcs[target])]; }
    } else if IsAuipc(insn) && off + 4 <= End(j) {
      var insn2 := WordAt(d, off + 4);
      if IsJalr(insn2) && Rd(insn) == Rs1(insn2) {
        var target := PairTarget(j, off, insn, insn2);
        if Known(j, target) { here := [Site(off, true, j.funcs[target])]; }
      }
    }
  }

  lemma ScanStep(j: Job, d: seq<byte>, off: nat, sites: seq<Site>)
    requires Inside(j, d, off)
    ensures sites + Sites(j, d, off) == (sites + SitesAt(j, d, off)) + Sites(j, d, NextOff(d, off))
  {
  }

  /** One turn of the scan: the calls at `off`, and where to go on. */
  method ScanOne(j: Job, d: seq<byte>, off: nat) returns (here: seq<Site>, next: nat)
    requires Inside(j, d, off)
    ensures here == SitesAt(j, d, off) && next == NextOff(d, off)
  {
    if WordAt(d, off) % 4 != 3 { return [], off + 2; }
    here := Examine(j, d, off);
    next := off + 4;
  }

  /** The scan loop of `find_call_sites`. */
  method FindCallSites(j: Job, d: seq<byte>) returns (sites: seq<Site>)
    requires Fits(j, d)
    ensures sites == Sites(j, d, j.lo)
  {
    sites := [];
    var off, end := j.lo, j.lo + j.size - 4;
    while off < end
      invariant j.lo <= off && sites + Sites(j, d, off) == Sites(j, d, j.lo)
      decreases end - off
    {
      ScanStep(j, d, off, sites);
      var here, next := ScanOne(j, d, off);
      sites, off := sites + here, next;
    }
  }

  method WriteInsn(data: array<byte>, off: nat, insn: nat)
    requires off + 4 <= data.Length && insn < WORD32
    modifies data
    ensures data[..] == WriteAt(old(data[..]), off, insn)
  {
    var b := BytesOf(insn);
    data[off], data[off + 1], data[off + 2], data[off + 3] := b[0], b[1], b[2], b[3];
  }

  method PatchInPlace(j: Job, data: array<byte>, s: Site)
    requires Covered(j) && SiteFits(j, s, data.Length)
    modifies data
    ensures data[..] == PatchSite(j, old(data[..]), s)
  {
    WriteInsn(data, s.off, j.repl[s.func].first);
    if s.long { WriteInsn(data, s.off + 4, j.repl[s.func].second); }
  }

  lemma PatchStep(j: Job, d: seq<byte>, sites: seq<Site>, k: nat)
    requires Patchable(j, sites, |d|) && k < |sites|
    ensures PatchAll(j, d, sites[k..]) == PatchAll(j, PatchSite(j, d, sites[k]), sites[k + 1..])
  {
    assert sites[k..][0] == sites[k] && sites[k..][1..] == sites[k + 1..];
  }

  /** The patch loop of `rewrite`. */
  method PatchSites(j: Job, data: array<byte>, sites: seq<Site>)
    requires Patchable(j, sites, data.Length)
    modifies data
    ensures data[..] == PatchAll(j, old(data[..]), sites)
  {
    ghost var d := data[..];
    assert sites[0..] == sites;
    var k := 0;
    while k < |sites|
      invariant 0 <= k <= |sites|
      invariant PatchAll(j, data[..], sites[k..]) == PatchAll(j, d, sites)
    {
      PatchStep(j, data[..], sites, k);
      PatchInPlace(j, data, sites[k]);
      k := k + 1;
    }
  }

  lemma FoundArePatchable(j: Job, d: seq<byte>)
    requires Covered(j) && Fits(j, d)
    ensures Patchable(j, Sites(j, d, j.lo), |d|)
  {
    SitesInOrder(j, d, j.lo);
    forall i | 0 <= i < |Sites(j, d, j.lo)|
      ensures SiteFits(j, Sites(j, d, j.lo)[i], |d|)
    {
      assert SiteIn(j, Sites(j, d, j.lo)[i], j.lo);
    }
  }

  /** `rewrite`: every call found is overwritten in place, unless this is a dry run. */
  method Rewrite(j: Job, data: array<byte>, dryRun: bool) returns (sites: seq<Site>)
    requires Covered(j) && Fits(j, data[..])
    modifies data
    ensures sites == Sites(j, old(data[..]), j.lo)
    ensures data[..] == if dryRun then old(data[..]) else Rewritten(j, old(data[..]), j.lo)
  {
    FoundArePatchable(j, data[..]);
    sites := FindCallSites(j, data[..]);
    if !dryRun { PatchSites(j, data, sites); }
  }
}
