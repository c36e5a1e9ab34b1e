/**
 The allocation census: a table of call chains and a table of live blocks, both open
 addressed, with running totals and peaks.

 The live table marks a freed entry with a tombstone and never reuses it.  The census is
 compared with a ledger, a map from live pointers to their blocks, and with a log of
 every block ever tracked.  When a table is full the source drops the entry but keeps
 the bytes, and the equations say exactly which bytes those are.
 */
module Memprof {

  const NSITE: nat := 4096
  const NLIVE: nat := 1048576
  const WORD: nat := 4294967296
  const TOMB: nat := 18446744073709551615

  /** A call chain of four frames. */
  datatype Chain = Chain(k0: nat, k1: nat, k2: nat, k3: nat)

  datatype Site = Site(k: Chain, alive: int, peak: int, total: int, calls: nat)

  datatype Entry = Entry(p: nat, site: nat, sz: nat)

  /** The tables and totals. */
  datatype Census = Census(sites: seq<Site>, live: seq<Entry>, alive: int, peak: int)

  predicate Shaped(c: Census) {
    |c.sites| == NSITE && |c.live| == NLIVE && forall j :: 0 <= j < NLIVE ==> c.live[j].site < NSITE
  }

  predicate IsLive(e: Entry) {
    0 < e.p < TOMB
  }

  // ---------- hashing and probing ----------

  /** Frames two to five of a back trace; absent frames are zero. */
  function ChainOf(trace: seq<nat>): Chain {
    Chain(FrameAt(trace, 2), FrameAt(trace, 3), FrameAt(trace, 4), FrameAt(trace, 5))
  }

  function FrameAt(trace: seq<nat>, i: nat): nat {
    if i < |trace| then trace[i] else 0
  }

  function HashStep(h: nat, frame: nat): nat {
    (h * 31 + frame / 16 % WORD) % WORD
  }

  function SiteHash(k: Chain): nat {
    HashStep(HashStep(HashStep(HashStep(0, k.k0), k.k1), k.k2), k.k3)
  }

  function SiteStart(k: Chain): (s: nat)
    ensures s < NSITE
  {
    SiteHash(k) % NSITE
  }

  /** The product is taken in 64 bits, truncated to 32 and masked to the table. */
  function LiveStart(p: nat): (s: nat)
    ensures s < NLIVE
  {
    p / 16 * 2654435761 % (TOMB + 1) % WORD % NLIVE
  }

  /** The slot `i` steps after `start`, around a table of `n`. */
  function Probe(n: nat, start: nat, i: nat): (j: nat)
    requires start < n && i < n
    ensures j < n
  {
    if start + i < n then start + i else start + i - n
  }

  /** The number of steps from `start` to `j`. */
  function Dist(n: nat, start: nat, j: nat): (d: nat)
    requires start < n && j < n
    ensures d < n && Probe(n, start, d) == j
  {
    if start <= j then j - start else j + n - start
  }

  /** The first step at which the search for a chain stops: a free slot or the chain's own. */
  function SiteStop(sites: seq<Site>, k: Chain, start: nat, i: nat): (r: nat)
    requires |sites| == NSITE && start < NSITE && i <= NSITE
    ensures i <= r <= NSITE
    decreases NSITE - i
  {
    if i == NSITE then i
    else
      var s := sites[Probe(NSITE, start, i)];
      if s.calls == 0 || s.k == k then i else SiteStop(sites, k, start, i + 1)
  }

  /** The first step at which the live table has a free slot. */
  function FreeStop(live: seq<Entry>, start: nat, i: nat): (r: nat)
    requires |live| == NLIVE && start < NLIVE && i <= NLIVE
    ensures i <= r <= NLIVE
    decreases NLIVE - i
  {
    if i == NLIVE || live[Probe(NLIVE, start, i)].p == 0 then i else FreeStop(live, start, i + 1)
  }

  /** The first step at which the search for `p` stops: a free slot or `p` itself. */
  function FindStop(live: seq<Entry>, p: nat, start: nat, i: nat): (r: nat)
    requires |live| == NLIVE && start < NLIVE && i <= NLIVE
    ensures i <= r <= NLIVE
    decreases NLIVE - i
  {
    if i == NLIVE then i
    else
      var e := live[Probe(NLIVE, start, i)];
      if e.p == 0 || e.p == p then i else FindStop(live, p, start, i + 1)
  }

  // ---------- tracking and untracking, as functions ----------

  function Larger(a: int, b: int): int {
    if a > b then a else b
  }

  function Charged(s: Site, k: Chain, sz: nat): Site {
    Site(k, s.alive + sz, Larger(s.peak, s.alive + sz), s.total + sz, s.calls + 1)
  }

  /** What tracking a block does to the tables. */
  function Tracked(c: Census, p: nat, k: Chain, sz: nat): Census
    requires Shaped(c)
  {
    var g := c.alive + sz;
    var i := SiteStop(c.sites, k, SiteStart(k), 0);
    if i == NSITE then c.(alive := g, peak := Larger(c.peak, g))
    else
      var si := Probe(NSITE, SiteStart(k), i);
      var f := FreeStop(c.live, LiveStart(p), 0);
      Census(c.sites[si := Charged(c.sites[si], k, sz)],
             if f == NLIVE then c.live else c.live[Probe(NLIVE, LiveStart(p), f) := Entry(p, si, sz)],
             g, Larger(c.peak, g))
  }

  /** What untracking a pointer does to the tables. */
  function Untracked(c: Census, p: nat): Census
    requires Shaped(c)
  {
    var i := FindStop(c.live, p, LiveStart(p), 0);
    if i == NLIVE then c
    else
      var j := Probe(NLIVE, LiveStart(p), i);
      var e := c.live[j];
      if e.p != p || p == 0 then c
      else
        var s := c.sites[e.site];
        Census(c.sites[e.site := s.(alive := s.alive - e.sz)], c.live[j := e.(p := TOMB)], c.alive - e.sz, c.peak)
  }

  // ---------- ledger and log ----------

  datatype Block = Block(k: Chain, sz: nat)

  /** A tracked block: whether its chain had a site, whether the live table had room, and
      the totals just after. */
  datatype Item = Item(k: Chain, sz: nat, sited: bool, stored: bool, siteAlive: int, alive: int)

  /** Which blocks a total ranges over. */
  datatype Select = All | Of(k: Chain)

  predicate Picks(sel: Select, k: Chain) {
    sel.All? || sel.k == k
  }

  function Weight(b: Block, sel: Select): nat {
    if Picks(sel, b.k) then b.sz else 0
  }

  /** The bytes of the live blocks. */
  ghost function Bytes(ledger: map<nat, Block>, sel: Select): nat
    decreases |ledger|
  {
    if ledger == map[] then 0
    else
      var p :| p in ledger;
      Weight(ledger[p], sel) + Bytes(ledger - {p}, sel)
  }

  /** The bytes charged to blocks that the live table dropped: to a site, or, for all blocks, also without one. */
  function Dropped(log: seq<Item>, sel: Select): nat {
    if log == [] then 0
    else
      var x := log[|log| - 1];
      Dropped(log[..|log| - 1], sel) + if Picks(sel, x.k) && !x.stored && (x.sited || sel.All?) then x.sz else 0
  }

  function TotalOf(log: seq<Item>, k: Chain): nat {
    if log == [] then 0
    else
      var x := log[|log| - 1];
      TotalOf(log[..|log| - 1], k) + if x.k == k && x.sited then x.sz else 0
  }

  function CallsOf(log: seq<Item>, k: Chain): nat {
    if log == [] then 0
    else
      var x := log[|log| - 1];
      CallsOf(log[..|log| - 1], k) + if x.k == k && x.sited then 1 else 0
  }

  /** The largest total a chain, or the whole program, ever reached. */
  function PeakOf(log: seq<Item>, sel: Select): int {
    if log == [] then 0
    else
      var x := log[|log| - 1];
      var before := PeakOf(log[..|log| - 1], sel);
      if sel.All? then Larger(before, x.alive)
      else if x.k == sel.k && x.sited then Larger(before, x.siteAlive) else before
  }

  /** The ledger, the slot of each live pointer, the site of each chain, and the log. */
  datatype Books = Books(ledger: map<nat, Block>, at: map<nat, nat>, sited: map<Chain, nat>, log: seq<Item>)

  // ---------- the invariant ----------

  /** No free slot lies on the probe path of the entry in slot `j`. */
  ghost predicate PathUsed(live: seq<Entry>, start: nat, j: nat)
    requires |live| == NLIVE && start < NLIVE && j < NLIVE
  {
    forall i :: 0 <= i < Dist(NLIVE, start, j) ==> live[Probe(NLIVE, start, i)].p != 0
  }

  /** The live table holds exactly the ledger's pointers, each once and reachable. */
  ghost predicate TableInv(c: Census, b: Books) {
    && Shaped(c) && b.at.Keys == b.ledger.Keys
    && (forall p {:trigger InTable(c, b, p)} :: p in b.at ==> InTable(c, b, p))
    && (forall j {:trigger Indexed(c, b, j)} :: 0 <= j < NLIVE ==> Indexed(c, b, j))
  }

  ghost predicate InTable(c: Census, b: Books, p: nat)
    requires Shaped(c) && b.at.Keys == b.ledger.Keys && p in b.at
  {
    0 < p < TOMB && b.at[p] < NLIVE && Holds(c, b, p, b.at[p])
  }

  ghost predicate Indexed(c: Census, b: Books, j: nat)
    requires Shaped(c) && j < NLIVE
  {
    IsLive(c.live[j]) ==> c.live[j].p in b.at && b.at[c.live[j].p] == j
  }

  ghost predicate Holds(c: Census, b: Books, p: nat, j: nat)
    requires Shaped(c) && p in b.ledger && j < NLIVE
  {
    && c.live[j].p == p && PathUsed(c.live, LiveStart(p), j)
    && var s := c.sites[c.live[j].site];
       s.calls > 0 && b.ledger[p] == Block(s.k, c.live[j].sz)
  }

  /** No free site lies on the probe path of the one in slot `j`. */
  ghost predicate SitePath(sites: seq<Site>, start: nat, j: nat)
    requires |sites| == NSITE && start < NSITE && j < NSITE
  {
    forall i :: 0 <= i < Dist(NSITE, start, j) ==> sites[Probe(NSITE, start, i)].calls > 0
  }

  /** The site table holds exactly the sited chains, each once and reachable. */
  ghost predicate SitesInv(sites: seq<Site>, sited: map<Chain, nat>, log: seq<Item>) {
    && |sites| == NSITE
    && (forall k {:trigger HasSite(sites, sited, k)} :: k in sited ==> HasSite(sites, sited, k))
    && (forall j {:trigger SiteOk(sites, sited, j)} :: 0 <= j < NSITE ==> SiteOk(sites, sited, j))
    && (forall i :: 0 <= i < |log| && log[i].sited ==> log[i].k in sited)
  }

  ghost predicate HasSite(sites: seq<Site>, sited: map<Chain, nat>, k: Chain)
    requires |sites| == NSITE && k in sited
  {
    sited[k] < NSITE && sites[sited[k]].calls > 0 && sites[sited[k]].k == k
  }

  ghost predicate SiteOk(sites: seq<Site>, sited: map<Chain, nat>, j: nat)
    requires |sites| == NSITE && j < NSITE
  {
    var s := sites[j];
    if s.calls > 0 then s.k in sited && sited[s.k] == j && SitePath(sites, SiteStart(s.k), j)
    else s.alive == s.peak == s.total == 0
  }

  /** What a site reports about its chain. */
  ghost predicate SiteExact(s: Site, b: Books) {
    && s.alive == Bytes(b.ledger, Of(s.k)) + Dropped(b.log, Of(s.k))
    && s.peak == PeakOf(b.log, Of(s.k))
    && s.total == TotalOf(b.log, s.k)
    && s.calls == CallsOf(b.log, s.k)
  }

  ghost predicate ExactAt(sites: seq<Site>, b: Books, j: nat)
    requires |sites| == NSITE && j < NSITE
  {
    sites[j].calls > 0 ==> SiteExact(sites[j], b)
  }

  ghost predicate TotalsInv(c: Census, b: Books)
    requires Shaped(c)
  {
    && c.alive == Bytes(b.ledger, All) + Dropped(b.log, All)
    && c.peak == PeakOf(b.log, All)
    && (forall j {:trigger ExactAt(c.sites, b, j)} :: 0 <= j < NSITE ==> ExactAt(c.sites, b, j))
  }

  ghost predicate Inv(c: Census, b: Books) {
    TableInv(c, b) && SitesInv(c.sites, b.sited, b.log) && TotalsInv(c, b)
  }

  // ---------- the books, kept in step ----------

  function TrackedBooks(c: Census, b: Books, p: nat, k: Chain, sz: nat): Books
    requires Shaped(c)
  {
    var g := c.alive + sz;
    var i := SiteStop(c.sites, k, SiteStart(k), 0);
    if i == NSITE then b.(log := b.log + [Item(k, sz, false, false, 0, g)])
    else
      var si := Probe(NSITE, SiteStart(k), i);
      var f := FreeStop(c.live, LiveStart(p), 0);
      var x := Item(k, sz, true, f < NLIVE, c.sites[si].alive + sz, g);
      if f == NLIVE then b.(sited := b.sited[k := si], log := b.log + [x])
      else Books(b.ledger[p := Block(k, sz)], b.at[p := Probe(NLIVE, LiveStart(p), f)], b.sited[k := si], b.log + [x])
  }

  function UntrackedBooks(b: Books, p: nat): Books {
    b.(ledger := b.ledger - {p}, at := b.at - {p})
  }

  // ---------- searches ----------

  lemma {:induction false} SiteStopIs(sites: seq<Site>, k: Chain, start: nat, i: nat)
    requires |sites| == NSITE && start < NSITE && i <= NSITE
    ensures var r := SiteStop(sites, k, start, i);
      && (r < NSITE ==> var s := sites[Probe(NSITE, start, r)]; s.calls == 0 || s.k == k)
      && forall n :: i <= n < r ==> var s := sites[Probe(NSITE, start, n)]; s.calls > 0 && s.k != k
    decreases NSITE - i
  {
    if i < NSITE {
      var s := sites[Probe(NSITE, start, i)];
      if !(s.calls == 0 || s.k == k) { SiteStopIs(sites, k, start, i + 1); }
    }
  }

  lemma {:induction false} FreeStopIs(live: seq<Entry>, start: nat, i: nat)
    requires |live| == NLIVE && start < NLIVE && i <= NLIVE
    ensures var r := FreeStop(live, start, i);
      && (r < NLIVE ==> live[Probe(NLIVE, start, r)].p == 0)
      && forall n :: i <= n < r ==> live[Probe(NLIVE, start, n)].p != 0
    decreases NLIVE - i
  {
    if i < NLIVE && live[Probe(NLIVE, start, i)].p != 0 { FreeStopIs(live, start, i + 1); }
  }

  lemma {:induction false} FindStopIs(live: seq<Entry>, p: nat, start: nat, i: nat)
    requires |live| == NLIVE && start < NLIVE && i <= NLIVE
    ensures var r := FindStop(live, p, start, i);
      && (r < NLIVE ==> var e := live[Probe(NLIVE, start, r)]; e.p == 0 || e.p == p)
      && forall n :: i <= n < r ==> var e := live[Probe(NLIVE, start, n)]; e.p != 0 && e.p != p
    decreases NLIVE - i
  {
    if i < NLIVE {
      var e := live[Probe(NLIVE, start, i)];
      if e.p != 0 && e.p != p { FindStopIs(live, p, start, i + 1); }
    }
  }

  lemma ProbeDist(n: nat, start: nat, i: nat)
    requires start < n && i < n
    ensures Dist(n, start, Probe(n, start, i)) == i
  {
  }

  /** A pointer in slot `j` only, with no free slot on the way, is found there. */
  lemma FindsAt(live: seq<Entry>, p: nat, start: nat, j: nat)
    requires |live| == NLIVE && start < NLIVE && j < NLIVE && p != 0
    requires live[j].p == p && PathUsed(live, start, j)
    requires forall n :: 0 <= n < NLIVE && live[n].p == p ==> n == j
    ensures FindStop(live, p, start, 0) == Dist(NLIVE, start, j)
  {
    FindStopIs(live, p, start, 0);
    var r, d := FindStop(live, p, start, 0), Dist(NLIVE, start, j);
    assert r <= d;
    ProbeDist(NLIVE, start, r);
  }

  /** The search for a pointer succeeds exactly when the pointer is live, and then ends at
      its slot. */
  lemma FindsExactlyLive(c: Census, b: Books, p: nat)
    requires TableInv(c, b) && 0 < p < TOMB
    ensures var r := FindStop(c.live, p, LiveStart(p), 0);
      (p in b.ledger) <==> (r < NLIVE && c.live[Probe(NLIVE, LiveStart(p), r)].p == p)
    ensures p in b.ledger ==> Probe(NLIVE, LiveStart(p), FindStop(c.live, p, LiveStart(p), 0)) == b.at[p]
  {
    var r := FindStop(c.live, p, LiveStart(p), 0);
    if p in b.ledger {
      assert InTable(c, b, p);
      forall n | 0 <= n < NLIVE && c.live[n].p == p
        ensures n == b.at[p]
      {
        assert Indexed(c, b, n);
      }
      FindsAt(c.live, p, LiveStart(p), b.at[p]);
    } else if r < NLIVE {
      assert Indexed(c, b, Probe(NLIVE, LiveStart(p), r));
    }
  }

  lemma StopsAt(sites: seq<Site>, k: Chain, start: nat, j: nat)
    requires |sites| == NSITE && start < NSITE && j < NSITE
    requires sites[j].k == k && SitePath(sites, start, j)
    requires forall n :: 0 <= n < NSITE && sites[n].calls > 0 && sites[n].k == k ==> n == j
    ensures SiteStop(sites, k, start, 0) == Dist(NSITE, start, j)
  {
    SiteStopIs(sites, k, start, 0);
    var r, d := SiteStop(sites, k, start, 0), Dist(NSITE, start, j);
    assert r <= d;
    ProbeDist(NSITE, start, r);
  }

  /** The search for a sited chain ends at its site; for another chain it ends at a free
      slot or nowhere. */
  lemma StopsAtSite(sites: seq<Site>, b: Books, k: Chain)
    requires SitesInv(sites, b.sited, b.log)
    ensures var r := SiteStop(sites, k, SiteStart(k), 0);
      && (k in b.sited ==> r < NSITE && Probe(NSITE, SiteStart(k), r) == b.sited[k])
      && (k !in b.sited && r < NSITE ==> sites[Probe(NSITE, SiteStart(k), r)].calls == 0)
  {
    if k in b.sited {
      assert HasSite(sites, b.sited, k) && SiteOk(sites, b.sited, b.sited[k]);
      forall n | 0 <= n < NSITE && sites[n].calls > 0 && sites[n].k == k
        ensures n == b.sited[k]
      {
        assert SiteOk(sites, b.sited, n);
      }
      StopsAt(sites, k, SiteStart(k), b.sited[k]);
    } else {
      var r := SiteStop(sites, k, SiteStart(k), 0);
      SiteStopIs(sites, k, SiteStart(k), 0);
      if r < NSITE { assert SiteOk(sites, b.sited, Probe(NSITE, SiteStart(k), r)); }
    }
  }

  // ---------- sums ----------

  /** The bytes of a ledger do not depend on the order in which they are added. */
  lemma {:induction false} BytesRemove(ledger: map<nat, Block>, p: nat, sel: Select)
    requires p in ledger
    ensures Bytes(ledger, sel) == Weight(ledger[p], sel) + Bytes(ledger - {p}, sel)
    decreases |ledger|
  {
    var q :| q in ledger && Bytes(ledger, sel) == Weight(ledger[q], sel) + Bytes(ledger - {q}, sel);
    if q != p {
      BytesRemove(ledger - {q}, p, sel);
      BytesRemove(ledger - {p}, q, sel);
      assert ledger - {q} - {p} == ledger - {p} - {q};
    }
  }

  lemma BytesAdd(ledger: map<nat, Block>, p: nat, x: Block, sel: Select)
    requires p !in ledger
    ensures Bytes(ledger[p := x], sel) == Weight(x, sel) + Bytes(ledger, sel)
  {
    BytesRemove(ledger[p := x], p, sel);
    assert ledger[p := x] - {p} == ledger;
  }

  lemma {:induction false} BytesNone(ledger: map<nat, Block>, k: Chain)
    requires forall p :: p in ledger ==> ledger[p].k != k
    ensures Bytes(ledger, Of(k)) == 0
    decreases |ledger|
  {
    if ledger != map[] {
      var q :| q in ledger;
      BytesRemove(ledger, q, Of(k));
      BytesNone(ledger - {q}, k);
    }
  }

  lemma {:induction false} LogNone(log: seq<Item>, k: Chain)
    requires forall i :: 0 <= i < |log| && log[i].sited ==> log[i].k != k
    ensures Dropped(log, Of(k)) == 0 && TotalOf(log, k) == 0 && CallsOf(log, k) == 0 && PeakOf(log, Of(k)) == 0
  {
    if log != [] { LogNone(log[..|log| - 1], k); }
  }

  lemma LogGrows(log: seq<Item>, x: Item, sel: Select)
    ensures Dropped(log + [x], sel) ==
      Dropped(log, sel) + if Picks(sel, x.k) && !x.stored && (x.sited || sel.All?) then x.sz else 0
    ensures sel.All? ==> PeakOf(log + [x], sel) == Larger(PeakOf(log, sel), x.alive)
    ensures sel.Of? && !(x.k == sel.k && x.sited) ==> PeakOf(log + [x], sel) == PeakOf(log, sel)
    ensures sel.Of? && x.k == sel.k && x.sited ==> PeakOf(log + [x], sel) == Larger(PeakOf(log, sel), x.siteAlive)
    ensures sel.Of? ==> TotalOf(log + [x], sel.k) == TotalOf(log, sel.k) + if x.k == sel.k && x.sited then x.sz else 0
    ensures sel.Of? ==> CallsOf(log + [x], sel.k) == CallsOf(log, sel.k) + if x.k == sel.k && x.sited then 1 else 0
  {
    assert (log + [x])[..|log|] == log;
  }

  // ---------- the live table ----------

  /** Used slots stay used, so probe paths stay clear. */
  lemma PathGrows(live: seq<Entry>, live': seq<Entry>, start: nat, j: nat)
    requires |live| == |live'| == NLIVE && start < NLIVE && j < NLIVE && PathUsed(live, start, j)
    requires forall n :: 0 <= n < NLIVE && live[n].p != 0 ==> live'[n].p != 0
    ensures PathUsed(live', start, j)
  {
  }

  /** The first free slot is reachable. */
  lemma FreeSlotReachable(live: seq<Entry>, start: nat)
    requires |live| == NLIVE && start < NLIVE && FreeStop(live, start, 0) < NLIVE
    ensures var j := Probe(NLIVE, start, FreeStop(live, start, 0));
      live[j].p == 0 && PathUsed(live, start, j)
  {
    FreeStopIs(live, start, 0);
    ProbeDist(NLIVE, start, FreeStop(live, start, 0));
  }

  /** Sites keep their chains, and used sites stay used. */
  ghost predicate SitesGrow(sites: seq<Site>, sites': seq<Site>) {
    |sites| == |sites'| == NSITE &&
    forall j :: 0 <= j < NSITE && sites[j].calls > 0 ==> sites'[j].calls > 0 && sites'[j].k == sites[j].k
  }

  /** A pointer still holds its slot when its entry is untouched and tables only grow. */
  lemma HoldsKept(c: Census, b: Books, c': Census, b': Books, q: nat, j: nat)
    requires Shaped(c) && Shaped(c') && q in b.ledger && q in b'.ledger && j < NLIVE && Holds(c, b, q, j)
    requires SitesGrow(c.sites, c'.sites) && c'.live[j] == c.live[j] && b'.ledger[q] == b.ledger[q]
    requires forall n :: 0 <= n < NLIVE && c.live[n].p != 0 ==> c'.live[n].p != 0
    ensures Holds(c', b', q, j)
  {
    PathGrows(c.live, c'.live, LiveStart(q), j);
  }

  /** A change to the sites alone. */
  lemma SitesChange(c: Census, b: Books, c': Census, b': Books)
    requires TableInv(c, b) && SitesGrow(c.sites, c'.sites)
    requires c'.live == c.live && b'.ledger == b.ledger && b'.at == b.at
    ensures TableInv(c', b')
  {
    forall q | q in b'.at
      ensures InTable(c', b', q)
    {
      assert InTable(c, b, q);
      HoldsKept(c, b, c', b', q, b.at[q]);
    }
    forall j | 0 <= j < NLIVE
      ensures Indexed(c', b', j)
    {
      assert Indexed(c, b, j);
    }
  }

  /** A free slot is filled with a new pointer. */
  lemma StoreKeeps(c: Census, b: Books, p: nat, si: nat, sz: nat)
    requires TableInv(c, b) && 0 < p < TOMB && p !in b.ledger && si < NSITE && c.sites[si].calls > 0
    requires FreeStop(c.live, LiveStart(p), 0) < NLIVE
    ensures var j := Probe(NLIVE, LiveStart(p), FreeStop(c.live, LiveStart(p), 0));
      TableInv(c.(live := c.live[j := Entry(p, si, sz)]),
               b.(ledger := b.ledger[p := Block(c.sites[si].k, sz)], at := b.at[p := j]))
  {
    var start := LiveStart(p);
    var j := Probe(NLIVE, start, FreeStop(c.live, start, 0));
    FreeSlotReachable(c.live, start);
    var c', b' := c.(live := c.live[j := Entry(p, si, sz)]),
                  b.(ledger := b.ledger[p := Block(c.sites[si].k, sz)], at := b.at[p := j]);
    PathGrows(c.live, c'.live, start, j);
    forall q | q in b'.at
      ensures InTable(c', b', q)
    {
      if q != p {
        assert InTable(c, b, q);
        HoldsKept(c, b, c', b', q, b.at[q]);
      }
    }
    forall n | 0 <= n < NLIVE
      ensures Indexed(c', b', n)
    {
      assert Indexed(c, b, n);
    }
  }

  /** A live entry becomes a tombstone. */
  lemma BuryKeeps(c: Census, b: Books, p: nat)
    requires TableInv(c, b) && p in b.ledger
    ensures var j := b.at[p];
      && InTable(c, b, p)
      && TableInv(c.(live := c.live[j := c.live[j].(p := TOMB)]), UntrackedBooks(b, p))
  {
    var j := b.at[p];
    assert InTable(c, b, p);
    var c', b' := c.(live := c.live[j := c.live[j].(p := TOMB)]), UntrackedBooks(b, p);
    forall q | q in b'.at
      ensures InTable(c', b', q)
    {
      assert InTable(c, b, q);
      HoldsKept(c, b, c', b', q, b.at[q]);
    }
    forall n | 0 <= n < NLIVE
      ensures Indexed(c', b', n)
    {
      assert Indexed(c, b, n);
    }
  }

  // ---------- the site table ----------

  /** Where the search for a chain ends. */
  function SiteOf(sites: seq<Site>, k: Chain): (j: nat)
    requires |sites| == NSITE && SiteStop(sites, k, SiteStart(k), 0) < NSITE
    ensures j < NSITE
  {
    Probe(NSITE, SiteStart(k), SiteStop(sites, k, SiteStart(k), 0))
  }

  lemma SiteReachable(sites: seq<Site>, k: Chain, start: nat)
    requires |sites| == NSITE && start < NSITE && SiteStop(sites, k, start, 0) < NSITE
    ensures SitePath(sites, start, Probe(NSITE, start, SiteStop(sites, k, start, 0)))
  {
    SiteStopIs(sites, k, start, 0);
    ProbeDist(NSITE, start, SiteStop(sites, k, start, 0));
  }

  lemma SitePathGrows(sites: seq<Site>, sites': seq<Site>, start: nat, j: nat)
    requires SitesGrow(sites, sites') && start < NSITE && j < NSITE && SitePath(sites, start, j)
    ensures SitePath(sites', start, j)
  {
  }

  lemma ChargeGrows(sites: seq<Site>, b: Books, k: Chain, sz: nat)
    requires SitesInv(sites, b.sited, b.log) && SiteStop(sites, k, SiteStart(k), 0) < NSITE
    ensures var si := SiteOf(sites, k);
      SitesGrow(sites, sites[si := Charged(sites[si], k, sz)])
  {
    StopsAtSite(sites, b, k);
    if k in b.sited { assert HasSite(sites, b.sited, k); }
  }

  /** Charging a block to its chain keeps the site table well formed. */
  lemma ChargeKeeps(sites: seq<Site>, b: Books, k: Chain, sz: nat, x: Item)
    requires SitesInv(sites, b.sited, b.log) && SiteStop(sites, k, SiteStart(k), 0) < NSITE && x.k == k
    ensures var si := SiteOf(sites, k);
      SitesInv(sites[si := Charged(sites[si], k, sz)], b.sited[k := si], b.log + [x])
  {
    var si := SiteOf(sites, k);
    var sites' := sites[si := Charged(sites[si], k, sz)];
    var sited' := b.sited[k := si];
    StopsAtSite(sites, b, k);
    ChargeGrows(sites, b, k, sz);
    SiteReachable(sites, k, SiteStart(k));
    var b' := b.(sited := sited', log := b.log + [x]);
    forall j | 0 <= j < NSITE
      ensures SiteOk(sites', b'.sited, j)
    {
      assert SiteOk(sites, b.sited, j);
      if sites'[j].calls > 0 { SitePathGrows(sites, sites', SiteStart(sites'[j].k), j); }
    }
    forall q | q in sited'
      ensures HasSite(sites', b'.sited, q)
    {
      if q != k { assert HasSite(sites, b.sited, q) && SiteOk(sites, b.sited, b.sited[q]); }
    }
  }

  // ---------- totals ----------

  /** Before its first block a chain has no bytes anywhere, so a fresh site is exact too. */
  lemma ExactBefore(c: Census, b: Books, k: Chain)
    requires Inv(c, b) && SiteStop(c.sites, k, SiteStart(k), 0) < NSITE
    ensures SiteExact(c.sites[SiteOf(c.sites, k)].(k := k), b)
  {
    StopsAtSite(c.sites, b, k);
    if k in b.sited {
      assert HasSite(c.sites, b.sited, k) && ExactAt(c.sites, b, b.sited[k]);
    } else {
      assert SiteOk(c.sites, b.sited, SiteOf(c.sites, k));
      forall p | p in b.ledger
        ensures b.ledger[p].k != k
      {
        assert InTable(c, b, p) && SiteOk(c.sites, b.sited, c.live[b.at[p]].site);
      }
      BytesNone(b.ledger, k);
      LogNone(b.log, k);
    }
  }

  /** One more block for the chain of site `s`. */
  lemma ExactAfter(s: Site, b: Books, b': Books, x: Item)
    requires SiteExact(s.(k := x.k), b) && x.sited && x.siteAlive == s.alive + x.sz && b'.log == b.log + [x]
    requires Bytes(b'.ledger, Of(x.k)) == Bytes(b.ledger, Of(x.k)) + if x.stored then x.sz else 0
    ensures SiteExact(Charged(s, x.k, x.sz), b')
  {
    LogGrows(b.log, x, Of(x.k));
  }

  lemma ExactOther(s: Site, b: Books, b': Books, x: Item)
    requires SiteExact(s, b) && s.k != x.k && b'.log == b.log + [x]
    requires Bytes(b'.ledger, Of(s.k)) == Bytes(b.ledger, Of(s.k))
    ensures SiteExact(s, b')
  {
    LogGrows(b.log, x, Of(s.k));
  }

  /** The ledger gained the block of `x`, if it was stored, and nothing else. */
  ghost predicate Gained(b: Books, b': Books, x: Item) {
    && b'.log == b.log + [x]
    && forall sel :: Bytes(b'.ledger, sel) == Bytes(b.ledger, sel) + if x.stored && Picks(sel, x.k) then x.sz else 0
  }

  lemma StoredGains(b: Books, b': Books, p: nat, x: Item)
    requires p !in b.ledger && b'.ledger == b.ledger[p := Block(x.k, x.sz)] && x.stored && b'.log == b.log + [x]
    ensures Gained(b, b', x)
  {
    forall sel
      ensures Bytes(b'.ledger, sel) == Bytes(b.ledger, sel) + if x.stored && Picks(sel, x.k) then x.sz else 0
    {
      BytesAdd(b.ledger, p, Block(x.k, x.sz), sel);
    }
  }

  lemma WholeTotals(c: Census, b: Books, c': Census, b': Books, x: Item)
    requires Shaped(c) && TotalsInv(c, b) && Gained(b, b', x)
    requires c'.alive == c.alive + x.sz == x.alive && c'.peak == Larger(c.peak, c'.alive)
    ensures c'.alive == Bytes(b'.ledger, All) + Dropped(b'.log, All) && c'.peak == PeakOf(b'.log, All)
  {
    LogGrows(b.log, x, All);
  }

  lemma SitedTotals(c: Census, b: Books, c': Census, b': Books, x: Item)
    requires Inv(c, b) && Gained(b, b', x) && x.sited && Shaped(c')
    requires SiteStop(c.sites, x.k, SiteStart(x.k), 0) < NSITE
    requires var si := SiteOf(c.sites, x.k);
      x.siteAlive == c.sites[si].alive + x.sz && c'.sites == c.sites[si := Charged(c.sites[si], x.k, x.sz)]
    ensures forall j {:trigger ExactAt(c'.sites, b', j)} :: 0 <= j < NSITE ==> ExactAt(c'.sites, b', j)
  {
    var si := SiteOf(c.sites, x.k);
    StopsAtSite(c.sites, b, x.k);
    forall j | 0 <= j < NSITE
      ensures ExactAt(c'.sites, b', j)
    {
      if j == si {
        ExactBefore(c, b, x.k);
        ExactAfter(c.sites[si], b, b', x);
      } else if c.sites[j].calls > 0 {
        assert SiteOk(c.sites, b.sited, j) && ExactAt(c.sites, b, j);
        ExactOther(c.sites[j], b, b', x);
      }
    }
  }

  lemma LogSites(sites: seq<Site>, b: Books, b': Books, x: Item)
    requires SitesInv(sites, b.sited, b.log) && !x.sited && b' == b.(log := b.log + [x])
    ensures SitesInv(sites, b'.sited, b'.log)
  {
    forall j | 0 <= j < NSITE
      ensures SiteOk(sites, b'.sited, j)
    {
      assert SiteOk(sites, b.sited, j);
    }
    forall k | k in b'.sited
      ensures HasSite(sites, b'.sited, k)
    {
      assert HasSite(sites, b.sited, k);
    }
  }

  lemma UnsitedKeeps(c: Census, b: Books, p: nat, k: Chain, sz: nat)
    requires Inv(c, b) && SiteStop(c.sites, k, SiteStart(k), 0) == NSITE
    ensures Inv(Tracked(c, p, k, sz), TrackedBooks(c, b, p, k, sz))
  {
    var c', b' := Tracked(c, p, k, sz), TrackedBooks(c, b, p, k, sz);
    var x := Item(k, sz, false, false, 0, c.alive + sz);
    SitesChange(c, b, c', b');
    WholeTotals(c, b, c', b', x);
    LogSites(c.sites, b, b', x);
    forall j | 0 <= j < NSITE
      ensures ExactAt(c'.sites, b', j)
    {
      assert ExactAt(c.sites, b, j);
      LogGrows(b.log, x, Of(c.sites[j].k));
    }
  }

  lemma DroppedKeeps(c: Census, b: Books, p: nat, k: Chain, sz: nat)
    requires Inv(c, b) && SiteStop(c.sites, k, SiteStart(k), 0) < NSITE
    requires FreeStop(c.live, LiveStart(p), 0) == NLIVE
    ensures Inv(Tracked(c, p, k, sz), TrackedBooks(c, b, p, k, sz))
  {
    var c', b' := Tracked(c, p, k, sz), TrackedBooks(c, b, p, k, sz);
    var si := SiteOf(c.sites, k);
    var x := Item(k, sz, true, false, c.sites[si].alive + sz, c.alive + sz);
    ChargeGrows(c.sites, b, k, sz);
    ChargeKeeps(c.sites, b, k, sz, x);
    SitesChange(c, b, c', b');
    WholeTotals(c, b, c', b', x);
    SitedTotals(c, b, c', b', x);
  }

  lemma StoredKeeps(c: Census, b: Books, p: nat, k: Chain, sz: nat)
    requires Inv(c, b) && 0 < p < TOMB && p !in b.ledger
    requires SiteStop(c.sites, k, SiteStart(k), 0) < NSITE && FreeStop(c.live, LiveStart(p), 0) < NLIVE
    ensures Inv(Tracked(c, p, k, sz), TrackedBooks(c, b, p, k, sz))
  {
    var c', b' := Tracked(c, p, k, sz), TrackedBooks(c, b, p, k, sz);
    var si := SiteOf(c.sites, k);
    var x := Item(k, sz, true, true, c.sites[si].alive + sz, c.alive + sz);
    ChargeGrows(c.sites, b, k, sz);
    ChargeKeeps(c.sites, b, k, sz, x);
    var c1, b1 := c'.(live := c.live), b'.(ledger := b.ledger, at := b.at);
    SitesChange(c, b, c1, b1);
    StoreKeeps(c1, b1, p, si, sz);
    StoredGains(b, b', p, x);
    WholeTotals(c, b, c', b', x);
    SitedTotals(c, b, c', b', x);
  }

  /** Tracking a block keeps the census exact. */
  lemma TrackKeeps(c: Census, b: Books, p: nat, k: Chain, sz: nat)
    requires Inv(c, b) && 0 < p < TOMB && p !in b.ledger
    ensures Inv(Tracked(c, p, k, sz), TrackedBooks(c, b, p, k, sz))
  {
    if SiteStop(c.sites, k, SiteStart(k), 0) == NSITE {
      UnsitedKeeps(c, b, p, k, sz);
    } else if FreeStop(c.live, LiveStart(p), 0) == NLIVE {
      DroppedKeeps(c, b, p, k, sz);
    } else {
      StoredKeeps(c, b, p, k, sz);
    }
  }

  /** Untracking a pointer keeps the census exact; a pointer that is not live changes nothing. */
  lemma UntrackKeeps(c: Census, b: Books, p: nat)
    requires Inv(c, b) && 0 < p < TOMB
    ensures Inv(Untracked(c, p), UntrackedBooks(b, p))
    ensures p !in b.ledger ==> Untracked(c, p) == c
  {
    FindsExactlyLive(c, b, p);
    if p in b.ledger {
      var c', b' := Untracked(c, p), UntrackedBooks(b, p);
      var j := b.at[p];
      BuryKeeps(c, b, p);
      SitesChange(c.(live := c.live[j := c.live[j].(p := TOMB)]), b', c', b');
      FreedSites(c, b, p);
      FreedTotals(c, b, p);
    } else {
      assert UntrackedBooks(b, p) == b;
    }
  }

  function FreedSite(c: Census, b: Books, p: nat): seq<Site>
    requires Shaped(c) && p in b.at && b.at[p] < NLIVE
  {
    var e := c.live[b.at[p]];
    c.sites[e.site := c.sites[e.site].(alive := c.sites[e.site].alive - e.sz)]
  }

  lemma FreedSites(c: Census, b: Books, p: nat)
    requires Inv(c, b) && p in b.ledger && InTable(c, b, p)
    ensures SitesInv(FreedSite(c, b, p), b.sited, b.log)
  {
    var b', sites' := UntrackedBooks(b, p), FreedSite(c, b, p);
    forall j | 0 <= j < NSITE
      ensures SiteOk(sites', b'.sited, j)
    {
      assert SiteOk(c.sites, b.sited, j);
      if c.sites[j].calls > 0 { SitePathGrows(c.sites, sites', SiteStart(c.sites[j].k), j); }
    }
    forall k | k in b'.sited
      ensures HasSite(sites', b'.sited, k)
    {
      assert HasSite(c.sites, b.sited, k);
    }
  }

  lemma FreedTotals(c: Census, b: Books, p: nat)
    requires Inv(c, b) && p in b.ledger && InTable(c, b, p)
    ensures TotalsInv(Census(FreedSite(c, b, p), c.live, c.alive - c.live[b.at[p]].sz, c.peak), UntrackedBooks(b, p))
  {
    var b' := UntrackedBooks(b, p);
    var e := c.live[b.at[p]];
    var c' := Census(FreedSite(c, b, p), c.live, c.alive - e.sz, c.peak);
    BytesRemove(b.ledger, p, All);
    assert SiteOk(c.sites, b.sited, e.site);
    forall j | 0 <= j < NSITE
      ensures ExactAt(c'.sites, b', j)
    {
      BytesRemove(b.ledger, p, Of(c.sites[j].k));
      assert ExactAt(c.sites, b, j) && SiteOk(c.sites, b.sited, j);
    }
  }
}
