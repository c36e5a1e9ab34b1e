/** Whole runs of the census, compared with a ledger that knows nothing of the tables. */
module MemprofRuns {
  import opened Memprof

  datatype Event = Track(p: nat, k: Chain, sz: nat) | Untrack(p: nat)

  /** The blocks that are in use after a run. */
  function InUse(events: seq<Event>): map<nat, Block> {
    if events == [] then map[]
    else
      var before, e := InUse(events[..|events| - 1]), events[|events| - 1];
      match e
      case Track(p, k, sz) => before[p := Block(k, sz)]
      case Untrack(p) => before - {p}
  }

  /** Pointers are real, and the allocator hands out none that is still in use. */
  ghost predicate Legal(events: seq<Event>) {
    forall i {:trigger events[i]} :: 0 <= i < |events| ==>
      0 < events[i].p < TOMB && (events[i].Track? ==> events[i].p !in InUse(events[..i]))
  }

  function Start(): (c: Census)
    ensures Shaped(c)
  {
    Census(seq(NSITE, _ => Site(Chain(0, 0, 0, 0), 0, 0, 0, 0)), seq(NLIVE, _ => Entry(0, 0, 0)), 0, 0)
  }

  lemma StartHolds()
    ensures Inv(Start(), Books(map[], map[], map[], []))
  {
    var c, b := Start(), Books(map[], map[], map[], []);
    assert forall j :: 0 <= j < NLIVE ==> Indexed(c, b, j);
    assert forall j :: 0 <= j < NSITE ==> SiteOk(c.sites, b.sited, j) && ExactAt(c.sites, b, j);
  }

  lemma KeepsShape(c: Census, p: nat, k: Chain, sz: nat)
    requires Shaped(c)
    ensures Shaped(Tracked(c, p, k, sz)) && Shaped(Untracked(c, p))
  {
  }

  function Step(c: Census, b: Books, e: Event): (r: (Census, Books))
    requires Shaped(c)
    ensures Shaped(r.0)
  {
    match e
    case Track(p, k, sz) => KeepsShape(c, p, k, sz); (Tracked(c, p, k, sz), TrackedBooks(c, b, p, k, sz))
    case Untrack(p) => KeepsShape(c, p, Chain(0, 0, 0, 0), 0); (Untracked(c, p), UntrackedBooks(b, p))
  }

  /** The tables and the books after a run. */
  function Run(events: seq<Event>): (r: (Census, Books))
    ensures Shaped(r.0)
  {
    if events == [] then (Start(), Books(map[], map[], map[], []))
    else
      var (c, b) := Run(events[..|events| - 1]);
      Step(c, b, events[|events| - 1])
  }

  lemma LegalPrefix(events: seq<Event>)
    requires Legal(events) && events != []
    ensures Legal(events[..|events| - 1])
  {
    var init := events[..|events| - 1];
    forall i | 0 <= i < |init|
      ensures 0 < init[i].p < TOMB && (init[i].Track? ==> init[i].p !in InUse(init[..i]))
    {
      assert init[i] == events[i] && init[..i] == events[..i];
    }
  }

  /** The ledger lists blocks in use only, and all of them unless a table was full. */
  ghost predicate Lists(b: Books, blocks: map<nat, Block>) {
    && (forall p :: p in b.ledger ==> p in blocks && b.ledger[p] == blocks[p])
    && (Complete(b.log) ==> b.ledger == blocks)
  }

  ghost predicate Complete(log: seq<Item>) {
    forall i :: 0 <= i < |log| ==> log[i].stored
  }

  lemma StepLists(c: Census, b: Books, e: Event, blocks: map<nat, Block>)
    requires Shaped(c) && Lists(b, blocks) && (e.Track? ==> e.p !in blocks)
    ensures Lists(Step(c, b, e).1,
                  if e.Track? then blocks[e.p := Block(e.k, e.sz)] else blocks - {e.p})
  {
    var b' := Step(c, b, e).1;
    if e.Track? {
      var x := b'.log[|b.log|];
      assert b'.log == b.log + [x];
      assert x.stored ==> b'.ledger == b.ledger[e.p := Block(e.k, e.sz)];
      assert !x.stored ==> b'.ledger == b.ledger;
      assert Complete(b'.log) ==> Complete(b.log) && x.stored by {
        if Complete(b'.log) {
          assert forall i :: 0 <= i < |b.log| ==> b.log[i] == b'.log[i];
        }
      }
    }
  }

  /** In every reachable state the census is exact and the ledger lists blocks in use. */
  lemma {:induction false} RunHolds(events: seq<Event>)
    requires Legal(events)
    ensures Inv(Run(events).0, Run(events).1) && Lists(Run(events).1, InUse(events))
  {
    if events == [] {
      StartHolds();
    } else {
      var init, e := events[..|events| - 1], events[|events| - 1];
      LegalPrefix(events);
      RunHolds(init);
      var (c, b) := Run(init);
      StepLists(c, b, e, InUse(init));
      match e
      case Track(p, k, sz) => TrackKeeps(c, b, p, k, sz);
      case Untrack(p) => UntrackKeeps(c, b, p);
    }
  }

  lemma {:induction false} NothingDropped(log: seq<Item>, sel: Select)
    requires Complete(log)
    ensures Dropped(log, sel) == 0
  {
    if log != [] { NothingDropped(log[..|log| - 1], sel); }
  }

  // ---------- when the tables have room ----------

  ghost function UsedSlots(live: seq<Entry>): set<nat>
    requires |live| == NLIVE
  {
    set j: nat | j < NLIVE && live[j].p != 0
  }

  /** The slots below `n`. */
  function Below(n: nat): set<nat> {
    if n == 0 then {} else Below(n - 1) + {n - 1}
  }

  lemma {:induction false} BelowSize(n: nat)
    ensures |Below(n)| == n && forall j: nat :: j in Below(n) <==> j < n
  {
    if n > 0 { BelowSize(n - 1); }
  }

  lemma SubsetSize<T>(a: set<T>, b: set<T>)
    requires a <= b
    ensures |a| <= |b|
  {
    assert b == a + (b - a);
  }

  /** A full live table means as many blocks were tracked as it has slots. */
  lemma FullMeansMany(live: seq<Entry>, start: nat)
    requires |live| == NLIVE && start < NLIVE && FreeStop(live, start, 0) == NLIVE
    ensures |UsedSlots(live)| == NLIVE
  {
    FreeStopIs(live, start, 0);
    forall j: nat | j < NLIVE
      ensures live[j].p != 0
    {
      assert live[Probe(NLIVE, start, Dist(NLIVE, start, j))].p != 0;
    }
    BelowSize(NLIVE);
    assert UsedSlots(live) == Below(NLIVE);
  }

  lemma UsedGrows(live: seq<Entry>, j: nat, e: Entry)
    requires |live| == NLIVE && j < NLIVE
    ensures |UsedSlots(live[j := e])| <= |UsedSlots(live)| + 1
    ensures live[j].p != 0 ==> |UsedSlots(live[j := e])| <= |UsedSlots(live)|
  {
    SubsetSize(UsedSlots(live[j := e]), UsedSlots(live) + {j});
    if live[j].p != 0 { SubsetSize(UsedSlots(live[j := e]), UsedSlots(live)); }
  }

  lemma StepUses(c: Census, b: Books, e: Event)
    requires Shaped(c) && |UsedSlots(c.live)| <= |b.log|
    ensures var (c', b') := Step(c, b, e); |UsedSlots(c'.live)| <= |b'.log|
  {
    if e.Track? {
      UsedGrows(c.live, Probe(NLIVE, LiveStart(e.p), FreeIndex(c.live, LiveStart(e.p))), EntryOf(c, e));
    } else {
      FindStopIs(c.live, e.p, LiveStart(e.p), 0);
      var i := FindStop(c.live, e.p, LiveStart(e.p), 0);
      if i < NLIVE {
        var j := Probe(NLIVE, LiveStart(e.p), i);
        if c.live[j].p == e.p && e.p != 0 { UsedGrows(c.live, j, c.live[j].(p := TOMB)); }
      }
    }
  }

  ghost function FreeIndex(live: seq<Entry>, start: nat): (i: nat)
    requires |live| == NLIVE && start < NLIVE
    ensures i < NLIVE
  {
    var r := FreeStop(live, start, 0);
    if r < NLIVE then r else 0
  }

  ghost function EntryOf(c: Census, e: Event): Entry
    requires Shaped(c) && e.Track?
  {
    var r := SiteStop(c.sites, e.k, SiteStart(e.k), 0);
    Entry(e.p, if r < NSITE then Probe(NSITE, SiteStart(e.k), r) else 0, e.sz)
  }

  function TrackCount(events: seq<Event>): nat {
    if events == [] then 0
    else TrackCount(events[..|events| - 1]) + if events[|events| - 1].Track? then 1 else 0
  }

  function Chains(events: seq<Event>): set<Chain> {
    if events == [] then {}
    else Chains(events[..|events| - 1]) + if events[|events| - 1].Track? then {events[|events| - 1].k} else {}
  }

  /** The tables hold no more than the run put in. */
  lemma {:induction false} RunUses(events: seq<Event>)
    ensures |UsedSlots(Run(events).0.live)| <= |Run(events).1.log| == TrackCount(events)
    ensures Run(events).1.sited.Keys <= Chains(events)
  {
    if events == [] {
      assert UsedSlots(Start().live) == {};
    } else {
      RunUses(events[..|events| - 1]);
      var (c, b) := Run(events[..|events| - 1]);
      StepUses(c, b, events[|events| - 1]);
    }
  }

  /** Sites with distinct chains number no more than the chains. */
  lemma {:induction false} DistinctSites(sites: seq<Site>, sited: map<Chain, nat>, n: nat)
    requires n <= |sites| && forall j :: 0 <= j < n ==> sites[j].k in sited && sited[sites[j].k] == j
    ensures |sited| >= n
    decreases n
  {
    if n > 0 { DistinctSites(sites, sited - {sites[n - 1].k}, n - 1); }
  }

  /** A full site table means as many chains as it has slots, and one more. */
  lemma FullSitesMeanMany(sites: seq<Site>, b: Books, k: Chain)
    requires SitesInv(sites, b.sited, b.log) && SiteStop(sites, k, SiteStart(k), 0) == NSITE
    ensures |b.sited| >= NSITE && k !in b.sited
  {
    StopsAtSite(sites, b, k);
    SiteStopIs(sites, k, SiteStart(k), 0);
    forall j | 0 <= j < NSITE
      ensures sites[j].k in b.sited && b.sited[sites[j].k] == j
    {
      assert sites[Probe(NSITE, SiteStart(k), Dist(NSITE, SiteStart(k), j))].calls > 0;
      assert SiteOk(sites, b.sited, j);
    }
    DistinctSites(sites, b.sited, NSITE);
  }

  /** One more block is stored, as long as blocks and chains are within the tables. */
  lemma TrackStores(c: Census, b: Books, e: Event, chains: set<Chain>)
    requires Inv(c, b) && e.Track? && |UsedSlots(c.live)| < NLIVE
    requires b.sited.Keys <= chains && e.k in chains && |chains| <= NSITE
    ensures var b' := Step(c, b, e).1; b'.log == b.log + [b'.log[|b.log|]] && b'.log[|b.log|].stored
  {
    if SiteStop(c.sites, e.k, SiteStart(e.k), 0) == NSITE {
      FullSitesMeanMany(c.sites, b, e.k);
      SubsetSize(b.sited.Keys + {e.k}, chains);
    }
    if FreeStop(c.live, LiveStart(e.p), 0) == NLIVE {
      FullMeansMany(c.live, LiveStart(e.p));
    }
  }

  /** The tables have room for the run: no more blocks than slots, of which none is ever
      reused, and no more chains than sites, of which none is ever given up. */
  predicate Fits(events: seq<Event>) {
    TrackCount(events) <= NLIVE && |Chains(events)| <= NSITE
  }

  lemma {:induction false} FitsMeansComplete(events: seq<Event>)
    requires Legal(events) && Fits(events)
    ensures Complete(Run(events).1.log)
  {
    if events != [] {
      var init, e := events[..|events| - 1], events[|events| - 1];
      LegalPrefix(events);
      SubsetSize(Chains(init), Chains(events));
      FitsMeansComplete(init);
      RunHolds(init);
      RunUses(init);
      var (c, b) := Run(init);
      if e.Track? { TrackStores(c, b, e, Chains(events)); }
    }
  }

  /** A block that is stored takes a slot nothing has been in. */
  lemma StoreUses(c: Census, b: Books, e: Event)
    requires Shaped(c) && e.Track? && e.p > 0
    requires var b' := Step(c, b, e).1; b'.log[|b.log|].stored
    ensures |UsedSlots(Step(c, b, e).0.live)| == |UsedSlots(c.live)| + 1
    ensures Step(c, b, e).1.sited.Keys == b.sited.Keys + {e.k}
  {
    var start := LiveStart(e.p);
    FreeStopIs(c.live, start, 0);
    var j := Probe(NLIVE, start, FreeStop(c.live, start, 0));
    var live' := Step(c, b, e).0.live;
    assert live' == c.live[j := EntryOf(c, e)];
    assert UsedSlots(live') == UsedSlots(c.live) + {j};
  }

  /** A freed slot is not given back. */
  lemma FreeUses(c: Census, b: Books, e: Event)
    requires Shaped(c) && e.Untrack?
    ensures UsedSlots(Step(c, b, e).0.live) == UsedSlots(c.live)
    ensures Step(c, b, e).1.sited == b.sited && Step(c, b, e).1.log == b.log
  {
  }

  /** While nothing has been dropped, the tables hold everything the run put in. */
  lemma {:induction false} CompleteUses(events: seq<Event>)
    requires Legal(events) && Complete(Run(events).1.log)
    ensures |UsedSlots(Run(events).0.live)| == TrackCount(events)
    ensures Run(events).1.sited.Keys == Chains(events)
  {
    if events == [] {
      assert UsedSlots(Start().live) == {};
    } else {
      var init, e := events[..|events| - 1], events[|events| - 1];
      LegalPrefix(events);
      var (c, b) := Run(init);
      var b' := Step(c, b, e).1;
      if e.Track? {
        assert b'.log == b.log + [b'.log[|b.log|]];
        assert forall i :: 0 <= i < |b.log| ==> b.log[i] == b'.log[i];
        CompleteUses(init);
        StoreUses(c, b, e);
      } else {
        FreeUses(c, b, e);
        CompleteUses(init);
      }
    }
  }

  /** Chains with distinct slots below `n` number no more than `n`. */
  lemma {:induction false} DistinctSlots(sited: map<Chain, nat>, n: nat)
    requires forall k :: k in sited ==> sited[k] < n
    requires forall k, l :: k in sited && l in sited && sited[k] == sited[l] ==> k == l
    ensures |sited| <= n
    decreases n
  {
    if k :| k in sited && sited[k] == n - 1 {
      DistinctSlots(sited - {k}, n - 1);
      assert sited == (sited - {k})[k := sited[k]];
    } else if n > 0 {
      DistinctSlots(sited, n - 1);
    } else {
      assert sited == map[];
    }
  }

  lemma SitesBound(c: Census, b: Books)
    requires Inv(c, b)
    ensures |b.sited| <= NSITE
  {
    forall k | k in b.sited
      ensures b.sited[k] < NSITE && c.sites[b.sited[k]].k == k
    {
      assert HasSite(c.sites, b.sited, k);
    }
    DistinctSlots(b.sited, NSITE);
  }

  lemma UsedBound(live: seq<Entry>)
    requires |live| == NLIVE
    ensures |UsedSlots(live)| <= NLIVE
  {
    BelowSize(NLIVE);
    SubsetSize(UsedSlots(live), Below(NLIVE));
  }

  /** Every block is stored exactly when the tables have room for the run. */
  lemma CompleteExactlyWhenFits(events: seq<Event>)
    requires Legal(events)
    ensures Complete(Run(events).1.log) <==> Fits(events)
  {
    if Fits(events) { FitsMeansComplete(events); }
    if Complete(Run(events).1.log) {
      var (c, b) := Run(events);
      RunHolds(events);
      CompleteUses(events);
      SitesBound(c, b);
      UsedBound(c.live);
    }
  }

  /** For every run within the tables, the running totals are the bytes in use, over all
      and per chain. */
  lemma CensusAgreesWithAllocator(events: seq<Event>)
    requires Legal(events) && Fits(events)
    ensures Run(events).0.alive == Bytes(InUse(events), All)
    ensures forall j :: 0 <= j < NSITE && Run(events).0.sites[j].calls > 0 ==>
      Run(events).0.sites[j].alive == Bytes(InUse(events), Of(Run(events).0.sites[j].k))
  {
    RunHolds(events);
    FitsMeansComplete(events);
    var (c, b) := Run(events);
    NothingDropped(b.log, All);
    forall j | 0 <= j < NSITE && c.sites[j].calls > 0
      ensures c.sites[j].alive == Bytes(InUse(events), Of(c.sites[j].k))
    {
      assert ExactAt(c.sites, b, j);
      NothingDropped(b.log, Of(c.sites[j].k));
    }
  }

  // ---------- peaks ----------

  /** The totals are within the peaks. */
  predicate Within(c: Census, j: nat) {
    |c.sites| == NSITE && j < NSITE && c.peak >= c.alive && c.sites[j].peak >= c.sites[j].alive
  }

  /** A peak never falls, stays above the total, and moves only to the new total. */
  predicate PeakStep(c: Census, c': Census, j: nat) {
    Within(c, j) ==>
      && Within(c', j) && c'.peak >= c.peak && (c'.peak == c.peak || c'.peak == c'.alive)
      && c'.sites[j].peak >= c.sites[j].peak
      && (c'.sites[j].peak == c.sites[j].peak || c'.sites[j].peak == c'.sites[j].alive)
  }

  lemma StepPeaks(c: Census, b: Books, e: Event, j: nat)
    requires Shaped(c) && j < NSITE
    ensures PeakStep(c, Step(c, b, e).0, j)
  {
  }

  /** The tables after each prefix of a run. */
  ghost function History(events: seq<Event>): (h: seq<Census>)
    ensures |h| == |events| + 1 && forall i :: 0 <= i < |h| ==> h[i] == Run(events[..i]).0
  {
    seq(|events| + 1, i requires 0 <= i <= |events| => Run(events[..i]).0)
  }

  lemma HistorySteps(events: seq<Event>, i: nat, j: nat)
    requires i < |events| && j < NSITE
    ensures PeakStep(History(events)[i], History(events)[i + 1], j)
  {
    var (c, b) := Run(events[..i]);
    LastStep(events, i);
    StepPeaks(c, b, events[i], j);
    assert History(events)[i] == c && History(events)[i + 1] == Step(c, b, events[i]).0;
  }

  lemma LastStep(events: seq<Event>, i: nat)
    requires i < |events|
    ensures Run(events[..i + 1]) == Step(Run(events[..i]).0, Run(events[..i]).1, events[i])
  {
    var upto := events[..i + 1];
    assert upto[..|upto| - 1] == events[..i] && upto[|upto| - 1] == events[i];
  }

  ghost predicate PeakSteps(h: seq<Census>, j: nat) {
    |h| > 0 && Within(h[0], j) && forall i :: 0 <= i < |h| - 1 ==> PeakStep(h[i], h[i + 1], j)
  }

  lemma {:induction false} BoundOver(h: seq<Census>, j: nat, n: nat, m: nat)
    requires PeakSteps(h, j) && n <= m < |h|
    ensures Within(h[n], j) && Within(h[m], j)
    ensures h[m].peak >= h[n].alive && h[m].sites[j].peak >= h[n].sites[j].alive
    decreases m
  {
    if m > 0 {
      BoundOver(h, j, if n < m then n else n - 1, m - 1);
      assert PeakStep(h[m - 1], h[m], j);
    }
  }

  lemma {:induction false} ReachedOver(h: seq<Census>, j: nat, m: nat) returns (n: nat, k: nat)
    requires PeakSteps(h, j) && m < |h| && h[0].peak == h[0].alive && h[0].sites[j].peak == h[0].sites[j].alive
    ensures n <= m && h[m].peak == h[n].alive
    ensures k <= m && |h[m].sites| == |h[k].sites| == NSITE && h[m].sites[j].peak == h[k].sites[j].alive
    decreases m
  {
    BoundOver(h, j, 0, m);
    if m == 0 {
      n, k := 0, 0;
    } else {
      n, k := ReachedOver(h, j, m - 1);
      BoundOver(h, j, m - 1, m - 1);
      assert PeakStep(h[m - 1], h[m], j);
      if h[m].peak != h[m - 1].peak { n := m; }
      if h[m].sites[j].peak != h[m - 1].sites[j].peak { k := m; }
    }
  }

  /** The peaks, of the whole and of each site, are the largest totals of the run: none was
      larger, and each was reached. */
  lemma PeaksAreMaxima(events: seq<Event>, j: nat) returns (n: nat, k: nat)
    requires j < NSITE
    ensures forall i :: 0 <= i <= |events| ==>
      Run(events).0.peak >= History(events)[i].alive && Run(events).0.sites[j].peak >= History(events)[i].sites[j].alive
    ensures n <= |events| && Run(events).0.peak == Run(events[..n]).0.alive
    ensures k <= |events| && Run(events).0.sites[j].peak == Run(events[..k]).0.sites[j].alive
  {
    var h := History(events);
    assert events[..|events|] == events && events[..0] == [];
    assert h[0] == Start();
    forall i | 0 <= i < |h| - 1
      ensures PeakStep(h[i], h[i + 1], j)
    {
      HistorySteps(events, i, j);
    }
    forall i | 0 <= i <= |events|
      ensures Run(events).0.peak >= h[i].alive && Run(events).0.sites[j].peak >= h[i].sites[j].alive
    {
      BoundOver(h, j, i, |events|);
    }
    n, k := ReachedOver(h, j, |events|);
  }
}
