/** Exactly when the census agrees with the allocator, also when tables overflow. */
module MemprofExact {
  import opened Memprof
  import opened MemprofRuns

  /** The live table had room for the block that the last event tracked. */
  ghost predicate LastStored(events: seq<Event>)
    requires events != [] && events[|events| - 1].Track?
  {
    var log := Run(events).1.log;
    log != [] && log[|log| - 1].stored
  }

  /** The blocks in use that the live table had no room for. */
  ghost function Spill(events: seq<Event>): map<nat, Block> {
    if events == [] then map[]
    else
      var before, e := Spill(events[..|events| - 1]), events[|events| - 1];
      match e
      case Track(p, k, sz) => if LastStored(events) then before else before[p := Block(k, sz)]
      case Untrack(p) => before - {p}
  }

  /** What the last event frees without the census noticing. */
  ghost function LostNow(events: seq<Event>, sel: Select): nat
    requires events != []
  {
    var before, e := Spill(events[..|events| - 1]), events[|events| - 1];
    if e.Untrack? && e.p in before then Weight(before[e.p], sel) else 0
  }

  /** The bytes of dropped blocks that have been freed since. */
  ghost function Lost(events: seq<Event>, sel: Select): nat {
    if events == [] then 0 else Lost(events[..|events| - 1], sel) + LostNow(events, sel)
  }

  /** The bytes of all blocks that the live table dropped. */
  function AllDropped(log: seq<Item>, sel: Select): nat {
    if log == [] then 0
    else
      var x := log[|log| - 1];
      AllDropped(log[..|log| - 1], sel) + if Picks(sel, x.k) && !x.stored then x.sz else 0
  }

  // ---------- chains without a site ----------

  /** A chain that was refused a site never gets one, because the table is full for good. */
  ghost predicate Refused(b: Books) {
    forall i {:trigger b.log[i]} :: 0 <= i < |b.log| && !b.log[i].sited ==>
      |b.sited| >= NSITE && b.log[i].k !in b.sited
  }

  lemma SitedGrows(c: Census, b: Books, e: Event)
    requires Shaped(c)
    ensures b.sited.Keys <= Step(c, b, e).1.sited.Keys
    ensures e.Track? ==> Step(c, b, e).1.sited.Keys <= b.sited.Keys + {e.k}
    ensures var log' := Step(c, b, e).1.log;
      e.Track? ==> |log'| == |b.log| + 1 && log'[..|b.log|] == b.log && log'[|b.log|].k == e.k
  {
  }

  /** The last block was refused a site, or its chain has one. */
  lemma NewItem(c: Census, b: Books, e: Event)
    requires Inv(c, b) && e.Track?
    ensures var b' := Step(c, b, e).1;
      !b'.log[|b.log|].sited ==> b' == b.(log := b'.log) && |b.sited| >= NSITE && e.k !in b.sited
  {
    if SiteStop(c.sites, e.k, SiteStart(e.k), 0) == NSITE { FullSitesMeanMany(c.sites, b, e.k); }
  }

  lemma {:induction false} RefusedStays(events: seq<Event>)
    requires Legal(events)
    ensures Refused(Run(events).1)
  {
    if events != [] {
      var init, e := events[..|events| - 1], events[|events| - 1];
      LegalPrefix(events);
      RefusedStays(init);
      RunHolds(init);
      RunHolds(events);
      var (c, b) := Run(init);
      if e.Track? {
        NewItem(c, b, e);
        SitesBound(Run(events).0, Run(events).1);
        RefusedStep(c, b, e);
      }
    }
  }

  lemma RefusedStep(c: Census, b: Books, e: Event)
    requires Shaped(c) && e.Track? && Refused(b)
    requires var b' := Step(c, b, e).1;
      && |b'.sited| <= NSITE
      && (!b'.log[|b.log|].sited ==> b' == b.(log := b'.log) && |b.sited| >= NSITE && e.k !in b.sited)
    ensures Refused(Step(c, b, e).1)
  {
    var b' := Step(c, b, e).1;
    SitedGrows(c, b, e);
    SubsetSize(b.sited.Keys, b'.sited.Keys);
    forall i | 0 <= i < |b'.log| && !b'.log[i].sited
      ensures |b'.sited| >= NSITE && b'.log[i].k !in b'.sited
    {
      if i < |b.log| {
        assert b'.log[i] == b.log[i];
        FullStays(b.sited.Keys, b'.sited.Keys);
      }
    }
  }

  lemma FullStays(a: set<Chain>, b: set<Chain>)
    requires a <= b && |b| <= NSITE && |a| >= NSITE
    ensures a == b
  {
    assert b == a + (b - a);
  }

  /** For a chain with a site, all that was dropped was charged to the site. */
  lemma {:induction false} SitedDropped(log: seq<Item>, sel: Select)
    requires sel.Of? ==> forall i :: 0 <= i < |log| && log[i].k == sel.k ==> log[i].sited
    ensures Dropped(log, sel) == AllDropped(log, sel)
  {
    if log != [] { SitedDropped(log[..|log| - 1], sel); }
  }

  // ---------- the blocks in use, split ----------

  ghost predicate Splits(events: seq<Event>) {
    var ledger, spill := Run(events).1.ledger, Spill(events);
    ledger.Keys !! spill.Keys && InUse(events) == ledger + spill
  }

  /** Tracking stores the block in the ledger, or does not touch the ledger. */
  lemma LedgerStep(c: Census, b: Books, e: Event)
    requires Shaped(c)
    ensures var b' := Step(c, b, e).1;
      match e
      case Track(p, k, sz) =>
        && b'.log == b.log + [b'.log[|b.log|]] && b'.log[|b.log|].k == k && b'.log[|b.log|].sz == sz
        && b'.ledger == if b'.log[|b.log|].stored then b.ledger[p := Block(k, sz)] else b.ledger
      case Untrack(p) => b'.log == b.log && b'.ledger == b.ledger - {p}
  {
  }

  lemma {:induction false} RunSplits(events: seq<Event>)
    requires Legal(events)
    ensures Splits(events)
  {
    if events != [] {
      var init, e := events[..|events| - 1], events[|events| - 1];
      LegalPrefix(events);
      RunSplits(init);
      var (c, b) := Run(init);
      LedgerStep(c, b, e);
      match e
      case Track(p, k, sz) => SplitAdd(b.ledger, Spill(init), p, Block(k, sz));
      case Untrack(p) => SplitRemove(b.ledger, Spill(init), p);
    }
  }

  lemma SplitAdd(ledger: map<nat, Block>, spill: map<nat, Block>, p: nat, x: Block)
    requires ledger.Keys !! spill.Keys && p !in ledger + spill
    ensures ledger[p := x] + spill == (ledger + spill)[p := x] && ledger[p := x].Keys !! spill.Keys
    ensures ledger + spill[p := x] == (ledger + spill)[p := x] && ledger.Keys !! spill[p := x].Keys
  {
  }

  lemma SplitRemove(ledger: map<nat, Block>, spill: map<nat, Block>, p: nat)
    requires ledger.Keys !! spill.Keys
    ensures (ledger - {p}) + (spill - {p}) == (ledger + spill) - {p} && (ledger - {p}).Keys !! (spill - {p}).Keys
  {
  }

  lemma {:induction false} BytesUnion(a: map<nat, Block>, b: map<nat, Block>, sel: Select)
    requires a.Keys !! b.Keys
    ensures Bytes(a + b, sel) == Bytes(a, sel) + Bytes(b, sel)
    decreases b.Keys
  {
    if b == map[] {
      assert a + b == a;
    } else {
      var p :| p in b;
      BytesUnion(a, b - {p}, sel);
      OneMore(a, b - {p}, p, b[p], sel);
      assert (b - {p})[p := b[p]] == b;
    }
  }

  lemma OneMore(a: map<nat, Block>, b: map<nat, Block>, p: nat, x: Block, sel: Select)
    requires p !in a && p !in b && Bytes(a + b, sel) == Bytes(a, sel) + Bytes(b, sel)
    ensures Bytes(a + b[p := x], sel) == Bytes(a, sel) + Bytes(b[p := x], sel)
  {
    BytesAdd(b, p, x, sel);
    BytesAdd(a + b, p, x, sel);
    assert (a + b)[p := x] == a + b[p := x];
  }

  /** What was dropped is still in use, or lost. */
  lemma {:induction false} DroppedSplits(events: seq<Event>, sel: Select)
    requires Legal(events)
    ensures AllDropped(Run(events).1.log, sel) == Bytes(Spill(events), sel) + Lost(events, sel)
  {
    if events != [] {
      var init, e := events[..|events| - 1], events[|events| - 1];
      LegalPrefix(events);
      DroppedSplits(init, sel);
      RunSplits(init);
      var (c, b) := Run(init);
      LedgerStep(c, b, e);
      DroppedStep(events, sel);
    }
  }

  lemma DroppedStep(events: seq<Event>, sel: Select)
    requires Legal(events) && events != [] && Splits(events[..|events| - 1])
    ensures var init := events[..|events| - 1];
      AllDropped(Run(events).1.log, sel) - AllDropped(Run(init).1.log, sel) ==
        Bytes(Spill(events), sel) - Bytes(Spill(init), sel) + LostNow(events, sel)
  {
    var init, e := events[..|events| - 1], events[|events| - 1];
    var (c, b) := Run(init);
    LedgerStep(c, b, e);
    match e
    case Track(p, k, sz) =>
      var log' := Run(events).1.log;
      assert log'[..|log'| - 1] == b.log;
      if !LastStored(events) { BytesAdd(Spill(init), p, Block(k, sz), sel); }
    case Untrack(p) =>
      if p in Spill(init) {
        BytesRemove(Spill(init), p, sel);
      } else {
        assert Spill(init) - {p} == Spill(init);
      }
  }

  // ---------- the census and the allocator ----------

  /** In every legal run each total is the bytes in use plus the bytes lost. */
  lemma TotalsOverstate(events: seq<Event>)
    requires Legal(events)
    ensures Run(events).0.alive == Bytes(InUse(events), All) + Lost(events, All)
    ensures forall j :: 0 <= j < NSITE && Run(events).0.sites[j].calls > 0 ==>
      var s := Run(events).0.sites[j];
      s.alive == Bytes(InUse(events), Of(s.k)) + Lost(events, Of(s.k))
  {
    var (c, b) := Run(events);
    RunHolds(events);
    TotalIs(events, All);
    forall j | 0 <= j < NSITE && c.sites[j].calls > 0
      ensures c.sites[j].alive == Bytes(InUse(events), Of(c.sites[j].k)) + Lost(events, Of(c.sites[j].k))
    {
      assert ExactAt(c.sites, b, j);
      assert SiteOk(c.sites, b.sited, j);
      TotalIs(events, Of(c.sites[j].k));
    }
  }

  lemma TotalIs(events: seq<Event>, sel: Select)
    requires Legal(events) && (sel.Of? ==> sel.k in Run(events).1.sited)
    ensures var b := Run(events).1;
      Bytes(b.ledger, sel) + Dropped(b.log, sel) == Bytes(InUse(events), sel) + Lost(events, sel)
  {
    var b := Run(events).1;
    RefusedStays(events);
    SitedDropped(b.log, sel);
    DroppedSplits(events, sel);
    RunSplits(events);
    BytesUnion(b.ledger, Spill(events), sel);
  }

  /** No dropped block of the selection has been freed, empty ones aside. */
  ghost predicate NothingLost(events: seq<Event>, sel: Select) {
    forall i {:trigger events[..i]} :: 0 < i <= |events| ==> LostNow(events[..i], sel) == 0
  }

  lemma {:induction false} LostExactly(events: seq<Event>, sel: Select)
    ensures Lost(events, sel) == 0 <==> NothingLost(events, sel)
  {
    if events != [] {
      var m := |events| - 1;
      LostExactly(events[..m], sel);
      assert events[..|events|] == events;
      assert forall i :: 0 < i <= m ==> events[..m][..i] == events[..i];
      if NothingLost(events, sel) {
        assert LostNow(events[..|events|], sel) == 0;
        forall i | 0 < i <= m
          ensures LostNow(events[..m][..i], sel) == 0
        {
          assert LostNow(events[..i], sel) == 0;
        }
      }
      if Lost(events, sel) == 0 {
        forall i | 0 < i <= |events|
          ensures LostNow(events[..i], sel) == 0
        {
          if i <= m { assert LostNow(events[..m][..i], sel) == 0; }
        }
      }
    }
  }

  /** For every legal run, whether or not it fits: a total is the bytes in use exactly if no
      block of non-zero size that the live table dropped has been freed since. */
  lemma CensusExact(events: seq<Event>)
    requires Legal(events)
    ensures Run(events).0.alive == Bytes(InUse(events), All) <==> NothingLost(events, All)
    ensures forall j :: 0 <= j < NSITE && Run(events).0.sites[j].calls > 0 ==>
      var s := Run(events).0.sites[j];
      s.alive == Bytes(InUse(events), Of(s.k)) <==> NothingLost(events, Of(s.k))
  {
    TotalsOverstate(events);
    LostExactly(events, All);
    forall j | 0 <= j < NSITE && Run(events).0.sites[j].calls > 0
      ensures var s := Run(events).0.sites[j];
        s.alive == Bytes(InUse(events), Of(s.k)) <==> NothingLost(events, Of(s.k))
    {
      LostExactly(events, Of(Run(events).0.sites[j].k));
    }
  }
}
