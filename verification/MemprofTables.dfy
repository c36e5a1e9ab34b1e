/** The census as the source keeps it: two arrays and two counters, updated in place. */
module MemprofTables {
  import opened Memprof

  function HashFrames(ks: seq<nat>, n: nat): nat
    requires n <= |ks|
  {
    if n == 0 then 0 else HashStep(HashFrames(ks, n - 1), ks[n - 1])
  }

  method HashChain(k: Chain) returns (h: nat)
    ensures h == SiteHash(k) && h < WORD
  {
    var ks := [k.k0, k.k1, k.k2, k.k3];
    h := 0;
    var i := 0;
    while i < 4
      invariant 0 <= i <= 4 && h == HashFrames(ks, i) && h < WORD
    {
      h := (h * 31 + ks[i] / 16 % WORD) % WORD;
      i := i + 1;
    }
    assert HashFrames(ks, 1) == HashStep(0, k.k0);
    assert HashFrames(ks, 2) == HashStep(HashFrames(ks, 1), k.k1);
    assert HashFrames(ks, 3) == HashStep(HashFrames(ks, 2), k.k2);
  }

  /** The 32-bit sum may wrap; the table size divides the word, so the slot does not notice. */
  lemma WrappedProbe(h: nat, i: nat)
    requires h < WORD && i < NSITE
    ensures (h + i) % WORD % NSITE == Probe(NSITE, h % NSITE, i)
  {
    if h + i >= WORD { assert (h + i) % WORD == h + i - WORD; }
  }

  /** One slot on, around the live table. */
  method NextSlot(ghost start: nat, ghost i: nat, j: nat) returns (next: nat)
    requires start < NLIVE && i < NLIVE && j == Probe(NLIVE, start, i)
    ensures next < NLIVE && (i + 1 < NLIVE ==> next == Probe(NLIVE, start, i + 1))
  {
    next := (j + 1) % NLIVE;
  }

  lemma FreeNext(live: seq<Entry>, start: nat, i: nat)
    requires |live| == NLIVE && start < NLIVE && i < NLIVE && live[Probe(NLIVE, start, i)].p != 0
    ensures FreeStop(live, start, i) == FreeStop(live, start, i + 1)
  {
  }

  class Profiler {
    const sites: array<Site>
    const live: array<Entry>
    var alive: int
    var peak: int
    ghost var books: Books

    ghost function View(): Census
      reads this, sites, live
    {
      Census(sites[..], live[..], alive, peak)
    }

    ghost predicate Valid()
      reads this, sites, live
    {
      Inv(View(), books)
    }

    constructor ()
      ensures Valid() && books == Books(map[], map[], map[], []) && fresh(sites) && fresh(live)
      ensures alive == 0 && peak == 0
    {
      sites := new Site[NSITE](_ => Site(Chain(0, 0, 0, 0), 0, 0, 0, 0));
      live := new Entry[NLIVE](_ => Entry(0, 0, 0));
      alive, peak := 0, 0;
      books := Books(map[], map[], map[], []);
      new;
      assert forall j :: 0 <= j < NLIVE ==> Indexed(View(), books, j);
      assert forall j :: 0 <= j < NSITE ==> SiteOk(sites[..], books.sited, j) && ExactAt(sites[..], books, j);
    }

    /** The search of `track` for its chain's site. */
    method FindSite(k: Chain) returns (i: nat)
      requires sites.Length == NSITE
      ensures i == SiteStop(sites[..], k, SiteStart(k), 0)
    {
      var h := HashChain(k);
      i := 0;
      while i < NSITE
        invariant 0 <= i <= NSITE && SiteStop(sites[..], k, SiteStart(k), i) == SiteStop(sites[..], k, SiteStart(k), 0)
      {
        WrappedProbe(h, i);
        var j := (h + i) % WORD % NSITE;
        if sites[j].calls == 0 || sites[j].k == k { return; }
        i := i + 1;
      }
    }

    /** The search of `track` for a free slot. */
    method FindFree(start: nat) returns (i: nat, j: nat)
      requires live.Length == NLIVE && start < NLIVE
      ensures i == FreeStop(live[..], start, 0)
      ensures i < NLIVE ==> j == Probe(NLIVE, start, i)
    {
      i, j := 0, start;
      while i < NLIVE
        invariant 0 <= i <= NLIVE && FreeStop(live[..], start, i) == FreeStop(live[..], start, 0)
        invariant j < NLIVE && (i < NLIVE ==> j == Probe(NLIVE, start, i))
      {
        if live[j].p == 0 { return; }
        FreeNext(live[..], start, i);
        j := NextSlot(start, i, j);
        i := i + 1;
      }
    }

    /** The search of `untrack` for a pointer. */
    method FindPointer(p: nat, start: nat) returns (i: nat, j: nat)
      requires live.Length == NLIVE && start < NLIVE
      ensures i == FindStop(live[..], p, start, 0)
      ensures i < NLIVE ==> j == Probe(NLIVE, start, i)
    {
      i, j := 0, start;
      while i < NLIVE
        invariant 0 <= i <= NLIVE && FindStop(live[..], p, start, i) == FindStop(live[..], p, start, 0)
        invariant j < NLIVE && (i < NLIVE ==> j == Probe(NLIVE, start, i))
      {
        if live[j].p == 0 || live[j].p == p { return; }
        j := NextSlot(start, i, j);
        i := i + 1;
      }
    }

    /** A block is charged to its site and put in a free slot, if there is one. */
    method Attribute(si: nat, p: nat, k: Chain, sz: nat)
      requires sites.Length == NSITE && live.Length == NLIVE && si < NSITE
      modifies sites, live
      ensures sites[..] == old(sites[..])[si := Charged(old(sites[si]), k, sz)]
      ensures var f := FreeStop(old(live[..]), LiveStart(p), 0);
        live[..] ==
          if f == NLIVE then old(live[..]) else old(live[..])[Probe(NLIVE, LiveStart(p), f) := Entry(p, si, sz)]
    {
      var s := sites[si];
      s := s.(k := k, calls := s.calls + 1, total := s.total + sz, alive := s.alive + sz);
      if s.alive > s.peak { s := s.(peak := s.alive); }
      sites[si] := s;
      var f, j := FindFree(LiveStart(p));
      if f < NLIVE { live[j] := Entry(p, si, sz); }
    }

    method Record(p: nat, k: Chain, sz: nat)
      requires Shaped(View())
      modifies this`alive, this`peak, sites, live
      ensures View() == Tracked(old(View()), p, k, sz)
    {
      var i := FindSite(k);
      if i < NSITE { Attribute(Probe(NSITE, SiteStart(k), i), p, k, sz); }
      Count(sz);
    }

    /** The totals of the whole program. */
    method Count(sz: nat)
      modifies this`alive, this`peak
      ensures alive == old(alive) + sz && peak == Larger(old(peak), alive)
    {
      alive := alive + sz;
      if alive > peak { peak := alive; }
    }

    /** `track`, given the back trace. */
    method Track(p: nat, trace: seq<nat>, sz: nat)
      requires Valid() && 0 < p < TOMB && p !in books.ledger
      modifies this, sites, live
      ensures Valid()
      ensures View() == Tracked(old(View()), p, ChainOf(trace), sz)
      ensures books == TrackedBooks(old(View()), old(books), p, ChainOf(trace), sz)
    {
      var k := ChainOf(trace);
      TrackKeeps(View(), books, p, k, sz);
      books := TrackedBooks(View(), books, p, k, sz);
      Record(p, k, sz);
    }

    /** `untrack`. */
    method Untrack(p: nat)
      requires Valid() && 0 < p < TOMB
      modifies this, sites, live
      ensures Valid()
      ensures View() == Untracked(old(View()), p)
      ensures books == UntrackedBooks(old(books), p)
      ensures p !in old(books).ledger ==> View() == old(View())
      ensures p in old(books).ledger ==> alive == old(alive) - old(books).ledger[p].sz
    {
      ghost var c, b := View(), books;
      UntrackKeeps(c, b, p);
      FindsExactlyLive(c, b, p);
      assert p in b.ledger ==> InTable(c, b, p);
      books := UntrackedBooks(books, p);
      var i, j := FindPointer(p, LiveStart(p));
      if i < NLIVE && live[j].p == p { Retire(p, i, j); }
    }

    /** A found entry becomes a tombstone and its bytes are taken off. */
    method Retire(p: nat, i: nat, j: nat)
      requires Shaped(View()) && p > 0 && i == FindStop(live[..], p, LiveStart(p), 0) && i < NLIVE
      requires j == Probe(NLIVE, LiveStart(p), i) && live[j].p == p
      modifies this`alive, sites, live
      ensures View() == Untracked(old(View()), p)
    {
      var e := live[j];
      sites[e.site] := sites[e.site].(alive := sites[e.site].alive - e.sz);
      alive := alive - e.sz;
      live[j] := e.(p := TOMB);
    }
  }
}
