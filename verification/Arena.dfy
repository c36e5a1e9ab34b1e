/**
 The shared arena's allocator: a bump pointer over the rank's slice, with freed
 blocks kept in one stack per exact size.  Each block is preceded by a 64-byte header
 line that holds its rounded size.  Addresses are offsets into the slice.
 */
module Arena {

  /** `size_t` wraps here. */
  const WORD := 0x1_0000_0000_0000_0000
  const LINE := 64

  /** Rounding up to whole cache lines, without and with the machine's wrap-around. */
  function RoundUp(n: nat): nat {
    (n + LINE - 1) / LINE * LINE
  }

  function RoundWrapped(n: nat): nat {
    (n + LINE - 1) % WORD / LINE * LINE
  }

  /** The test the allocator makes before carving a new block. */
  predicate CarveAccepted(slice: nat, bump: nat, n: nat) {
    (bump + LINE + RoundWrapped(n)) % WORD <= slice
  }

  /** The block really has room for `n` bytes inside the slice. */
  predicate CarveFits(slice: nat, bump: nat, n: nat) {
    RoundWrapped(n) >= n && bump + LINE + RoundWrapped(n) <= slice
  }

  /** No sum the allocator forms wraps. */
  predicate NoWrap(bump: nat, n: nat) {
    n + LINE - 1 < WORD && bump + LINE + RoundUp(n) < WORD
  }

  lemma RoundUpLine(n: nat)
    ensures RoundUp(n) % LINE == 0 && n <= RoundUp(n) < n + LINE
  {
  }

  /** Without wrap-around the test is exact. */
  lemma AcceptsExactlyWhatFits(slice: nat, bump: nat, n: nat)
    requires bump <= slice < WORD && n < WORD && NoWrap(bump, n)
    ensures RoundWrapped(n) == RoundUp(n)
    ensures CarveAccepted(slice, bump, n) <==> CarveFits(slice, bump, n)
    ensures CarveAccepted(slice, bump, n) <==> bump + LINE + RoundUp(n) <= slice
  {
    RoundUpLine(n);
    assert (n + LINE - 1) % WORD == n + LINE - 1;
  }

  /** With wrap-around it accepts blocks that do not fit: a request within a line of
      the word size is rounded to nothing, and one whose end wraps looks as if it ended
      before the bump pointer. */
  lemma WrapAcceptsWrongly(slice: nat, bump: nat, n: nat)
    requires bump <= slice < WORD && n < WORD
    ensures CarveAccepted(slice, bump, n) && !CarveFits(slice, bump, n) <==>
      !NoWrap(bump, n) && (n + LINE - 1 >= WORD ==> (bump + LINE) % WORD <= slice)
  {
    if NoWrap(bump, n) {
      AcceptsExactlyWhatFits(slice, bump, n);
    } else if n + LINE - 1 >= WORD {
      assert (n + LINE - 1) % WORD == n + LINE - 1 - WORD;
      assert RoundWrapped(n) == 0;
    } else {
      RoundUpLine(n);
      assert RoundWrapped(n) == RoundUp(n);
      var end := bump + LINE + RoundUp(n);
      assert RoundUp(n) <= WORD - LINE;
      assert end % WORD == end - WORD <= bump;
    }
  }

  // ---------- the whole call ----------

  /** What `arena_alloc` does with a request. */
  datatype Service = Reused(p: nat) | Carved(p: nat) | Refused

  /** A freed block of exactly this size is listed. */
  predicate Available(freed: map<nat, seq<nat>>, size: nat) {
    size in freed && freed[size] != []
  }

  function Top(stack: seq<nat>): nat
    requires stack != []
  {
    stack[|stack| - 1]
  }

  function Popped(stack: seq<nat>): seq<nat>
    requires stack != []
  {
    stack[..|stack| - 1]
  }

  function Served(slice: nat, bump: nat, freed: map<nat, seq<nat>>, n: nat): Service {
    var size := RoundWrapped(n);
    if Available(freed, size) then Reused(Top(freed[size]))
    else if CarveAccepted(slice, bump, n) then Carved(bump + LINE)
    else Refused
  }

  /** The block handed out is smaller than the request, or ends past the slice.  A reused
      block has the rounded size, because it is listed under it. */
  predicate ServedWrongly(slice: nat, bump: nat, freed: map<nat, seq<nat>>, n: nat) {
    match Served(slice, bump, freed, n)
    case Reused(_) => RoundWrapped(n) < n
    case Carved(p) => RoundWrapped(n) < n || p + RoundWrapped(n) > slice
    case Refused => false
  }

  lemma RoundsDownExactly(n: nat)
    requires n < WORD
    ensures RoundWrapped(n) < n <==> n + LINE - 1 >= WORD
    ensures n + LINE - 1 >= WORD ==> RoundWrapped(n) == 0
  {
    if n + LINE - 1 < WORD {
      RoundUpLine(n);
      assert RoundWrapped(n) == RoundUp(n);
    } else {
      assert (n + LINE - 1) % WORD == n + LINE - 1 - WORD;
    }
  }

  /** The whole call, for every request and every state: it hands out a block that is too
      small or ends past the slice exactly if the request rounds to nothing and a block of
      no bytes is listed, or if none of the rounded size is listed and the carve test is
      fooled. */
  lemma CallServesWrongly(slice: nat, bump: nat, freed: map<nat, seq<nat>>, n: nat)
    requires bump <= slice < WORD && n < WORD
    ensures ServedWrongly(slice, bump, freed, n) <==>
      if Available(freed, RoundWrapped(n)) then n + LINE - 1 >= WORD
      else !NoWrap(bump, n) && (n + LINE - 1 >= WORD ==> (bump + LINE) % WORD <= slice)
  {
    RoundsDownExactly(n);
    WrapAcceptsWrongly(slice, bump, n);
  }

  /** Such a request served from the list, although the carve test alone would refuse it:
      two blocks of no bytes fill a slice of two lines, and the first has been freed. */
  lemma ReusedTooSmall(n: nat)
    requires n == WORD - 8
    ensures var header, freed := map[64 := 0, 128 := 0], map[0 := [64]];
      && Laid([64, 128], header, 128) && Accounted([64, 128], header, freed, {128})
      && Served(128, 128, freed, n) == Reused(64) && ServedWrongly(128, 128, freed, n)
      && !CarveAccepted(128, 128, n)
  {
    var header, freed := map[64 := 0, 128 := 0], map[0 := [64]];
    assert [64, 128][..1] == [64] && [64][..0] == [];
    assert Laid([], header, 0) && Laid([64], header, 64);
    RoundsDownExactly(n);
    assert freed[0][0] == 64;
  }

  // ---------- the blocks ----------

  /** The carved blocks in order, each a header line and a payload, fill the slice up
      to `bump`. */
  ghost predicate Laid(carved: seq<nat>, header: map<nat, nat>, bump: nat) {
    if carved == [] then bump == 0
    else
      var last := carved[|carved| - 1];
      && last in header && LINE <= last
      && last % LINE == 0 && header[last] % LINE == 0
      && bump == last + header[last]
      && Laid(carved[..|carved| - 1], header, last - LINE)
  }

  ghost function CarvedBytes(carved: seq<nat>, header: map<nat, nat>): nat
    requires forall p :: p in carved ==> p in header
  {
    if carved == [] then 0
    else CarvedBytes(carved[..|carved| - 1], header) + LINE + header[carved[|carved| - 1]]
  }

  /** Carved blocks, headers included, are pairwise disjoint and end at or before `bump`. */
  lemma {:induction false} LaidDisjoint(carved: seq<nat>, header: map<nat, nat>, bump: nat, i: nat, j: nat)
    requires Laid(carved, header, bump) && i <= j < |carved|
    ensures carved[i] in header && carved[j] in header
    ensures LINE <= carved[i] && carved[i] % LINE == 0 && header[carved[i]] % LINE == 0
    ensures carved[j] + header[carved[j]] <= bump
    ensures i < j ==> carved[i] + header[carved[i]] <= carved[j] - LINE
  {
    var m := |carved| - 1;
    if j < m {
      LaidDisjoint(carved[..m], header, carved[m] - LINE, i, j);
    } else if i < m {
      LaidDisjoint(carved[..m], header, carved[m] - LINE, i, i);
    }
  }

  /** The bump pointer is the sum of header plus size over the carved blocks. */
  lemma {:induction false} BumpIsSum(carved: seq<nat>, header: map<nat, nat>, bump: nat)
    requires Laid(carved, header, bump)
    requires forall p :: p in carved ==> p in header
    ensures bump == CarvedBytes(carved, header)
  {
    if carved != [] {
      var m := |carved| - 1;
      assert forall p :: p in carved[..m] ==> p in carved;
      BumpIsSum(carved[..m], header, carved[m] - LINE);
    }
  }

  lemma {:induction false} LaidFrame(carved: seq<nat>, header: map<nat, nat>, bump: nat, p: nat, n: nat)
    requires Laid(carved, header, bump) && p !in carved
    ensures Laid(carved, header[p := n], bump)
  {
    if carved != [] {
      var m := |carved| - 1;
      LaidFrame(carved[..m], header, carved[m] - LINE, p, n);
    }
  }

  lemma {:induction false} LaidBelow(carved: seq<nat>, header: map<nat, nat>, bump: nat)
    requires Laid(carved, header, bump)
    ensures bump % LINE == 0 && forall p :: p in carved ==> p in header && p <= bump
  {
    if carved != [] {
      var m := |carved| - 1;
      LaidBelow(carved[..m], header, carved[m] - LINE);
      assert carved == carved[..m] + [carved[m]];
    }
  }

  /** A block carved at `bump` extends the row. */
  lemma CarveLays(carved: seq<nat>, header: map<nat, nat>, bump: nat, size: nat)
    requires Laid(carved, header, bump) && size % LINE == 0
    ensures Laid(carved + [bump + LINE], header[bump + LINE := size], bump + LINE + size)
  {
    var p := bump + LINE;
    LaidBelow(carved, header, bump);
    LaidFrame(carved, header, bump, p, size);
    assert (carved + [p])[..|carved|] == carved;
  }

  /** With the bump pointer wrapped, it does so exactly if the block ends inside the slice. */
  lemma CarveOutcome(slice: nat, carved: seq<nat>, header: map<nat, nat>, bump: nat, size: nat)
    requires Laid(carved, header, bump) && size % LINE == 0 && (forall p :: p in header <==> p in carved)
    requires bump <= slice < WORD && (bump + LINE + size) % WORD <= slice
    ensures bump + LINE !in header
    ensures var p := bump + LINE;
      Laid(carved + [p], header[p := size], (p + size) % WORD) <==> p + size <= slice
  {
    var p := bump + LINE;
    LaidBelow(carved, header, bump);
    CarveLays(carved, header, bump, size);
    assert (carved + [p])[|carved|] == p;
    if p + size <= slice { assert (p + size) % WORD == p + size; }
  }

  // ---------- the allocator ----------

  /** Every listed block is carved, listed under the size its header holds, and not live. */
  ghost predicate Listed(header: map<nat, nat>, freed: map<nat, seq<nat>>, live: set<nat>) {
    forall n, i :: n in freed && 0 <= i < |freed[n]| ==>
      freed[n][i] in header && header[freed[n][i]] == n && freed[n][i] !in live
  }

  ghost predicate ListedOnce(freed: map<nat, seq<nat>>) {
    forall n, i, j :: n in freed && 0 <= i < j < |freed[n]| ==> freed[n][i] != freed[n][j]
  }

  /** Live and free-listed blocks together are exactly the carved ones, and no block is
      in two places. */
  ghost predicate Accounted(carved: seq<nat>, header: map<nat, nat>, freed: map<nat, seq<nat>>, live: set<nat>) {
    && (forall p :: p in header <==> p in carved)
    && (forall p :: p in live ==> p in header)
    && Listed(header, freed, live) && ListedOnce(freed)
    && (forall p :: p in header && p !in live ==> header[p] in freed && p in freed[header[p]])
  }

  /** Taking the top of a stack into use. */
  lemma TakeKeeps(carved: seq<nat>, header: map<nat, nat>, freed: map<nat, seq<nat>>, live: set<nat>, n: nat)
    requires Accounted(carved, header, freed, live) && n in freed && freed[n] != []
    ensures var top := |freed[n]| - 1;
      Accounted(carved, header, freed[n := freed[n][..top]], live + {freed[n][top]})
  {
    var top := |freed[n]| - 1;
    var p, rest := freed[n][top], freed[n := freed[n][..top]];
    assert forall m, i :: m in rest && 0 <= i < |rest[m]| ==> rest[m][i] == freed[m][i];
    forall q | q in header && q !in live + {p}
      ensures header[q] in rest && q in rest[header[q]]
    {
      var i :| 0 <= i < |freed[header[q]]| && freed[header[q]][i] == q;
      assert rest[header[q]][i] == q;
    }
  }

  /** The stacks after `p` has been put on the one for size `n`. */
  function Pushed(freed: map<nat, seq<nat>>, n: nat, p: nat): (r: map<nat, seq<nat>>)
    ensures n in r && forall m :: m in freed && m != n ==> m in r && r[m] == freed[m]
    ensures forall m :: m in r && m != n ==> m in freed
  {
    freed[n := (if n in freed then freed[n] else []) + [p]]
  }

  lemma PutListed(header: map<nat, nat>, freed: map<nat, seq<nat>>, live: set<nat>, p: nat)
    requires Listed(header, freed, live) && p in live && p in header
    ensures Listed(header, Pushed(freed, header[p], p), live - {p})
  {
    var n := header[p];
    var more := Pushed(freed, n, p);
    forall m, i | m in more && 0 <= i < |more[m]|
      ensures more[m][i] in header && header[more[m][i]] == m && more[m][i] !in live - {p}
    {
      if m == n && i == |more[n]| - 1 {
        assert more[n][i] == p;
      } else {
        assert more[m][i] == freed[m][i];
      }
    }
  }

  lemma PutListedOnce(header: map<nat, nat>, freed: map<nat, seq<nat>>, live: set<nat>, p: nat)
    requires Listed(header, freed, live) && ListedOnce(freed) && p in live && p in header
    ensures ListedOnce(Pushed(freed, header[p], p))
  {
    var n := header[p];
    var more := Pushed(freed, n, p);
    forall m, i, j | m in more && 0 <= i < j < |more[m]|
      ensures more[m][i] != more[m][j]
    {
      assert m in freed && more[m][i] == freed[m][i];
      if m == n && j == |more[n]| - 1 {
        assert more[n][j] == p;
      } else {
        assert more[m][j] == freed[m][j];
      }
    }
  }

  lemma PutCovers(header: map<nat, nat>, freed: map<nat, seq<nat>>, p: nat, q: nat)
    requires p in header && q in header && (q == p || (header[q] in freed && q in freed[header[q]]))
    ensures var more := Pushed(freed, header[p], p); header[q] in more && q in more[header[q]]
  {
    var n, m := header[p], header[q];
    var more := Pushed(freed, n, p);
    if q == p {
      assert more[n][|more[n]| - 1] == p;
    } else {
      var i :| 0 <= i < |freed[m]| && freed[m][i] == q;
      assert more[m][i] == q;
    }
  }

  /** Putting a live block back on the stack of its size. */
  lemma PutKeeps(carved: seq<nat>, header: map<nat, nat>, freed: map<nat, seq<nat>>, live: set<nat>, p: nat)
    requires Accounted(carved, header, freed, live) && p in live
    ensures Accounted(carved, header, Pushed(freed, header[p], p), live - {p})
  {
    PutListed(header, freed, live, p);
    PutListedOnce(header, freed, live, p);
    forall q | q in header && q !in live - {p}
      ensures var more := Pushed(freed, header[p], p); header[q] in more && q in more[header[q]]
    {
      PutCovers(header, freed, p, q);
    }
  }

  /** Carving a new block. */
  lemma CarveKeeps(carved: seq<nat>, header: map<nat, nat>, freed: map<nat, seq<nat>>, live: set<nat>, p: nat, n: nat)
    requires Accounted(carved, header, freed, live) && p !in header
    ensures Accounted(carved + [p], header[p := n], freed, live + {p})
  {
  }

  class Allocator {
    const slice: nat
    var bump: nat
    var freed: map<nat, seq<nat>>       // per size, a stack of payload offsets
    var header: map<nat, nat>           // the size word in front of each payload
    ghost var carved: seq<nat>          // payload offsets in the order they were carved
    ghost var live: set<nat>            // payload offsets handed out and not freed

    ghost predicate Valid()
      reads this
    {
      bump <= slice < WORD && Laid(carved, header, bump) && Accounted(carved, header, freed, live)
    }

    constructor (slice: nat)
      requires slice < WORD
      ensures Valid() && this.slice == slice && carved == [] && live == {} && bump == 0
    {
      this.slice := slice;
      bump, freed, header, carved, live := 0, map[], map[], [], {};
    }

    /** Hand out the block freed last among those of this size. */
    method Reuse(size: nat) returns (p: nat)
      requires Valid() && size in freed && freed[size] != []
      modifies this`freed, this`live
      ensures Valid() && p !in old(live) && live == old(live) + {p} && p in header && header[p] == size
      ensures p == Top(old(freed)[size]) && freed == old(freed)[size := Popped(old(freed)[size])]
    {
      var stack := freed[size];
      p := stack[|stack| - 1];
      TakeKeeps(carved, header, freed, live, size);
      freed := freed[size := stack[..|stack| - 1]];
      live := live + {p};
    }

    /** Write a header at the bump pointer and move it past the new block; the arena stays
        valid exactly if the block ends inside the slice. */
    method Carve(size: nat) returns (p: nat)
      requires Valid() && size % LINE == 0 && (bump + LINE + size) % WORD <= slice
      modifies this`bump, this`header, this`carved, this`live
      ensures Valid() <==> p + size <= slice
      ensures p == old(bump) + LINE && bump == (p + size) % WORD
      ensures p !in old(header) && header == old(header)[p := size]
      ensures carved == old(carved) + [p] && live == old(live) + {p}
    {
      p := bump + LINE;
      CarveOutcome(slice, carved, header, bump, size);
      CarveKeeps(carved, header, freed, live, p, size);
      header := header[p := size];
      bump := (bump + LINE + size) % WORD;
      carved := carved + [p];
      live := live + {p};
    }

    /** `arena_alloc`, for every request: reuse a freed block of exactly the rounded size,
        or carve a new one, or give up.  The arena stays valid unless the carve test is
        fooled into carving past the slice. */
    method Alloc(n: nat) returns (found: bool, p: nat)
      requires Valid() && n < WORD
      modifies this
      ensures var service, size := Served(slice, old(bump), old(freed), n), RoundWrapped(n);
        match service
        case Reused(q) =>
          && found && p == q && p in header && header[p] == size
          && freed == old(freed)[size := Popped(old(freed)[size])]
          && carved == old(carved) && header == old(header) && bump == old(bump)
        case Carved(q) =>
          && found && p == q && p !in old(header) && header == old(header)[p := size] && freed == old(freed)
          && carved == old(carved) + [p] && bump == (p + size) % WORD
        case Refused =>
          !found && freed == old(freed) && carved == old(carved) && header == old(header) && bump == old(bump)
      ensures live == if found then old(live) + {p} else old(live)
      ensures found ==> p !in old(live)
      ensures Valid() <==>
        !(Served(slice, old(bump), old(freed), n).Carved? && old(bump) + LINE + RoundWrapped(n) > slice)
      ensures NoWrap(old(bump), n) ==> Valid() && (found ==> header[p] == RoundUp(n) >= n)
      ensures NoWrap(old(bump), n) ==>
        (!found <==> !Available(old(freed), RoundUp(n)) && old(bump) + LINE + RoundUp(n) > slice)
    {
      if NoWrap(bump, n) {
        AcceptsExactlyWhatFits(slice, bump, n);
        RoundUpLine(n);
      }
      var size := RoundWrapped(n);
      if size in freed && freed[size] != [] {
        p := Reuse(size);
        found := true;
      } else if (bump + LINE + size) % WORD > slice {
        found, p := false, 0;
      } else {
        p := Carve(size);
        found := true;
      }
    }

    /** `arena_free`, given a block that is live: onto the stack of its size. */
    method Free(p: nat)
      requires Valid() && p in live
      modifies this`freed, this`live
      ensures Valid()
      ensures live == old(live) - {p}
      ensures freed == Pushed(old(freed), header[p], p) && Top(freed[header[p]]) == p
    {
      var n := header[p];
      var stack := if n in freed then freed[n] else [];
      PutKeeps(carved, header, freed, live, p);
      freed := freed[n := stack + [p]];
      live := live - {p};
    }

    /** Any two carved blocks are disjoint, aligned and inside the slice. */
    lemma BlocksDisjoint(i: nat, j: nat)
      requires Valid() && i < j < |carved|
      ensures carved[i] in header && carved[j] in header
      ensures carved[i] + header[carved[i]] <= carved[j] - LINE && carved[j] + header[carved[j]] <= slice
      ensures LINE <= carved[i] && carved[i] % LINE == 0
      ensures bump == CarvedBytes(carved, header)
    {
      LaidDisjoint(carved, header, bump, i, j);
      LaidDisjoint(carved, header, bump, i, i);
      BumpIsSum(carved, header, bump);
    }
  }
}
