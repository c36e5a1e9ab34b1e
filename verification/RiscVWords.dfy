/** Exactly which replacement words leave nothing for a second scan, in every text. */
module RiscVWords {
  import opened Bytes
  import opened RiscV
  import opened RiscVRewrite

  /** The job replaces every call by `p`. */
  ghost predicate Uses(j: Job, p: Patch) {
    forall f :: f in j.repl ==> j.repl[f] == p
  }

  /** A second scan of this text, once rewritten, visits the same offsets and finds nothing. */
  ghost predicate StaysQuiet(j: Job, d: seq<byte>) {
    Covered(j) && Fits(j, d) ==> Quiet(j, d, Rewritten(j, d, j.lo), j.lo)
  }

  /** So it is in every text, for every set of functions, wherever the text is loaded. */
  ghost predicate AlwaysQuiet(p: Patch) {
    forall j: Job, d: seq<byte> :: Uses(j, p) ==> StaysQuiet(j, d)
  }

  // ---------- texts of a few words ----------

  function TextOf(ws: seq<nat>): (d: seq<byte>)
    requires forall i :: 0 <= i < |ws| ==> ws[i] < WORD32
    ensures |d| == 4 * |ws|
  {
    if ws == [] then [] else BytesOf(ws[0]) + TextOf(ws[1..])
  }

  lemma {:induction false} TextWord(ws: seq<nat>, i: nat)
    requires i < |ws| && forall k :: 0 <= k < |ws| ==> ws[k] < WORD32
    ensures WordAt(TextOf(ws), 4 * i) == ws[i]
  {
    var rest := TextOf(ws[1..]);
    if i == 0 {
      FirstWord(ws[0], rest);
    } else {
      TextWord(ws[1..], i - 1);
      LaterWord(BytesOf(ws[0]), rest, 4 * (i - 1));
    }
  }

  lemma FirstWord(w: nat, rest: seq<byte>)
    requires w < WORD32
    ensures WordAt(BytesOf(w) + rest, 0) == w
  {
    var d := BytesOf(w) + rest;
    WriteBytes(d, 0, w);
    assert WriteAt(d, 0, w) == d;
  }

  lemma LaterWord(a: seq<byte>, rest: seq<byte>, n: nat)
    requires |a| == 4 && n + 4 <= |rest|
    ensures WordAt(a + rest, n + 4) == WordAt(rest, n)
  {
    var d := a + rest;
    assert d[n + 4] == rest[n] && d[n + 5] == rest[n + 1] && d[n + 6] == rest[n + 2] && d[n + 7] == rest[n + 3];
  }

  /** `jal ra, 0`, `auipc r, 0` and `jalr 0(r)`. */
  const CALL: nat := 0xEF

  function Auipc(r: nat): (w: nat)
    requires r < 32
    ensures w < WORD32 && IsAuipc(w) && Rd(w) == r && AuipcImm(w) == 0 && w % 4 == 3
  {
    r * 128 + 0x17
  }

  function Jalr(r: nat): (w: nat)
    requires r < 32
    ensures w < WORD32 && IsJalr(w) && Rs1(w) == r && JalrImm(w) == 0 && w % 4 == 3
  {
    r * 32768 + 0x67
  }

  /** The words as a text at file offset and address zero, with calls to two addresses. */
  function JobOf(n: nat, a: nat, b: nat, p: Patch): Job {
    Job(0, 4 * n, 0, map[a := "f", b := "f"], map["f" := p])
  }

  lemma PatchOne(j: Job, d: seq<byte>, s: Site)
    requires Covered(j) && SiteFits(j, s, |d|)
    ensures PatchAll(j, d, [s]) == PatchSite(j, d, s)
  {
    assert [s][1..] == [];
    assert PatchAll(j, PatchSite(j, d, s), []) == PatchSite(j, d, s);
  }

  /** A text with one call: its rewriting has the new words there and is otherwise the same. */
  lemma OnlyCall(j: Job, d: seq<byte>, s: Site)
    requires Covered(j) && Fits(j, d) && j.lo == 0 && Sites(j, d, 0) == [s] && SiteFits(j, s, |d|)
    ensures Rewritten(j, d, 0) == PatchSite(j, d, s)
  {
    PatchOne(j, d, s);
  }

  /** A short call to address zero at the start of a text, and nothing else: what the second
      scan reads there. */
  lemma AfterShort(j: Job, d: seq<byte>, n: nat, t: nat, p: Patch, next: nat)
    requires j == JobOf(n, 0, t, p) && n >= 2 && |d| == 4 * n && p.first < WORD32 && p.second < WORD32
    requires WordAt(d, 0) == CALL && Sites(j, d, 4) == [] && WordAt(d, 4) == next
    ensures var d' := Rewritten(j, d, 0);
      |d'| == |d| && WordAt(d', 0) == p.first && WordAt(d', 4) == next
    ensures Visited(j, d, 0) == [0] + Visited(j, d, 4)
  {
    var s := Site(0, false, "f");
    FirstCall(j, d, n, t, p);
    OnlyCall(j, d, s);
    PatchSiteIs(j, d, s);
    SameWord(d, Rewritten(j, d, 0), 4);
  }

  lemma FirstCall(j: Job, d: seq<byte>, n: nat, t: nat, p: Patch)
    requires j == JobOf(n, 0, t, p) && n >= 2 && |d| == 4 * n && WordAt(d, 0) == CALL && Sites(j, d, 4) == []
    ensures Sites(j, d, 0) == [Site(0, false, "f")] && Visited(j, d, 0) == [0] + Visited(j, d, 4)
  {
    assert JalTarget(j, 0, CALL) == 0;
    assert Sites(j, d, 0) == SitesAt(j, d, 0) + [];
  }

  /** A long call to address zero at the start of a text, and nothing else. */
  lemma AfterLongCall(j: Job, d: seq<byte>, n: nat, t: nat, p: Patch, next: nat)
    requires j == JobOf(n, 0, t, p) && n >= 3 && |d| == 4 * n && p.first < WORD32 && p.second < WORD32
    requires WordAt(d, 0) == Auipc(1) && WordAt(d, 4) == Jalr(1) && Sites(j, d, 4) == [] && WordAt(d, 8) == next
    ensures var d' := Rewritten(j, d, 0);
      |d'| == |d| && WordAt(d', 0) == p.first && WordAt(d', 4) == p.second && WordAt(d', 8) == next
    ensures Visited(j, d, 0) == [0] + Visited(j, d, 4)
  {
    var s := Site(0, true, "f");
    assert PairTarget(j, 0, Auipc(1), Jalr(1)) == 0;
    assert SitesAt(j, d, 0) == [s] && Sites(j, d, 0) == [s];
    OnlyCall(j, d, s);
    PatchSiteIs(j, d, s);
    SameWord(d, Rewritten(j, d, 0), 8);
  }

  /** A short call behind an `auipc`, and nothing else. */
  lemma AfterLater(j: Job, d: seq<byte>, t: nat, p: Patch, r: nat)
    requires j == JobOf(3, 4, t, p) && |d| == 12 && p.first < WORD32 && p.second < WORD32 && r < 32
    requires WordAt(d, 0) == Auipc(r) && WordAt(d, 4) == CALL
    ensures var d' := Rewritten(j, d, 0);
      |d'| == |d| && WordAt(d', 0) == Auipc(r) && WordAt(d', 4) == p.first
  {
    var s := Site(4, false, "f");
    LaterCall(j, d, t, p, r);
    OnlyCall(j, d, s);
    PatchSiteIs(j, d, s);
    SameWord(d, Rewritten(j, d, 0), 0);
  }

  lemma LaterCall(j: Job, d: seq<byte>, t: nat, p: Patch, r: nat)
    requires j == JobOf(3, 4, t, p) && |d| == 12 && r < 32
    requires WordAt(d, 0) == Auipc(r) && WordAt(d, 4) == CALL
    ensures Sites(j, d, 0) == [Site(4, false, "f")]
  {
    assert JalTarget(j, 4, CALL) == 4;
    assert Sites(j, d, 8) == [];
    assert Sites(j, d, 4) == SitesAt(j, d, 4) + [];
    assert SitesAt(j, d, 0) == [] && NextOff(d, 0) == 4;
  }

  // ---------- each kind of word that disturbs ----------

  /** A first word that is a 16-bit instruction: the second scan leaves the path of the first. */
  lemma ShortFirst(p: Patch) returns (j: Job, d: seq<byte>)
    requires p.first < WORD32 && p.second < WORD32 && p.first % 4 != 3
    ensures Uses(j, p) && !StaysQuiet(j, d)
  {
    j, d := JobOf(2, 0, 0, p), TextOf([CALL, 0]);
    TextWord([CALL, 0], 0);
    TextWord([CALL, 0], 1);
    assert Sites(j, d, 4) == [] && Visited(j, d, 4) == [];
    AfterShort(j, d, 2, 0, p, 0);
    var d' := Rewritten(j, d, 0);
    assert Visited(j, d', 0) == [0] + Visited(j, d', 2) && Visited(j, d', 2)[0] == 2;
  }

  /** A first word that is itself a call. */
  lemma CallFirst(p: Patch) returns (j: Job, d: seq<byte>)
    requires p.first < WORD32 && p.second < WORD32 && p.first % 4 == 3 && IsJal(p.first) && Rd(p.first) == RA
    ensures Uses(j, p) && !StaysQuiet(j, d)
  {
    var t := JalImm(p.first) % WORD64;
    j, d := JobOf(2, 0, t, p), TextOf([CALL, 0]);
    TextWord([CALL, 0], 0);
    TextWord([CALL, 0], 1);
    assert Sites(j, d, 4) == [];
    AfterShort(j, d, 2, t, p, 0);
    assert JalTarget(j, 0, p.first) == t;
    assert SitesAt(j, Rewritten(j, d, 0), 0) != [];
  }

  /** A first word that begins a call, before a word that completes it. */
  lemma AuipcFirst(p: Patch) returns (j: Job, d: seq<byte>)
    requires p.first < WORD32 && p.second < WORD32 && IsAuipc(p.first)
    ensures Uses(j, p) && !StaysQuiet(j, d)
  {
    var next, t := Jalr(Rd(p.first)), AuipcImm(p.first) % WORD64;
    var ws := [CALL, next, 0];
    j, d := JobOf(3, 0, t, p), TextOf(ws);
    TextWord(ws, 0);
    TextWord(ws, 1);
    assert SitesAt(j, d, 4) == [] && NextOff(d, 4) == 8 && Sites(j, d, 8) == [];
    AfterShort(j, d, 3, t, p, next);
    OpcodeLow(p.first);
    assert PairTarget(j, 0, p.first, next) == t;
    assert SitesAt(j, Rewritten(j, d, 0), 0) != [];
  }

  /** A first word that completes a call which the word before it begins. */
  lemma JalrFirst(p: Patch) returns (j: Job, d: seq<byte>)
    requires p.first < WORD32 && p.second < WORD32 && IsJalr(p.first)
    ensures Uses(j, p) && !StaysQuiet(j, d)
  {
    var before, t := Auipc(Rs1(p.first)), JalrImm(p.first) % WORD64;
    var ws := [before, CALL, 0];
    j, d := JobOf(3, 4, t, p), TextOf(ws);
    TextWord(ws, 0);
    TextWord(ws, 1);
    AfterLater(j, d, t, p, Rs1(p.first));
    assert PairTarget(j, 0, before, p.first) == t;
    assert SitesAt(j, Rewritten(j, d, 0), 0) != [];
  }

  /** A second word that is a 16-bit instruction. */
  lemma ShortSecond(p: Patch) returns (j: Job, d: seq<byte>)
    requires p.first < WORD32 && p.second < WORD32 && p.first % 4 == 3 && p.second % 4 != 3
    ensures Uses(j, p) && !StaysQuiet(j, d)
  {
    var ws := [Auipc(1), Jalr(1), 0];
    j, d := JobOf(3, 0, 0, p), TextOf(ws);
    TextWord(ws, 0);
    TextWord(ws, 1);
    TextWord(ws, 2);
    assert SitesAt(j, d, 4) == [] && NextOff(d, 4) == 8 && Sites(j, d, 8) == [];
    AfterLongCall(j, d, 3, 0, p, 0);
    var d' := Rewritten(j, d, 0);
    assert Visited(j, d, 4) == [4] + Visited(j, d, 8) && Visited(j, d, 8) == [];
    assert Visited(j, d', 0) == [0] + Visited(j, d', 4);
    assert Visited(j, d', 4) == [4] + Visited(j, d', 6) && Visited(j, d', 6)[0] == 6;
    assert |Visited(j, d', 0)| > |Visited(j, d, 0)|;
  }

  /** A second word that is itself a call. */
  lemma CallSecond(p: Patch) returns (j: Job, d: seq<byte>)
    requires p.first < WORD32 && p.second < WORD32 && p.first % 4 == p.second % 4 == 3
    requires IsJal(p.second) && Rd(p.second) == RA
    ensures Uses(j, p) && !StaysQuiet(j, d)
  {
    var t := (4 + JalImm(p.second)) % WORD64;
    var ws := [Auipc(1), Jalr(1), 0];
    j, d := JobOf(3, 0, t, p), TextOf(ws);
    TextWord(ws, 0);
    TextWord(ws, 1);
    TextWord(ws, 2);
    assert SitesAt(j, d, 4) == [] && NextOff(d, 4) == 8 && Sites(j, d, 8) == [];
    AfterLongCall(j, d, 3, t, p, 0);
    assert JalTarget(j, 4, p.second) == t;
    FoundAtFour(j, Rewritten(j, d, 0));
  }

  lemma FoundAtFour(j: Job, d: seq<byte>)
    requires Fits(j, d) && j.lo == 0 && 4 < End(j) && WordAt(d, 0) % 4 == 3 && SitesAt(j, d, 4) != []
    ensures Sites(j, d, 0) != []
  {
    assert Sites(j, d, 0) == SitesAt(j, d, 0) + Sites(j, d, 4);
    assert Sites(j, d, 4) == SitesAt(j, d, 4) + Sites(j, d, NextOff(d, 4));
  }

  /** A second word that begins a call, before a word that completes it. */
  lemma AuipcSecond(p: Patch) returns (j: Job, d: seq<byte>)
    requires p.first < WORD32 && p.second < WORD32 && p.first % 4 == 3 && IsAuipc(p.second)
    ensures Uses(j, p) && !StaysQuiet(j, d)
  {
    var next, t := Jalr(Rd(p.second)), (4 + AuipcImm(p.second)) % WORD64;
    var ws := [Auipc(1), Jalr(1), next, 0];
    j, d := JobOf(4, 0, t, p), TextOf(ws);
    TextWord(ws, 0);
    TextWord(ws, 1);
    TextWord(ws, 2);
    assert SitesAt(j, d, 8) == [] && NextOff(d, 8) == 12 && Sites(j, d, 12) == [] && Sites(j, d, 8) == [];
    assert SitesAt(j, d, 4) == [] && NextOff(d, 4) == 8;
    AfterLongCall(j, d, 4, t, p, next);
    OpcodeLow(p.second);
    assert PairTarget(j, 4, p.second, next) == t;
    FoundAtFour(j, Rewritten(j, d, 0));
  }

  /** Some text shows up any words that are not inert and passive. */
  lemma Disturbs(p: Patch) returns (j: Job, d: seq<byte>)
    requires p.first < WORD32 && p.second < WORD32 && !(Inert(p.first) && Passive(p.second))
    ensures Uses(j, p) && !StaysQuiet(j, d)
  {
    if p.first % 4 != 3 {
      j, d := ShortFirst(p);
    } else if IsAuipc(p.first) {
      j, d := AuipcFirst(p);
    } else if IsJalr(p.first) {
      j, d := JalrFirst(p);
    } else if IsJal(p.first) && Rd(p.first) == RA {
      j, d := CallFirst(p);
    } else if p.second % 4 != 3 {
      j, d := ShortSecond(p);
    } else if IsAuipc(p.second) {
      j, d := AuipcSecond(p);
    } else {
      j, d := CallSecond(p);
    }
  }

  /** A replacement leaves nothing for a second scan in every text exactly if its first word
      is inert and its second passive. */
  lemma QuietExactly(p: Patch)
    requires p.first < WORD32 && p.second < WORD32
    ensures AlwaysQuiet(p) <==> Inert(p.first) && Passive(p.second)
  {
    if Inert(p.first) && Passive(p.second) {
      forall j: Job, d: seq<byte> | Uses(j, p)
        ensures StaysQuiet(j, d)
      {
        if Covered(j) && Fits(j, d) { RescanFindsNothing(j, d, j.lo); }
      }
    } else {
      var j, d := Disturbs(p);
    }
  }
}
