/**
 The RISC-V call-site rewriter: instruction fields, the scan of mixed 16- and 32-bit code
 for calls to known functions, and the patching of the calls it finds.
 */
module RiscV {
  import opened Bytes
  import opened ModMath

  const WORD64: nat := 18446744073709551616
  const RA: nat := 1
  const NOP: nat := 0x13

  // ---------- instruction fields ----------

  function Opcode(insn: nat): nat {
    insn % 128
  }

  predicate IsAuipc(insn: nat) {
    Opcode(insn) == 0x17
  }

  predicate IsJalr(insn: nat) {
    Opcode(insn) == 0x67
  }

  predicate IsJal(insn: nat) {
    Opcode(insn) == 0x6F
  }

  /** The destination register of both `auipc` and `jal`. */
  function Rd(insn: nat): nat {
    insn / 128 % 32
  }

  function Rs1(insn: nat): nat {
    insn / 32768 % 32
  }

  /** The upper twenty bits in place; not sign-extended. */
  function AuipcImm(insn: nat): nat {
    insn / 4096 % 1048576 * 4096
  }

  function JalrImm(insn: nat): int {
    var imm := insn / 1048576 % 4096;
    if imm >= 2048 then imm - 4096 else imm
  }

  /** The scattered immediate of `jal`: bits 20, 10 to 1, 11 and 19 to 12, from the top. */
  function JalImm(insn: nat): int {
    var raw := insn / 4096;
    var imm := raw / 512 % 1024 * 2 + raw / 256 % 2 * 2048 + raw % 256 * 4096 + raw / 524288 % 2 * 1048576;
    if imm >= 1048576 then imm - 2097152 else imm
  }

  /** The J-type encoding of an even offset, as the instruction set defines it. */
  function EncodeJal(rd: nat, imm: int): nat
    requires rd < 32 && -1048576 <= imm < 1048576
  {
    var u := if imm < 0 then imm + 2097152 else imm;
    u / 1048576 * 2147483648 + u / 2 % 1024 * 2097152 + u / 2048 % 2 * 1048576 + u / 4096 % 256 * 4096 + rd * 128 + 0x6F
  }

  lemma SplitLow(u: nat)
    ensures u / 2 == u / 2048 * 1024 + u / 2 % 1024
  {
    assert u / 2 / 1024 == u / 2048;
  }

  lemma SplitMiddle(u: nat)
    ensures u / 2048 == u / 4096 * 2 + u / 2048 % 2
  {
    assert u / 2048 / 2 == u / 4096;
  }

  lemma SplitHigh(u: nat)
    ensures u / 4096 == u / 1048576 * 256 + u / 4096 % 256
  {
    assert u / 4096 / 256 == u / 1048576;
  }

  /** The fields of the 21-bit offset. */
  lemma OffsetParts(u: nat) returns (b20: nat, hi: nat, b11: nat, lo: nat)
    requires u < 2097152 && u % 2 == 0
    ensures b20 == u / 1048576 && hi == u / 4096 % 256 && b11 == u / 2048 % 2 && lo == u / 2 % 1024
    ensures b20 < 2 && hi < 256 && b11 < 2 && lo < 1024
    ensures u == b20 * 1048576 + hi * 4096 + b11 * 2048 + lo * 2
  {
    b20, hi, b11, lo := u / 1048576, u / 4096 % 256, u / 2048 % 2, u / 2 % 1024;
    SplitLow(u);
    SplitMiddle(u);
    SplitHigh(u);
  }

  /** Taking the fields of an assembled immediate apart again. */
  lemma RawParts(b20: nat, hi: nat, b11: nat, lo: nat)
    requires b20 < 2 && hi < 256 && b11 < 2 && lo < 1024
    ensures var raw := b20 * 524288 + lo * 512 + b11 * 256 + hi;
      raw % 256 == hi && raw / 256 % 2 == b11 && raw / 512 % 1024 == lo && raw / 524288 % 2 == b20
  {
    var raw := b20 * 524288 + lo * 512 + b11 * 256 + hi;
    ModUnique(raw, 256, b20 * 2048 + lo * 2 + b11, hi);
    ModUnique(b20 * 2048 + lo * 2 + b11, 2, b20 * 1024 + lo, b11);
    ModUnique(raw, 512, b20 * 1024 + lo, b11 * 256 + hi);
    ModUnique(b20 * 1024 + lo, 1024, b20, lo);
    ModUnique(raw, 524288, b20, lo * 512 + b11 * 256 + hi);
  }

  /** The immediate, the register and the opcode of an assembled word. */
  lemma WordParts(raw: nat, rd: nat)
    requires raw < 1048576 && rd < 32
    ensures var w := raw * 4096 + rd * 128 + 0x6F;
      Opcode(w) == 0x6F && Rd(w) == rd && w / 4096 == raw
  {
    var w := raw * 4096 + rd * 128 + 0x6F;
    ModUnique(w, 128, raw * 32 + rd, 0x6F);
    ModUnique(raw * 32 + rd, 32, raw, rd);
    ModUnique(w, 4096, raw, rd * 128 + 0x6F);
  }

  lemma EncodeIs(rd: nat, imm: int, b20: nat, hi: nat, b11: nat, lo: nat)
    requires rd < 32 && -1048576 <= imm < 1048576
    requires var u := if imm < 0 then imm + 2097152 else imm;
      b20 == u / 1048576 && hi == u / 4096 % 256 && b11 == u / 2048 % 2 && lo == u / 2 % 1024
    ensures EncodeJal(rd, imm) == (b20 * 524288 + lo * 512 + b11 * 256 + hi) * 4096 + rd * 128 + 0x6F
  {
  }

  lemma DecodeIs(w: nat, raw: nat, b20: nat, hi: nat, b11: nat, lo: nat)
    requires w / 4096 == raw && raw == b20 * 524288 + lo * 512 + b11 * 256 + hi
    requires b20 < 2 && hi < 256 && b11 < 2 && lo < 1024
    ensures JalImm(w) == b20 * 1048576 + hi * 4096 + b11 * 2048 + lo * 2 - (if b20 == 1 then 2097152 else 0)
  {
    RawParts(b20, hi, b11, lo);
  }

  lemma EncodeParts(rd: nat, imm: int) returns (b20: nat, hi: nat, b11: nat, lo: nat)
    requires rd < 32 && -1048576 <= imm < 1048576 && imm % 2 == 0
    ensures b20 < 2 && hi < 256 && b11 < 2 && lo < 1024
    ensures b20 * 1048576 + hi * 4096 + b11 * 2048 + lo * 2 == if imm < 0 then imm + 2097152 else imm
    ensures EncodeJal(rd, imm) == (b20 * 524288 + lo * 512 + b11 * 256 + hi) * 4096 + rd * 128 + 0x6F
  {
    b20, hi, b11, lo := OffsetParts(if imm < 0 then imm + 2097152 else imm);
    EncodeIs(rd, imm, b20, hi, b11, lo);
  }

  lemma DecodeParts(w: nat, rd: nat, b20: nat, hi: nat, b11: nat, lo: nat)
    requires b20 < 2 && hi < 256 && b11 < 2 && lo < 1024 && rd < 32
    requires w == (b20 * 524288 + lo * 512 + b11 * 256 + hi) * 4096 + rd * 128 + 0x6F
    ensures IsJal(w) && Rd(w) == rd
    ensures JalImm(w) == b20 * 1048576 + hi * 4096 + b11 * 2048 + lo * 2 - (if b20 == 1 then 2097152 else 0)
  {
    var raw := b20 * 524288 + lo * 512 + b11 * 256 + hi;
    WordParts(raw, rd);
    DecodeIs(w, raw, b20, hi, b11, lo);
  }

  lemma SignOf(imm: int, b20: nat, rest: nat)
    requires -1048576 <= imm < 1048576 && b20 < 2 && rest < 1048576
    requires b20 * 1048576 + rest == if imm < 0 then imm + 2097152 else imm
    ensures b20 * 1048576 + rest - (if b20 == 1 then 2097152 else 0) == imm
  {
  }

  /** Decoding a `jal` undoes its encoding, for every even offset in range. */
  lemma JalRoundTrip(rd: nat, imm: int)
    requires rd < 32 && -1048576 <= imm < 1048576 && imm % 2 == 0
    ensures IsJal(EncodeJal(rd, imm)) && Rd(EncodeJal(rd, imm)) == rd && JalImm(EncodeJal(rd, imm)) == imm
  {
    var b20, hi, b11, lo := EncodeParts(rd, imm);
    DecodeParts(EncodeJal(rd, imm), rd, b20, hi, b11, lo);
    SignOf(imm, b20, hi * 4096 + b11 * 2048 + lo * 2);
  }

  /** `custom_r`; the fields are disjoint, so alternation is addition. */
  function CustomR(opcode: nat, funct3: nat, funct7: nat, rd: nat, rs1: nat, rs2: nat): (insn: nat)
    ensures insn < WORD32
  {
    funct7 % 128 * 33554432 + rs2 % 32 * 1048576 + rs1 % 32 * 32768 + funct3 % 8 * 4096 + rd % 32 * 128 + opcode % 128
  }

  /** The fields come back out of an encoded instruction. */
  lemma CustomFields(opcode: nat, funct3: nat, funct7: nat, rd: nat, rs1: nat, rs2: nat)
    ensures var w := CustomR(opcode, funct3, funct7, rd, rs1, rs2);
      && Opcode(w) == opcode % 128 && Rd(w) == rd % 32 && Rs1(w) == rs1 % 32
      && w / 4096 % 8 == funct3 % 8 && w / 1048576 % 32 == rs2 % 32 && w / 33554432 == funct7 % 128
  {
    var f7, r2, r1, f3, d, op := funct7 % 128, rs2 % 32, rs1 % 32, funct3 % 8, rd % 32, opcode % 128;
    var w := CustomR(opcode, funct3, funct7, rd, rs1, rs2);
    ModUnique(w, 128, f7 * 262144 + r2 * 8192 + r1 * 256 + f3 * 32 + d, op);
    ModUnique(f7 * 262144 + r2 * 8192 + r1 * 256 + f3 * 32 + d, 32, f7 * 8192 + r2 * 256 + r1 * 8 + f3, d);
    ModUnique(w, 4096, f7 * 8192 + r2 * 256 + r1 * 8 + f3, d * 128 + op);
    ModUnique(f7 * 8192 + r2 * 256 + r1 * 8 + f3, 8, f7 * 1024 + r2 * 32 + r1, f3);
    ModUnique(w, 32768, f7 * 1024 + r2 * 32 + r1, f3 * 4096 + d * 128 + op);
    ModUnique(f7 * 1024 + r2 * 32 + r1, 32, f7 * 32 + r2, r1);
    ModUnique(w, 1048576, f7 * 32 + r2, r1 * 32768 + f3 * 4096 + d * 128 + op);
    ModUnique(f7 * 32 + r2, 32, f7, r2);
    ModUnique(w, 33554432, f7, r2 * 1048576 + r1 * 32768 + f3 * 4096 + d * 128 + op);
  }

  predicate CustomOpcode(op: nat) {
    op == 0x0B || op == 0x2B || op == 0x5B || op == 0x7B
  }

  // ---------- words in a file ----------

  function WriteAt(d: seq<byte>, off: nat, w: nat): (d': seq<byte>)
    requires off + 4 <= |d| && w < WORD32
    ensures |d'| == |d|
  {
    d[..off] + BytesOf(w) + d[off + 4..]
  }

  lemma WriteBytes(d: seq<byte>, off: nat, w: nat)
    requires off + 4 <= |d| && w < WORD32
    ensures WordAt(WriteAt(d, off, w), off) == w
    ensures forall i :: 0 <= i < |d| && !(off <= i < off + 4) ==> WriteAt(d, off, w)[i] == d[i]
  {
    var d' := WriteAt(d, off, w);
    assert d'[off] == w % 256 && d'[off + 1] == w / 256 % 256;
    assert d'[off + 2] == w / 65536 % 256 && d'[off + 3] == w / 16777216;
  }

  lemma LowByte(d: seq<byte>, off: nat)
    requires off + 4 <= |d|
    ensures WordAt(d, off) % 4 == d[off] % 4 && Opcode(WordAt(d, off)) == d[off] % 128
  {
    var k := 2 * (d[off + 1] as int) + 512 * (d[off + 2] as int) + 131072 * (d[off + 3] as int);
    assert WordAt(d, off) == 128 * k + d[off] as int;
  }

  // ---------- the scan ----------

  /** The text section, the functions to look for by address, and what replaces a call. */
  datatype Job = Job(lo: nat, size: nat, addr: nat, funcs: map<nat, string>, repl: map<string, Patch>)

  datatype Patch = Patch(first: nat, second: nat)

  /** A call found at a file offset; a long call takes two words. */
  datatype Site = Site(off: nat, long: bool, func: string)

  function Stop(s: Site): nat {
    s.off + if s.long then 8 else 4
  }

  predicate Fits(j: Job, d: seq<byte>) {
    j.lo + j.size <= |d|
  }

  /** The last word of the text is not scanned. */
  function End(j: Job): int {
    j.lo + j.size - 4
  }

  predicate Known(j: Job, target: nat) {
    target in j.funcs && j.funcs[target] != ""
  }

  function JalTarget(j: Job, off: nat, insn: nat): nat
    requires j.lo <= off
  {
    (j.addr + (off - j.lo) + JalImm(insn)) % WORD64
  }

  function PairTarget(j: Job, off: nat, insn1: nat, insn2: nat): nat
    requires j.lo <= off
  {
    (j.addr + (off - j.lo) + AuipcImm(insn1) + JalrImm(insn2)) % WORD64
  }

  predicate ShortCall(j: Job, off: nat, insn: nat)
    requires j.lo <= off
  {
    IsJal(insn) && Rd(insn) == RA && Known(j, JalTarget(j, off, insn))
  }

  predicate LongCall(j: Job, off: nat, insn1: nat, insn2: nat)
    requires j.lo <= off
  {
    IsAuipc(insn1) && IsJalr(insn2) && Rd(insn1) == Rs1(insn2) && Known(j, PairTarget(j, off, insn1, insn2))
  }

  predicate Inside(j: Job, d: seq<byte>, off: nat) {
    Fits(j, d) && j.lo <= off < End(j)
  }

  /** A 16-bit instruction. */
  predicate Short(d: seq<byte>, off: nat)
    requires off + 4 <= |d|
  {
    WordAt(d, off) % 4 != 3
  }

  /** The calls found at one visited offset: none or one. */
  function SitesAt(j: Job, d: seq<byte>, off: nat): seq<Site>
    requires Inside(j, d, off)
  {
    var insn := WordAt(d, off);
    if Short(d, off) then []
    else if ShortCall(j, off, insn) then [Site(off, false, j.funcs[JalTarget(j, off, insn)])]
    else if off + 4 <= End(j) && LongCall(j, off, insn, WordAt(d, off + 4)) then
      [Site(off, true, j.funcs[PairTarget(j, off, insn, WordAt(d, off + 4))])]
    else []
  }

  function NextOff(d: seq<byte>, off: nat): nat
    requires off + 4 <= |d|
  {
    if Short(d, off) then off + 2 else off + 4
  }

  /** The offsets visited from `off` on. */
  function Visited(j: Job, d: seq<byte>, off: nat): seq<nat>
    requires Fits(j, d) && j.lo <= off
    decreases End(j) - off
  {
    if off < End(j) then [off] + Visited(j, d, NextOff(d, off)) else []
  }

  /** The calls found from `off` on. */
  function Sites(j: Job, d: seq<byte>, off: nat): seq<Site>
    requires Fits(j, d) && j.lo <= off
    decreases End(j) - off
  {
    if off < End(j) then SitesAt(j, d, off) + Sites(j, d, NextOff(d, off)) else []
  }

  // ---------- patching ----------

  /** Every function looked for has a replacement, of two words. */
  predicate Covered(j: Job) {
    && (forall a :: a in j.funcs ==> j.funcs[a] in j.repl)
    && (forall f :: f in j.repl ==> j.repl[f].first < WORD32 && j.repl[f].second < WORD32)
  }

  predicate SiteFits(j: Job, s: Site, size: nat) {
    s.func in j.repl && Stop(s) <= size
  }

  function PatchSite(j: Job, d: seq<byte>, s: Site): (d': seq<byte>)
    requires Covered(j) && SiteFits(j, s, |d|)
    ensures |d'| == |d|
  {
    var d1 := WriteAt(d, s.off, j.repl[s.func].first);
    if s.long then WriteAt(d1, s.off + 4, j.repl[s.func].second) else d1
  }

  function PatchAll(j: Job, d: seq<byte>, sites: seq<Site>): (d': seq<byte>)
    requires Covered(j) && forall i :: 0 <= i < |sites| ==> SiteFits(j, sites[i], |d|)
    ensures |d'| == |d|
    decreases |sites|
  {
    if sites == [] then d else PatchAll(j, PatchSite(j, d, sites[0]), sites[1..])
  }
}
