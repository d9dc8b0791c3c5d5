/**
 * The register cache of the ARC target: a table describing the 99
 * registers the driver knows of, the cache built from it (one `reg` entry
 * and one `arc_reg_t` per register), the get/set accessors the generic
 * register layer calls, and the register list handed to the GDB server.
 *
 * The JTAG reads get performs are recorded in a ghost log; the value the
 * target answers is a parameter.  Whether the target is halted is a
 * parameter too.
 *
 * The description table has fewer initialisers than the cache has
 * entries, and the accessors index the cache by the description's regnum,
 * not by the entry's position.  Both are kept as written; the lemmas at
 * the end show what that does to lp_start, lp_end and the zero-filled rows.
 */
module ArcRegs {

  type uint8 = x: int | 0 <= x < 0x100
  type uint32 = x: int | 0 <= x < 0x1_0000_0000

  datatype Option<T> = None | Some(value: T)

  // ------------------------------------------------ enum arc32_reg_number

  const RegGp: nat := 26
  const RegIlink: nat := 29
  const RegAfterCore: nat := 32
  const RegFirstCoreExt: nat := 32
  const RegAfterCoreExt: nat := 60
  const RegReserved: nat := 61
  const RegLimm: nat := 62
  const RegFirstAux: nat := 64
  const RegPc: nat := 64
  const RegStatus32: nat := 65
  /** The first register that is not part of GDB's g/G packet. */
  const RegAfterGdbGeneral: nat := 66
  const RegLpStart: nat := 75
  const RegLpEnd: nat := 76
  const TotalNumRegs: nat := 99

  const PcRegAddr: nat := 0x6
  const Status32RegAddr: nat := 0xA
  const LpStartRegAddr: nat := 0x2
  const LpEndRegAddr: nat := 0x3

  /** The number of initialisers the description table is written with; the rest are zero. */
  const DescribedRegs: nat := 68

  // ------------------------------------------------------- descriptions

  /** One row of arc32_regs_descriptions; a zero-filled row has no name. */
  datatype RegDesc = RegDesc(regnum: nat, name: Option<string>, addr: nat)

  function DigitChar(d: nat): char
    requires d < 10
  {
    (48 + d) as char
  }

  function Decimal(n: nat): string
  {
    if n < 10 then [DigitChar(n)] else Decimal(n / 10) + [DigitChar(n % 10)]
  }

  /** The names of the 64 core registers: "rN" except for the eight with a conventional name. */
  function CoreName(i: nat): string
  {
    if i == 26 then "gp"
    else if i == 27 then "fp"
    else if i == 28 then "sp"
    else if i == 29 then "ilink"
    else if i == 31 then "blink"
    else if i == 60 then "lp_count"
    else if i == 62 then "limm"
    else if i == 63 then "pcl"
    else "r" + Decimal(i)
  }

  /**
   * Row i of the description table.  Rows 0 to 63 describe the core
   * registers at their own number, 64 and 65 the PC and STATUS32, 66 and
   * 67 lp_start and lp_end (whose numbers are 75 and 76), and the rows
   * past the initialisers are all zero.
   */
  function Description(i: nat): (d: RegDesc)
    requires i < TotalNumRegs
    ensures d.regnum < TotalNumRegs
    ensures d.regnum == i <==> i < RegAfterGdbGeneral
    ensures d.name.None? <==> i >= DescribedRegs
  {
    if i < RegFirstAux then RegDesc(i, Some(CoreName(i)), i)
    else if i == RegPc then RegDesc(RegPc, Some("pc"), PcRegAddr)
    else if i == RegStatus32 then RegDesc(RegStatus32, Some("status32"), Status32RegAddr)
    else if i == 66 then RegDesc(RegLpStart, Some("lp_start"), LpStartRegAddr)
    else if i == 67 then RegDesc(RegLpEnd, Some("lp_end"), LpEndRegAddr)
    else RegDesc(0, None, 0)
  }

  // ------------------------------------------------------ classification

  /** The GDB target-description features a register can belong to; NoFeature stands for NULL. */
  datatype Feature =
    | CoreBasecase | CorePointers | CoreLink | CoreExtension | CoreOther | AuxBaseline | NoFeature

  datatype Classification = Classification(feature: Feature, exist: bool)

  /**
   * The range test of the build loop.  `exist` starts true, the core
   * extension registers (with LIMM and the reserved slot) clear it, and so
   * does every register past the GDB general ones.
   */
  function Classify(i: nat): (c: Classification)
    ensures c.exist <==> i < RegAfterCore || i == RegAfterCoreExt || 63 <= i < RegAfterGdbGeneral
    ensures c.feature == CoreBasecase <==> i < RegGp
    ensures c.feature == CorePointers <==> RegGp <= i < RegIlink
    ensures c.feature == CoreLink <==> RegIlink <= i < RegAfterCore
    ensures c.feature == CoreExtension <==> RegFirstCoreExt <= i < RegAfterCoreExt || i == RegReserved || i == RegLimm
    ensures c.feature == CoreOther <==> i == RegAfterCoreExt || i == 63
    ensures c.feature == AuxBaseline <==> RegFirstAux <= i <= RegLpEnd
    ensures c.feature == NoFeature <==> i > RegLpEnd
  {
    var feature :=
      if i < RegGp then CoreBasecase
      else if RegGp <= i < RegIlink then CorePointers
      else if RegIlink <= i < RegAfterCore then CoreLink
      else if (RegFirstCoreExt <= i < RegAfterCoreExt) || i == RegLimm || i == RegReserved then CoreExtension
      else if RegAfterCoreExt <= i < RegFirstAux then CoreOther
      else if RegPc <= i <= RegLpEnd then AuxBaseline
      else NoFeature;
    Classification(feature, feature != CoreExtension && i < RegAfterGdbGeneral)
  }

  // ------------------------------------------------------- value buffers

  /** buf_get_u32(buf, 0, 32): the first four bytes, least significant first. */
  function LE32(buf: seq<uint8>): (v: uint32)
    requires |buf| >= 4
  {
    var b0, b1, b2, b3: int := buf[0], buf[1], buf[2], buf[3];
    b0 + 0x100 * b1 + 0x1_0000 * b2 + 0x100_0000 * b3
  }

  /** buf_set_u32(buf, 0, 32, v): the four bytes of v, least significant first. */
  function U32Bytes(v: uint32): (buf: seq<uint8>)
    ensures |buf| == 4 && LE32(buf) == v
  {
    var q1 := v / 0x100;
    var q2 := q1 / 0x100;
    [v % 0x100, q1 % 0x100, q2 % 0x100, q2 / 0x100]
  }

  /** Reading four bytes as a word and writing the word back gives the same four bytes. */
  lemma BytesRoundTrip(buf: seq<uint8>)
    requires |buf| >= 4
    ensures U32Bytes(LE32(buf)) == buf[..4]
  {
    var high2: int := buf[2] as int + 0x100 * buf[3] as int;
    var high1: int := buf[1] as int + 0x100 * high2;
    assert LE32(buf) == buf[0] as int + 0x100 * high1;
    ByteSplit(buf[0], high1);
    ByteSplit(buf[1], high2);
    ByteSplit(buf[2], buf[3]);
  }

  lemma ByteSplit(low: nat, high: nat)
    requires low < 0x100
    ensures (low + 0x100 * high) % 0x100 == low && (low + 0x100 * high) / 0x100 == high
  {
  }

  // ------------------------------------------------------------ entries

  /** The fields of `struct reg` the cache sets; `value` is the 4-byte buffer. */
  datatype Reg = Reg(
    name: Option<string>,
    number: nat,
    size: nat,
    value: seq<uint8>,
    valid: bool,
    dirty: bool,
    exist: bool,
    feature: Feature,
    group: string,
    callerSave: bool)

  /** The fields of `struct arc_reg_t` the cache uses: its description and the last value got or set. */
  datatype ArcReg = ArcReg(desc: RegDesc, value: uint32)

  /** Entry i as the build loop leaves it. */
  function InitialReg(i: nat): Reg
    requires i < TotalNumRegs
  {
    var c := Classify(i);
    Reg(Description(i).name, Description(i).regnum, 32, [0, 0, 0, 0], false, false, c.exist, c.feature, "general", true)
  }

  /** Every entry of a freshly built cache: 32 bits of zero, neither valid nor dirty, numbered from its description. */
  lemma InitialRegFields(i: nat)
    requires i < TotalNumRegs
    ensures InitialReg(i).size == 32 && LE32(InitialReg(i).value) == 0
    ensures !InitialReg(i).valid && !InitialReg(i).dirty
    ensures InitialReg(i).number == i <==> i < RegAfterGdbGeneral
    ensures InitialReg(i).exist <==> i < RegAfterCore || i == RegAfterCoreExt || 63 <= i < RegAfterGdbGeneral
  {
    var d := Description(i);
    assert InitialReg(i).number == d.regnum;
  }

  // ---------------------------------------------------------- accessors

  datatype Status = Ok | TargetNotHalted | CommandSyntaxError

  datatype JtagRead = CoreRead(addr: nat) | AuxRead(addr: nat)

  /** What get reads for an uncached register: nothing for LIMM and the reserved slot, else a core or aux register. */
  function ReadOf(desc: RegDesc): Option<JtagRead>
  {
    if desc.regnum == RegLimm || desc.regnum == RegReserved then None
    else if desc.regnum < RegAfterCoreExt then Some(CoreRead(desc.addr))
    else Some(AuxRead(desc.addr))
  }

  /** The outcome of an accessor: its status, the new cache, and the JTAG reads it made. */
  datatype Access = Access(status: Status, regs: seq<Reg>, arch: seq<ArcReg>, jtag: seq<JtagRead>)

  predicate WellSized(regs: seq<Reg>, arch: seq<ArcReg>)
  {
    |regs| == TotalNumRegs && |arch| == TotalNumRegs
  }

  /**
   * arc_regs_get_core_reg on entry i.  `jtagValue` is what the target
   * answers if a read is made.  The entry filled in is the one at the
   * description's regnum; the `arc_reg_t` updated is entry i's.
   */
  function GetCoreReg(regs: seq<Reg>, arch: seq<ArcReg>, i: nat, halted: bool, jtagValue: uint32): (a: Access)
    requires WellSized(regs, arch) && i < TotalNumRegs
    ensures WellSized(a.regs, a.arch)
    ensures a.status == Ok <==> halted && arch[i].desc.regnum < TotalNumRegs
    ensures a.status != Ok || regs[i].valid ==> a.regs == regs && a.arch == arch && a.jtag == []
    ensures |a.jtag| <= 1
    ensures a.jtag != [] <==> a.status == Ok && !regs[i].valid && ReadOf(arch[i].desc).Some?
    ensures forall j :: 0 <= j < TotalNumRegs && j != arch[i].desc.regnum ==> a.regs[j] == regs[j]
    ensures forall j :: 0 <= j < TotalNumRegs && j != i ==> a.arch[j] == arch[j]
    ensures forall j :: 0 <= j < TotalNumRegs ==> a.regs[j].exist == regs[j].exist && a.arch[j].desc == arch[j].desc
    ensures a.status == Ok && !regs[i].valid ==>
      var r := arch[i].desc.regnum;
      a.arch[i].value == (if ReadOf(arch[i].desc).Some? then jtagValue else 0) &&
      a.regs[r].valid && !a.regs[r].dirty && |a.regs[r].value| == 4 && LE32(a.regs[r].value) == a.arch[i].value
  {
    var regnum := arch[i].desc.regnum;
    if !halted then Access(TargetNotHalted, regs, arch, [])
    else if regnum >= TotalNumRegs then Access(CommandSyntaxError, regs, arch, [])
    else if regs[i].valid then Access(Ok, regs, arch, [])
    else
      var read := ReadOf(arch[i].desc);
      var value: uint32 := if read.Some? then jtagValue else 0;
      Access(Ok,
        regs[regnum := regs[regnum].(value := U32Bytes(value), valid := true, dirty := false)],
        arch[i := arch[i].(value := value)],
        if read.Some? then [read.value] else [])
  }

  /**
   * arc_regs_set_core_reg on entry i with the bytes `buf`.  Entry i's
   * buffer and `arc_reg_t` take the value; the entry at the description's
   * regnum is marked valid and dirty.
   */
  function SetCoreReg(regs: seq<Reg>, arch: seq<ArcReg>, i: nat, halted: bool, buf: seq<uint8>): (a: Access)
    requires WellSized(regs, arch) && i < TotalNumRegs && |buf| >= 4
    ensures WellSized(a.regs, a.arch) && a.jtag == []
    ensures a.status == Ok <==> halted && arch[i].desc.regnum < TotalNumRegs
    ensures a.status != Ok ==> a.regs == regs && a.arch == arch
    ensures a.status == Ok ==> a.regs[i].value == buf[..4] && a.arch[i].value == LE32(buf)
    ensures a.status == Ok ==> a.regs[arch[i].desc.regnum].valid && a.regs[arch[i].desc.regnum].dirty
    ensures forall j :: 0 <= j < TotalNumRegs && j != i && j != arch[i].desc.regnum ==> a.regs[j] == regs[j]
    ensures forall j :: 0 <= j < TotalNumRegs && j != i ==> a.arch[j] == arch[j]
    ensures forall j :: 0 <= j < TotalNumRegs ==> a.regs[j].exist == regs[j].exist && a.arch[j].desc == arch[j].desc
  {
    var value := LE32(buf);
    var regnum := arch[i].desc.regnum;
    if !halted then Access(TargetNotHalted, regs, arch, [])
    else if regnum >= TotalNumRegs then Access(CommandSyntaxError, regs, arch, [])
    else
      BytesRoundTrip(buf);
      var written := regs[i := regs[i].(value := U32Bytes(value))];
      Access(Ok,
        written[regnum := written[regnum].(valid := true, dirty := true)],
        arch[i := arch[i].(value := value)],
        [])
  }

  // ------------------------------------------------------ the GDB list

  datatype RegClass = All | General

  /** The entries below `n` that GDB's g/G packet carries: the general ones whose `exist` is set, in order. */
  function GeneralIndices(regs: seq<Reg>, n: nat): (list: seq<nat>)
    requires n <= |regs|
    ensures |list| <= n
  {
    if n == 0 then []
    else
      var prefix := GeneralIndices(regs, n - 1);
      prefix + (if n - 1 < RegAfterGdbGeneral && regs[n - 1].exist then [n - 1] else [])
  }

  /**
   * The general list holds exactly the entries below `n` that are general
   * and exist, each once, in ascending order.
   */
  lemma {:induction false} GeneralIndicesExact(regs: seq<Reg>, n: nat)
    requires n <= |regs|
    ensures forall k :: 0 <= k < |GeneralIndices(regs, n)| ==>
      GeneralIndices(regs, n)[k] < n && GeneralIndices(regs, n)[k] < RegAfterGdbGeneral && regs[GeneralIndices(regs, n)[k]].exist
    ensures forall j :: 0 <= j < n && j < RegAfterGdbGeneral && regs[j].exist ==> j in GeneralIndices(regs, n)
    ensures forall k, l :: 0 <= k < l < |GeneralIndices(regs, n)| ==> GeneralIndices(regs, n)[k] < GeneralIndices(regs, n)[l]
  {
    if n > 0 {
      GeneralIndicesExact(regs, n - 1);
      GeneralIndicesStep(regs, n - 1);
    }
  }

  lemma GeneralIndicesStep(regs: seq<Reg>, n: nat)
    requires n < |regs|
    ensures GeneralIndices(regs, n + 1) ==
      GeneralIndices(regs, n) + (if n < RegAfterGdbGeneral && regs[n].exist then [n] else [])
  {
  }

  /** arc_regs_get_gdb_reg_list: every entry for REG_CLASS_ALL, the general existing ones otherwise. */
  function GdbRegList(regs: seq<Reg>, regClass: RegClass): seq<nat>
    requires |regs| == TotalNumRegs
  {
    if regClass == All then seq(TotalNumRegs, j => j) else GeneralIndices(regs, TotalNumRegs)
  }

  // ------------------------------------------- what the accessors do to a built cache

  /** The descriptions a built cache points at; the accessors never change them. */
  predicate Described(arch: seq<ArcReg>)
  {
    |arch| == TotalNumRegs && forall j :: 0 <= j < TotalNumRegs ==> arch[j].desc == Description(j)
  }

  /**
   * Where get takes each register's value from: nowhere for LIMM and the
   * reserved slot, the core register of the same number below 60, the aux
   * space for the rest of the described registers (lp_count and pcl at
   * their own numbers), and core register 0 for the zero-filled rows.
   */
  lemma TableReads(i: nat)
    requires i < TotalNumRegs
    ensures ReadOf(Description(i)).None? <==> i == RegReserved || i == RegLimm
    ensures i < RegAfterCoreExt ==> ReadOf(Description(i)) == Some(CoreRead(i))
    ensures i == RegAfterCoreExt || i == 63 ==> ReadOf(Description(i)) == Some(AuxRead(i))
    ensures i == RegPc ==> ReadOf(Description(i)) == Some(AuxRead(PcRegAddr))
    ensures i == RegStatus32 ==> ReadOf(Description(i)) == Some(AuxRead(Status32RegAddr))
    ensures i == 66 ==> ReadOf(Description(i)) == Some(AuxRead(LpStartRegAddr))
    ensures i == 67 ==> ReadOf(Description(i)) == Some(AuxRead(LpEndRegAddr))
    ensures i >= DescribedRegs ==> ReadOf(Description(i)) == Some(CoreRead(0))
  {
    var d := Description(i);
    assert i < RegAfterGdbGeneral ==> d.regnum == i;
  }

  /**
   * For a register whose description carries its own number (every one
   * below 66), an uncached get fills the entry in, and a second get is
   * served from the cache: no read, no change.
   */
  lemma GetThenCached(regs: seq<Reg>, arch: seq<ArcReg>, i: nat, jtagValue: uint32, again: uint32)
    requires WellSized(regs, arch) && Described(arch) && i < RegAfterGdbGeneral
    ensures var a := GetCoreReg(regs, arch, i, true, jtagValue);
      a.status == Ok && a.regs[i].valid &&
      (!regs[i].valid ==> !a.regs[i].dirty && |a.regs[i].value| == 4 && LE32(a.regs[i].value) == a.arch[i].value) &&
      GetCoreReg(a.regs, a.arch, i, true, again) == Access(Ok, a.regs, a.arch, [])
  {
    var d := Description(i);
    assert arch[i].desc.regnum == i;
  }

  /**
   * lp_start and lp_end sit at rows 66 and 67 but are numbered 75 and 76,
   * so a get fills entry 75 or 76 and leaves its own entry invalid: every
   * later get reads the aux register again.
   */
  lemma GetLoopRegsNeverCached(regs: seq<Reg>, arch: seq<ArcReg>, i: nat, jtagValue: uint32, again: uint32)
    requires WellSized(regs, arch) && Described(arch) && (i == 66 || i == 67) && !regs[i].valid
    ensures var a := GetCoreReg(regs, arch, i, true, jtagValue);
      a.status == Ok && !a.regs[i].valid && a.regs[i + 9].valid &&
      a.jtag == [AuxRead(if i == 66 then LpStartRegAddr else LpEndRegAddr)] &&
      GetCoreReg(a.regs, a.arch, i, true, again).jtag == a.jtag
  {
    var d := Description(i);
    assert d.regnum == i + 9;
  }

  /**
   * The zero-filled rows carry regnum 0: a set on one of them stores the
   * value in its own entry but marks r0 valid and dirty, with r0's value
   * left as it was.
   */
  lemma SetZeroRowMarksR0(regs: seq<Reg>, arch: seq<ArcReg>, i: nat, buf: seq<uint8>)
    requires WellSized(regs, arch) && Described(arch) && DescribedRegs <= i < TotalNumRegs && |buf| >= 4
    ensures var a := SetCoreReg(regs, arch, i, true, buf);
      a.status == Ok && a.regs[i].value == buf[..4] &&
      a.regs[0].valid && a.regs[0].dirty && a.regs[0].value == regs[0].value
  {
    var d := Description(i);
    assert arch[i].desc.regnum == 0;
  }

  /**
   * Below 66, a set followed by a get: the get is served from the cache
   * and hands back the word set, which is marked dirty for write-back.
   */
  lemma SetThenGet(regs: seq<Reg>, arch: seq<ArcReg>, i: nat, buf: seq<uint8>, jtagValue: uint32)
    requires WellSized(regs, arch) && Described(arch) && i < RegAfterGdbGeneral && |buf| >= 4
    ensures var s := SetCoreReg(regs, arch, i, true, buf);
      var g := GetCoreReg(s.regs, s.arch, i, true, jtagValue);
      g == Access(Ok, s.regs, s.arch, []) &&
      LE32(g.regs[i].value) == LE32(buf) && g.arch[i].value == LE32(buf) && g.regs[i].dirty
  {
    var d := Description(i);
    assert arch[i].desc.regnum == i;
  }

  /** The general list is the 32 base core registers, lp_count, pcl, pc and status32: 36 entries. */
  lemma GeneralListAfterBuild(regs: seq<Reg>)
    requires |regs| == TotalNumRegs
    requires forall j :: 0 <= j < TotalNumRegs ==> regs[j].exist == Classify(j).exist
    ensures GeneralIndices(regs, TotalNumRegs) == seq(32, j => j) + [60, 63, 64, 65]
    ensures |GdbRegList(regs, General)| == 36
  {
    GeneralIndicesPrefix(regs, 32);
    GeneralIndicesSkip(regs, 32, 60);
    GeneralIndicesStep(regs, 60);
    GeneralIndicesSkip(regs, 61, 63);
    GeneralIndicesStep(regs, 63);
    GeneralIndicesStep(regs, 64);
    GeneralIndicesStep(regs, 65);
    GeneralIndicesSkip(regs, 66, TotalNumRegs);
  }

  lemma {:induction false} GeneralIndicesPrefix(regs: seq<Reg>, n: nat)
    requires n <= RegAfterCore <= |regs|
    requires forall j :: 0 <= j < RegAfterCore ==> regs[j].exist
    ensures GeneralIndices(regs, n) == seq(n, j => j)
  {
    if n > 0 {
      GeneralIndicesPrefix(regs, n - 1);
      GeneralIndicesStep(regs, n - 1);
    }
  }

  lemma {:induction false} GeneralIndicesSkip(regs: seq<Reg>, lo: nat, hi: nat)
    requires lo <= hi <= |regs|
    requires forall j :: lo <= j < hi ==> j >= RegAfterGdbGeneral || !regs[j].exist
    ensures GeneralIndices(regs, hi) == GeneralIndices(regs, lo)
    decreases hi
  {
    if lo < hi {
      GeneralIndicesSkip(regs, lo, hi - 1);
      GeneralIndicesStep(regs, hi - 1);
    }
  }

  /** The accessors leave every `exist` flag alone, so the general list a cache reports never changes. */
  lemma {:induction false} GeneralIndicesStable(regs: seq<Reg>, regs': seq<Reg>, n: nat)
    requires n <= |regs| == |regs'|
    requires forall j :: 0 <= j < |regs| ==> regs'[j].exist == regs[j].exist
    ensures GeneralIndices(regs', n) == GeneralIndices(regs, n)
  {
    if n > 0 {
      GeneralIndicesStable(regs, regs', n - 1);
      GeneralIndicesStep(regs, n - 1);
      GeneralIndicesStep(regs', n - 1);
    }
  }

  /** Get and set never touch an `exist` flag, so the GDB register list is the same before and after either. */
  lemma AccessKeepsGdbList(regs: seq<Reg>, arch: seq<ArcReg>, i: nat, halted: bool, jtagValue: uint32,
                           buf: seq<uint8>, regClass: RegClass)
    requires WellSized(regs, arch) && i < TotalNumRegs && |buf| >= 4
    ensures GdbRegList(GetCoreReg(regs, arch, i, halted, jtagValue).regs, regClass) == GdbRegList(regs, regClass)
    ensures GdbRegList(SetCoreReg(regs, arch, i, halted, buf).regs, regClass) == GdbRegList(regs, regClass)
  {
    GeneralIndicesStable(regs, GetCoreReg(regs, arch, i, halted, jtagValue).regs, TotalNumRegs);
    GeneralIndicesStable(regs, SetCoreReg(regs, arch, i, halted, buf).regs, TotalNumRegs);
  }

  // ------------------------------------------------------------ the cache

  class RegCache {
    /** reg_list */
    const regs: array<Reg>
    /** arch_info */
    const arch: array<ArcReg>
    /** Every JTAG register read the accessors made, oldest first. */
    ghost var jtag: seq<JtagRead>

    ghost predicate Valid()
    {
      regs.Length == TotalNumRegs && arch.Length == TotalNumRegs
    }

    /** arc_regs_build_reg_cache: one entry and one `arc_reg_t` per register, filled in index order. */
    constructor Build()
      ensures Valid() && fresh(regs) && fresh(arch) && jtag == []
      ensures forall i :: 0 <= i < TotalNumRegs ==> regs[i] == InitialReg(i)
      ensures forall i :: 0 <= i < TotalNumRegs ==> arch[i] == ArcReg(Description(i), 0)
    {
      regs := new Reg[TotalNumRegs];
      arch := new ArcReg[TotalNumRegs];
      jtag := [];
      new;
      var i := 0;
      while i < TotalNumRegs
        invariant i <= TotalNumRegs && jtag == []
        invariant forall j :: 0 <= j < i ==> regs[j] == InitialReg(j)
        invariant forall j :: 0 <= j < i ==> arch[j] == ArcReg(Description(j), 0)
      {
        arch[i] := ArcReg(Description(i), 0);
        var c := Classify(i);
        regs[i] := Reg(Description(i).name, Description(i).regnum, 32, [0, 0, 0, 0], false, false,
                       c.exist, c.feature, "general", true);
        i := i + 1;
      }
    }

    /** arc_regs_get_core_reg on entry i. */
    method Get(i: nat, halted: bool, jtagValue: uint32) returns (status: Status)
      requires Valid() && i < TotalNumRegs
      modifies this, regs, arch
      ensures var a := GetCoreReg(old(regs[..]), old(arch[..]), i, halted, jtagValue);
        status == a.status && regs[..] == a.regs && arch[..] == a.arch && jtag == old(jtag) + a.jtag
    {
      var regnum := arch[i].desc.regnum;
      if !halted {
        return TargetNotHalted;
      }
      if regnum >= TotalNumRegs {
        return CommandSyntaxError;
      }
      if regs[i].valid {
        return Ok;
      }
      var value: uint32 := 0;
      if regnum == RegLimm || regnum == RegReserved {
        value := 0;
      } else if regnum < RegAfterCoreExt {
        value := jtagValue;
        jtag := jtag + [CoreRead(arch[i].desc.addr)];
      } else {
        value := jtagValue;
        jtag := jtag + [AuxRead(arch[i].desc.addr)];
      }
      arch[i] := arch[i].(value := value);
      regs[regnum] := regs[regnum].(value := U32Bytes(value), valid := true, dirty := false);
      status := Ok;
    }

    /** arc_regs_set_core_reg on entry i. */
    method Set(i: nat, halted: bool, buf: seq<uint8>) returns (status: Status)
      requires Valid() && i < TotalNumRegs && |buf| >= 4
      modifies regs, arch
      ensures var a := SetCoreReg(old(regs[..]), old(arch[..]), i, halted, buf);
        status == a.status && regs[..] == a.regs && arch[..] == a.arch
    {
      var value := LE32(buf);
      var regnum := arch[i].desc.regnum;
      if !halted {
        return TargetNotHalted;
      }
      if regnum >= TotalNumRegs {
        return CommandSyntaxError;
      }
      regs[i] := regs[i].(value := U32Bytes(value));
      arch[i] := arch[i].(value := value);
      regs[regnum] := regs[regnum].(valid := true, dirty := true);
      status := Ok;
    }

    /** arc_regs_get_gdb_reg_list: the list, as entry indices, and its length. */
    method GetGdbRegList(regClass: RegClass) returns (list: array<nat>, size: nat)
      requires Valid()
      ensures fresh(list) && list.Length == TotalNumRegs && size <= TotalNumRegs
      ensures list[..size] == GdbRegList(regs[..], regClass)
    {
      list := new nat[TotalNumRegs];
      if regClass == All {
        FillAll(list);
        size := TotalNumRegs;
        assert list[..size] == list[..];
      } else {
        size := FillGeneral(list, regs[..]);
      }
    }

    /** The REG_CLASS_ALL loop: entry i at position i. */
    static method FillAll(list: array<nat>)
      requires list.Length == TotalNumRegs
      modifies list
      ensures list[..] == seq(TotalNumRegs, j => j)
    {
      var i := 0;
      while i < TotalNumRegs
        invariant i <= TotalNumRegs
        invariant forall j :: 0 <= j < i ==> list[j] == j
      {
        list[i] := i;
        i := i + 1;
      }
    }

    /** The REG_CLASS_GENERAL loop: `cur_index` counts the entries kept so far. */
    static method FillGeneral(list: array<nat>, entries: seq<Reg>) returns (size: nat)
      requires list.Length == TotalNumRegs && |entries| == TotalNumRegs
      modifies list
      ensures size <= TotalNumRegs && list[..size] == GeneralIndices(entries, TotalNumRegs)
    {
      var cur := 0;
      var i := 0;
      while i < TotalNumRegs
        invariant i <= TotalNumRegs && cur <= i
        invariant list[..cur] == GeneralIndices(entries, i)
      {
        GeneralIndicesStep(entries, i);
        if i < RegAfterGdbGeneral && entries[i].exist {
          list[cur] := i;
          assert list[..cur + 1] == list[..cur] + [i];
          cur := cur + 1;
        }
        i := i + 1;
      }
      size := cur;
    }
  }
}
