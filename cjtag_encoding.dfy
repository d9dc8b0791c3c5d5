/**
 * The byte-level vocabulary of the cJTAG (IEEE 1149.7) link layer as the
 * FTDI MPSSE adapter sees it: the TMS strings the driver writes by hand, the
 * MPSSE command blocks it emits for each TMS/TDI cycle, the fixed packets
 * (pin initialisation, escape sequence, scan-format switches, check
 * packets), the table of TAP moves, and the decoding of a captured bit.
 *
 * Everything here is a pure function; the driver state that selects among
 * them lives in CJtagLink.
 */
module CJtagEncoding {
  import opened Tap

  newtype uint8 = x: int | 0 <= x < 0x100

  datatype Option<T> = None | Some(value: T)

  /** pucRxBuffer holds one response byte per clocked cycle. */
  const MaxSupportedScanLength: nat := 1000
  const MaxPreamble: nat := 6
  const MaxPostamble: nat := 2
  /** The largest block one `unsigned char` counter can index in the 0x100-byte scratch buffer. */
  const MaxBlockLength: nat := 0xFF

  /** Star-command opcodes and operands (IEEE 1149.7 STFMT, STMC). */
  const StFmt: nat := 3
  const StMc: nat := 0
  const Oscan1Param: nat := 9
  const ExitCmdLevel: nat := 1

  datatype ScanFormat = Normal | Oscan1

  /** One transaction with the adapter: bytes written, or a number of bytes read back. */
  datatype AdapterOp = Write(bytes: seq<uint8>) | Read(count: nat)

  // ---------------------------------------------------------------- TMS strings

  /** '_' and ' ' clock nothing in the transition loops; they only make the strings easier to read. */
  predicate IsSeparator(c: char)
  {
    c == '_' || c == ' '
  }

  /**
   * The TMS level of every cycle a transition string asks for, in order:
   * separators are skipped, '1' is high and every other character is low.
   */
  function TmsBits(tms: string): (bits: seq<bool>)
    ensures |bits| <= |tms|
  {
    if tms == [] then []
    else
      var last := tms[|tms| - 1];
      TmsBits(tms[..|tms| - 1]) + (if IsSeparator(last) then [] else [last == '1'])
  }

  /** The levels of a string written without separators: one cycle per character. */
  function Levels(tms: string): (bits: seq<bool>)
    ensures |bits| == |tms|
  {
    seq(|tms|, i requires 0 <= i < |tms| => tms[i] == '1')
  }

  lemma {:induction false} TmsBitsPlain(tms: string)
    requires forall i :: 0 <= i < |tms| ==> !IsSeparator(tms[i])
    ensures TmsBits(tms) == Levels(tms)
  {
    if tms != [] {
      TmsBitsPlain(tms[..|tms| - 1]);
      assert Levels(tms) == Levels(tms[..|tms| - 1]) + [tms[|tms| - 1] == '1'];
    }
  }

  lemma {:induction false} TmsBitsAppend(a: string, b: string)
    ensures TmsBits(a + b) == TmsBits(a) + TmsBits(b)
  {
    if b != [] {
      assert (a + b)[..|a + b| - 1] == a + b[..|b| - 1];
      TmsBitsAppend(a, b[..|b| - 1]);
    } else {
      assert a + b == a;
    }
  }

  /** The loop body of ZBS: `repeat` copies of "10" "11_". */
  function ZbsLoop(repeat: nat): string
  {
    if repeat == 0 then "" else ZbsLoop(repeat - 1) + "10" + "11_"
  }

  /** The zero-bit-scan string: `repeat` DR scans that never enter Shift-DR, then back to Run-Test/Idle. */
  function ZbsString(repeat: nat): string
  {
    ZbsLoop(repeat) + "0"
  }

  function Zeros(n: nat): (s: string)
    ensures |s| == n && forall i :: 0 <= i < n ==> s[i] == '0'
  {
    seq(n, _ => '0')
  }

  /** The non-zero-bit-scan string: enter Capture-DR, touch Shift-DR `amount` times, then update and idle. */
  function NzbsString(amount: nat): string
  {
    "10_" + Zeros(amount) + "_110"
  }

  /** set_JTAG_to_idle: five TMS-high cycles reach Test-Logic-Reset, the last low cycle Run-Test/Idle. */
  const IdleString: string := "0111110"
  /** enter_control_mode: three trips around Run-Test/Idle after the lock. */
  const LockString: string := "000"
  /** dummy_scan_packet: one Run-Test/Idle to Run-Test/Idle cycle. */
  const DummyString: string := "0"
  /** enter_2wire_mode_and_test: touch Shift-IR and return to Run-Test/Idle to reconnect the taps. */
  const ReconnectString: string := "1100110"

  /** The TMS levels of `repeat` zero-bit scans: "1011" per scan. */
  function ZbsScans(repeat: nat): (bits: seq<bool>)
    ensures |bits| == 4 * repeat
  {
    if repeat == 0 then [] else ZbsScans(repeat - 1) + [true, false, true, true]
  }

  /** The TMS levels of ZBS(repeat): the scans, then a final 0. */
  function ZbsLevels(repeat: nat): (bits: seq<bool>)
    ensures |bits| == 4 * repeat + 1
  {
    ZbsScans(repeat) + [false]
  }

  lemma {:induction false} ZbsLoopBits(repeat: nat)
    ensures TmsBits(ZbsLoop(repeat)) == ZbsScans(repeat)
  {
    if repeat > 0 {
      ZbsLoopBits(repeat - 1);
      ZbsScanStep(ZbsLoop(repeat - 1));
    }
  }

  /** One more pass of the ZBS loop adds the levels of one zero-bit scan. */
  lemma ZbsScanStep(prefix: string)
    ensures TmsBits(prefix + "10" + "11_") == TmsBits(prefix) + [true, false, true, true]
  {
    TmsBitsAppend3(prefix, "10", "11_");
    ZbsScanBits();
  }

  lemma TmsBitsAppend3(a: string, b: string, c: string)
    ensures TmsBits(a + b + c) == TmsBits(a) + TmsBits(b) + TmsBits(c)
  {
    TmsBitsAppend(a + b, c);
    TmsBitsAppend(a, b);
  }

  /** The two halves of one zero-bit scan in the ZBS loop. */
  lemma ZbsScanBits()
    ensures TmsBits("10") == [true, false] && TmsBits("11_") == [true, true]
  {
    TmsBitsPlain("10");
    TmsBitsPlain("11");
    TmsBitsAppend("11", "_");
    assert "11" + "_" == "11_";
    assert TmsBits("_") == [];
  }

  /** ZBS(repeat) clocks exactly 4 * repeat + 1 cycles, with the levels "1011" per scan and a final 0. */
  lemma ZbsBits(repeat: nat)
    ensures TmsBits(ZbsString(repeat)) == ZbsLevels(repeat)
    ensures |TmsBits(ZbsString(repeat))| == 4 * repeat + 1
  {
    TmsBitsAppend(ZbsLoop(repeat), "0");
    ZbsLoopBits(repeat);
    assert TmsBits("0") == [false];
  }

  lemma {:induction false} ZerosBits(n: nat)
    ensures TmsBits(Zeros(n)) == seq(n, _ => false)
  {
    if n > 0 {
      assert forall i :: 0 <= i < n ==> Zeros(n)[i] == (Zeros(n - 1) + "0")[i];
      assert Zeros(n) == Zeros(n - 1) + "0";
      TmsBitsAppend(Zeros(n - 1), "0");
      ZerosBits(n - 1);
    }
  }

  /** NZBS(amount) clocks exactly amount + 5 cycles: "10", `amount` zeros, then "110". */
  lemma NzbsBits(amount: nat)
    ensures TmsBits(NzbsString(amount)) == [true, false] + seq(amount, _ => false) + [true, true, false]
    ensures |TmsBits(NzbsString(amount))| == amount + 5
  {
    TmsBitsAppend3("10_", Zeros(amount), "_110");
    ZerosBits(amount);
    NzbsEnds();
  }

  /** The fixed head and tail of the NZBS string. */
  lemma NzbsEnds()
    ensures TmsBits("10_") == [true, false] && TmsBits("_110") == [true, true, false]
  {
    assert TmsBits("10_") == [true, false];
    TmsBitsAppend("_", "110");
    TmsBitsPlain("110");
    assert "_" + "110" == "_110";
    assert TmsBits("_") == [];
    assert Levels("110") == [true, true, false];
  }

  // ------------------------------------------------- what the strings do to a TAP

  lemma {:induction false} ShiftZeros(s: TapState, n: nat)
    requires s == DrCapture || s == DrShift
    ensures Run(s, seq(n, _ => false)) == (if n == 0 then s else DrShift)
    ensures !Passes(s, seq(n, _ => false), Reset)
    ensures DrShiftCycles(s, seq(n, _ => false)) == (if s == DrShift then n else if n == 0 then 0 else n - 1)
    decreases n
  {
    if n > 0 {
      assert seq(n, _ => false)[1..] == seq(n - 1, _ => false);
      ShiftZeros(DrShift, n - 1);
    }
  }

  /** TMS held low keeps the controller in a shift state; only Shift-DR counts as DR shifting. */
  lemma {:induction false} ShiftHold(s: TapState, n: nat)
    requires s == DrShift || s == IrShift
    ensures Run(s, seq(n, _ => false)) == s
    ensures !Passes(s, seq(n, _ => false), Reset)
    ensures DrShiftCycles(s, seq(n, _ => false)) == if s == DrShift then n else 0
    decreases n
  {
    if n > 0 {
      assert seq(n, _ => false)[1..] == seq(n - 1, _ => false);
      ShiftHold(s, n - 1);
    }
  }

  /**
   * NZBS from Run-Test/Idle shifts exactly `amount` bits in Shift-DR, returns to
   * Run-Test/Idle and never passes Test-Logic-Reset, as the escape protocol needs.
   */
  lemma NzbsFromIdle(amount: nat)
    ensures Run(Idle, TmsBits(NzbsString(amount))) == Idle
    ensures !Passes(Idle, TmsBits(NzbsString(amount)), Reset)
    ensures DrShiftCycles(Idle, TmsBits(NzbsString(amount))) == amount
  {
    NzbsBits(amount);
    var head, zeros, tail := [true, false], seq(amount, _ => false), [true, true, false];
    assert TmsBits(NzbsString(amount)) == head + (zeros + tail);
    RunAppend(Idle, head, zeros + tail);
    PassesAppend(Idle, head, zeros + tail, Reset);
    DrShiftCyclesAppend(Idle, head, zeros + tail);
    assert Run(Idle, head) == DrCapture;
    ShiftZeros(DrCapture, amount);
    RunAppend(DrCapture, zeros, tail);
    PassesAppend(DrCapture, zeros, tail, Reset);
    DrShiftCyclesAppend(DrCapture, zeros, tail);
    NzbsTail(Run(DrCapture, zeros));
  }

  /** The NZBS tail "110" leaves Capture-DR or Shift-DR for Run-Test/Idle through Exit1-DR and Update-DR. */
  lemma NzbsTail(s: TapState)
    requires s == DrCapture || s == DrShift
    ensures Run(s, [true, true, false]) == Idle && !Passes(s, [true, true, false], Reset)
    ensures DrShiftCycles(s, [true, true, false]) == if s == DrShift then 1 else 0
  {
  }

  /**
   * Each zero-bit scan goes from Run-Test/Idle or Update-DR through
   * Capture-DR and Exit1-DR to Update-DR, without a Shift-DR cycle and
   * without passing Test-Logic-Reset.
   */
  lemma {:induction false} ZbsScansRun(s: TapState, repeat: nat)
    requires s == Idle || s == DrUpdate
    ensures Run(s, ZbsScans(repeat)) == if repeat == 0 then s else DrUpdate
    ensures !Passes(s, ZbsScans(repeat), Reset)
    ensures DrShiftCycles(s, ZbsScans(repeat)) == 0
  {
    if repeat > 0 {
      var scan, earlier := [true, false, true, true], ZbsScans(repeat - 1);
      assert ZbsScans(repeat) == earlier + scan;
      ZbsScansRun(s, repeat - 1);
      OneZbsScan(Run(s, earlier));
      NoShiftLegs(s, earlier, scan);
    }
  }

  /** Two legs that each avoid Test-Logic-Reset and Shift-DR, the second ending in Update-DR, make one such leg. */
  lemma NoShiftLegs(s: TapState, a: seq<bool>, b: seq<bool>)
    requires !Passes(s, a, Reset) && DrShiftCycles(s, a) == 0
    requires Run(Run(s, a), b) == DrUpdate && !Passes(Run(s, a), b, Reset) && DrShiftCycles(Run(s, a), b) == 0
    ensures Run(s, a + b) == DrUpdate && !Passes(s, a + b, Reset) && DrShiftCycles(s, a + b) == 0
  {
    RunAppend(s, a, b);
    PassesAppend(s, a, b, Reset);
    DrShiftCyclesAppend(s, a, b);
  }

  lemma OneZbsScan(s: TapState)
    requires s == Idle || s == DrUpdate
    ensures Run(s, [true, false, true, true]) == DrUpdate
    ensures !Passes(s, [true, false, true, true], Reset)
    ensures DrShiftCycles(s, [true, false, true, true]) == 0
  {
  }

  /**
   * ZBS from Run-Test/Idle passes Capture-DR and Update-DR `repeat` times without
   * one Shift-DR cycle, returns to Run-Test/Idle and never passes Test-Logic-Reset.
   */
  lemma ZbsFromIdle(repeat: nat)
    ensures Run(Idle, ZbsLevels(repeat)) == Idle
    ensures !Passes(Idle, ZbsLevels(repeat), Reset)
    ensures DrShiftCycles(Idle, ZbsLevels(repeat)) == 0
  {
    ZbsScansRun(Idle, repeat);
    RunAppend(Idle, ZbsScans(repeat), [false]);
    PassesAppend(Idle, ZbsScans(repeat), [false], Reset);
    DrShiftCyclesAppend(Idle, ZbsScans(repeat), [false]);
  }

  /** The forced-idle string brings the TAP to Run-Test/Idle through Test-Logic-Reset from any state. */
  lemma IdleStringFromAnyState(s: TapState)
    ensures Run(s, TmsBits(IdleString)) == Idle
    ensures Passes(s, TmsBits(IdleString), Reset)
  {
    var bits := [false, true, true, true, true, true, false];
    TmsBitsPlain(IdleString);
    assert TmsBits(IdleString) == bits;
    RunAppend(s, [false], bits[1..]);
    RunAppend(Next(s, false), [true, true, true, true, true], [false]);
    FiveOnesReset(Next(s, false));
    PassesAppend(s, [false, true, true, true, true, true], [false], Reset);
    RunAppend(s, [false], [true, true, true, true, true]);
  }

  /** The reconnect string passes Shift-IR and comes back to Run-Test/Idle. */
  lemma ReconnectFromIdle()
    ensures Run(Idle, TmsBits(ReconnectString)) == Idle
    ensures Passes(Idle, TmsBits(ReconnectString), IrShift)
    ensures !Passes(Idle, TmsBits(ReconnectString), Reset)
  {
    TmsBitsPlain(ReconnectString);
    var toShift, back := [true, true] + [false, false], [true, true] + [false];
    assert Levels(ReconnectString) == toShift + back;
    TwoLegs(Idle, [true, true], IrSelect, [false, false], IrShift);
    TwoLegs(IrShift, [true, true], IrUpdate, [false], Idle);
    TwoLegs(Idle, toShift, IrShift, back, Idle);
    PassesAppend(Idle, toShift, back, IrShift);
  }

  // ---------------------------------------------------------------- byte blocks

  /**
   * send_JTAG: the 18-byte MPSSE block that clocks one OSCAN1 cycle with the
   * given TMS and TDI.  Byte 2 carries the (TMS, TDI) pair, bytes 7, 11 and 16
   * carry TMS only.
   */
  function JtagCycle(tms: bool, tdi: bool): seq<uint8>
  {
    var pair: uint8 := if !tms && !tdi then 0x01 else if !tms && tdi then 0x00 else if !tdi then 0x03 else 0x02;
    [0x1B, 0x00, pair,
     0x97, 0x97, 0x97,
     0x80, if tms then 0xB3 else 0xB1, 0xEB,
     0x97,
     0x80, if tms then 0x82 else 0x80, 0xEB,
     0x2A, 0x00,
     0x80, if tms then 0xA2 else 0xA0, 0xEB]
  }

  /** Byte 2 of a send_JTAG block carries TMS in bit 1 and the inverse of TDI in bit 0; bytes 7, 11 and 16 depend on TMS only. */
  lemma JtagCycleEncoding(tms: bool, tdi: bool)
    ensures |JtagCycle(tms, tdi)| == 18
    ensures JtagCycle(tms, tdi)[2] == (if tms then 2 else 0) + (if tdi then 0 else 1)
    ensures JtagCycle(tms, tdi)[7] == JtagCycle(tms, !tdi)[7]
    ensures JtagCycle(tms, tdi)[11] == JtagCycle(tms, !tdi)[11]
    ensures JtagCycle(tms, tdi)[16] == JtagCycle(tms, !tdi)[16]
    ensures JtagCycle(tms, tdi)[7] == if tms then 0xB3 else 0xB1
    ensures JtagCycle(tms, tdi)[11] == if tms then 0x82 else 0x80
    ensures JtagCycle(tms, tdi)[16] == if tms then 0xA2 else 0xA0
  {
  }

  /** The four (TMS, TDI) encodings are pairwise distinct. */
  lemma JtagCycleInjective(tms: bool, tdi: bool, tms': bool, tdi': bool)
    requires JtagCycle(tms, tdi) == JtagCycle(tms', tdi')
    ensures tms == tms' && tdi == tdi'
  {
    assert JtagCycle(tms, tdi)[2] == JtagCycle(tms', tdi')[2];
  }

  /** How `transitions` frames each cycle, chosen by the scan format and the want-result flag. */
  datatype Framing =
    | NormalCapture   // normal format, result wanted: clock TMS with read (0x6F)
    | NormalDiscard   // normal format, no result: clock TMS without read (0x4B)
    | Oscan1Cycle     // OSCAN1: the 18-byte two-wire cycle

  function FramingOf(format: ScanFormat, wantResult: bool): Framing
  {
    if wantResult && format == Normal then NormalCapture
    else if !wantResult && format == Normal then NormalDiscard
    else Oscan1Cycle
  }

  /** The block the transition loops emit for one OSCAN1 cycle, TDI held at 0. */
  function Oscan1TmsCycle(tms: bool): seq<uint8>
  {
    if tms then
      [0x1B, 0x00, 0x03, 0x97, 0x97, 0x97, 0x80, 0xB3, 0xEB, 0x97, 0x80, 0x82, 0xEB, 0x2A, 0x00, 0x80, 0xA2, 0xEB]
    else
      [0x1B, 0x00, 0x01, 0x97, 0x97, 0x97, 0x80, 0xB1, 0xEB, 0x97, 0x80, 0x80, 0xEB, 0x2A, 0x00, 0x80, 0xA0, 0xEB]
  }

  /** The OSCAN1 blocks of the transition loops are send_JTAG's blocks with TDI low. */
  lemma Oscan1TmsCycleIsJtagCycle(tms: bool)
    ensures Oscan1TmsCycle(tms) == JtagCycle(tms, false)
  {
  }

  function CycleSize(f: Framing): nat
  {
    if f == Oscan1Cycle then 18 else 3
  }

  function CycleBytes(f: Framing, tms: bool): (block: seq<uint8>)
    ensures |block| == CycleSize(f)
  {
    match f
    case NormalCapture => [0x6F, 0x00, if tms then 0x01 else 0x00]
    case NormalDiscard => [0x4B, 0x00, if tms then 0x01 else 0x00]
    case Oscan1Cycle => Oscan1TmsCycle(tms)
  }

  /** The cycle blocks of a run of TMS levels, one after the other. */
  function Body(f: Framing, bits: seq<bool>): (block: seq<uint8>)
    ensures |block| == if f == Oscan1Cycle then 18 * |bits| else 3 * |bits|
  {
    if bits == [] then []
    else Body(f, bits[..|bits| - 1]) + CycleBytes(f, bits[|bits| - 1])
  }

  /** In OSCAN1 the body of a transition string is send_JTAG's block for each TMS level, TDI low. */
  lemma {:induction false} Oscan1BodyIsJtagCycles(bits: seq<bool>)
    ensures Body(Oscan1Cycle, bits) == JtagCycles(bits)
  {
    if bits != [] {
      Oscan1BodyIsJtagCycles(bits[..|bits| - 1]);
    }
  }

  function JtagCycles(bits: seq<bool>): seq<uint8>
  {
    if bits == [] then [] else JtagCycles(bits[..|bits| - 1]) + JtagCycle(bits[|bits| - 1], false)
  }

  /** The bytes after the cycles: 0x87 (send immediate), preceded by 0x81 (read pins) when no result is wanted. */
  function Trailer(f: Framing): seq<uint8>
  {
    if f == NormalDiscard then [0x81, 0x87] else [0x87]
  }

  /** The block `transitions` writes for a TMS string. */
  function TransitionsBlock(tms: string, format: ScanFormat, wantResult: bool): seq<uint8>
  {
    var f := FramingOf(format, wantResult);
    Body(f, TmsBits(tms)) + Trailer(f)
  }

  /** Bytes `transitions` reads back: one pin sample without result, else one per cycle. */
  function TransitionsReadCount(tms: string, format: ScanFormat, wantResult: bool): nat
  {
    if FramingOf(format, wantResult) == NormalDiscard then 1 else |TmsBits(tms)|
  }

  /**
   * A transitions block is 3 bytes per cycle plus 0x87 (result wanted) or
   * 0x81 0x87 (no result) in normal format, and 18 bytes per cycle plus 0x87 in OSCAN1.
   */
  lemma TransitionsBlockLength(tms: string, format: ScanFormat, wantResult: bool)
    ensures |TransitionsBlock(tms, format, wantResult)| ==
      if format == Oscan1 then 18 * |TmsBits(tms)| + 1
      else if wantResult then 3 * |TmsBits(tms)| + 1
      else 3 * |TmsBits(tms)| + 2
    ensures TransitionsBlock(tms, format, wantResult)[|TransitionsBlock(tms, format, wantResult)| - 1] == 0x87
  {
  }

  /** Whether a transitions block of `cycles` cycles fits the scratch buffer and its byte counter. */
  predicate TransitionsFit(cycles: nat, format: ScanFormat, wantResult: bool)
  {
    (if format == Oscan1 then 18 * cycles + 1 else 3 * cycles + 2) <= MaxBlockLength
  }

  /**
   * Every normal-format block of a ZBS or NZBS with count at most 10 fits the
   * buffer (at most 3 * 41 + 2 bytes); in OSCAN1 at most 14 cycles fit, so an
   * NZBS(10) (15 cycles, 271 bytes) would overflow it.
   */
  lemma ScanSequencesFit(n: nat, format: ScanFormat, wantResult: bool)
    requires n <= 10
    ensures format == Normal ==> TransitionsFit(4 * n + 1, format, wantResult) && TransitionsFit(n + 5, format, wantResult)
    ensures TransitionsFit(n + 5, Oscan1, wantResult) <==> n <= 9
    ensures TransitionsFit(4 * n + 1, Oscan1, wantResult) <==> n <= 3
  {
  }

  // ------------------------------------------------------------- fixed packets

  /** Pin initialisation: set low and high GPIO value/direction, read the pins, send immediate. */
  const PinInitSequence: seq<uint8> := [0x80, 0xE8, 0xEB, 0x82, 0x00, 0x60, 0x81, 0x87]

  /** The escape sequence that puts the 1149.7 router into its cJTAG-aware mode. */
  const EscapeSequence: seq<uint8> :=
    [0x80, 0xE8, 0xFB, 0x80, 0xE8, 0xFA, 0x80, 0xF9, 0xFA, 0x8E, 0x00,
     0x4B, 0x05, 0x6A, 0x4B, 0x01, 0x06, 0x8E, 0x00,
     0x80, 0xE8, 0xFA, 0x80, 0xE8, 0xFB, 0x80, 0xE8, 0xEB]

  /** The GPIO sequence that switches the adapter's pins to the given scan format. */
  function FormatSwitchSequence(target: ScanFormat): seq<uint8>
  {
    match target
    case Normal =>
      [0x80, 0xA0, 0xEB, 0x82, 0x60, 0x60, 0x80, 0xA0, 0xEB, 0x82, 0x00, 0x60, 0x80, 0xE0, 0xEB, 0x82, 0x00, 0x60]
    case Oscan1 =>
      [0x80, 0xE0, 0xEB, 0x82, 0x00, 0x60, 0x80, 0xA0, 0xEB, 0x82, 0x60, 0x60, 0x80, 0xA0, 0xEB, 0x82, 0x60, 0x60]
  }

  /** Both switch sequences are 18 bytes and they differ from each other. */
  lemma FormatSwitchSequences()
    ensures |FormatSwitchSequence(Normal)| == 18 && |FormatSwitchSequence(Oscan1)| == 18
    ensures FormatSwitchSequence(Normal) != FormatSwitchSequence(Oscan1)
    ensures |PinInitSequence| == 8 && |EscapeSequence| == 28
  {
    assert FormatSwitchSequence(Normal)[1] != FormatSwitchSequence(Oscan1)[1];
  }

  /** The check packet: 0x4B (normal) or 0x1B (OSCAN1), then 0x03, 0x00. */
  function CheckPacketBytes(format: ScanFormat): (packet: seq<uint8>)
    ensures |packet| == 3 && packet[1] == 0x03 && packet[2] == 0x00
    ensures packet[0] == 0x4B <==> format == Normal
    ensures format == Oscan1 ==> packet[0] == 0x1B
  {
    [if format == Normal then 0x4B else 0x1B, 0x03, 0x00]
  }

  // ------------------------------------------------------------ TAP navigation

  /**
   * cjtag_move_to_state's table: the TMS string for the ten (start, goal)
   * pairs the scan executor needs; no string for any other pair.
   */
  function MoveString(start: TapState, goal: TapState): Option<string>
  {
    match start
    case Idle =>
      if goal == DrShift then Some("100") else if goal == IrShift then Some("1100") else None
    case DrPause =>
      if goal == DrShift then Some("10") else if goal == IrShift then Some("111100") else None
    case IrPause =>
      if goal == DrShift then Some("11100") else if goal == IrShift then Some("10") else None
    case IrExit1 =>
      if goal == IrPause then Some("0") else if goal == Idle then Some("10") else None
    case DrExit1 =>
      if goal == DrPause then Some("0") else if goal == Idle then Some("10") else None
    case _ => None
  }

  /** Cycles a move clocks: the length of its string, or none when the pair is not tabled. */
  function MoveCycles(start: TapState, goal: TapState): nat
  {
    match MoveString(start, goal)
    case None => 0
    case Some(tms) => |TmsBits(tms)|
  }

  /** Every tabled string really takes the TAP from its start state to its goal state, without a reset or a Shift-DR cycle. */
  lemma MoveTableSound(start: TapState, goal: TapState)
    requires MoveString(start, goal).Some?
    ensures Run(start, TmsBits(MoveString(start, goal).value)) == goal
    ensures !Passes(start, TmsBits(MoveString(start, goal).value), Reset)
    ensures DrShiftCycles(start, TmsBits(MoveString(start, goal).value)) == 0
  {
    match start
    case Idle => MovesFromIdle(goal);
    case DrPause => MovesFromDrPause(goal);
    case IrPause => MovesFromIrPause(goal);
    case IrExit1 => MovesFromExit1(IrExit1, goal);
    case DrExit1 => MovesFromExit1(DrExit1, goal);
  }

  /** Two legs that each reach their goal without Test-Logic-Reset or a Shift-DR cycle make a move that does too. */
  lemma TwoLegs(s: TapState, a: seq<bool>, mid: TapState, b: seq<bool>, goal: TapState)
    requires Run(s, a) == mid && !Passes(s, a, Reset) && DrShiftCycles(s, a) == 0
    requires Run(mid, b) == goal && !Passes(mid, b, Reset) && DrShiftCycles(mid, b) == 0
    ensures Run(s, a + b) == goal && !Passes(s, a + b, Reset) && DrShiftCycles(s, a + b) == 0
  {
    RunAppend(s, a, b);
    PassesAppend(s, a, b, Reset);
    DrShiftCyclesAppend(s, a, b);
  }

  lemma MovesFromIdle(goal: TapState)
    requires goal == DrShift || goal == IrShift
    ensures Run(Idle, TmsBits(MoveString(Idle, goal).value)) == goal
    ensures !Passes(Idle, TmsBits(MoveString(Idle, goal).value), Reset)
    ensures DrShiftCycles(Idle, TmsBits(MoveString(Idle, goal).value)) == 0
  {
    if goal == DrShift {
      TmsBitsPlain("100");
      assert Levels("100") == [true] + [false, false];
      TwoLegs(Idle, [true], DrSelect, [false, false], DrShift);
    } else {
      TmsBitsPlain("1100");
      assert Levels("1100") == [true, true] + [false, false];
      TwoLegs(Idle, [true, true], IrSelect, [false, false], IrShift);
    }
  }

  lemma MovesFromDrPause(goal: TapState)
    requires goal == DrShift || goal == IrShift
    ensures Run(DrPause, TmsBits(MoveString(DrPause, goal).value)) == goal
    ensures !Passes(DrPause, TmsBits(MoveString(DrPause, goal).value), Reset)
    ensures DrShiftCycles(DrPause, TmsBits(MoveString(DrPause, goal).value)) == 0
  {
    if goal == DrShift {
      TmsBitsPlain("10");
      assert Levels("10") == [true] + [false];
      TwoLegs(DrPause, [true], DrExit2, [false], DrShift);
    } else {
      TmsBitsPlain("111100");
      assert Levels("111100") == [true, true, true] + [true, false, false];
      TwoLegs(DrPause, [true, true, true], DrSelect, [true, false, false], IrShift);
    }
  }

  lemma MovesFromIrPause(goal: TapState)
    requires goal == DrShift || goal == IrShift
    ensures Run(IrPause, TmsBits(MoveString(IrPause, goal).value)) == goal
    ensures !Passes(IrPause, TmsBits(MoveString(IrPause, goal).value), Reset)
    ensures DrShiftCycles(IrPause, TmsBits(MoveString(IrPause, goal).value)) == 0
  {
    if goal == DrShift {
      TmsBitsPlain("11100");
      assert Levels("11100") == [true, true] + [true, false, false];
      TwoLegs(IrPause, [true, true], IrUpdate, [true, false, false], DrShift);
    } else {
      TmsBitsPlain("10");
      assert Levels("10") == [true] + [false];
      TwoLegs(IrPause, [true], IrExit2, [false], IrShift);
    }
  }

  lemma MovesFromExit1(start: TapState, goal: TapState)
    requires start == DrExit1 || start == IrExit1
    requires MoveString(start, goal).Some?
    ensures Run(start, TmsBits(MoveString(start, goal).value)) == goal
    ensures !Passes(start, TmsBits(MoveString(start, goal).value), Reset)
    ensures DrShiftCycles(start, TmsBits(MoveString(start, goal).value)) == 0
  {
    if goal == Idle {
      TmsBitsPlain("10");
      assert Levels("10") == [true] + [false];
      var update := if start == DrExit1 then DrUpdate else IrUpdate;
      TwoLegs(start, [true], update, [false], Idle);
    } else {
      TmsBitsPlain("0");
      assert Levels("0") == [false];
    }
  }

  /** The TMS levels cjtag_move_to_state clocks: the tabled string's, or none for an untabled pair. */
  function MoveLevels(start: TapState, goal: TapState): (bits: seq<bool>)
    ensures |bits| == MoveCycles(start, goal)
  {
    match MoveString(start, goal)
    case None => []
    case Some(tms) => TmsBits(tms)
  }

  /**
   * Whether a move keeps the recorded TAP state true to the controller: the
   * pair is tabled, or the controller is already at the goal.
   */
  predicate MoveTracked(start: TapState, goal: TapState)
  {
    start == goal || MoveString(start, goal).Some?
  }

  /** A tracked move out of any state but Test-Logic-Reset reaches its goal, never resets and shifts no DR bit. */
  lemma MoveLeg(start: TapState, goal: TapState)
    requires MoveTracked(start, goal) && start != Reset
    ensures Run(start, MoveLevels(start, goal)) == goal
    ensures !Passes(start, MoveLevels(start, goal), Reset)
    ensures DrShiftCycles(start, MoveLevels(start, goal)) == 0
  {
    if MoveString(start, goal).Some? {
      MoveTableSound(start, goal);
    }
  }

  /** A move into a shift state takes at most 6 cycles, a move out of an Exit1 state at most 2. */
  lemma MoveCyclesBounds(start: TapState, goal: TapState)
    ensures MoveCycles(start, goal) <= MaxPreamble
    ensures (start == DrExit1 || start == IrExit1) ==> MoveCycles(start, goal) <= MaxPostamble
  {
    var move := MoveString(start, goal);
    assert move.Some? ==> |move.value| <= MaxPreamble;
    assert move.Some? && (start == DrExit1 || start == IrExit1) ==> |move.value| <= MaxPostamble;
  }

  /** The bounds are reached: Pause-DR to Shift-IR takes all 6 preamble cycles, Exit1-DR to Run-Test/Idle both postamble cycles. */
  lemma MoveCyclesTight()
    ensures MoveCycles(DrPause, IrShift) == MaxPreamble && MoveCycles(DrExit1, Idle) == MaxPostamble
  {
    TmsBitsPlain("111100");
    TmsBitsPlain("10");
  }

  // ---------------------------------------------------------------- decoding

  /** The adapter samples TDO into bit 7 of each response byte. */
  predicate CapturedBit(response: uint8)
  {
    response >= 0x80
  }
}
