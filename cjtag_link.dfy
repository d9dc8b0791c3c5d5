/**
 * The cJTAG driver state and its operations: the module globals of the
 * driver (scan format, want-result flag, cycle counter, receive buffer)
 * become the fields of a `Link`, the TAP state the JTAG layer keeps
 * through tap_get_state/tap_set_state is a field too, and the adapter is a
 * ghost log of the transactions the driver issues.
 *
 * Each operation is proved against a traffic function below: the exact
 * sequence of adapter transactions it performs, as a function of the
 * state it starts in.  What those transactions do to a TAP controller is
 * proved in CJtagEncoding.
 */
module CJtagLink {
  import opened Tap
  import opened CJtagEncoding

  // ------------------------------------------------------------ traffic

  /** transitions(tms): one block write, then the read of the response. */
  function TransitionsOps(tms: string, format: ScanFormat, wantResult: bool): seq<AdapterOp>
  {
    [Write(TransitionsBlock(tms, format, wantResult)), Read(TransitionsReadCount(tms, format, wantResult))]
  }

  /** set_format(to) when the current format is `from`: nothing, or one 18-byte switch sequence. */
  function SetFormatOps(from: ScanFormat, to: ScanFormat): seq<AdapterOp>
  {
    if from == to then [] else [Write(FormatSwitchSequence(to))]
  }

  /** enter_control_mode(level): ZBS(level), NZBS(1), then three cycles in Run-Test/Idle. */
  function ControlModeOps(level: nat, format: ScanFormat, wantResult: bool): seq<AdapterOp>
  {
    TransitionsOps(ZbsString(level), format, wantResult)
      + TransitionsOps(NzbsString(1), format, wantResult)
      + TransitionsOps(LockString, format, wantResult)
  }

  /** check_packet: a dummy scan packet in OSCAN1 only, then the 3-byte check packet. */
  function CheckPacketOps(format: ScanFormat, wantResult: bool): seq<AdapterOp>
  {
    (if format == Oscan1 then TransitionsOps(DummyString, format, wantResult) else [])
      + [Write(CheckPacketBytes(format))]
  }

  /** send_2part_command: NZBS(opcode), NZBS(operand), and a check packet when already in OSCAN1. */
  function TwoPartCommandOps(opcode: nat, operand: nat, format: ScanFormat, wantResult: bool): seq<AdapterOp>
  {
    TransitionsOps(NzbsString(opcode), format, wantResult)
      + TransitionsOps(NzbsString(operand), format, wantResult)
      + (if format == Oscan1 then CheckPacketOps(format, wantResult) else [])
  }

  /** enter_oscan1: the STFMT(OSCAN1) command and a check packet, and only then the format switch. */
  function EnterOscan1Ops(format: ScanFormat, wantResult: bool): seq<AdapterOp>
  {
    TwoPartCommandOps(StFmt, Oscan1Param, format, wantResult)
      + CheckPacketOps(format, wantResult)
      + SetFormatOps(format, Oscan1)
  }

  /**
   * set_JTAG_to_idle: the forced-idle string; in OSCAN1 it then switches to
   * the normal format, goes to idle again and re-enters two-wire mode.
   */
  function IdleOps(format: ScanFormat, wantResult: bool): seq<AdapterOp>
    decreases if format == Oscan1 then 2 else 0
  {
    TransitionsOps(IdleString, format, wantResult)
      + (if format == Oscan1 then
           SetFormatOps(Oscan1, Normal) + IdleOps(Normal, wantResult) + Enter2WireOps(Normal, wantResult)
         else [])
  }

  /** enter_2wire_mode, run with want-result off throughout. */
  function Enter2WireOps(format: ScanFormat, wantResult: bool): seq<AdapterOp>
    decreases if format == Oscan1 then 3 else 1
  {
    IdleOps(format, false)
      + ControlModeOps(2, format, false)
      + EnterOscan1Ops(format, false)
      + TwoPartCommandOps(StMc, ExitCmdLevel, Oscan1, false)
  }

  /** enter_2wire_mode_and_test, run with want-result off throughout. */
  function Enter2WireAndTestOps(format: ScanFormat): seq<AdapterOp>
  {
    IdleOps(format, false)
      + ControlModeOps(2, format, false)
      + EnterOscan1Ops(format, false)
      + TransitionsOps(ReconnectString, Oscan1, false)
  }

  /** cjtag_initialise: pin set-up and its one-byte read, the escape sequence, idle, two-wire entry. */
  function InitialiseOps(): seq<AdapterOp>
  {
    [Write(PinInitSequence), Read(1), Write(EscapeSequence)]
      + IdleOps(Normal, true)
      + Enter2WireAndTestOps(Normal)
  }

  /** cjtag_move_to_state: the tabled string as OSCAN1 cycles, or nothing for an untabled pair. */
  function MoveOps(start: TapState, goal: TapState): seq<AdapterOp>
  {
    match MoveString(start, goal)
    case None => []
    case Some(tms) => [Write(Body(Oscan1Cycle, TmsBits(tms)))]
  }

  // -------------------------------------------------------------- scans

  /** The part of a JTAG scan command the executor uses (the first field only). */
  datatype ScanCommand = ScanCommand(
    irScan: bool,
    numFields: nat,
    numBits: nat,
    outValue: Option<seq<bool>>,
    endState: TapState)

  /** The scan executor's two guards: exactly one field, and room for the bits plus the longest moves. */
  predicate ScanAccepted(cmd: ScanCommand)
  {
    cmd.numFields == 1 && cmd.numBits + MaxPreamble + MaxPostamble <= MaxSupportedScanLength
  }

  function ShiftState(cmd: ScanCommand): TapState
  {
    if cmd.irScan then IrShift else DrShift
  }

  function Exit1State(cmd: ScanCommand): TapState
  {
    if cmd.irScan then IrExit1 else DrExit1
  }

  /** Cycles clocked before the first payload bit: none when already in the shift state. */
  function Preamble(cmd: ScanCommand, start: TapState): nat
  {
    if start == ShiftState(cmd) then 0 else MoveCycles(start, ShiftState(cmd))
  }

  function Postamble(cmd: ScanCommand): nat
  {
    MoveCycles(Exit1State(cmd), cmd.endState)
  }

  /** Payload cycles: one per bit, and still one when the field has no bits. */
  function PayloadCycles(cmd: ScanCommand): nat
  {
    if cmd.numBits == 0 then 1 else cmd.numBits
  }

  /** The TDI level of payload cycle i: the out bit, or low when there is no out buffer. */
  function OutBit(outValue: Option<seq<bool>>, i: nat): bool
  {
    match outValue
    case None => false
    case Some(bits) => if i < |bits| then bits[i] else false
  }

  function PayloadOps(cmd: ScanCommand): seq<AdapterOp>
  {
    var n := PayloadCycles(cmd);
    seq(n, i requires 0 <= i < n => Write(JtagCycle(i == n - 1, OutBit(cmd.outValue, i))))
  }

  /** Bytes the scan reads back: one per cycle clocked, moves included; never more than the bits plus the longest moves. */
  function ScanReadCount(cmd: ScanCommand, start: TapState): (n: nat)
    ensures cmd.numBits <= n <= cmd.numBits + MaxPreamble + MaxPostamble
  {
    MoveCyclesBounds(start, ShiftState(cmd));
    MoveCyclesBounds(Exit1State(cmd), cmd.endState);
    cmd.numBits + Preamble(cmd, start) + Postamble(cmd)
  }

  /** The move into the shift state, or nothing when already there. */
  function MoveInOps(cmd: ScanCommand, start: TapState): seq<AdapterOp>
  {
    if start == ShiftState(cmd) then [] else MoveOps(start, ShiftState(cmd))
  }

  /** An accepted scan: move in, the payload cycles, move out, then one read of every captured byte. */
  function ScanOps(cmd: ScanCommand, start: TapState): seq<AdapterOp>
  {
    MoveInOps(cmd, start)
      + PayloadOps(cmd)
      + MoveOps(Exit1State(cmd), cmd.endState)
      + [Read(ScanReadCount(cmd, start))]
  }

  // ------------------------------------------------ what a scan does to the TAP

  /** The TMS level of each payload cycle: low, except high on the last. */
  function PayloadLevels(cmd: ScanCommand): (bits: seq<bool>)
    ensures |bits| == PayloadCycles(cmd)
  {
    var n := PayloadCycles(cmd);
    seq(n, i requires 0 <= i < n => i == n - 1)
  }

  /** Every TMS level an accepted scan clocks, in order: the move in, the payload, the move out. */
  function ScanLevels(cmd: ScanCommand, start: TapState): seq<bool>
  {
    (if start == ShiftState(cmd) then [] else MoveLevels(start, ShiftState(cmd)))
      + PayloadLevels(cmd)
      + MoveLevels(Exit1State(cmd), cmd.endState)
  }

  /** The payload holds the controller in its shift state and leaves through Exit1; only a DR scan shifts DR bits. */
  lemma PayloadLeg(cmd: ScanCommand)
    ensures Run(ShiftState(cmd), PayloadLevels(cmd)) == Exit1State(cmd)
    ensures !Passes(ShiftState(cmd), PayloadLevels(cmd), Reset)
    ensures DrShiftCycles(ShiftState(cmd), PayloadLevels(cmd)) == if cmd.irScan then 0 else PayloadCycles(cmd)
  {
    var s, n := ShiftState(cmd), PayloadCycles(cmd);
    var hold := seq(n - 1, _ => false);
    assert PayloadLevels(cmd) == hold + [true];
    ShiftHold(s, n - 1);
    RunAppend(s, hold, [true]);
    PassesAppend(s, hold, [true], Reset);
    DrShiftCyclesAppend(s, hold, [true]);
  }

  lemma ThreeLegs(s: TapState, a: seq<bool>, b: seq<bool>, c: seq<bool>)
    ensures Run(s, a + b + c) == Run(Run(Run(s, a), b), c)
    ensures Passes(s, a + b + c, Reset) <==>
      Passes(s, a, Reset) || Passes(Run(s, a), b, Reset) || Passes(Run(Run(s, a), b), c, Reset)
    ensures DrShiftCycles(s, a + b + c) ==
      DrShiftCycles(s, a) + DrShiftCycles(Run(s, a), b) + DrShiftCycles(Run(Run(s, a), b), c)
  {
    RunAppend(s, a + b, c);
    RunAppend(s, a, b);
    PassesAppend(s, a + b, c, Reset);
    PassesAppend(s, a, b, Reset);
    DrShiftCyclesAppend(s, a + b, c);
    DrShiftCyclesAppend(s, a, b);
  }

  /**
   * When both moves are tracked, the levels a scan clocks are exactly the
   * cycles it counts, and they take the controller from where the driver
   * believes it is to the end state the driver records, without a reset; a
   * DR scan spends one Shift-DR cycle per payload cycle.
   */
  lemma ScanReachesEndState(cmd: ScanCommand, start: TapState)
    requires MoveTracked(start, ShiftState(cmd)) && MoveTracked(Exit1State(cmd), cmd.endState)
    ensures |ScanLevels(cmd, start)| == Preamble(cmd, start) + PayloadCycles(cmd) + Postamble(cmd)
    ensures Run(start, ScanLevels(cmd, start)) == cmd.endState
    ensures !Passes(start, ScanLevels(cmd, start), Reset)
    ensures !cmd.irScan ==> DrShiftCycles(start, ScanLevels(cmd, start)) == PayloadCycles(cmd)
  {
    var shift, exit1 := ShiftState(cmd), Exit1State(cmd);
    var pre := if start == shift then [] else MoveLevels(start, shift);
    if start != shift {
      MoveLeg(start, shift);
    }
    PayloadLeg(cmd);
    MoveLeg(exit1, cmd.endState);
    ThreeLegs(start, pre, PayloadLevels(cmd), MoveLevels(exit1, cmd.endState));
  }

  /**
   * From an untabled start the driver loses track: a DR scan of three bits
   * begun in Test-Logic-Reset clocks no move, so its payload walks the
   * controller out of Test-Logic-Reset instead of shifting, and the scan
   * ends in Capture-IR while the driver records Run-Test/Idle.
   */
  lemma UntabledStartLosesTrack()
    ensures var cmd := ScanCommand(false, 1, 3, None, Idle);
      ScanAccepted(cmd) && !MoveTracked(Reset, ShiftState(cmd))
      && Run(Reset, ScanLevels(cmd, Reset)) == IrCapture
      && DrShiftCycles(Reset, ScanLevels(cmd, Reset)) == 0
  {
    var cmd := ScanCommand(false, 1, 3, None, Idle);
    assert PayloadLevels(cmd) == [false, false, true];
    TmsBitsPlain("10");
    assert MoveLevels(DrExit1, Idle) == [true, false];
    assert ScanLevels(cmd, Reset) == [false, false, true, true, false];
    WalkOutOfReset();
  }

  /** The levels of that scan, clocked from Test-Logic-Reset, end in Capture-IR without a Shift-DR cycle. */
  lemma WalkOutOfReset()
    ensures Run(Reset, [false, false, true, true, false]) == IrCapture
    ensures DrShiftCycles(Reset, [false, false, true, true, false]) == 0
  {
    var levels := [false, false, true, true, false];
    assert levels[1..] == [false, true, true, false] && levels[2..] == [true, true, false];
    assert levels[3..] == [true, false] && levels[4..] == [false];
    assert Run(IrSelect, levels[4..]) == IrCapture && DrShiftCycles(IrSelect, levels[4..]) == 0;
    assert Run(DrSelect, levels[3..]) == IrCapture && DrShiftCycles(DrSelect, levels[3..]) == 0;
    assert Run(Idle, levels[2..]) == IrCapture && DrShiftCycles(Idle, levels[2..]) == 0;
    assert Run(Idle, levels[1..]) == IrCapture && DrShiftCycles(Idle, levels[1..]) == 0;
  }

  // ------------------------------------------------------- buffer filling

  /** Stores `bytes` at `count` and on, the `pucBuffer[ucCount++] = ...` idiom. */
  method Put(buffer: array<uint8>, count: nat, bytes: seq<uint8>) returns (next: nat)
    requires count + |bytes| <= buffer.Length
    modifies buffer
    ensures next == count + |bytes|
    ensures buffer[..next] == old(buffer[..count]) + bytes
    ensures buffer[count..next] == bytes
  {
    next := count;
    while next < count + |bytes|
      invariant count <= next <= count + |bytes|
      invariant buffer[..next] == old(buffer[..count]) + bytes[..next - count]
    {
      buffer[next] := bytes[next - count];
      next := next + 1;
    }
  }

  // ------------------------------------------------------------- the link

  class Link {
    var format: ScanFormat
    var wantResult: bool
    /** ulTxCount: cycles clocked since the last reset of the counter. */
    var txCount: nat
    /** The TAP state as the JTAG layer records it. */
    var tapState: TapState
    var endState: TapState
    /** pucRxBuffer */
    const rx: array<uint8>
    /** Every transaction with the adapter, oldest first. */
    ghost var traffic: seq<AdapterOp>

    ghost predicate Valid()
      reads this
    {
      rx.Length == MaxSupportedScanLength
    }

    /** The static initialisers: normal format, result wanted, counter zero, no traffic yet. */
    constructor (initialTap: TapState)
      ensures Valid() && fresh(rx)
      ensures format == Normal && wantResult && txCount == 0
      ensures tapState == initialTap && endState == initialTap && traffic == []
    {
      format := Normal;
      wantResult := true;
      txCount := 0;
      tapState := initialTap;
      endState := initialTap;
      rx := new uint8[MaxSupportedScanLength];
      traffic := [];
    }

    method InNormalScanMode() returns (normal: bool)
      ensures normal <==> format == Normal
    {
      normal := format == Normal;
    }

    /** want_result: sets the flag and hands back the previous setting. */
    method WantResult(wr: bool) returns (previous: bool)
      modifies this
      ensures previous == old(wantResult) && wantResult == wr
      ensures format == old(format) && txCount == old(txCount) && traffic == old(traffic)
      ensures tapState == old(tapState) && endState == old(endState)
    {
      previous := wantResult;
      wantResult := wr;
    }

    /** set_format: a no-op for the current format, else the switch sequence and the new format. */
    method SetFormat(target: ScanFormat)
      modifies this
      ensures format == target
      ensures traffic == old(traffic) + SetFormatOps(old(format), target)
      ensures wantResult == old(wantResult) && txCount == old(txCount)
      ensures tapState == old(tapState) && endState == old(endState)
    {
      if target == format {
        return;
      }
      var buffer := new uint8[0x100];
      var count := Put(buffer, 0, FormatSwitchSequence(target));
      assert buffer[..count] == FormatSwitchSequence(target);
      traffic := traffic + [Write(buffer[..count])];
      format := target;
    }

    /** The transition loops' state after `p` characters: the cycles counted and their blocks stored. */
    static ghost predicate Filled(buffer: array<uint8>, tms: string, f: Framing, p: nat, count: nat, cycles: nat)
      reads buffer
    {
      p <= |tms| && cycles == |TmsBits(tms[..p])|
      && count <= buffer.Length && buffer[..count] == Body(f, TmsBits(tms[..p]))
    }

    /**
     * The loop shared by both transition functions: one cycle block per
     * non-separator character; `cycles` is what the loop adds to ulTxCount.
     */
    static method FillCycles(buffer: array<uint8>, tms: string, f: Framing) returns (count: nat, cycles: nat)
      requires |Body(f, TmsBits(tms))| <= buffer.Length
      modifies buffer
      ensures cycles == |TmsBits(tms)|
      ensures count <= buffer.Length && buffer[..count] == Body(f, TmsBits(tms))
    {
      count, cycles := 0, 0;
      var p := 0;
      while p < |tms|
        invariant p <= |tms| && Filled(buffer, tms, f, p, count, cycles)
      {
        count, cycles := FillStep(buffer, tms, f, p, count, cycles);
        p := p + 1;
      }
      assert tms[..|tms|] == tms;
    }

    /** One pass of the transition loops: the next character's cycle, unless it is a separator. */
    static method FillStep(buffer: array<uint8>, tms: string, f: Framing, p: nat, count: nat, cycles: nat)
      returns (count': nat, cycles': nat)
      requires p < |tms| && |Body(f, TmsBits(tms))| <= buffer.Length
      requires Filled(buffer, tms, f, p, count, cycles)
      modifies buffer
      ensures Filled(buffer, tms, f, p + 1, count', cycles')
    {
      FillStepFacts(tms, p, f);
      count', cycles' := count, cycles;
      if !IsSeparator(tms[p]) {
        cycles' := cycles + 1;
        count' := Put(buffer, count, CycleBytes(f, tms[p] == '1'));
      }
    }

    /**
     * transitions: clocks the TMS string in the current framing, after
     * resetting the cycle counter, and reads back the response.
     */
    method Transitions(tms: string)
      requires TransitionsFit(|TmsBits(tms)|, format, wantResult)
      modifies this
      ensures txCount == |TmsBits(tms)|
      ensures traffic == old(traffic) + TransitionsOps(tms, old(format), old(wantResult))
      ensures format == old(format) && wantResult == old(wantResult)
      ensures tapState == old(tapState) && endState == old(endState)
    {
      var buffer := new uint8[0x100];
      txCount := 0;
      var f := FramingOf(format, wantResult);
      var count, cycles := FillCycles(buffer, tms, f);
      txCount := txCount + cycles;
      count := Put(buffer, count, Trailer(f));
      traffic := traffic + [Write(buffer[..count])];
      traffic := traffic + [Read(if f == NormalDiscard then 1 else txCount)];
    }

    /** cjtag_transitions: always OSCAN1 cycles, the counter accumulates, and nothing is read. */
    method CjtagTransitions(tms: string)
      requires 18 * |TmsBits(tms)| <= MaxBlockLength
      modifies this
      ensures txCount == old(txCount) + |TmsBits(tms)|
      ensures traffic == old(traffic) + [Write(Body(Oscan1Cycle, TmsBits(tms)))]
      ensures format == old(format) && wantResult == old(wantResult)
      ensures tapState == old(tapState) && endState == old(endState)
    {
      var buffer := new uint8[0x100];
      var count, cycles := FillCycles(buffer, tms, Oscan1Cycle);
      txCount := txCount + cycles;
      traffic := traffic + [Write(buffer[..count])];
    }

    /** ZBS: builds "10" "11_" `repeat` times and a final "0", then clocks it. */
    method ZeroBitScan(repeat: nat)
      requires repeat <= 10 && (format == Normal || repeat <= 3)
      modifies this
      ensures txCount == 4 * repeat + 1
      ensures traffic == old(traffic) + TransitionsOps(ZbsString(repeat), old(format), old(wantResult))
      ensures format == old(format) && wantResult == old(wantResult)
      ensures tapState == old(tapState) && endState == old(endState)
    {
      var buf := "";
      var i := 0;
      while i < repeat
        invariant i <= repeat && buf == ZbsLoop(i)
      {
        buf := buf + "10";
        buf := buf + "11_";
        i := i + 1;
      }
      buf := buf + "0";
      ZbsBits(repeat);
      ScanSequencesFit(repeat, format, wantResult);
      Transitions(buf);
    }

    /** NZBS: "10_", `amount` zeros, "_110", then clocks it. */
    method NonZeroBitScan(amount: nat)
      requires amount <= 10 && (format == Normal || amount <= 9)
      modifies this
      ensures txCount == amount + 5
      ensures traffic == old(traffic) + TransitionsOps(NzbsString(amount), old(format), old(wantResult))
      ensures format == old(format) && wantResult == old(wantResult)
      ensures tapState == old(tapState) && endState == old(endState)
    {
      var buf := "10_";
      var i := 0;
      while i < amount
        invariant i <= amount && buf == "10_" + Zeros(i)
      {
        assert Zeros(i + 1) == Zeros(i) + "0";
        buf := buf + "0";
        i := i + 1;
      }
      buf := buf + "_110";
      NzbsBits(amount);
      ScanSequencesFit(amount, format, wantResult);
      Transitions(buf);
    }

    method EnterControlMode(level: nat)
      requires level <= 10 && (format == Normal || level <= 3)
      modifies this
      ensures txCount == 3
      ensures traffic == old(traffic) + ControlModeOps(level, old(format), old(wantResult))
      ensures format == old(format) && wantResult == old(wantResult)
      ensures tapState == old(tapState) && endState == old(endState)
    {
      ghost var f, wr, t0 := format, wantResult, traffic;
      ZeroBitScan(level);
      ghost var t1 := traffic;
      NonZeroBitScan(1);
      ghost var t2 := traffic;
      FixedStringBits();
      Transitions(LockString);
      Concat(t0, TransitionsOps(ZbsString(level), f, wr), TransitionsOps(NzbsString(1), f, wr),
        TransitionsOps(LockString, f, wr), []);
    }

    /** send_JTAG: one OSCAN1 cycle carrying the given TMS and TDI. */
    method SendJtag(tms: bool, tdi: bool)
      modifies this
      ensures traffic == old(traffic) + [Write(JtagCycle(tms, tdi))]
      ensures format == old(format) && wantResult == old(wantResult) && txCount == old(txCount)
      ensures tapState == old(tapState) && endState == old(endState)
    {
      var buffer := new uint8[0x100];
      var count := Put(buffer, 0, JtagCycle(tms, tdi));
      assert buffer[..count] == JtagCycle(tms, tdi);
      traffic := traffic + [Write(buffer[..count])];
    }

    /** dummy_scan_packet: one Run-Test/Idle cycle. */
    method DummyScanPacket()
      modifies this
      ensures txCount == 1
      ensures traffic == old(traffic) + TransitionsOps(DummyString, old(format), old(wantResult))
      ensures format == old(format) && wantResult == old(wantResult)
      ensures tapState == old(tapState) && endState == old(endState)
    {
      FixedStringBits();
      Transitions(DummyString);
    }

    method SendCheckPacket()
      modifies this
      ensures traffic == old(traffic) + [Write(CheckPacketBytes(old(format)))]
      ensures format == old(format) && wantResult == old(wantResult) && txCount == old(txCount)
      ensures tapState == old(tapState) && endState == old(endState)
    {
      var buffer := new uint8[0x100];
      var count := Put(buffer, 0, CheckPacketBytes(format));
      assert buffer[..count] == CheckPacketBytes(format);
      traffic := traffic + [Write(buffer[..count])];
    }

    method CheckPacket()
      modifies this
      ensures traffic == old(traffic) + CheckPacketOps(old(format), old(wantResult))
      ensures txCount == if old(format) == Oscan1 then 1 else old(txCount)
      ensures format == old(format) && wantResult == old(wantResult)
      ensures tapState == old(tapState) && endState == old(endState)
    {
      var normal := InNormalScanMode();
      if !normal {
        DummyScanPacket();
      }
      SendCheckPacket();
    }

    method Send2PartCommand(opcode: nat, operand: nat)
      requires opcode <= 10 && operand <= 10
      requires format == Normal || (opcode <= 9 && operand <= 9)
      modifies this
      ensures traffic == old(traffic) + TwoPartCommandOps(opcode, operand, old(format), old(wantResult))
      ensures txCount == if old(format) == Oscan1 then 1 else operand + 5
      ensures format == old(format) && wantResult == old(wantResult)
      ensures tapState == old(tapState) && endState == old(endState)
    {
      ghost var f, wr, t0 := format, wantResult, traffic;
      NonZeroBitScan(opcode);
      ghost var t1 := traffic;
      NonZeroBitScan(operand);
      ghost var t2 := traffic;
      if format == Oscan1 {
        CheckPacket();
      }
      Concat(t0, TransitionsOps(NzbsString(opcode), f, wr), TransitionsOps(NzbsString(operand), f, wr),
        if f == Oscan1 then CheckPacketOps(f, wr) else [], []);
    }

    /** enter_oscan1: STFMT(OSCAN1), a check packet, and only then the switch to OSCAN1. */
    method EnterOscan1()
      modifies this
      ensures format == Oscan1
      ensures traffic == old(traffic) + EnterOscan1Ops(old(format), old(wantResult))
      ensures txCount == if old(format) == Oscan1 then 1 else Oscan1Param + 5
      ensures wantResult == old(wantResult)
      ensures tapState == old(tapState) && endState == old(endState)
    {
      ghost var f, wr, t0 := format, wantResult, traffic;
      Send2PartCommand(StFmt, Oscan1Param);
      ghost var a := traffic[|t0|..];
      CheckPacket();
      ghost var b := traffic[|t0 + a|..];
      SetFormat(Oscan1);
      ghost var c := traffic[|t0 + a + b|..];
      assert a == TwoPartCommandOps(StFmt, Oscan1Param, f, wr);
      assert b == CheckPacketOps(f, wr);
      assert c == SetFormatOps(f, Oscan1);
      Concat(t0, a, b, c, []);
    }

    /**
     * set_JTAG_to_idle.  The ghost `depth` counts the nested calls: at most
     * one, because the nested call runs in the normal format.
     */
    method SetJtagToIdle() returns (ghost depth: nat)
      modifies this
      decreases if format == Oscan1 then 2 else 0
      ensures traffic == old(traffic) + IdleOps(old(format), old(wantResult))
      ensures format == old(format) && wantResult == old(wantResult)
      ensures txCount == if old(format) == Normal then 7 else 1
      ensures depth <= 1 && (old(format) == Normal ==> depth == 0)
      ensures tapState == old(tapState) && endState == old(endState)
    {
      ghost var f, wr, t0 := format, wantResult, traffic;
      FixedStringBits();
      Transitions(IdleString);
      depth := 0;
      var normal := InNormalScanMode();
      if !normal {
        ghost var t1 := traffic;
        SetFormat(Normal);
        var inner := SetJtagToIdle();
        Enter2WireMode();
        depth := inner + 1;
        IdleTraffic(t0, t1, traffic, f, wr);
      } else {
        IdleOpsUnfold(f, wr);
      }
    }

    /** enter_2wire_mode: ends in OSCAN1 with the want-result flag as it found it. */
    method Enter2WireMode()
      modifies this
      decreases if format == Oscan1 then 3 else 1
      ensures traffic == old(traffic) + Enter2WireOps(old(format), old(wantResult))
      ensures format == Oscan1 && wantResult == old(wantResult) && txCount == 1
      ensures tapState == old(tapState) && endState == old(endState)
    {
      ghost var f, t0 := format, traffic;
      var wr := WantResult(false);
      var _ := SetJtagToIdle();
      ghost var a := traffic[|t0|..];
      EnterControlMode(2);
      ghost var b := traffic[|t0 + a|..];
      EnterOscan1();
      ghost var c := traffic[|t0 + a + b|..];
      Send2PartCommand(StMc, ExitCmdLevel);
      ghost var d := traffic[|t0 + a + b + c|..];
      var _ := WantResult(wr);
      assert a == IdleOps(f, false);
      assert b == ControlModeOps(2, f, false);
      assert c == EnterOscan1Ops(f, false);
      assert d == TwoPartCommandOps(StMc, ExitCmdLevel, Oscan1, false);
      Concat(t0, a, b, c, d);
    }

    /** enter_2wire_mode_and_test: ends in OSCAN1, restores the flag and always reports success. */
    method Enter2WireModeAndTest() returns (status: int)
      modifies this
      ensures status == 1
      ensures traffic == old(traffic) + Enter2WireAndTestOps(old(format))
      ensures format == Oscan1 && wantResult == old(wantResult) && txCount == 7
      ensures tapState == old(tapState) && endState == old(endState)
    {
      ghost var f, t0 := format, traffic;
      var wr := WantResult(false);
      var _ := SetJtagToIdle();
      ghost var a := traffic[|t0|..];
      EnterControlMode(2);
      ghost var b := traffic[|t0 + a|..];
      EnterOscan1();
      ghost var c := traffic[|t0 + a + b|..];
      FixedStringBits();
      Transitions(ReconnectString);
      ghost var d := traffic[|t0 + a + b + c|..];
      var _ := WantResult(wr);
      assert a == IdleOps(f, false);
      assert b == ControlModeOps(2, f, false);
      assert c == EnterOscan1Ops(f, false);
      assert d == TransitionsOps(ReconnectString, Oscan1, false);
      Concat(t0, a, b, c, d);
      status := 1;
    }

    /** cjtag_initialise: whatever state it finds, ends in OSCAN1 with the result flag set. */
    method Initialise()
      modifies this
      ensures traffic == old(traffic) + InitialiseOps()
      ensures format == Oscan1 && wantResult && txCount == 7
      ensures tapState == old(tapState) && endState == old(endState)
    {
      ResetGlobals();
      ghost var t0 := traffic;
      SendPinsAndEscape();
      ghost var t1, f, wr := traffic, format, wantResult;
      var _ := SetJtagToIdle();
      var _ := Enter2WireModeAndTest();
      InitialiseTraffic(t0, t1, traffic, f, wr);
    }

    /** The head of cjtag_initialise: normal format, result wanted, counter cleared. */
    method ResetGlobals()
      modifies this
      ensures format.Normal? && wantResult && txCount == 0
      ensures traffic == old(traffic) && tapState == old(tapState) && endState == old(endState)
    {
      format := Normal;
      wantResult := true;
      txCount := 0;
    }

    /** The head of cjtag_initialise: the pin set-up with its one-byte read, then the escape sequence. */
    method SendPinsAndEscape()
      modifies this
      ensures traffic == old(traffic) + [Write(PinInitSequence), Read(1), Write(EscapeSequence)]
      ensures format == old(format) && wantResult == old(wantResult) && txCount == old(txCount)
      ensures tapState == old(tapState) && endState == old(endState)
    {
      var buffer := new uint8[0x100];
      var count := Put(buffer, 0, PinInitSequence);
      assert buffer[..count] == PinInitSequence;
      traffic := traffic + [Write(buffer[..count]), Read(1)];
      count := Put(buffer, 0, EscapeSequence);
      assert buffer[..count] == EscapeSequence;
      traffic := traffic + [Write(buffer[..count])];
    }

    /** cjtag_move_to_state: clocks the tabled string, if any, and records the goal state regardless. */
    method MoveToState(goal: TapState)
      modifies this
      ensures tapState == goal
      ensures txCount == old(txCount) + MoveCycles(old(tapState), goal)
      ensures traffic == old(traffic) + MoveOps(old(tapState), goal)
      ensures format == old(format) && wantResult == old(wantResult) && endState == old(endState)
    {
      var move := MoveString(tapState, goal);
      if move.Some? {
        MoveCyclesBounds(tapState, goal);
        CjtagTransitions(move.value);
      }
      tapState := goal;
    }

    /**
     * cjtag_execute_scan.  `response` is what the adapter answers to the
     * final read; the read keeps as many of its bytes as it asks for.
     * `accepted` reports whether the scan passed the guards (the source only
     * logs the rejection).
     */
    method ExecuteScan(cmd: ScanCommand, inBuffer: array?<bool>, response: seq<uint8>) returns (accepted: bool)
      requires Valid() && |response| == MaxSupportedScanLength
      requires ScanAccepted(cmd) && cmd.outValue.Some? ==> |cmd.outValue.value| >= PayloadCycles(cmd)
      requires ScanAccepted(cmd) && inBuffer != null ==> inBuffer.Length >= cmd.numBits
      modifies this, rx, inBuffer
      ensures accepted <==> ScanAccepted(cmd)
      ensures !accepted ==> traffic == old(traffic) && tapState == old(tapState) && txCount == old(txCount)
      ensures !accepted ==> endState == old(endState) && unchanged(rx) && (inBuffer != null ==> unchanged(inBuffer))
      ensures accepted ==> traffic == old(traffic) + ScanOps(cmd, old(tapState))
      ensures accepted ==> tapState == cmd.endState && endState == cmd.endState
      ensures accepted ==> txCount == Preamble(cmd, old(tapState)) + Postamble(cmd)
      ensures accepted ==> rx[..ScanReadCount(cmd, old(tapState))] == response[..ScanReadCount(cmd, old(tapState))]
      ensures accepted ==> rx[ScanReadCount(cmd, old(tapState))..] == old(rx[ScanReadCount(cmd, tapState)..])
      ensures accepted && inBuffer != null ==>
        forall i :: 0 <= i < cmd.numBits ==> inBuffer[i] == CapturedBit(response[i + Preamble(cmd, old(tapState))])
      ensures accepted && inBuffer != null ==> inBuffer[cmd.numBits..] == old(inBuffer[cmd.numBits..])
      ensures format == old(format) && wantResult == old(wantResult)
    {
      if cmd.numFields != 1 {
        return false;
      }
      if cmd.numBits + MaxPreamble + MaxPostamble > MaxSupportedScanLength {
        return false;
      }
      accepted := true;
      Scan(cmd, inBuffer, response);
    }

    /** The accepted path of cjtag_execute_scan. */
    method Scan(cmd: ScanCommand, inBuffer: array?<bool>, response: seq<uint8>)
      requires Valid() && |response| == MaxSupportedScanLength && ScanAccepted(cmd)
      requires cmd.outValue.Some? ==> |cmd.outValue.value| >= PayloadCycles(cmd)
      requires inBuffer != null ==> inBuffer.Length >= cmd.numBits
      modifies this, rx, inBuffer
      ensures traffic == old(traffic) + ScanOps(cmd, old(tapState))
      ensures tapState == cmd.endState && endState == cmd.endState
      ensures txCount == Preamble(cmd, old(tapState)) + Postamble(cmd)
      ensures rx[..ScanReadCount(cmd, old(tapState))] == response[..ScanReadCount(cmd, old(tapState))]
      ensures rx[ScanReadCount(cmd, old(tapState))..] == old(rx[ScanReadCount(cmd, tapState)..])
      ensures inBuffer != null ==>
        forall i :: 0 <= i < cmd.numBits ==> inBuffer[i] == CapturedBit(response[i + Preamble(cmd, old(tapState))])
      ensures inBuffer != null ==> inBuffer[cmd.numBits..] == old(inBuffer[cmd.numBits..])
      ensures format == old(format) && wantResult == old(wantResult)
    {
      ghost var start, t0 := tapState, traffic;
      var preamble := MoveIn(cmd);
      ghost var t1 := traffic;
      PayloadAndMoveOut(cmd);
      ghost var t2 := traffic;
      var count := cmd.numBits + txCount;
      assert count == ScanReadCount(cmd, start);
      ReadResponse(count, response);
      if inBuffer != null {
        DecodeCaptured(inBuffer, cmd.numBits, preamble, count, response);
      }
      ScanTraffic(cmd, start, t0, t1, t2, traffic);
    }

    /** The head of cjtag_execute_scan: clear the counter and move to the shift state unless already there. */
    method MoveIn(cmd: ScanCommand) returns (preamble: nat)
      modifies this
      ensures preamble == txCount == Preamble(cmd, old(tapState))
      ensures tapState == ShiftState(cmd)
      ensures traffic == old(traffic) + MoveInOps(cmd, old(tapState))
      ensures format == old(format) && wantResult == old(wantResult) && endState == old(endState)
    {
      txCount := 0;
      var shift := if cmd.irScan then IrShift else DrShift;
      if tapState != shift {
        MoveToState(shift);
      }
      preamble := txCount;
    }

    /** The middle of cjtag_execute_scan: record the end state, clock the payload, leave through Exit1. */
    method PayloadAndMoveOut(cmd: ScanCommand)
      requires cmd.outValue.Some? ==> |cmd.outValue.value| >= PayloadCycles(cmd)
      modifies this
      ensures traffic == old(traffic) + (PayloadOps(cmd) + MoveOps(Exit1State(cmd), cmd.endState))
      ensures txCount == old(txCount) + Postamble(cmd)
      ensures tapState == cmd.endState && endState == cmd.endState
      ensures format == old(format) && wantResult == old(wantResult)
    {
      endState := cmd.endState;
      SendPayload(cmd);
      tapState := if cmd.irScan then IrExit1 else DrExit1;
      MoveToState(cmd.endState);
    }

    /**
     * The payload loop of cjtag_execute_scan: TMS low for every bit but the
     * last, TMS high for the last; TDI carries the out bit, or stays low
     * without an out buffer.
     */
    method SendPayload(cmd: ScanCommand)
      requires cmd.outValue.Some? ==> |cmd.outValue.value| >= PayloadCycles(cmd)
      modifies this
      ensures traffic == old(traffic) + PayloadOps(cmd)
      ensures format == old(format) && wantResult == old(wantResult) && txCount == old(txCount)
      ensures tapState == old(tapState) && endState == old(endState)
    {
      ghost var t0 := traffic;
      var tdi := false;
      var i := 0;
      while i + 1 < cmd.numBits
        invariant 0 <= i < PayloadCycles(cmd)
        invariant traffic == t0 + PayloadOps(cmd)[..i]
        invariant cmd.outValue.None? ==> !tdi
        invariant format == old(format) && wantResult == old(wantResult) && txCount == old(txCount)
        invariant tapState == old(tapState) && endState == old(endState)
      {
        if cmd.outValue.Some? {
          tdi := cmd.outValue.value[i];
        }
        assert PayloadOps(cmd)[..i + 1] == PayloadOps(cmd)[..i] + [Write(JtagCycle(false, tdi))];
        SendJtag(false, tdi);
        i := i + 1;
      }
      if cmd.outValue.Some? {
        tdi := cmd.outValue.value[i];
      }
      assert PayloadOps(cmd) == PayloadOps(cmd)[..i] + [Write(JtagCycle(true, tdi))];
      SendJtag(true, tdi);
    }

    /** The scan's single read: `count` bytes of the adapter's answer land at the start of pucRxBuffer. */
    method ReadResponse(count: nat, response: seq<uint8>)
      requires Valid() && count <= |response| && count <= rx.Length
      modifies this, rx
      ensures rx[..count] == response[..count] && rx[count..] == old(rx[count..])
      ensures traffic == old(traffic) + [Read(count)]
      ensures format == old(format) && wantResult == old(wantResult) && txCount == old(txCount)
      ensures tapState == old(tapState) && endState == old(endState)
    {
      var k := 0;
      while k < count
        invariant k <= count && rx[..k] == response[..k] && rx[count..] == old(rx[count..])
        invariant traffic == old(traffic) && format == old(format) && wantResult == old(wantResult)
        invariant txCount == old(txCount) && tapState == old(tapState) && endState == old(endState)
      {
        rx[k] := response[k];
        k := k + 1;
      }
      traffic := traffic + [Read(count)];
    }

    /** The decode loop: bit i of the in buffer is bit 7 of the byte captured i cycles after the preamble. */
    method DecodeCaptured(inBuffer: array<bool>, numBits: nat, preamble: nat, count: nat, ghost response: seq<uint8>)
      requires Valid() && numBits + preamble <= count <= rx.Length && count <= |response|
      requires inBuffer.Length >= numBits
      requires rx[..count] == response[..count]
      modifies inBuffer
      ensures forall i :: 0 <= i < numBits ==> inBuffer[i] == CapturedBit(response[i + preamble])
      ensures inBuffer[numBits..] == old(inBuffer[numBits..])
    {
      var j := 0;
      while j < numBits
        invariant j <= numBits
        invariant forall m :: 0 <= m < j ==> inBuffer[m] == CapturedBit(response[m + preamble])
        invariant inBuffer[numBits..] == old(inBuffer[numBits..])
      {
        assert rx[j + preamble] == rx[..count][j + preamble];
        inBuffer[j] := CapturedBit(rx[j + preamble]);
        j := j + 1;
      }
    }
  }

  // ------------------------------------------------------------- lemmas

  /** The traffic of initialisation, split at the points where it calls out. */
  lemma InitialiseOpsSplit(f: ScanFormat, wr: bool)
    requires f == Normal && wr
    ensures InitialiseOps() ==
      [Write(PinInitSequence), Read(1), Write(EscapeSequence)] + IdleOps(f, wr) + Enter2WireAndTestOps(f)
  {
  }

  lemma InitialiseTraffic(t0: seq<AdapterOp>, t1: seq<AdapterOp>, t: seq<AdapterOp>, f: ScanFormat, wr: bool)
    requires f.Normal? && wr
    requires t1 == t0 + [Write(PinInitSequence), Read(1), Write(EscapeSequence)]
    requires t == t1 + IdleOps(f, wr) + Enter2WireAndTestOps(f)
    ensures t == t0 + InitialiseOps()
  {
    Concat(t0, [Write(PinInitSequence), Read(1), Write(EscapeSequence)], IdleOps(f, wr), Enter2WireAndTestOps(f), []);
    InitialiseOpsSplit(f, wr);
  }

  lemma IdleOpsUnfold(f: ScanFormat, wr: bool)
    ensures f == Oscan1 ==> (IdleOps(f, wr) ==
      TransitionsOps(IdleString, f, wr) + (SetFormatOps(f, Normal) + IdleOps(Normal, wr) + Enter2WireOps(Normal, wr)))
    ensures f == Normal ==> IdleOps(f, wr) == TransitionsOps(IdleString, f, wr)
  {
  }

  lemma IdleTraffic(t0: seq<AdapterOp>, t1: seq<AdapterOp>, t: seq<AdapterOp>, f: ScanFormat, wr: bool)
    requires f.Oscan1?
    requires t1 == t0 + TransitionsOps(IdleString, f, wr)
    requires t == t1 + SetFormatOps(f, Normal) + IdleOps(Normal, wr) + Enter2WireOps(Normal, wr)
    ensures t == t0 + IdleOps(f, wr)
  {
    IdleOpsUnfold(f, wr);
    var rest := SetFormatOps(f, Normal) + IdleOps(Normal, wr) + Enter2WireOps(Normal, wr);
    Concat(t1, SetFormatOps(f, Normal), IdleOps(Normal, wr), Enter2WireOps(Normal, wr), []);
    Concat(t0, TransitionsOps(IdleString, f, wr), rest, [], []);
  }

  /** What one more character of a transition string adds: nothing for a separator, else one cycle block. */
  lemma FillStepFacts(tms: string, p: nat, f: Framing)
    requires p < |tms|
    ensures IsSeparator(tms[p]) ==> TmsBits(tms[..p + 1]) == TmsBits(tms[..p])
    ensures !IsSeparator(tms[p]) ==> |TmsBits(tms[..p + 1])| == |TmsBits(tms[..p])| + 1
    ensures !IsSeparator(tms[p]) ==>
      Body(f, TmsBits(tms[..p + 1])) == Body(f, TmsBits(tms[..p])) + CycleBytes(f, tms[p] == '1')
    ensures |Body(f, TmsBits(tms[..p + 1]))| <= |Body(f, TmsBits(tms))|
  {
    var before, after := TmsBits(tms[..p]), TmsBits(tms[..p + 1]);
    TmsBitsStep(tms, p);
    TmsBitsPrefix(tms, p + 1);
    BodyLengthMonotone(f, after, TmsBits(tms));
    if !IsSeparator(tms[p]) {
      assert after == before + [tms[p] == '1'];
      BodyStep(f, before, tms[p] == '1');
    }
  }

  lemma BodyLengthMonotone(f: Framing, shorter: seq<bool>, longer: seq<bool>)
    requires |shorter| <= |longer|
    ensures |Body(f, shorter)| <= |Body(f, longer)|
  {
  }

  /** One more character of a transition string adds its level, unless it is a separator. */
  lemma TmsBitsStep(tms: string, p: nat)
    requires p < |tms|
    ensures TmsBits(tms[..p + 1]) == TmsBits(tms[..p]) + (if IsSeparator(tms[p]) then [] else [tms[p] == '1'])
  {
    assert tms[..p + 1][..p] == tms[..p];
  }

  lemma BodyStep(f: Framing, bits: seq<bool>, level: bool)
    ensures Body(f, bits + [level]) == Body(f, bits) + CycleBytes(f, level)
  {
    assert (bits + [level])[..|bits|] == bits;
  }

  /** The move in, the payload with the move out, and the read compose to the scan's traffic. */
  lemma ScanTraffic(cmd: ScanCommand, start: TapState, t0: seq<AdapterOp>, t1: seq<AdapterOp>, t2: seq<AdapterOp>, t: seq<AdapterOp>)
    requires t1 == t0 + MoveInOps(cmd, start)
    requires t2 == t1 + (PayloadOps(cmd) + MoveOps(Exit1State(cmd), cmd.endState))
    requires t == t2 + [Read(ScanReadCount(cmd, start))]
    ensures t == t0 + ScanOps(cmd, start)
  {
    var a, b, c, d := MoveInOps(cmd, start), PayloadOps(cmd), MoveOps(Exit1State(cmd), cmd.endState), [Read(ScanReadCount(cmd, start))];
    Concat(t0 + a, b, c, d, []);
    Concat(t0, a, b, c, d);
  }

  /** Appending pieces one after another appends their concatenation; the traffic proofs cite this instead of unfolding the pieces. */
  lemma Concat<T>(t: seq<T>, a: seq<T>, b: seq<T>, c: seq<T>, d: seq<T>)
    ensures t + a + b == t + (a + b)
    ensures t + a + b + c == t + (a + b + c)
    ensures t + a + b + c + d == t + (a + b + c + d)
  {
  }

  lemma {:induction false} TmsBitsPrefix(tms: string, p: nat)
    requires p <= |tms|
    ensures |TmsBits(tms[..p])| <= |TmsBits(tms)|
  {
    assert tms[..p] + tms[p..] == tms;
    TmsBitsAppend(tms[..p], tms[p..]);
  }

  /** The fixed strings clock 7, 3, 1 and 7 cycles. */
  lemma FixedStringBits()
    ensures |TmsBits(IdleString)| == 7 && |TmsBits(LockString)| == 3
    ensures |TmsBits(DummyString)| == 1 && |TmsBits(ReconnectString)| == 7
  {
    TmsBitsPlain(IdleString);
    TmsBitsPlain(LockString);
    TmsBitsPlain(DummyString);
    TmsBitsPlain(ReconnectString);
  }
}
