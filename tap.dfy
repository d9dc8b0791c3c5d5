/**
 * The JTAG Test Access Port controller: the sixteen states and the
 * next-state function of the TAP controller state diagram of IEEE Std
 * 1149.1.  The cJTAG driver never computes this machine; it writes TMS
 * strings by hand.  The machine is the independent reference against
 * which those strings (the bit-scan idioms, the forced-idle string and the
 * table of TAP moves) are checked.
 */
module Tap {

  datatype TapState =
    | Reset | Idle
    | DrSelect | DrCapture | DrShift | DrExit1 | DrPause | DrExit2 | DrUpdate
    | IrSelect | IrCapture | IrShift | IrExit1 | IrPause | IrExit2 | IrUpdate

  /** The state the controller enters on one TCK rising edge with the given TMS level. */
  function Next(s: TapState, tms: bool): TapState
  {
    match s
    case Reset => if tms then Reset else Idle
    case Idle => if tms then DrSelect else Idle
    case DrSelect => if tms then IrSelect else DrCapture
    case DrCapture => if tms then DrExit1 else DrShift
    case DrShift => if tms then DrExit1 else DrShift
    case DrExit1 => if tms then DrUpdate else DrPause
    case DrPause => if tms then DrExit2 else DrPause
    case DrExit2 => if tms then DrUpdate else DrShift
    case DrUpdate => if tms then DrSelect else Idle
    case IrSelect => if tms then Reset else IrCapture
    case IrCapture => if tms then IrExit1 else IrShift
    case IrShift => if tms then IrExit1 else IrShift
    case IrExit1 => if tms then IrUpdate else IrPause
    case IrPause => if tms then IrExit2 else IrPause
    case IrExit2 => if tms then IrUpdate else IrShift
    case IrUpdate => if tms then DrSelect else Idle
  }

  /** The state reached after clocking the TMS levels `tms` in order. */
  function Run(s: TapState, tms: seq<bool>): TapState
    decreases tms
  {
    if tms == [] then s else Run(Next(s, tms[0]), tms[1..])
  }

  /** Whether the controller is in state `t` at some point while clocking `tms` from `s`. */
  predicate Passes(s: TapState, tms: seq<bool>, t: TapState)
    decreases tms
  {
    s == t || (tms != [] && Passes(Next(s, tms[0]), tms[1..], t))
  }

  /** The number of clock cycles spent in Shift-DR, i.e. the number of bits a DR scan shifts. */
  function DrShiftCycles(s: TapState, tms: seq<bool>): nat
    decreases tms
  {
    if tms == [] then 0
    else (if s == DrShift then 1 else 0) + DrShiftCycles(Next(s, tms[0]), tms[1..])
  }

  lemma {:induction false} RunAppend(s: TapState, a: seq<bool>, b: seq<bool>)
    ensures Run(s, a + b) == Run(Run(s, a), b)
    decreases a
  {
    if a != [] {
      assert (a + b)[1..] == a[1..] + b;
      RunAppend(Next(s, a[0]), a[1..], b);
    } else {
      assert a + b == b;
    }
  }

  lemma {:induction false} PassesAppend(s: TapState, a: seq<bool>, b: seq<bool>, t: TapState)
    ensures Passes(s, a + b, t) <==> Passes(s, a, t) || Passes(Run(s, a), b, t)
    decreases a
  {
    if a != [] {
      assert (a + b)[1..] == a[1..] + b;
      PassesAppend(Next(s, a[0]), a[1..], b, t);
    } else {
      assert a + b == b;
    }
  }

  lemma {:induction false} DrShiftCyclesAppend(s: TapState, a: seq<bool>, b: seq<bool>)
    ensures DrShiftCycles(s, a + b) == DrShiftCycles(s, a) + DrShiftCycles(Run(s, a), b)
    decreases a
  {
    if a != [] {
      assert (a + b)[1..] == a[1..] + b;
      DrShiftCyclesAppend(Next(s, a[0]), a[1..], b);
    } else {
      assert a + b == b;
    }
  }

  /** Five cycles with TMS high reach Test-Logic-Reset from every state. */
  lemma FiveOnesReset(s: TapState)
    ensures Run(s, [true, true, true, true, true]) == Reset
  {
  }
}
