/** The instruction-count clock of cpus.c and cpu-exec.c: instructions are budgeted per slice, counted
    down in a 16-bit counter that is refilled, and accounted to a global count from which virtual time
    is derived. */
module Icount {
  import opened Arithmetic

  const MAX_ICOUNT_SHIFT: nat := 10
  const ICOUNT_WOBBLE: int := 100_000_000
  const LOW_MAX: nat := 0xffff
  const INT32_MAX: nat := 0x7fff_ffff

  /** qemu_icount_round: the least number of instructions that take at least `count` nanoseconds. */
  function Round(count: int, shift: nat): (r: int)
    ensures r * Pow2(shift) >= count > (r - 1) * Pow2(shift)
  {
    var p := Pow2(shift);
    var r := (count + p - 1) / p;
    assert count + p - 1 == r * p + (count + p - 1) % p;
    assert (r - 1) * p == r * p - p;
    r
  }

  /** tcg_get_icount_limit; a negative deadline means that no timer is set. */
  function Limit(deadline: int, shift: nat): (r: nat)
    ensures 0 <= deadline <= INT32_MAX ==> r * Pow2(shift) >= deadline > (r - 1) * Pow2(shift)
  {
    var d := if deadline < 0 || deadline > INT32_MAX then INT32_MAX else deadline;
    var r := Round(d, shift);
    NotNegative(r, Pow2(shift), d);
    r
  }

  lemma {:induction false} NotNegative(r: int, p: nat, d: nat)
    requires p > 0 && r * p >= d
    ensures r >= 0
  {
    Negative(r, p);
  }

  lemma {:induction false} Negative(r: int, p: nat)
    requires p > 0
    ensures r < 0 ==> r * p < 0
  {
  }

  lemma {:induction false} Overrun(was: int, now: int, limit: int, deadline: int, p: nat)
    requires now <= was + limit && (limit - 1) * p < deadline
    ensures now * p < was * p + deadline + p
  {
    Scaled(now, was + limit, p);
    assert (was + limit) * p == was * p + (limit - 1) * p + p;
  }

  function Min(a: int, b: int): int {
    if a < b then a else b
  }

  /** What may happen at any time, in a slice or between slices: the clock is read, by the thread of the
      running CPU or by another one; the speed is adjusted; a warp ends after some more real time. */
  datatype Look =
    | Read(self: bool)
    | Adjusts(curTime: int, self: bool)
    | Warp(elapsed: nat, vmRunning: bool)

  /** One turn of the execution loop: a block of `insns` instructions, whether something asks the CPU
      to stop before it, and how many instructions an uncached block runs after the last refill; or
      something else in between. */
  datatype Turn =
    | Exec(insns: nat, stop: bool, uncached: nat)
    | Meanwhile(look: Look)

  /** What the main loop does. */
  datatype Op =
    | RunTo(deadline: int, script: seq<Turn>)
    | StartWarp(elapsed: nat, deadline: int, sleep: bool)
    | Other(look: Look)

  /** icount_decr and icount_extra. */
  datatype Counter = Counter(low: nat, extra: int, high: bool)

  /** The counter after cpu_loop_exec_tb: a stop request is taken back; a block that fits is counted down;
      otherwise what is left is split anew, and if it fits the 16 bits some of it runs uncached. */
  function Executed(c: Counter, insns: nat, uncached: nat): Counter
    requires c.extra >= 0
  {
    if c.high then c.(high := false)
    else if insns <= c.low then c.(low := c.low - insns)
    else
      var left := c.low + c.extra;
      if left <= LOW_MAX then Counter(left - Min(uncached, left), 0, false)
      else Counter(LOW_MAX, left - LOW_MAX, false)
  }

  function After(c: Counter, turn: Turn): Counter
    requires c.extra >= 0
  {
    match turn
    case Exec(insns, stop, uncached) => Executed(c.(high := c.high || stop), insns, uncached)
    case Meanwhile(_) => c
  }

  /** The counter after the first `n` turns of a script. */
  function Played(c: Counter, script: seq<Turn>, n: nat): (r: Counter)
    requires c.extra >= 0 && n <= |script|
    ensures r.extra >= 0 && r.low + r.extra <= c.low + c.extra
  {
    if n == 0 then c else After(Played(c, script, n - 1), script[n - 1])
  }

  predicate Steady(script: seq<Turn>) {
    forall i :: 0 <= i < |script| && script[i].Meanwhile? ==> !script[i].look.Warp?
  }

  /** No warp ends, in a slice or between slices. */
  predicate NoWarps(ops: seq<Op>) {
    forall i :: 0 <= i < |ops| ==>
      (ops[i].RunTo? ==> Steady(ops[i].script)) && (ops[i].Other? ==> !ops[i].look.Warp?)
  }

  /** The readings rise from a first value to a last one. */
  predicate Rising(first: int, readings: seq<int>, last: int) {
    && first <= last
    && (forall i :: 0 <= i < |readings| ==> first <= readings[i] <= last)
    && (forall i, j :: 0 <= i < j < |readings| ==> readings[i] <= readings[j])
  }

  lemma {:induction false} RisingJoins(first: int, before: seq<int>, mid: int, after: seq<int>, last: int)
    requires Rising(first, before, mid) && Rising(mid, after, last)
    ensures Rising(first, before + after, last)
  {
  }

  class IcountState {
    // CPUState
    var budget: int
    var low: nat         // icount_decr.u16.low
    var high: bool       // icount_decr.u16.high is not zero: the CPU is asked to stop
    var extra: int
    var running: bool
    // TimersState
    var icount: int      // qemu_icount
    var bias: int        // qemu_icount_bias
    var shift: nat       // icount_time_shift
    var warpStart: int   // vm_clock_warp_start
    var lastDelta: int   // of icount_adjust
    const adaptive: bool // use_icount is 2
    var seen: int        // the host's clock when it was last looked at
    ghost var retired: int   // all instructions executed so far
    ghost var log: seq<int>  // all readings of the clock so far

    /** Conservation: what is accounted and what is budgeted but no longer left adds up to what has been
        executed. */
    ghost predicate Valid()
      reads this
    {
      && low <= LOW_MAX && 0 <= extra && low + extra <= budget
      && icount + (budget - low - extra) == retired
      && (!running ==> budget == 0)
      && (adaptive ==> shift <= MAX_ICOUNT_SHIFT)
      && (warpStart == -1 || warpStart <= seen) && seen >= 0
    }

    ghost function Now(): Counter
      reads this
    {
      Counter(low, extra, high)
    }

    /** Virtual time as any thread reads it. */
    ghost function Shown(): int
      reads this
    {
      bias + icount * Pow2(shift)
    }

    constructor (adaptive: bool, shift: nat)
      requires adaptive ==> shift == 3
      ensures Valid() && retired == 0 && Shown() == 0 && !running && log == [] && !high && seen == 0
      ensures this.adaptive == adaptive && this.shift == shift && low == 0 && extra == 0
    {
      budget, low, high, extra, running := 0, 0, false, 0, false;
      icount, bias, this.shift, warpStart, lastDelta := 0, 0, shift, -1, 0;
      this.adaptive := adaptive;
      retired, seen, log := 0, 0, [];
    }

    /** cpu_update_icount: accounts for what has been executed. */
    method UpdateIcount()
      requires Valid()
      modifies this`budget, this`icount
      ensures Valid() && icount == retired && budget == low + extra
      ensures icount + budget == old(icount + budget) && icount >= old(icount) && Shown() >= old(Shown())
    {
      var executed := budget - (low + extra);
      budget := budget - executed;
      icount := icount + executed;
      Scaled(old(icount), icount, Pow2(shift));
    }

    /** cpu_get_icount_locked, by the thread of the running CPU or by another one. */
    method GetIcount(self: bool) returns (ns: int)
      requires Valid()
      modifies this`budget, this`icount, this`log
      ensures log == old(log) + [ns]
      ensures Valid() && ns == Shown() >= old(Shown()) && icount + budget == old(icount + budget) &&
              icount >= old(icount)
      ensures self || !running ==> icount == retired && ns == bias + retired * Pow2(shift)
      ensures !(self && running) ==> icount == old(icount) && budget == old(budget)
    {
      if self && running {
        UpdateIcount();
      }
      ns := bias + icount * Pow2(shift);
      log := log + [ns];
    }

    /** What has been read since `from` was the log and `first` the time rises up to now. */
    ghost predicate Rose(from: seq<int>, first: int)
      reads this
    {
      from <= log && Rising(first, log[|from|..], Shown())
    }

    // -------------------------------------------------------------------------------------------
    // A slice
    // -------------------------------------------------------------------------------------------

    /** prepare_icount_for_run.  Its assertions are the precondition. */
    method Prepare(limit: nat)
      requires Valid() && !running && low == 0 && extra == 0
      modifies this`budget, this`low, this`extra, this`running
      ensures Valid() && running && budget == low + extra == limit && icount == retired && low == Min(LOW_MAX, limit)
    {
      running := true;
      budget := limit;
      low := Min(LOW_MAX, budget);
      extra := budget - low;
    }

    /** What generated code does at the start of a block: count its instructions down, or leave if the
        counter would run out or the CPU is asked to stop. */
    method TbExec(insns: nat) returns (exit: bool)
      requires Valid() && running
      modifies this`low, this`retired
      ensures Valid() && exit == (high || old(low) < insns)
      ensures if exit then low == old(low) && retired == old(retired)
              else low == old(low) - insns && retired == old(retired) + insns
    {
      exit := high || low < insns;
      if !exit {
        low := low - insns;
        retired := retired + insns;
      }
    }

    /** cpu_loop_exec_tb: runs a block; when the counter has expired it is refilled from the budget, and
        what remains below 16 bits is executed without the cache, `uncached` being how much of it. */
    method LoopExecTb(insns: nat, uncached: nat)
      requires Valid() && running
      modifies this`budget, this`low, this`high, this`extra, this`icount, this`retired
      ensures Valid() && icount + budget == old(icount + budget)
      ensures icount >= old(icount) && Shown() >= old(Shown())
      ensures Now() == Executed(old(Now()), insns, uncached) &&
              low + extra == old(low + extra) - (retired - old(retired))
      ensures !old(high) && insns > old(low) ==> icount == old(retired) && budget == old(low + extra)
    {
      var exit := TbExec(insns);
      if !exit {
        return;
      }
      var stop := high;
      high := false;
      if stop {
        return;
      }
      UpdateIcount();
      var left := Min(LOW_MAX, budget);
      low := left;
      extra := budget - left;
      if extra == 0 && left > 0 {
        var n := Min(uncached, left);
        low := low - n;
        retired := retired + n;
      }
    }

    /** process_icount_data */
    method Process()
      requires Valid() && running
      modifies this`budget, this`low, this`extra, this`icount, this`running
      ensures Valid() && !running && icount == retired >= old(icount) && Shown() >= old(Shown())
      ensures icount == old(icount + budget) - old(low + extra) && low == 0 && extra == 0
    {
      UpdateIcount();
      low, extra, budget := 0, 0, 0;
      running := false;
    }

    // -------------------------------------------------------------------------------------------
    // Virtual time
    // -------------------------------------------------------------------------------------------

    /** icount_adjust, while the machine runs: changes the speed of virtual time but not its reading. */
    method Adjust(curTime: int, self: bool)
      requires Valid() && adaptive
      modifies this`budget, this`icount, this`bias, this`shift, this`lastDelta, this`log
      ensures log == old(log) + [Shown()]
      ensures Valid() && Shown() >= old(Shown()) && icount + budget == old(icount + budget) && icount >= old(icount)
      ensures icount == old(icount) ==> Shown() == old(Shown())
      ensures self && running ==> Shown() == old(bias) + retired * Pow2(old(shift))
      ensures shift <= MAX_ICOUNT_SHIFT && -1 <= shift - old(shift) <= 1
    {
      var curIcount := GetIcount(self);
      var delta := curIcount - curTime;
      if delta > 0 && lastDelta + ICOUNT_WOBBLE < delta * 2 && shift > 0 {
        shift := shift - 1;
      }
      if delta < 0 && lastDelta - ICOUNT_WOBBLE > delta * 2 && shift < MAX_ICOUNT_SHIFT {
        shift := shift + 1;
      }
      lastDelta := delta;
      bias := curIcount - icount * Pow2(shift);
    }

    /** icount_warp_rt.  In precise mode the clock never goes back; in adaptive mode it is not let run
        ahead of real time, which can take it back. */
    method WarpRt(clock: int, vmRunning: bool)
      requires Valid() && seen <= clock
      modifies this`bias, this`warpStart, this`budget, this`icount, this`seen, this`log
      ensures old(log) <= log && (!adaptive ==> log == old(log))
      ensures Valid() && seen == clock && icount == old(icount) && budget == old(budget)
      ensures !adaptive ==> Shown() >= old(Shown())
      ensures old(warpStart) == -1 || !vmRunning ==> Shown() == old(Shown())
      ensures old(warpStart) != -1 ==> warpStart == -1
      ensures old(warpStart) != -1 && vmRunning ==>
                Shown() == if adaptive then Min(old(Shown()) + (clock - old(warpStart)), clock)
                           else old(Shown()) + (clock - old(warpStart))
      ensures old(warpStart) != -1 && vmRunning && adaptive ==> (Shown() >= old(Shown()) <==> clock >= old(Shown()))
    {
      seen := clock;
      if warpStart == -1 {
        return;
      }
      if vmRunning {
        var warpDelta := clock - warpStart;
        if adaptive {
          var curIcount := GetIcount(false);
          warpDelta := Min(warpDelta, clock - curIcount);
        }
        bias := bias + warpDelta;
      }
      warpStart := -1;
    }

    /** The end of qemu_start_warp_timer, when all CPUs are idle: with no sleep the clock jumps to the
        next timer, otherwise the warp starts now. */
    method StartWarpTimer(clock: int, deadline: int, sleep: bool)
      requires Valid() && seen <= clock && clock >= 0
      modifies this`bias, this`warpStart, this`seen
      ensures Valid() && seen == clock && Shown() >= old(Shown())
      ensures Shown() == old(Shown()) + if deadline > 0 && !sleep then deadline else 0
      ensures deadline > 0 && sleep ==> warpStart != -1 && warpStart <= clock
    {
      seen := clock;
      if deadline <= 0 {
        return;
      }
      if !sleep {
        bias := bias + deadline;
      } else if warpStart == -1 || warpStart > clock {
        warpStart := clock;
      }
    }

    /** A read, an adjustment or the end of a warp.  Nothing of it loses an instruction, and only a warp in
        adaptive mode can take the clock back. */
    method Looks(look: Look)
      requires Valid()
      modifies this`budget, this`icount, this`bias, this`shift, this`lastDelta, this`warpStart, this`seen, this`log
      ensures Valid() && icount + budget == old(icount + budget) && icount >= old(icount)
      ensures !adaptive ==> shift == old(shift)
      ensures !adaptive || !look.Warp? ==> Rose(old(log), old(Shown()))
      ensures look.Read? ==> log == old(log) + [Shown()]
      ensures look.Read? && (look.self || !running) ==> Shown() == bias + retired * Pow2(shift)
    {
      match look {
        case Read(self) =>
          var ns := GetIcount(self);
        case Adjusts(curTime, self) =>
          if adaptive {
            Adjust(curTime, self);
          }
        case Warp(elapsed, vmRunning) =>
          WarpRt(seen + elapsed, vmRunning);
      }
    }

    /** A whole slice: set up, run until the budget is used up or the script ends, account.  It never
        executes more than its budget, takes the whole script unless the budget is used up, and every
        instruction is accounted for exactly once, whatever reads, adjustments and warps come between the
        blocks. */
    method Slice(limit: nat, script: seq<Turn>) returns (left: int, taken: nat)
      requires Valid() && !running && low == 0 && extra == 0
      modifies this
      ensures Valid() && !running && icount == retired && (!adaptive ==> shift == old(shift))
      ensures 0 <= left <= limit && icount - old(icount) == limit - left && low == 0 && extra == 0
      ensures taken <= |script| && (left > 0 ==> taken == |script|)
      ensures var c := Played(Counter(Min(LOW_MAX, limit), limit - Min(LOW_MAX, limit), old(high)), script,
              taken); left == c.low + c.extra
      ensures !adaptive || Steady(script) ==> Rose(old(log), old(Shown()))
    {
      Prepare(limit);
      ghost var c := Now();
      taken := 0;
      while taken < |script| && low + extra > 0
        invariant 0 <= taken <= |script| && Valid() && running && icount + budget == old(icount) + limit
        invariant icount >= old(icount) && (!adaptive ==> shift == old(shift)) && Now() == Played(c, script, taken)
        invariant !adaptive || Steady(script) ==> Rose(old(log), old(Shown()))
      {
        ghost var was, before := Shown(), log;
        Take(script[taken]);
        if !adaptive || Steady(script) {
          RoseJoins(old(log), old(Shown()), before, was, log, Shown());
        }
        taken := taken + 1;
      }
      left := low + extra;
      Process();
    }

    /** One turn of a slice. */
    method Take(turn: Turn)
      requires Valid() && running
      modifies this
      ensures Valid() && running && icount + budget == old(icount + budget) && icount >= old(icount)
      ensures !adaptive ==> shift == old(shift)
      ensures !adaptive || !(turn.Meanwhile? && turn.look.Warp?) ==> Rose(old(log), old(Shown()))
      ensures turn.Meanwhile? && turn.look.Read? ==> log == old(log) + [Shown()]
      ensures Now() == After(old(Now()), turn)
    {
      match turn {
        case Exec(insns, stop, uncached) =>
          if stop {
            high := true;
          }
          LoopExecTb(insns, uncached);
        case Meanwhile(look) =>
          Looks(look);
      }
    }

    /** A slice up to the next timer: its instructions pass the deadline by less than one of them. */
    method SliceTo(deadline: int, script: seq<Turn>)
      requires Valid() && !running && low == 0 && extra == 0
      modifies this
      ensures Valid() && !running && icount == retired && low == 0 && extra == 0 && (!adaptive ==> shift == old(shift))
      ensures 0 <= deadline <= INT32_MAX ==>
                icount * Pow2(old(shift)) < old(icount) * Pow2(old(shift)) + deadline + Pow2(old(shift))
      ensures !adaptive || Steady(script) ==> Rose(old(log), old(Shown()))
    {
      var limit := Limit(deadline, shift);
      ghost var p := Pow2(shift);
      var left, taken := Slice(limit, script);
      if 0 <= deadline <= INT32_MAX {
        Overrun(old(icount), icount, limit, deadline, p);
      }
    }

    /** Any sequence of slices, reads, adjustments and warps: every instruction stays accounted for, in
        precise mode no reading is below an earlier one, in adaptive mode none is unless a warp ends, and
        the shift stays in its range. */
    method Run(ops: seq<Op>)
      requires Valid() && !running && low == 0 && extra == 0
      modifies this
      ensures Valid() && !running && icount == retired
      ensures if adaptive then 0 <= shift <= MAX_ICOUNT_SHIFT else shift == old(shift)
      ensures !adaptive || NoWarps(ops) ==> Rose(old(log), old(Shown()))
    {
      for i := 0 to |ops|
        invariant Valid() && !running && low == 0 && extra == 0 && (!adaptive ==> shift == old(shift))
        invariant !adaptive || NoWarps(ops) ==> Rose(old(log), old(Shown()))
      {
        ghost var was, before := Shown(), log;
        Do(ops[i]);
        if !adaptive || NoWarps(ops) {
          RoseJoins(old(log), old(Shown()), before, was, log, Shown());
        }
      }
    }

    /** One step of the main loop. */
    method Do(op: Op)
      requires Valid() && !running && low == 0 && extra == 0
      modifies this
      ensures Valid() && !running && low == 0 && extra == 0 && icount == retired && (!adaptive ==> shift == old(shift))
      ensures !adaptive || ((op.RunTo? ==> Steady(op.script)) && (op.Other? ==> !op.look.Warp?)) ==>
                Rose(old(log), old(Shown()))
      ensures op.Other? && op.look.Read? ==> log == old(log) + [Shown()]
    {
      match op {
        case RunTo(deadline, script) => SliceTo(deadline, script);
        case StartWarp(elapsed, deadline, sleep) => StartWarpTimer(seen + elapsed, deadline, sleep);
        case Other(look) => Looks(look);
      }
    }
  }

  /** The clock goes back: a hundred instructions have taken virtual time ahead of real time, and a warp
      ends a nanosecond after it began. */
  method WarpGoesBack() returns (before: int, after: int)
    ensures after < before
  {
    var s := new IcountState(true, 3);
    s.Prepare(100);
    s.LoopExecTb(100, 0);
    s.Process();
    before := s.GetIcount(true);
    s.StartWarpTimer(0, 10, true);
    s.WarpRt(1, true);
    after := s.GetIcount(true);
  }

  lemma {:induction false} RoseJoins(start: seq<int>, first: int, mid: seq<int>, was: int, end: seq<int>, last: int)
    requires start <= mid <= end && Rising(first, mid[|start|..], was) && Rising(was, end[|mid|..], last)
    ensures Rising(first, end[|start|..], last)
  {
    RisingJoins(first, mid[|start|..], was, end[|mid|..], last);
    assert mid[|start|..] + end[|mid|..] == end[|start|..];
  }
}
