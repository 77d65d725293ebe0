/**
 The scheduling part of `struct _thread_base` (include/kernel.h, include/kernel_structs.h) as it
 is kept in memory: a byte of state flags, and the priority and the lock count side by side.
 */
module KThreads {
  import opened Scheduler

  datatype Flag = Dummy | Pending | Prestart | Dead | Suspended | Aborting | Queued

  /** The bit of `thread_state` that is the flag */
  function Bit(f: Flag): bv8 {
    match f
    case Dummy => 0x01
    case Pending => 0x02
    case Prestart => 0x04
    case Dead => 0x08
    case Suspended => 0x10
    case Aborting => 0x20
    case Queued => 0x80
  }

  type Int8 = x: int | -128 <= x < 128
  type UInt8 = x: int | 0 <= x < 256

  /** `schedLocked` counts down from 256, so that 0 is unlocked and 0xff locked once. */
  datatype KThread = KThread(prio: Int8, schedLocked: UInt8, state: bv8, timeout: bool)

  /** z_is_thread_state_set */
  predicate IsSet(state: bv8, flags: bv8) {
    state & flags != 0
  }

  predicate Has(t: KThread, f: Flag) {
    IsSet(t.state, Bit(f))
  }

  /** z_set_thread_states */
  function With(t: KThread, f: Flag): KThread {
    t.(state := t.state | Bit(f))
  }

  /** z_reset_thread_states */
  function Without(t: KThread, f: Flag): KThread {
    t.(state := t.state & !Bit(f))
  }

  /** z_is_thread_prevented_from_running: one mask for five flags */
  predicate Stopped(t: KThread) {
    IsSet(t.state, Bit(Pending) | Bit(Prestart) | Bit(Dead) | Bit(Dummy) | Bit(Suspended))
  }

  /** z_is_thread_ready */
  predicate ReadyToRun(t: KThread) {
    !(Stopped(t) || t.timeout)
  }

  /** `preempt`: the lock count above the priority's two's complement, read as one 16-bit number */
  function PreemptWord(t: KThread): int {
    t.schedLocked * 256 + if t.prio < 0 then t.prio + 256 else t.prio
  }

  const PREEMPT_THRESHOLD := 0x0080 - 1

  /** is_preempt */
  predicate IsPreempt(t: KThread) {
    PreemptWord(t) <= PREEMPT_THRESHOLD
  }

  // ----- What the bytes mean --------------------------------------------------------------

  /** A thread that is on its way out counts as dead. */
  function Abs(t: KThread): TState {
    TState(t.prio, Has(t, Pending), Has(t, Suspended), Has(t, Prestart), Has(t, Dead) || Has(t, Aborting),
           Has(t, Queued), t.timeout, if t.schedLocked == 0 then 0 else 256 - t.schedLocked)
  }

  function Raised(a: TState, f: Flag): TState {
    match f
    case Dummy => a
    case Pending => a.(pending := true)
    case Prestart => a.(prestart := true)
    case Dead => a.(dead := true)
    case Suspended => a.(suspended := true)
    case Aborting => a.(dead := true)
    case Queued => a.(queued := true)
  }

  function Lowered(a: TState, f: Flag): TState
    requires f != Dead && f != Aborting
  {
    match f
    case Dummy => a
    case Pending => a.(pending := false)
    case Prestart => a.(prestart := false)
    case Suspended => a.(suspended := false)
    case Queued => a.(queued := false)
  }

  /** The bit that is no flag */
  const SPARE: bv8 := 0x40

  predicate Real(t: KThread) {
    !Has(t, Dummy) && !IsSet(t.state, SPARE)
  }

  /** A real thread, and not half-way through an abort */
  predicate Settled(t: KThread) {
    Real(t) && (Has(t, Aborting) ==> Has(t, Dead))
  }

  /** A thread whose state byte is that of a suspended one is suspended and nothing else. */
  lemma {:induction false} ByteMeans(t: KThread)
    requires Settled(t)
    ensures t.state == Bit(Suspended) <==> t.state == 0x10
    ensures t.state == 0x10 <==>
              var a := Abs(t); a.suspended && !a.pending && !a.prestart && !a.dead && !a.queued
  {
  }

  lemma {:induction false} MaskMeans(t: KThread)
    ensures Stopped(t) <==> Has(t, Pending) || Has(t, Prestart) || Has(t, Dead) || Has(t, Dummy) || Has(t, Suspended)
    ensures Stopped(t) <==> t.state & 0x1F != 0
  {
  }

  /** One mask tells whether a thread may run, and one comparison whether it may be preempted. */
  lemma {:induction false} TestsMean(t: KThread)
    requires Real(t)
    ensures Prevented(Abs(t)) <==> Stopped(t) || Has(t, Aborting)
    ensures Settled(t) ==> (Prevented(Abs(t)) <==> Stopped(t)) && (Ready(Abs(t)) <==> ReadyToRun(t))
    ensures IsPreempt(t) <==> Preemptible(Abs(t))
  {
    hide Has, Stopped;
    MaskMeans(t);
  }

  lemma {:induction false} SetBit(t: KThread, f: Flag, g: Flag)
    ensures Has(With(t, f), g) <==> Has(t, g) || f == g
  {
    SetMask(t.state, Bit(f), Bit(g));
    hide IsSet, Bit;
    BitsApart(f, g);
  }

  lemma {:induction false} ClearBit(t: KThread, f: Flag, g: Flag)
    ensures Has(Without(t, f), g) <==> Has(t, g) && f != g
  {
    ClearMask(t.state, Bit(f), Bit(g));
    hide IsSet, Bit;
    BitsApart(f, g);
  }

  lemma {:induction false} SetMask(s: bv8, a: bv8, b: bv8)
    ensures IsSet(s | a, b) <==> IsSet(s, b) || IsSet(a, b)
  {
  }

  lemma {:induction false} ClearMask(s: bv8, a: bv8, b: bv8)
    ensures !IsSet(a, b) ==> (IsSet(s & !a, b) <==> IsSet(s, b))
    ensures a == b ==> !IsSet(s & !a, b)
  {
  }

  lemma {:induction false} BitsApart(f: Flag, g: Flag)
    ensures IsSet(Bit(f), Bit(g)) <==> f == g
  {
  }

  lemma {:induction false} NotSpare(f: Flag)
    ensures !IsSet(Bit(f), SPARE)
  {
  }

  lemma {:induction false} SpareStays(t: KThread, f: Flag)
    ensures IsSet(With(t, f).state, SPARE) <==> IsSet(t.state, SPARE)
    ensures IsSet(Without(t, f).state, SPARE) <==> IsSet(t.state, SPARE)
  {
    hide IsSet, Bit;
    SetMask(t.state, Bit(f), SPARE);
    ClearMask(t.state, Bit(f), SPARE);
    NotSpare(f);
  }

  /** Setting a flag sets that flag and no other. */
  lemma {:induction false} WithMeans(t: KThread, f: Flag)
    ensures Abs(With(t, f)) == Raised(Abs(t), f)
    ensures f != Dummy && f != Aborting && Settled(t) ==> Settled(With(t, f))
    ensures f != Dummy && Real(t) ==> Real(With(t, f))
    ensures f == Dead && Real(t) ==> Settled(With(t, f))
  {
    hide Has, IsSet, Bit;
    SpareStays(t, f);
    WithFlag(t, f);
  }

  lemma {:induction false} WithFlag(t: KThread, f: Flag)
    ensures forall g: Flag :: Has(With(t, f), g) <==> Has(t, g) || f == g
  {
    forall g: Flag ensures Has(With(t, f), g) <==> Has(t, g) || f == g {
      SetBit(t, f, g);
    }
  }

  lemma {:induction false} WithoutFlag(t: KThread, f: Flag)
    ensures forall g: Flag :: Has(Without(t, f), g) <==> Has(t, g) && f != g
  {
    forall g: Flag ensures Has(Without(t, f), g) <==> Has(t, g) && f != g {
      ClearBit(t, f, g);
    }
  }

  /** Clearing a flag clears that flag and no other. */
  lemma {:induction false} WithoutMeans(t: KThread, f: Flag)
    requires f != Dead && f != Aborting
    ensures Abs(Without(t, f)) == Lowered(Abs(t), f)
    ensures Settled(t) ==> Settled(Without(t, f))
    ensures Real(t) ==> Real(Without(t, f))
  {
    hide Has, IsSet, Bit;
    SpareStays(t, f);
    WithoutFlag(t, f);
  }

  /** Being aborted, or timed, stops nothing by itself. */
  lemma {:induction false} AbortingMeans(t: KThread)
    requires Settled(t) && !Abs(t).dead
    ensures ReadyToRun(With(t, Aborting).(timeout := false)) <==> !Prevented(Abs(t))
  {
    hide Has, Stopped;
    MaskMeans(t);
    MaskMeans(With(t, Aborting).(timeout := false));
    WithFlag(t, Aborting);
    SameState(With(t, Aborting), false);
  }

  lemma {:induction false} SameState(t: KThread, timed: bool)
    ensures forall f: Flag :: Has(t.(timeout := timed), f) <==> Has(t, f)
  {
  }

  /** z_sched_lock: nesting one deeper is counting one down, modulo 256 */
  function Locked(t: KThread): KThread {
    t.(schedLocked := if t.schedLocked == 0 then 255 else t.schedLocked - 1)
  }

  /** z_sched_unlock_no_reschedule */
  function Unlocked(t: KThread): KThread {
    t.(schedLocked := if t.schedLocked == 255 then 0 else t.schedLocked + 1)
  }

  lemma {:induction false} LocksMean(t: KThread)
    ensures Abs(t).locked < 255 <==> t.schedLocked != 1
    ensures Abs(t).locked > 0 <==> t.schedLocked != 0
    ensures t.schedLocked != 1 ==> Abs(Locked(t)) == Abs(t).(locked := Abs(t).locked + 1)
    ensures t.schedLocked != 0 ==> Abs(Unlocked(t)) == Abs(t).(locked := Abs(t).locked - 1)
    ensures t.schedLocked != 1 ==> Unlocked(Locked(t)) == t
  {
  }

  // ----- All threads ----------------------------------------------------------------------

  ghost function Abstract(threads: map<nat, KThread>): map<nat, TState> {
    map id | id in threads :: Abs(threads[id])
  }

  lemma {:induction false} AbstractUpdate(threads: map<nat, KThread>, id: nat, t: KThread)
    ensures Abstract(threads[id := t]) == Abstract(threads)[id := Abs(t)]
  {
  }
}
