/**
 The circuit breaker of pkg/provider/circuit_breaker.go under every interleaving of its atomic steps.

 A thread is a number. Each of its steps is one atomic load or store, one mutex operation, or the
 start of a call; the time that a step reads is arbitrary.
 */
module Breaker {
  import opened Wrappers

  datatype CircuitState = Closed | Open | HalfOpen

  datatype Op = AllowRequest | RecordSuccess | RecordFailure | Reset

  /** Where a thread is. The names say what it does next; those from Check on hold the mutex. */
  datatype Pc =
    | Idle
    | AllowLoad | AllowTime | AllowLock
    | SuccessLoad | SuccessLock | SuccessClear
    | FailureLock | ResetLock
    | AllowCheck | AllowHalfOpen | AllowReload | AllowUnlock(allowed: bool)
    | SuccessClose | SuccessZero | SuccessUnlock
    | FailureAdd | FailureStamp(fails: int) | FailureTest(fails: int) | FailureLoad(fails: int) | FailureOpen | FailureUnlock
    | ResetClose | ResetZero | ResetStamp | ResetUnlock

  /** The shared fields, the threads, and what the last AllowRequest of each thread answered. */
  datatype World = World(state: CircuitState, failures: int, lastFailure: int, holder: Option<nat>, pcs: map<nat, Pc>,
                         answers: map<nat, bool>)

  datatype Config = Config(threshold: int, cooldown: int)

  /** What one step is given: the thread, the call it starts when idle, and the time. */
  datatype Step = Step(thread: nat, op: Op, now: int)

  const DEFAULT_THRESHOLD := 2
  const DEFAULT_COOLDOWN := 20000000000

  /** Conversion to int32. */
  function Int32(x: int): int {
    (x + 0x8000_0000) % 0x1_0000_0000 - 0x8000_0000
  }

  /** NewCircuitBreaker. */
  function Make(failureThreshold: int, cooldown: int): (r: Config)
    ensures r.cooldown > 0 && (cooldown > 0 ==> r.cooldown == cooldown)
    ensures 0 < failureThreshold < 0x8000_0000 ==> r.threshold == failureThreshold
  {
    Config(Int32(if failureThreshold <= 0 then DEFAULT_THRESHOLD else failureThreshold),
           if cooldown <= 0 then DEFAULT_COOLDOWN else cooldown)
  }

  const START := World(Closed, 0, 0, None, map[], map[])

  function PcOf(w: World, t: nat): Pc {
    if t in w.pcs then w.pcs[t] else Idle
  }

  predicate Critical(pc: Pc) {
    match pc
    case AllowCheck | AllowHalfOpen | AllowReload | AllowUnlock(_) => true
    case SuccessClose | SuccessZero | SuccessUnlock => true
    case FailureAdd | FailureStamp(_) | FailureTest(_) | FailureLoad(_) | FailureOpen | FailureUnlock => true
    case ResetClose | ResetZero | ResetStamp | ResetUnlock => true
    case _ => false
  }

  function Begin(op: Op): Pc {
    match op
    case AllowRequest => AllowLoad
    case RecordSuccess => SuccessLoad
    case RecordFailure => FailureLock
    case Reset => ResetLock
  }

  function Goto(w: World, t: nat, pc: Pc): World {
    w.(pcs := w.pcs[t := pc])
  }

  function Acquire(w: World, t: nat, pc: Pc): World {
    if w.holder.None? then Goto(w, t, pc).(holder := Some(t)) else w
  }

  function Release(w: World, t: nat): World {
    Goto(w, t, Idle).(holder := None)
  }

  function Answer(w: World, t: nat, allowed: bool): World {
    Goto(w, t, Idle).(answers := w.answers[t := allowed])
  }

  /** One step; a thread that waits for the mutex stays where it is. */
  function Next(c: Config, w: World, s: Step): World {
    var t := s.thread;
    match PcOf(w, t)
    case Idle => Goto(w, t, Begin(s.op))
    case AllowLoad => if w.state == Open then Goto(w, t, AllowTime) else Answer(w, t, true)
    case AllowTime => if s.now - w.lastFailure >= c.cooldown then Goto(w, t, AllowLock) else Answer(w, t, false)
    case AllowLock => Acquire(w, t, AllowCheck)
    case AllowCheck => Goto(w, t, if w.state == Open then AllowHalfOpen else AllowReload)
    case AllowHalfOpen => Goto(w, t, AllowUnlock(true)).(state := HalfOpen)
    case AllowReload => Goto(w, t, AllowUnlock(w.state != Open))
    case AllowUnlock(allowed) => Answer(Release(w, t), t, allowed)
    case SuccessLoad => Goto(w, t, if w.state != Closed then SuccessLock else SuccessClear)
    case SuccessLock => Acquire(w, t, SuccessClose)
    case SuccessClose => Goto(w, t, SuccessZero).(state := Closed)
    case SuccessZero => Goto(w, t, SuccessUnlock).(failures := 0)
    case SuccessUnlock => Release(w, t)
    case SuccessClear => Goto(w, t, Idle).(failures := 0)
    case FailureLock => Acquire(w, t, FailureAdd)
    case FailureAdd => Goto(w, t, FailureStamp(Int32(w.failures + 1))).(failures := Int32(w.failures + 1))
    case FailureStamp(fails) => Goto(w, t, FailureTest(fails)).(lastFailure := s.now)
    case FailureTest(fails) => Goto(w, t, if fails >= c.threshold then FailureOpen else FailureLoad(fails))
    case FailureLoad(_) => Goto(w, t, if w.state == HalfOpen then FailureOpen else FailureUnlock)
    case FailureOpen => Goto(w, t, FailureUnlock).(state := Open)
    case FailureUnlock => Release(w, t)
    case ResetLock => Acquire(w, t, ResetClose)
    case ResetClose => Goto(w, t, ResetZero).(state := Closed)
    case ResetZero => Goto(w, t, ResetStamp).(failures := 0)
    case ResetStamp => Goto(w, t, ResetUnlock).(lastFailure := 0)
    case ResetUnlock => Release(w, t)
  }

  function Run(c: Config, steps: seq<Step>): World {
    if steps == [] then START else Next(c, Run(c, steps[..|steps| - 1]), steps[|steps| - 1])
  }

  // ---------------------------------------------------------------- the invariant

  /** Exactly the holder of the mutex is in a critical section. */
  ghost predicate Exclusive(w: World) {
    forall t: nat :: Critical(PcOf(w, t)) <==> w.holder == Some(t)
  }

  /** What is known of the failures while `pc` holds the mutex: an unlocked success may clear them at any time. */
  predicate HeldOk(c: Config, w: World, pc: Pc) {
    match pc
    case AllowCheck | AllowHalfOpen | AllowReload | AllowUnlock(_) | FailureAdd => ClosedOk(c, w)
    case FailureStamp(fails) => FailsOk(c, w, fails)
    case FailureTest(fails) => FailsOk(c, w, fails)
    case FailureLoad(fails) => fails < c.threshold && FailsOk(c, w, fails)
    case FailureUnlock => ClosedOk(c, w)
    case SuccessUnlock | ResetStamp | ResetUnlock => w.failures == 0
    case _ => true
  }

  predicate ClosedOk(c: Config, w: World) {
    w.state == Closed ==> w.failures < c.threshold
  }

  /** The failures are the count the thread got, or were cleared since. */
  predicate FailsOk(c: Config, w: World, fails: int) {
    w.failures == fails || w.failures == 0
  }

  ghost predicate Inv(c: Config, w: World) {
    && Exclusive(w)
    && match w.holder
       case None => ClosedOk(c, w)
       case Some(t) => HeldOk(c, w, PcOf(w, t))
  }

  lemma StepExclusive(c: Config, w: World, s: Step)
    requires Exclusive(w)
    ensures Exclusive(Next(c, w, s))
  {
    hide Next, Critical;
    assert Critical(PcOf(w, s.thread)) <==> w.holder == Some(s.thread);
    OwnMove(c, w, s);
    HolderMove(c, w, s);
    forall t: nat ensures Critical(PcOf(Next(c, w, s), t)) <==> Next(c, w, s).holder == Some(t) {
      assert Critical(PcOf(w, t)) <==> w.holder == Some(t);
      if t != s.thread { OthersStay(c, w, s, t); }
    }
  }

  lemma OwnMove(c: Config, w: World, s: Step)
    requires Critical(PcOf(w, s.thread)) <==> w.holder == Some(s.thread)
    ensures Critical(PcOf(Next(c, w, s), s.thread)) <==> Next(c, w, s).holder == Some(s.thread)
  {
    hide Int32;
  }

  /** The mutex changes hands only from or to the thread that steps. */
  lemma HolderMove(c: Config, w: World, s: Step)
    requires Critical(PcOf(w, s.thread)) <==> w.holder == Some(s.thread)
    ensures var now := Next(c, w, s).holder;
            now == w.holder || (w.holder.None? && now == Some(s.thread)) || (w.holder == Some(s.thread) && now.None?)
  {
    hide Int32;
  }

  lemma OthersStay(c: Config, w: World, s: Step, t: nat)
    requires t != s.thread
    ensures PcOf(Next(c, w, s), t) == PcOf(w, t)
  {
    hide Int32;
  }

  /** A step of the holder. */
  lemma HolderStep(c: Config, w: World, s: Step)
    requires c.threshold > 0 && w.holder == Some(s.thread) && Critical(PcOf(w, s.thread)) && HeldOk(c, w, PcOf(w, s.thread))
    ensures var w' := Next(c, w, s);
            if w'.holder.None? then ClosedOk(c, w') else w'.holder == Some(s.thread) && HeldOk(c, w', PcOf(w', s.thread))
  {
    hide Int32;
  }

  /** A step of any other thread: it may only clear the failures, or take the free mutex. */
  lemma OtherStep(c: Config, w: World, s: Step, pc: Pc)
    requires c.threshold > 0 && !Critical(PcOf(w, s.thread)) && HeldOk(c, w, pc)
    ensures var w' := Next(c, w, s);
            && w'.state == w.state && (w'.failures == w.failures || w'.failures == 0)
            && (w'.holder == w.holder || (w.holder.None? && w'.holder == Some(s.thread)))
            && HeldOk(c, w', pc)
  {
    hide Int32;
  }

  lemma StepKeeps(c: Config, w: World, s: Step)
    requires c.threshold > 0 && Inv(c, w)
    ensures Inv(c, Next(c, w, s))
  {
    StepExclusive(c, w, s);
    var t, w' := s.thread, Next(c, w, s);
    assert Critical(PcOf(w, t)) <==> w.holder == Some(t);
    if w.holder == Some(t) {
      HolderStep(c, w, s);
    } else if w.holder.Some? {
      var h := w.holder.value;
      OtherStep(c, w, s, PcOf(w, h));
      assert PcOf(w', h) == PcOf(w, h);
    } else {
      OtherStep(c, w, s, AllowCheck);
      FreeStep(c, w, s);
    }
  }

  /** A thread that takes the free mutex finds the failures below the threshold. */
  lemma FreeStep(c: Config, w: World, s: Step)
    requires c.threshold > 0 && w.holder.None? && !Critical(PcOf(w, s.thread)) && ClosedOk(c, w)
    ensures var w' := Next(c, w, s);
            if w'.holder.None? then ClosedOk(c, w') else w'.holder == Some(s.thread) && HeldOk(c, w', PcOf(w', s.thread))
  {
    hide Int32;
  }

  lemma {:induction false} RunKeeps(c: Config, steps: seq<Step>)
    requires c.threshold > 0
    ensures Inv(c, Run(c, steps))
  {
    if steps != [] {
      RunKeeps(c, steps[..|steps| - 1]);
      hide Next, Inv;
      StepKeeps(c, Run(c, steps[..|steps| - 1]), steps[|steps| - 1]);
    }
  }

  /** Safe: whenever the mutex is free, a closed breaker has fewer failures than its threshold. */
  predicate Safe(c: Config, w: World) {
    w.holder.None? && w.state == Closed ==> w.failures < c.threshold
  }

  /** Every run is safe exactly when the threshold survives its conversion to 32 bits as a positive number. */
  lemma SafeExactly(failureThreshold: int, cooldown: int)
    ensures (forall steps: seq<Step> :: Safe(Make(failureThreshold, cooldown), Run(Make(failureThreshold, cooldown), steps))) <==>
            Int32(if failureThreshold <= 0 then DEFAULT_THRESHOLD else failureThreshold) > 0
  {
    var c := Make(failureThreshold, cooldown);
    if c.threshold > 0 {
      forall steps: seq<Step> ensures Safe(c, Run(c, steps)) {
        RunKeeps(c, steps);
      }
    } else {
      var none: seq<Step> := [];
      assert Run(c, none) == START;
      assert !Safe(c, Run(c, none));
    }
  }

  /** Every threshold that fits into 32 bits does, and the first that does not fit fails. */
  lemma ThresholdsThatFit(failureThreshold: int)
    ensures failureThreshold < 0x8000_0000 ==> Int32(if failureThreshold <= 0 then DEFAULT_THRESHOLD else failureThreshold) > 0
    ensures Int32(0x8000_0000) < 0 && Int32(0x1_0000_0000) == 0
  {
  }

  /** At most one thread is in a critical section, and only a thread in one changes the state. */
  lemma MutualExclusion(c: Config, steps: seq<Step>, t: nat, u: nat)
    requires c.threshold > 0 && Critical(PcOf(Run(c, steps), t)) && Critical(PcOf(Run(c, steps), u))
    ensures t == u
  {
    RunKeeps(c, steps);
    hide Run;
    var w := Run(c, steps);
    assert Critical(PcOf(w, t)) <==> w.holder == Some(t);
    assert Critical(PcOf(w, u)) <==> w.holder == Some(u);
  }

  // ---------------------------------------------------------------- the failure that opens it

  lemma {:induction false} RunExclusive(c: Config, steps: seq<Step>)
    ensures Exclusive(Run(c, steps))
  {
    if steps != [] {
      RunExclusive(c, steps[..|steps| - 1]);
      hide Next, Exclusive;
      StepExclusive(c, Run(c, steps[..|steps| - 1]), steps[|steps| - 1]);
    }
  }

  /** While one thread is in a critical section the others leave the state and the time of the last failure alone. */
  lemma OthersLeave(c: Config, w: World, s: Step, t: nat)
    requires Exclusive(w) && Critical(PcOf(w, t)) && s.thread != t
    ensures var w' := Next(c, w, s);
            w'.state == w.state && w'.lastFailure == w.lastFailure && PcOf(w', t) == PcOf(w, t)
  {
    assert Critical(PcOf(w, t)) <==> w.holder == Some(t);
    assert Critical(PcOf(w, s.thread)) <==> w.holder == Some(s.thread);
    hide Int32;
  }

  /** How many of the steps are the thread's own. */
  function Own(steps: seq<Step>, t: nat): nat {
    if steps == [] then 0 else Own(steps[..|steps| - 1], t) + if steps[|steps| - 1].thread == t then 1 else 0
  }

  /** Where the thread is after so many steps of its own, and what is known of the state. */
  predicate Opening(w: World, t: nat, own: nat, fails: int) {
    match own
    case 0 => PcOf(w, t) == FailureTest(fails)
    case 1 => PcOf(w, t) == FailureOpen
    case 2 => PcOf(w, t) == FailureUnlock && w.state == Open
    case _ => true
  }

  lemma OpeningStep(c: Config, w: World, s: Step, t: nat, own: nat, fails: int)
    requires Exclusive(w) && Opening(w, t, own, fails) && fails >= c.threshold
    ensures Opening(Next(c, w, s), t, own + if s.thread == t then 1 else 0, fails)
  {
    if s.thread != t && own <= 2 { OthersLeave(c, w, s, t); }
    hide Int32;
  }

  lemma {:induction false} OpeningHolds(c: Config, steps: seq<Step>, more: seq<Step>, t: nat, fails: int)
    requires PcOf(Run(c, steps), t) == FailureTest(fails) && fails >= c.threshold
    ensures Opening(Run(c, steps + more), t, Own(more, t), fails)
  {
    if more == [] {
      assert steps + more == steps;
    } else {
      var before, s := more[..|more| - 1], more[|more| - 1];
      RunOne(c, steps, more);
      OpeningHolds(c, steps, before, t, fails);
      RunExclusive(c, steps + before);
      hide Run, Next, Opening;
      OpeningStep(c, Run(c, steps + before), s, t, Own(before, t), fails);
    }
  }

  /**
   Once a thread has found its count at the threshold, then whatever the other threads do between its
   steps, the breaker is open when the thread releases the mutex with its third step.
   */
  lemma ThresholdOpens(c: Config, steps: seq<Step>, more: seq<Step>, s: Step, fails: int)
    requires PcOf(Run(c, steps), s.thread) == FailureTest(fails) && fails >= c.threshold && Own(more, s.thread) == 2
    ensures var w := Run(c, steps + more + [s]);
            w.state == Open && w.holder.None? && PcOf(w, s.thread) == Idle
  {
    OpeningHolds(c, steps, more, s.thread, fails);
    var all := steps + more + [s];
    assert all[..|all| - 1] == steps + more;
  }

  /** A failure that added to the count, up to its release: what it found decides, and the time of the last failure is its own. */
  ghost predicate Deciding(c: Config, w: World, more: seq<Step>, t: nat, found: CircuitState, fails: int) {
    match PcOf(w, t)
    case FailureStamp(x) => x == fails && w.state == found
    case FailureTest(x) => x == fails && w.state == found && Stamped(w, more, t)
    case FailureLoad(x) => fails < c.threshold && w.state == found && Stamped(w, more, t)
    case FailureOpen => (fails >= c.threshold || found == HalfOpen) && Stamped(w, more, t)
    case FailureUnlock => w.state == Decided(c, found, fails) && Stamped(w, more, t)
    case _ => false
  }

  function Decided(c: Config, found: CircuitState, fails: int): CircuitState {
    if fails >= c.threshold || found == HalfOpen then Open else found
  }

  /** The last failure has the time of a step of this thread. */
  ghost predicate Stamped(w: World, more: seq<Step>, t: nat) {
    exists j | 0 <= j < |more| :: more[j].thread == t && w.lastFailure == more[j].now
  }

  lemma DecidingStep(c: Config, w: World, more: seq<Step>, s: Step, t: nat, found: CircuitState, fails: int)
    requires Exclusive(w) && Deciding(c, w, more, t, found, fails)
    ensures var w' := Next(c, w, s);
            if s.thread == t && PcOf(w, t) == FailureUnlock
            then PcOf(w', t) == Idle && w'.state == Decided(c, found, fails) && w'.holder.None? && Stamped(w', more, t)
            else Deciding(c, w', more + [s], t, found, fails)
  {
    var all, w' := more + [s], Next(c, w, s);
    StampedMore(w, more, s, t);
    assert all[|more|] == s;
    hide Stamped;
    if s.thread != t {
      OthersLeave(c, w, s, t);
      SameStamp(w, w', all, t);
    } else {
      if PcOf(w, t).FailureStamp? { NewStamp(w', all, t, |more|); }
      OwnDecides(c, w, s, found, fails);
      SameStamp(w, w', all, t);
      SameStamp(w, w', more, t);
    }
  }

  /** What the thread does by itself. */
  lemma OwnDecides(c: Config, w: World, s: Step, found: CircuitState, fails: int)
    requires PcOf(w, s.thread).FailureStamp? || PcOf(w, s.thread).FailureTest? || PcOf(w, s.thread).FailureLoad?
             || PcOf(w, s.thread).FailureOpen? || PcOf(w, s.thread).FailureUnlock?
    ensures var w', t := Next(c, w, s), s.thread;
            && (PcOf(w, t).FailureStamp? ==> PcOf(w', t) == FailureTest(PcOf(w, t).fails) && w'.state == w.state && w'.lastFailure == s.now)
            && (PcOf(w, t).FailureTest? ==>
                 PcOf(w', t) == (if PcOf(w, t).fails >= c.threshold then FailureOpen else FailureLoad(PcOf(w, t).fails)) && w'.state == w.state)
            && (PcOf(w, t).FailureLoad? ==> PcOf(w', t) == (if w.state == HalfOpen then FailureOpen else FailureUnlock) && w'.state == w.state)
            && (PcOf(w, t).FailureOpen? ==> PcOf(w', t) == FailureUnlock && w'.state == Open)
            && (PcOf(w, t).FailureUnlock? ==> PcOf(w', t) == Idle && w'.state == w.state && w'.holder.None?)
            && (!PcOf(w, t).FailureStamp? ==> w'.lastFailure == w.lastFailure)
  {
    hide Int32;
  }

  lemma StampedMore(w: World, more: seq<Step>, s: Step, t: nat)
    ensures Stamped(w, more, t) ==> Stamped(w, more + [s], t)
  {
    if Stamped(w, more, t) {
      var j :| 0 <= j < |more| && more[j].thread == t && w.lastFailure == more[j].now;
      assert (more + [s])[j] == more[j];
    }
  }

  lemma SameStamp(w: World, w': World, more: seq<Step>, t: nat)
    ensures w'.lastFailure == w.lastFailure ==> (Stamped(w', more, t) <==> Stamped(w, more, t))
  {
  }

  lemma NewStamp(w: World, more: seq<Step>, t: nat, j: nat)
    requires j < |more| && more[j].thread == t
    ensures w.lastFailure == more[j].now ==> Stamped(w, more, t)
  {
  }

  lemma {:induction false} DecidingHolds(c: Config, steps: seq<Step>, more: seq<Step>, t: nat, found: CircuitState, fails: int)
    requires Deciding(c, Run(c, steps), [], t, found, fails)
    requires forall k | 0 <= k <= |more| :: PcOf(Run(c, steps + more[..k]), t) != Idle
    ensures Deciding(c, Run(c, steps + more), more, t, found, fails)
  {
    hide *;
    assert more[..|more|] == more;
    if more == [] {
      assert steps + more == steps;
    } else {
      var before, s := more[..|more| - 1], more[|more| - 1];
      forall k | 0 <= k <= |before| ensures PcOf(Run(c, steps + before[..k]), t) != Idle {
        assert before[..k] == more[..k];
      }
      DecidingHolds(c, steps, before, t, found, fails);
      RunOne(c, steps, more);
      RunExclusive(c, steps + before);
      assert before + [s] == more;
      DecidingStep(c, Run(c, steps + before), before, s, t, found, fails);
    }
  }

  /**
   When a failure has returned, the breaker is open if its count reached the threshold or it found the
   breaker half-open, and is as it found it otherwise, whatever the other threads do in between; the
   time of the last failure is one of its own steps.
   */
  lemma FailureDecides(c: Config, steps: seq<Step>, first: Step, more: seq<Step>, s: Step)
    requires first.thread == s.thread && PcOf(Run(c, steps), s.thread) == FailureAdd
    requires forall k | 0 <= k <= |more| :: PcOf(Run(c, steps + [first] + more[..k]), s.thread) != Idle
    requires PcOf(Run(c, steps + [first] + more + [s]), s.thread) == Idle
    ensures var found, w := Run(c, steps), Run(c, steps + [first] + more + [s]);
            && w.state == (if Int32(found.failures + 1) >= c.threshold || found.state == HalfOpen then Open else found.state)
            && w.holder.None? && Stamped(w, more, s.thread)
  {
    hide *;
    var t, from, w0 := s.thread, steps + [first], Run(c, steps);
    RunLast(c, steps, first);
    Added(c, w0, first);
    DecidingHolds(c, from, more, t, w0.state, Int32(w0.failures + 1));
    RunLast(c, from + more, s);
    RunExclusive(c, from + more);
    DecidingStep(c, Run(c, from + more), more, s, t, w0.state, Int32(w0.failures + 1));
    DecidingBusy(c, Run(c, from + more + [s]), more + [s], t, w0.state, Int32(w0.failures + 1));
    DecidedIs(c, w0.state, Int32(w0.failures + 1));
  }

  lemma Added(c: Config, w: World, s: Step)
    requires PcOf(w, s.thread) == FailureAdd
    ensures Deciding(c, Next(c, w, s), [], s.thread, w.state, Int32(w.failures + 1))
  {
    hide Int32;
  }

  lemma DecidedIs(c: Config, found: CircuitState, fails: int)
    ensures Decided(c, found, fails) == if fails >= c.threshold || found == HalfOpen then Open else found
  {
  }

  lemma RunLast(c: Config, steps: seq<Step>, s: Step)
    ensures Run(c, steps + [s]) == Next(c, Run(c, steps), s)
  {
    assert (steps + [s])[..|steps|] == steps;
    hide Next;
  }

  lemma DecidingBusy(c: Config, w: World, more: seq<Step>, t: nat, found: CircuitState, fails: int)
    ensures Deciding(c, w, more, t, found, fails) ==> PcOf(w, t) != Idle
  {
  }

  lemma RunOne(c: Config, steps: seq<Step>, more: seq<Step>)
    requires more != []
    ensures Run(c, steps + more) == Next(c, Run(c, steps + more[..|more| - 1]), more[|more| - 1])
  {
    assert (steps + more)[..|steps + more| - 1] == steps + more[..|more| - 1];
    hide Next;
  }

  // ---------------------------------------------------------------- the success that closes it

  /** A success that found the breaker not closed waits for the mutex, or has closed it so far. */
  predicate Closing(w: World, t: nat) {
    match PcOf(w, t)
    case SuccessLock | SuccessClose => true
    case SuccessZero => w.state == Closed
    case SuccessUnlock => w.state == Closed && w.failures == 0
    case _ => false
  }

  lemma ClosingStep(c: Config, w: World, s: Step, t: nat)
    requires Exclusive(w) && Closing(w, t)
    ensures var w' := Next(c, w, s);
            if s.thread == t && PcOf(w, t) == SuccessUnlock
            then PcOf(w', t) == Idle && w'.state == Closed && w'.failures == 0 && w'.holder.None?
            else Closing(w', t)
  {
    assert Critical(PcOf(w, t)) <==> w.holder == Some(t);
    assert Critical(PcOf(w, s.thread)) <==> w.holder == Some(s.thread);
    hide Int32;
  }

  lemma {:induction false} ClosingHolds(c: Config, steps: seq<Step>, more: seq<Step>, t: nat)
    requires Closing(Run(c, steps), t) && forall k | 0 <= k <= |more| :: PcOf(Run(c, steps + more[..k]), t) != Idle
    ensures Closing(Run(c, steps + more), t)
  {
    assert more[..|more|] == more;
    if more == [] {
      assert steps + more == steps;
    } else {
      var before := more[..|more| - 1];
      forall k | 0 <= k <= |before| ensures PcOf(Run(c, steps + before[..k]), t) != Idle {
        assert before[..k] == more[..k];
      }
      ClosingHolds(c, steps, before, t);
      RunOne(c, steps, more);
      RunExclusive(c, steps + before);
      hide Run, Next, Closing;
      ClosingStep(c, Run(c, steps + before), more[|more| - 1], t);
    }
  }

  /**
   A success that finds the breaker open or half-open closes it: whatever the other threads do in
   between, and however long it waits for the mutex, the breaker is closed without failures when its
   call returns.
   */
  lemma SuccessCloses(c: Config, steps: seq<Step>, first: Step, more: seq<Step>, s: Step)
    requires first.thread == s.thread && PcOf(Run(c, steps), s.thread) == SuccessLoad && Run(c, steps).state != Closed
    requires forall k | 0 <= k <= |more| :: PcOf(Run(c, steps + [first] + more[..k]), s.thread) != Idle
    requires PcOf(Run(c, steps + [first] + more + [s]), s.thread) == Idle
    ensures var w := Run(c, steps + [first] + more + [s]); w.state == Closed && w.failures == 0 && w.holder.None?
  {
    var t, from := s.thread, steps + [first];
    assert from[..|from| - 1] == steps;
    assert Closing(Run(c, from), t);
    ClosingHolds(c, from, more, t);
    var all := from + more + [s];
    assert all[..|all| - 1] == from + more && all[|all| - 1] == s;
    RunExclusive(c, from + more);
    var w := Run(c, from + more);
    assert Run(c, all) == Next(c, w, s);
    hide Run, Next, Closing;
    ClosingStep(c, w, s, t);
    ClosingBusy(Next(c, w, s), t);
  }

  lemma ClosingBusy(w: World, t: nat)
    ensures Closing(w, t) ==> PcOf(w, t) != Idle
  {
  }

  // ---------------------------------------------------------------- what AllowRequest answers

  /** Behind the second look under the mutex the breaker is not open. */
  ghost predicate Granting(w: World) {
    forall t: nat :: GrantOk(w, t)
  }

  predicate GrantOk(w: World, t: nat) {
    match PcOf(w, t)
    case AllowReload => w.state != Open
    case AllowUnlock(allowed) => allowed && w.state != Open
    case _ => true
  }

  lemma {:induction false} RunGrants(c: Config, steps: seq<Step>)
    ensures Granting(Run(c, steps))
  {
    if steps != [] {
      var before, s := steps[..|steps| - 1], steps[|steps| - 1];
      RunGrants(c, before);
      RunExclusive(c, before);
      var w := Run(c, before);
      hide Run, Next, GrantOk, Exclusive;
      forall t: nat ensures GrantOk(Next(c, w, s), t) {
        assert GrantOk(w, t) && GrantOk(w, s.thread);
        GrantStep(c, w, s, t);
      }
    }
  }

  lemma GrantStep(c: Config, w: World, s: Step, t: nat)
    requires Exclusive(w) && GrantOk(w, t) && GrantOk(w, s.thread)
    ensures GrantOk(Next(c, w, s), t)
  {
    if s.thread != t && Critical(PcOf(w, t)) { OthersLeave(c, w, s, t); }
    hide Int32;
  }

  /** The thread works on an AllowRequest. */
  predicate Asking(pc: Pc) {
    pc.AllowLoad? || pc.AllowTime? || pc.AllowLock? || pc.AllowCheck? || pc.AllowHalfOpen? || pc.AllowReload? || pc.AllowUnlock?
  }

  /**
   In every run a request is refused exactly when the thread saw the breaker open and then found that
   the cooldown since the last failure was not over; one let through after the cooldown leaves the
   breaker not open. No other step answers anything.
   */
  lemma AllowAnswers(c: Config, steps: seq<Step>, s: Step)
    ensures var w, w', t := Run(c, steps), Run(c, steps + [s]), s.thread;
            var pc := PcOf(w, t);
            if Asking(pc) && PcOf(w', t) == Idle then
              && w'.answers == w.answers[t := pc != AllowTime]
              && (pc == AllowLoad ==> w.state != Open)
              && (pc == AllowTime ==> s.now - w.lastFailure < c.cooldown)
              && (pc != AllowLoad && pc != AllowTime ==> w'.state != Open)
            else
              w'.answers == w.answers && (pc == AllowTime ==> s.now - w.lastFailure >= c.cooldown) && (pc == AllowLoad ==> w.state == Open)
  {
    RunGrants(c, steps);
    assert (steps + [s])[..|steps|] == steps;
    hide Next, GrantOk;
    assert GrantOk(Run(c, steps), s.thread);
    AnswerStep(c, Run(c, steps), s);
  }

  lemma AnswerStep(c: Config, w: World, s: Step)
    requires GrantOk(w, s.thread)
    ensures var w', t := Next(c, w, s), s.thread;
            var pc := PcOf(w, t);
            if Asking(pc) && PcOf(w', t) == Idle then
              && w'.answers == w.answers[t := pc != AllowTime]
              && (pc == AllowLoad ==> w.state != Open)
              && (pc == AllowTime ==> s.now - w.lastFailure < c.cooldown)
              && (pc != AllowLoad && pc != AllowTime ==> w'.state != Open)
            else
              w'.answers == w.answers && (pc == AllowTime ==> s.now - w.lastFailure >= c.cooldown) && (pc == AllowLoad ==> w.state == Open)
  {
    hide Int32;
  }
}
