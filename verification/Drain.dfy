/**
  Graceful drain: work registers itself, the last one out notifies, and a drainer
  registers interest before it looks, so that no wake-up is lost.

  `inflight` is a natural number: every guard holds a reference-counted handle, and the
  counter of those aborts the process long before a `u64` could wrap.
 */
module Drain {
  import opened Core
  import opened Counting

  /** `notifies` counts the `notify_waiters` calls; a `notified()` future is ready once it has grown. */
  datatype Shared = Shared(inflight: nat, draining: bool, notifies: nat)

  // -------------------------------------------------------------- the object

  class Gate {
    var inflight: nat
    var draining: bool
    var notifies: nat

    function View(): Shared
      reads this
    {
      Shared(inflight, draining, notifies)
    }

    constructor ()
      ensures View() == Shared(0, false, 0)
    {
      inflight, draining, notifies := 0, false, 0;
    }

    /** `enter`, when nothing happens between its flag check and its increment. */
    method Enter() returns (admitted: bool)
      modifies this`inflight
      ensures admitted <==> !old(draining)
      ensures View() == if admitted then old(View()).(inflight := old(inflight) + 1) else old(View())
    {
      if draining {
        return false;
      }
      inflight := inflight + 1;
      return true;
    }

    /** Dropping a guard: the last one out notifies. */
    method Leave()
      requires inflight > 0
      modifies this`inflight, this`notifies
      ensures View() == Shared(old(inflight) - 1, old(draining),
                               if old(inflight) == 1 then old(notifies) + 1 else old(notifies))
    {
      inflight := inflight - 1;
      if inflight == 0 {
        notifies := notifies + 1;
      }
    }
  }

  // ------------------------------------------------------- the interleaving

  datatype Pc =
    | AtFlag
    | AtAdd(conditional: bool)
    | Holding(conditional: bool)
    | AtNotify
    | Left
    | Refused
    | DrainStart
    | DrainFirstLook
    | DrainRegister
    | DrainLook(ticket: nat)
    | DrainWait(ticket: nat)
    | Drained(clean: bool)

  datatype System = System(shared: Shared, threads: map<nat, Pc>)

  datatype Kind = Worker | Fill | Drainer

  /** A task starts, takes its next atomic step, or, as a drainer, hits its deadline. */
  datatype Action =
    | Start(thread: nat, kind: Kind)
    | Step(thread: nat)
    | Deadline(thread: nat)

  function Init(): System {
    System(Shared(0, false, 0), map[])
  }

  predicate InDrainLoop(pc: Pc) { pc.DrainRegister? || pc.DrainLook? || pc.DrainWait? }

  predicate Ended(pc: Pc) { pc.Left? || pc.Refused? || pc.Drained? }

  predicate Enabled(y: System, a: Action) {
    match a
    case Start(t, _) => t !in y.threads
    case Step(t) =>
      && t in y.threads && !Ended(y.threads[t])
      && (y.threads[t].DrainWait? ==> y.shared.notifies > y.threads[t].ticket)
    case Deadline(t) => t in y.threads && InDrainLoop(y.threads[t])
  }

  function Advance(s: Shared, pc: Pc): (Shared, Pc)
    requires !Ended(pc)
  {
    match pc
    case AtFlag => (s, if s.draining then Refused else AtAdd(true))
    case AtAdd(conditional) => (s.(inflight := s.inflight + 1), Holding(conditional))
    case Holding(_) => (s.(inflight := SatSub(s.inflight, 1)), if s.inflight == 1 then AtNotify else Left)
    case AtNotify => (s.(notifies := s.notifies + 1), Left)
    case DrainStart => (s.(draining := true), DrainFirstLook)
    case DrainFirstLook => (s, if s.inflight == 0 then Drained(true) else DrainRegister)
    case DrainRegister => (s, DrainLook(s.notifies))
    case DrainLook(ticket) => (s, if s.inflight == 0 then Drained(true) else DrainWait(ticket))
    case DrainWait(_) => (s, DrainRegister)
  }

  function StartPc(kind: Kind): Pc {
    match kind
    case Worker => AtFlag
    case Fill => AtAdd(false)
    case Drainer => DrainStart
  }

  function Next(y: System, a: Action): System
    requires Enabled(y, a)
  {
    match a
    case Start(t, kind) => y.(threads := y.threads[t := StartPc(kind)])
    case Step(t) =>
      var (shared, pc) := Advance(y.shared, y.threads[t]);
      System(shared, y.threads[t := pc])
    case Deadline(t) => y.(threads := y.threads[t := Drained(false)])
  }

  function After(actions: seq<Action>): Option<System> {
    if actions == [] then Some(Init())
    else
      match After(actions[..|actions| - 1])
      case None => None
      case Some(y) =>
        var last := actions[|actions| - 1];
        if Enabled(y, last) then Some(Next(y, last)) else None
  }

  // --------------------------------------------------------- the invariant

  predicate IsHolding(pc: Pc) { pc.Holding? }

  /** Some thread has taken the count to zero and is about to notify. */
  predicate NotifyPending(y: System) {
    exists t :: t in y.threads && y.threads[t].AtNotify?
  }

  /** A drainer that sleeps and was not notified has something that will wake it. */
  predicate SleeperIsCovered(y: System, pc: Pc) {
    && (pc.DrainWait? && pc.ticket == y.shared.notifies ==> y.shared.inflight > 0 || NotifyPending(y))
    && (pc.DrainWait? || pc.DrainLook? ==> pc.ticket <= y.shared.notifies)
    && (InDrainLoop(pc) || pc.DrainFirstLook? || pc.Drained? ==> y.shared.draining)
  }

  ghost predicate Inv(y: System) {
    && y.shared.inflight == Count(y.threads, IsHolding)
    && forall t :: t in y.threads ==> SleeperIsCovered(y, y.threads[t])
  }

  lemma InflightStep(y: System, a: Action)
    requires Inv(y) && Enabled(y, a)
    ensures Next(y, a).shared.inflight == Count(Next(y, a).threads, IsHolding)
  {
    CountMove(y.threads, a.thread, Next(y, a).threads[a.thread], IsHolding);
    if y.shared.inflight == 0 && a.thread in y.threads && IsHolding(y.threads[a.thread]) {
      CountPositive(y.threads, a.thread, IsHolding);
    }
  }

  /** A pending notify stays pending until it is delivered. */
  lemma PendingStays(y: System, a: Action)
    requires Enabled(y, a) && NotifyPending(y)
    ensures NotifyPending(Next(y, a)) || Next(y, a).shared.notifies > y.shared.notifies
  {
    var t :| t in y.threads && y.threads[t].AtNotify?;
    if a.thread != t {
      assert Next(y, a).threads[t].AtNotify?;
    }
  }

  lemma SleeperStep(y: System, a: Action, t: nat)
    requires Inv(y) && Enabled(y, a) && t in Next(y, a).threads
    ensures SleeperIsCovered(Next(y, a), Next(y, a).threads[t])
  {
    var z := Next(y, a);
    if t in y.threads { assert SleeperIsCovered(y, y.threads[t]); }
    if a.thread in y.threads { assert SleeperIsCovered(y, y.threads[a.thread]); }
    if NotifyPending(y) {
      PendingStays(y, a);
    }
    if y.shared.inflight > 0 && z.shared.inflight == 0 {
      assert z.threads[a.thread].AtNotify?;
    }
  }

  lemma StepKeepsInvariant(y: System, a: Action)
    requires Inv(y) && Enabled(y, a)
    ensures Inv(Next(y, a))
  {
    InflightStep(y, a);
    forall t | t in Next(y, a).threads ensures SleeperIsCovered(Next(y, a), Next(y, a).threads[t]) {
      SleeperStep(y, a, t);
    }
  }

  lemma {:induction false} ReachableInvariant(actions: seq<Action>)
    requires After(actions).Some?
    ensures Inv(After(actions).value)
  {
    if actions == [] {
      CountZero(Init().threads, IsHolding);
    } else {
      ReachableInvariant(actions[..|actions| - 1]);
      StepKeepsInvariant(After(actions[..|actions| - 1]).value, actions[|actions| - 1]);
    }
  }

  // ------------------------------------------------------------ what follows

  /**
    No lost wake-up: in every reachable state the count is the number of live guards,
    and a drainer that sleeps without having been notified is covered by work in
    flight or by a notify about to happen.
   */
  lemma NoLostWakeup(actions: seq<Action>, t: nat)
    requires After(actions).Some?
    ensures var y := After(actions).value;
            && y.shared.inflight == Count(y.threads, IsHolding)
            && (t in y.threads && y.threads[t].DrainWait? && !Enabled(y, Step(t)) ==>
                  y.shared.inflight > 0 || NotifyPending(y))
  {
    ReachableInvariant(actions);
    var y := After(actions).value;
    if t in y.threads { assert SleeperIsCovered(y, y.threads[t]); }
  }

  lemma Extend(actions: seq<Action>, y: System, a: Action)
    requires After(actions) == Some(y) && Enabled(y, a)
    ensures After(actions + [a]) == Some(Next(y, a))
  {
    assert (actions + [a])[..|actions|] == actions;
  }

  /** The three steps a drainer takes when it is woken with nothing in flight. */
  function Finish(t: nat): seq<Action> {
    [Step(t), Step(t), Step(t)]
  }

  /** Once every worker has left, a waiting drainer can finish by its own steps alone. */
  lemma IdleDrainerFinishes(actions: seq<Action>, t: nat)
    requires After(actions).Some?
    requires var y := After(actions).value;
             t in y.threads && y.threads[t].DrainWait? && y.shared.inflight == 0 && !NotifyPending(y)
    ensures var done := After(actions + Finish(t));
            done.Some? && done.value.threads[t] == Drained(true)
  {
    NoLostWakeup(actions, t);
    var y := After(actions).value;
    var y1 := y.(threads := y.threads[t := DrainRegister]);
    Extend(actions, y, Step(t));
    var y2 := Next(y1, Step(t));
    Extend(actions + [Step(t)], y1, Step(t));
    Extend(actions + [Step(t)] + [Step(t)], y2, Step(t));
    assert actions + Finish(t) == actions + [Step(t)] + [Step(t)] + [Step(t)];
  }

  /** `drain` returns true only in a step that sees nothing in flight with draining set. */
  lemma CleanDrainSawIdle(actions: seq<Action>, a: Action)
    requires After(actions).Some? && Enabled(After(actions).value, a)
    requires var y := After(actions).value;
             && Next(y, a).threads[a.thread] == Drained(true)
             && !(a.thread in y.threads && y.threads[a.thread] == Drained(true))
    ensures var y := After(actions).value;
            y.shared.inflight == 0 && y.shared.draining && Count(y.threads, IsHolding) == 0
  {
    ReachableInvariant(actions);
    var y := After(actions).value;
    assert SleeperIsCovered(y, y.threads[a.thread]);
  }

  /** The thread has passed the flag check of `enter` and not yet left. */
  predicate PastFlag(y: System, t: nat) {
    t in y.threads && (y.threads[t] == AtAdd(true) || y.threads[t] == Holding(true))
  }

  /** Once draining is set, only threads already past the flag check can still hold admitted work. */
  lemma {:induction false} NoNewAdmissions(actions: seq<Action>, n: nat, t: nat)
    requires n <= |actions| && After(actions).Some?
    ensures After(actions[..n]).Some?
    ensures After(actions[..n]).value.shared.draining ==>
              && After(actions).value.shared.draining
              && (PastFlag(After(actions).value, t) ==> PastFlag(After(actions[..n]).value, t))
    decreases |actions|
  {
    if n == |actions| {
      assert actions[..n] == actions;
    } else {
      var before := actions[..|actions| - 1];
      NoNewAdmissions(before, n, t);
      assert before[..n] == actions[..n];
    }
  }

  /** The late entrant is real: work can be admitted after `drain` has returned true. */
  lemma LateEntrantIsPossible()
    ensures exists actions ::
              && After(actions).Some?
              && After(actions).value.threads == map[0 := Holding(true), 1 := Drained(true)]
              && After(actions).value.shared.inflight == 1
  {
    var y1 := System(Shared(0, false, 0), map[0 := AtFlag]);
    Extend([], Init(), Start(0, Worker));
    var run1 := [] + [Start(0, Worker)];
    var y2 := System(Shared(0, false, 0), map[0 := AtAdd(true)]);
    assert Next(y1, Step(0)).threads == y2.threads;
    Extend(run1, y1, Step(0));
    var run2 := run1 + [Step(0)];
    var y3 := System(Shared(0, false, 0), map[0 := AtAdd(true), 1 := DrainStart]);
    assert Next(y2, Start(1, Drainer)).threads == y3.threads;
    Extend(run2, y2, Start(1, Drainer));
    var run3 := run2 + [Start(1, Drainer)];
    var y4 := System(Shared(0, true, 0), map[0 := AtAdd(true), 1 := DrainFirstLook]);
    assert Next(y3, Step(1)).threads == y4.threads;
    Extend(run3, y3, Step(1));
    var run4 := run3 + [Step(1)];
    var y5 := System(Shared(0, true, 0), map[0 := AtAdd(true), 1 := Drained(true)]);
    assert Next(y4, Step(1)).threads == y5.threads;
    Extend(run4, y4, Step(1));
    var run5 := run4 + [Step(1)];
    var y6 := System(Shared(1, true, 0), map[0 := Holding(true), 1 := Drained(true)]);
    assert Next(y5, Step(0)).threads == y6.threads;
    Extend(run5, y5, Step(0));
    assert After(run5 + [Step(0)]) == Some(y6);
  }
}
