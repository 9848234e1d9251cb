/**
  Object-level single flight for origins that ignore `Range`: a registry of running
  fills, a watch cell per fill, and the subscribers that wait on it.

  A watch cell is a value with a version. `send_replace` writes the value and bumps the
  version; a receiver remembers the version it last looked at, and `changed` returns as
  soon as the two differ, or reports the sender gone.
 */
module Filler {
  import opened Core
  import opened Meta

  datatype Progress =
    | Ready(count: u32)
    | Complete(count: u32)
    | Failed(reason: string)
  {
    predicate Covers(index: u32) { !Failed? && index < count }

    predicate Terminal() { Complete? || Failed? }
  }

  datatype Failure = Upstream(reason: string) | TooShort(count: u32, index: u32) | Abandoned

  datatype Answer = Good | Bad(failure: Failure)

  /** What one look at the progress decides for a waiter, if anything. */
  function Verdict(progress: Progress, index: u32): Option<Answer> {
    if progress.Covers(index) then Some(Good)
    else
      match progress
      case Failed(reason) => Some(Bad(Upstream(reason)))
      case Complete(count) => Some(Bad(TooShort(count, index)))
      case Ready(_) => None
  }

  /**
    `wait_for`, over the values it finds at its successive looks; after the last of them
    the sender is gone. The first value that decides is the answer.
   */
  method WaitFor(found: seq<Progress>, index: u32) returns (answer: Answer)
    requires found != []
    ensures forall k :: 0 <= k < |found| && Verdict(found[k], index).Some? &&
                        (forall j :: 0 <= j < k ==> Verdict(found[j], index).None?)
                        ==> answer == Verdict(found[k], index).value
    ensures (forall k :: 0 <= k < |found| ==> Verdict(found[k], index).None?) ==> answer == Bad(Abandoned)
    ensures answer.Good? <==> exists k :: 0 <= k < |found| && found[k].Covers(index) &&
                                          (forall j :: 0 <= j < k ==> found[j].Ready?)
  {
    var at := 0;
    while true
      invariant 0 <= at < |found|
      invariant forall j :: 0 <= j < at ==> found[j].Ready? && !found[j].Covers(index)
      decreases |found| - at
    {
      var progress := found[at];
      if progress.Covers(index) {
        return Good;
      }
      match progress {
        case Failed(reason) => return Bad(Upstream(reason));
        case Complete(count) => return Bad(TooShort(count, index));
        case Ready(_) =>
      }
      at := at + 1;
      if at == |found| {
        return Bad(Abandoned);
      }
    }
  }

  // ------------------------------------------------------------ the objects

  class Fill {
    var progress: Progress
    var version: nat

    constructor ()
      ensures progress == Ready(0) && version == 0
    {
      progress, version := Ready(0), 0;
    }

    /** `send_replace`: always takes effect, with or without receivers. */
    method Replace(value: Progress)
      modifies this
      ensures progress == value && version == old(version) + 1
    {
      progress, version := value, version + 1;
    }
  }

  datatype Role = Owner(fill: Fill) | Subscriber(fill: Fill, seen: nat)

  class FillRegistry {
    var fills: map<ObjectId, Fill>

    constructor ()
      ensures fills == map[]
    {
      fills := map[];
    }

    /** The first claim of an object gets a fresh fill to run; later ones share it. */
    method Claim(oid: ObjectId) returns (role: Role)
      modifies this
      ensures role.Owner? <==> oid !in old(fills)
      ensures fills == old(fills)[oid := role.fill]
      ensures role.Owner? ==> fresh(role.fill) && role.fill.progress == Ready(0)
      ensures role.Subscriber? ==> role.fill == old(fills[oid]) && role.seen == role.fill.version && fills == old(fills)
    {
      if oid in fills {
        role := Subscriber(fills[oid], fills[oid].version);
      } else {
        var fill := new Fill();
        fills := fills[oid := fill];
        role := Owner(fill);
      }
    }

    method Release(oid: ObjectId)
      modifies this
      ensures fills == old(fills) - {oid}
    {
      fills := fills - {oid};
    }
  }

  // -------------------------------------------------------- the interleaving

  /** The bytes of one run of `run_fill`, or why it stopped. */
  datatype Outcome = Filled(count: u32) | Broke(reason: string)

  datatype Pc =
    | AtStore
    | AtClaim
    | Filling(fill: nat, count: u32)
    | Inserted(fill: nat, count: u32)
    | Returned(fill: nat, outcome: Outcome)
    | Released(fill: nat, outcome: Outcome)
    | Announced(fill: nat, outcome: Outcome)
    | Looking(fill: nat)
    | Waiting(fill: nat, seen: nat)
    | Done(answer: Answer, via: Option<nat>)

  datatype Task = Task(oid: ObjectId, generation: u32, index: u32, pc: Pc)

  /** A fill with its watch cell; `slices` are the payloads it has put in the store, slice 0 first. */
  datatype Cell = Cell(oid: ObjectId, generation: u32, owner: nat, progress: Progress, version: nat,
                       slices: seq<seq<byte>>, closed: bool)

  datatype System = System(registry: map<ObjectId, nat>, fills: seq<Cell>, tasks: map<nat, Task>)

  datatype Action =
    | Arrive(task: nat, oid: ObjectId, generation: u32, index: u32)
    | Hit(task: nat)
    | Miss(task: nat)
    | Claim(task: nat)
    | Insert(task: nat, payload: seq<byte>)
    | Publish(task: nat)
    | Return(task: nat, outcome: Outcome)
    | Release(task: nat)
    | Announce(task: nat)
    | Leave(task: nat)
    | Look(task: nat)
    | Wake(task: nat)

  function Init(): System {
    System(map[], [], map[])
  }

  predicate Owns(pc: Pc, f: nat) {
    && (pc.Filling? || pc.Inserted? || pc.Returned? || pc.Released? || pc.Announced?)
    && pc.fill == f
  }

  /** Between claiming the owner's role and releasing it. */
  predicate InFlight(pc: Pc) { pc.Filling? || pc.Inserted? || pc.Returned? }

  predicate WellScoped(y: System, pc: Pc) {
    !pc.AtStore? && !pc.AtClaim? && !pc.Done? ==> pc.fill < |y.fills|
  }

  /** A fill inserts fewer than 2^32 slices: the slice counter is a `u32`. */
  predicate Enabled(y: System, a: Action) {
    if a.Arrive? then a.task !in y.tasks
    else
      && a.task in y.tasks && WellScoped(y, y.tasks[a.task].pc)
      && var pc := y.tasks[a.task].pc;
         match a
         case Hit(_) => pc.AtStore?
         case Miss(_) => pc.AtStore?
         case Claim(_) => pc.AtClaim? && WellRegistered(y)
         case Insert(_, _) => pc.Filling? && pc.count < MAX_U32
         case Publish(_) => pc.Inserted? && pc.count < MAX_U32
         case Return(_, outcome) => pc.Filling? && (outcome.Filled? ==> outcome.count == pc.count)
         case Release(_) => pc.Returned?
         case Announce(_) => pc.Released?
         case Leave(_) => pc.Announced?
         case Look(_) => pc.Looking?
         case Wake(_) => pc.Waiting? && (y.fills[pc.fill].version != pc.seen || y.fills[pc.fill].closed)
  }

  predicate WellRegistered(y: System) {
    forall oid :: oid in y.registry ==> y.registry[oid] < |y.fills|
  }

  function Moved(y: System, t: nat, pc: Pc): System
    requires t in y.tasks
  {
    y.(tasks := y.tasks[t := y.tasks[t].(pc := pc)])
  }

  function Replaced(y: System, f: nat, progress: Progress): System
    requires f < |y.fills|
  {
    y.(fills := y.fills[f := y.fills[f].(progress := progress, version := y.fills[f].version + 1)])
  }

  function Announcement(outcome: Outcome): Progress {
    match outcome
    case Filled(count) => Complete(count)
    case Broke(reason) => Failed(reason)
  }

  function OwnAnswer(outcome: Outcome, index: u32): Answer {
    match outcome
    case Filled(count) => if index < count then Good else Bad(TooShort(count, index))
    case Broke(reason) => Bad(Upstream(reason))
  }

  function Next(y: System, a: Action): System
    requires Enabled(y, a)
  {
    if a.Arrive? then y.(tasks := y.tasks[a.task := Task(a.oid, a.generation, a.index, AtStore)])
    else
      var task := y.tasks[a.task];
      var pc := task.pc;
      match a
      case Hit(t) => Moved(y, t, Done(Good, None))
      case Miss(t) => Moved(y, t, AtClaim)
      case Claim(t) =>
        if task.oid in y.registry then Moved(y, t, Looking(y.registry[task.oid]))
        else
          var f := |y.fills|;
          Moved(y.(registry := y.registry[task.oid := f],
                   fills := y.fills + [Cell(task.oid, task.generation, t, Ready(0), 0, [], false)]),
                t, Filling(f, 0))
      case Insert(t, payload) =>
        var cell := y.fills[pc.fill];
        Moved(y.(fills := y.fills[pc.fill := cell.(slices := cell.slices + [payload])]), t, Inserted(pc.fill, pc.count))
      case Publish(t) => Moved(Replaced(y, pc.fill, Ready(pc.count + 1)), t, Filling(pc.fill, pc.count + 1))
      case Return(t, outcome) => Moved(y, t, Returned(pc.fill, outcome))
      case Release(t) => Moved(y.(registry := y.registry - {task.oid}), t, Released(pc.fill, pc.outcome))
      case Announce(t) => Moved(Replaced(y, pc.fill, Announcement(pc.outcome)), t, Announced(pc.fill, pc.outcome))
      case Leave(t) =>
        Moved(y.(fills := y.fills[pc.fill := y.fills[pc.fill].(closed := true)]), t,
              Done(OwnAnswer(pc.outcome, task.index), Some(pc.fill)))
      case Look(t) =>
        var cell := y.fills[pc.fill];
        (match Verdict(cell.progress, task.index)
         case Some(answer) => Moved(y, t, Done(answer, Some(pc.fill)))
         case None => Moved(y, t, Waiting(pc.fill, cell.version)))
      case Wake(t) =>
        if y.fills[pc.fill].version != pc.seen then Moved(y, t, Looking(pc.fill))
        else Moved(y, t, Done(Bad(Abandoned), Some(pc.fill)))
  }

  function After(actions: seq<Action>): Option<System> {
    if actions == [] then Some(Init())
    else
      match After(actions[..|actions| - 1])
      case None => None
      case Some(y) =>
        var last := actions[|actions| - 1];
        if Enabled(y, last) then Some(Next(y, last)) else None
  }

  // ---------------------------------------------------------- the invariant

  /** How far the owner of a fill is, against what its cell says. */
  predicate OwnerAgrees(cell: Cell, pc: Pc) {
    && !cell.closed
    && match pc
       case Filling(_, count) => cell.progress == Ready(count) && |cell.slices| == count
       case Inserted(_, count) => cell.progress == Ready(count) && |cell.slices| == count + 1 && count < MAX_U32
       case Returned(_, outcome) => cell.progress.Ready? && (outcome.Filled? ==> outcome.count == |cell.slices|)
       case Released(_, outcome) => cell.progress.Ready? && (outcome.Filled? ==> outcome.count == |cell.slices|)
       case Announced(_, outcome) => cell.progress == Announcement(outcome) &&
                                     (outcome.Filled? ==> outcome.count == |cell.slices|)
       case _ => true
  }

  predicate TaskAgrees(y: System, t: nat, task: Task) {
    && WellScoped(y, task.pc)
    && match task.pc
       case AtStore => true
       case AtClaim => true
       case Looking(f) => y.fills[f].oid == task.oid
       case Waiting(f, seen) =>
         && y.fills[f].oid == task.oid && seen <= y.fills[f].version
         && (seen == y.fills[f].version ==> Verdict(y.fills[f].progress, task.index).None?)
       case Done(answer, via) =>
         && answer != Bad(Abandoned)
         && (via.Some? ==> via.value < |y.fills| && y.fills[via.value].oid == task.oid &&
                           (answer.Good? ==> task.index < |y.fills[via.value].slices|))
       case _ =>
         var cell := y.fills[task.pc.fill];
         cell.owner == t && cell.oid == task.oid && OwnerAgrees(cell, task.pc)
  }

  predicate FillAgrees(y: System, f: nat)
    requires f < |y.fills|
  {
    var cell := y.fills[f];
    && (!cell.progress.Failed? ==> cell.progress.count <= |cell.slices|)
    && (cell.closed ==> cell.progress.Terminal())
    && cell.owner in y.tasks
    && (!cell.closed ==> Owns(y.tasks[cell.owner].pc, f))
    && ((cell.oid in y.registry && y.registry[cell.oid] == f) <==>
        (!cell.closed && InFlight(y.tasks[cell.owner].pc)))
  }

  predicate Inv(y: System) {
    && WellRegistered(y)
    && (forall oid :: oid in y.registry ==> y.fills[y.registry[oid]].oid == oid)
    && (forall f :: 0 <= f < |y.fills| ==> FillAgrees(y, f))
    && (forall t :: t in y.tasks ==> TaskAgrees(y, t, y.tasks[t]))
  }

  /** A step leaves every cell alone, but for the one its own task owns. */
  lemma CellsChange(y: System, a: Action, f: nat)
    requires Inv(y) && Enabled(y, a) && f < |y.fills|
    ensures var z := Next(y, a);
            && f < |z.fills|
            && z.fills[f].oid == y.fills[f].oid && z.fills[f].owner == y.fills[f].owner
            && z.fills[f].generation == y.fills[f].generation
            && (z.fills[f].progress == y.fills[f].progress || z.fills[f].version > y.fills[f].version)
            && z.fills[f].version >= y.fills[f].version && y.fills[f].slices <= z.fills[f].slices
            && (z.fills[f] != y.fills[f] ==>
                  a.task in y.tasks && y.fills[f].owner == a.task && Owns(y.tasks[a.task].pc, f))
  {
    if a.task in y.tasks { assert TaskAgrees(y, a.task, y.tasks[a.task]); }
  }

  lemma OwnStep(y: System, a: Action)
    requires Inv(y) && Enabled(y, a)
    ensures TaskAgrees(Next(y, a), a.task, Next(y, a).tasks[a.task])
  {
    if a.task in y.tasks {
      assert TaskAgrees(y, a.task, y.tasks[a.task]);
      var pc := y.tasks[a.task].pc;
      if pc.Looking? || pc.Waiting? { assert FillAgrees(y, pc.fill); }
    }
  }

  lemma OthersStep(y: System, a: Action, t: nat)
    requires Inv(y) && Enabled(y, a) && t in y.tasks && t != a.task
    ensures t in Next(y, a).tasks && Next(y, a).tasks[t] == y.tasks[t]
    ensures TaskAgrees(Next(y, a), t, y.tasks[t])
  {
    var pc := y.tasks[t].pc;
    assert TaskAgrees(y, t, y.tasks[t]);
    if pc.Done? {
      if pc.via.Some? { CellsChange(y, a, pc.via.value); }
    } else if !pc.AtStore? && !pc.AtClaim? {
      CellsChange(y, a, pc.fill);
    }
  }

  lemma OwnFillStep(y: System, a: Action, f: nat)
    requires Inv(y) && Enabled(y, a) && f < |y.fills| && y.fills[f].owner == a.task
    ensures FillAgrees(Next(y, a), f)
  {
    assert FillAgrees(y, f);
    assert TaskAgrees(y, a.task, y.tasks[a.task]);
  }

  lemma NewFillStep(y: System, a: Action)
    requires Inv(y) && Enabled(y, a) && |y.fills| < |Next(y, a).fills|
    ensures |Next(y, a).fills| == |y.fills| + 1
    ensures FillAgrees(Next(y, a), |y.fills|)
  {
  }

  /** Only the owner of a fill registers or releases it. */
  lemma RegistryChange(y: System, a: Action, f: nat)
    requires Inv(y) && Enabled(y, a) && f < |y.fills| && y.fills[f].owner != a.task
    ensures var oid := y.fills[f].oid;
            (oid in y.registry && y.registry[oid] == f) <==>
            (oid in Next(y, a).registry && Next(y, a).registry[oid] == f)
  {
    if a.task in y.tasks {
      var pc := y.tasks[a.task].pc;
      assert TaskAgrees(y, a.task, y.tasks[a.task]);
      if InFlight(pc) { assert FillAgrees(y, pc.fill); }
    }
  }

  lemma FillStep(y: System, a: Action, f: nat)
    requires Inv(y) && Enabled(y, a) && f < |Next(y, a).fills|
    ensures FillAgrees(Next(y, a), f)
  {
    if f < |y.fills| && y.fills[f].owner != a.task {
      assert FillAgrees(y, f);
      CellsChange(y, a, f);
      RegistryChange(y, a, f);
      OthersStep(y, a, y.fills[f].owner);
    } else if f < |y.fills| {
      OwnFillStep(y, a, f);
    } else {
      NewFillStep(y, a);
    }
  }

  lemma RegistryStep(y: System, a: Action)
    requires Inv(y) && Enabled(y, a)
    ensures WellRegistered(Next(y, a))
    ensures forall oid :: oid in Next(y, a).registry ==> Next(y, a).fills[Next(y, a).registry[oid]].oid == oid
  {
    forall f | 0 <= f < |y.fills| ensures Next(y, a).fills[f].oid == y.fills[f].oid { CellsChange(y, a, f); }
  }

  lemma StepKeepsInvariant(y: System, a: Action)
    requires Inv(y) && Enabled(y, a)
    ensures Inv(Next(y, a))
  {
    var z := Next(y, a);
    RegistryStep(y, a);
    forall t | t in z.tasks ensures TaskAgrees(z, t, z.tasks[t]) {
      if t == a.task { OwnStep(y, a); } else { OthersStep(y, a, t); }
    }
    forall f | 0 <= f < |z.fills| ensures FillAgrees(z, f) { FillStep(y, a, f); }
  }

  lemma {:induction false} ReachableInvariant(actions: seq<Action>)
    requires After(actions).Some?
    ensures Inv(After(actions).value)
  {
    if actions != [] {
      ReachableInvariant(actions[..|actions| - 1]);
      StepKeepsInvariant(After(actions[..|actions| - 1]).value, actions[|actions| - 1]);
    }
  }

  // ------------------------------------------------------------ what follows

  /** At most one task per object is between claiming a fill and releasing it. */
  lemma SingleFlight(actions: seq<Action>, t: nat, u: nat)
    requires After(actions).Some?
    requires var y := After(actions).value;
             && t in y.tasks && u in y.tasks && y.tasks[t].oid == y.tasks[u].oid
             && InFlight(y.tasks[t].pc) && InFlight(y.tasks[u].pc)
    ensures t == u
  {
    ReachableInvariant(actions);
    var y := After(actions).value;
    assert TaskAgrees(y, t, y.tasks[t]) && TaskAgrees(y, u, y.tasks[u]);
    assert FillAgrees(y, y.tasks[t].pc.fill) && FillAgrees(y, y.tasks[u].pc.fill);
  }

  /** The key under which a fill stores a slice. */
  function KeyIn(cell: Cell, index: u32): SliceKey {
    SliceKey(cell.oid, cell.generation, index)
  }

  /**
    A waiter, or the owner itself, is told yes only after that fill has put the slice in
    the store. The slice is the one the caller planned for if and only if the fill was
    started for the caller's generation.
   */
  lemma GoodOnlyAfterInsert(actions: seq<Action>, t: nat)
    requires After(actions).Some?
    requires t in After(actions).value.tasks
    ensures var y := After(actions).value;
            var task := y.tasks[t];
            task.pc.Done? && task.pc.answer.Good? && task.pc.via.Some? ==>
              && task.pc.via.value < |y.fills|
              && var cell := y.fills[task.pc.via.value];
                 && task.index < |cell.slices|
                 && (KeyIn(cell, task.index) == SliceKey(task.oid, task.generation, task.index) <==>
                     cell.generation == task.generation)
  {
    ReachableInvariant(actions);
    assert TaskAgrees(After(actions).value, t, After(actions).value.tasks[t]);
  }

  /** No waiter ever finds its fill abandoned. */
  lemma NeverAbandoned(actions: seq<Action>, t: nat)
    requires After(actions).Some?
    requires t in After(actions).value.tasks
    ensures After(actions).value.tasks[t].pc.Done? ==> After(actions).value.tasks[t].pc.answer != Bad(Abandoned)
  {
    ReachableInvariant(actions);
    assert TaskAgrees(After(actions).value, t, After(actions).value.tasks[t]);
  }

  /**
    A waiter that cannot wake has seen the current progress, it neither covers its index
    nor is final, and the owner of the fill is still on its way to the final word.
   */
  lemma BlockedForAReason(actions: seq<Action>, t: nat)
    requires After(actions).Some?
    requires var y := After(actions).value;
             t in y.tasks && y.tasks[t].pc.Waiting? && !Enabled(y, Wake(t))
    ensures var y := After(actions).value;
            var pc := y.tasks[t].pc;
            && pc.fill < |y.fills| && y.fills[pc.fill].owner in y.tasks
            && var cell := y.fills[pc.fill];
               && pc.seen == cell.version
               && !cell.progress.Covers(y.tasks[t].index) && !cell.progress.Terminal()
               && var owner := y.tasks[cell.owner].pc;
                  Owns(owner, pc.fill) && !owner.Announced?
  {
    ReachableInvariant(actions);
    var y := After(actions).value;
    assert TaskAgrees(y, t, y.tasks[t]);
    assert FillAgrees(y, y.tasks[t].pc.fill);
    var owner := y.fills[y.tasks[t].pc.fill].owner;
    assert TaskAgrees(y, owner, y.tasks[owner]);
  }

  lemma Extend(actions: seq<Action>, y: System, a: Action)
    requires After(actions) == Some(y) && Enabled(y, a)
    ensures After(actions + [a]) == Some(Next(y, a))
  {
    assert (actions + [a])[..|actions|] == actions;
  }

  /** What is left for a subscriber to do once its fill has spoken its last word. */
  function Homeward(pc: Pc, t: nat): seq<Action>
    requires pc.Looking? || pc.Waiting?
  {
    if pc.Looking? then [Look(t)] else [Wake(t), Look(t)]
  }

  /**
    Nobody is stranded: from any reachable state in which the fill has completed or
    failed, a subscriber returns by its own steps alone, with what that final value says.
   */
  lemma FinalWordReachesEveryone(actions: seq<Action>, t: nat)
    requires After(actions).Some?
    requires var y := After(actions).value;
             && t in y.tasks && (y.tasks[t].pc.Looking? || y.tasks[t].pc.Waiting?)
             && (y.tasks[t].pc.fill < |y.fills| ==> y.fills[y.tasks[t].pc.fill].progress.Terminal())
    ensures var y := After(actions).value;
            var pc := y.tasks[t].pc;
            var end := After(actions + Homeward(pc, t));
            && pc.fill < |y.fills| && end.Some? && t in end.value.tasks
            && Some(end.value.tasks[t].pc) ==
               Some(Done(Verdict(y.fills[pc.fill].progress, y.tasks[t].index).value, Some(pc.fill)))
  {
    ReachableInvariant(actions);
    var y := After(actions).value;
    var pc := y.tasks[t].pc;
    assert TaskAgrees(y, t, y.tasks[t]);
    if pc.Looking? {
      Extend(actions, y, Look(t));
    } else {
      var z := Next(y, Wake(t));
      Extend(actions, y, Wake(t));
      Extend(actions + [Wake(t)], z, Look(t));
      assert actions + [Wake(t), Look(t)] == actions + [Wake(t)] + [Look(t)];
    }
  }

  /** What a fill covers only grows, until it fails. */
  lemma CoverageGrows(actions: seq<Action>, a: Action, f: nat, index: u32)
    requires After(actions).Some? && Enabled(After(actions).value, a)
    requires f < |After(actions).value.fills|
    requires After(actions).value.fills[f].progress.Covers(index)
    ensures var z := Next(After(actions).value, a);
            f < |z.fills| && (z.fills[f].progress.Covers(index) || z.fills[f].progress.Failed?)
  {
    ReachableInvariant(actions);
    var y := After(actions).value;
    assert FillAgrees(y, f);
    if a.task in y.tasks { assert TaskAgrees(y, a.task, y.tasks[a.task]); }
  }

  /** When every task has returned, the registry is empty. */
  lemma QuietRegistryIsEmpty(actions: seq<Action>)
    requires After(actions).Some?
    requires forall t :: t in After(actions).value.tasks ==> After(actions).value.tasks[t].pc.Done?
    ensures After(actions).value.registry == map[]
  {
    ReachableInvariant(actions);
    var y := After(actions).value;
    if y.registry != map[] {
      var oid :| oid in y.registry;
      Registered(y, oid);
      assert false;
    }
  }

  lemma Registered(y: System, oid: ObjectId)
    requires Inv(y) && oid in y.registry
    ensures exists t :: t in y.tasks && InFlight(y.tasks[t].pc)
  {
    assert FillAgrees(y, y.registry[oid]);
  }

  /** In a reachable state every unfinished task has a step it can take, but for a waiter with nothing new to see. */
  lemma EveryoneElseCanMove(actions: seq<Action>, t: nat)
    requires After(actions).Some?
    requires t in After(actions).value.tasks && !After(actions).value.tasks[t].pc.Done?
    ensures var y := After(actions).value;
            var pc := y.tasks[t].pc;
            Enabled(y, Obvious(pc, t)) <==>
            !(pc.Waiting? && pc.fill < |y.fills| && pc.seen == y.fills[pc.fill].version)
  {
    ReachableInvariant(actions);
    Unblocked(After(actions).value, t);
  }

  lemma Unblocked(y: System, t: nat)
    requires Inv(y) && t in y.tasks && !y.tasks[t].pc.Done?
    ensures var pc := y.tasks[t].pc;
            Enabled(y, Obvious(pc, t)) <==>
            !(pc.Waiting? && pc.fill < |y.fills| && pc.seen == y.fills[pc.fill].version)
  {
    assert TaskAgrees(y, t, y.tasks[t]);
    var pc := y.tasks[t].pc;
    if pc.Waiting? { assert FillAgrees(y, pc.fill); }
  }

  /** A step that is open to a task at a given point. */
  function Obvious(pc: Pc, t: nat): Action
    requires !pc.Done?
    ensures Obvious(pc, t).task == t
  {
    match pc
    case AtStore => Miss(t)
    case AtClaim => Claim(t)
    case Filling(_, count) => Return(t, Filled(count))
    case Inserted(_, _) => Publish(t)
    case Returned(_, _) => Release(t)
    case Released(_, _) => Announce(t)
    case Announced(_, _) => Leave(t)
    case Looking(_) => Look(t)
    case Waiting(_, _) => Wake(t)
  }

  /**
    The registry is keyed by object alone: a request planned for one generation can be
    told yes by a fill that stores its slices under another.
   */
  lemma GoodMayMeanAnotherGeneration(oid: ObjectId)
    ensures exists actions ::
              && After(actions).Some?
              && var y := After(actions).value;
                 && |y.fills| == 1 && y.fills[0].generation == 0
                 && 1 in y.tasks && y.tasks[1].generation == 1 && y.tasks[1].pc == Done(Good, Some(0))
  {
    var run, y := OneSliceFilled(oid, []);
    run, y := Take(run, y, Arrive(1, oid, 1, 0));
    run, y := Take(run, y, Miss(1));
    run, y := Take(run, y, Claim(1));
    assert y.tasks[1] == Task(oid, 1, 0, Looking(0));
    run, y := Take(run, y, Look(1));
  }

  /** A run in which task 0 fills for generation 0 and has published one slice. */
  lemma OneSliceFilled(oid: ObjectId, payload: seq<byte>) returns (run: seq<Action>, y: System)
    ensures After(run) == Some(y)
    ensures y == System(map[oid := 0], [Cell(oid, 0, 0, Ready(1), 1, [payload], false)],
                        map[0 := Task(oid, 0, 0, Filling(0, 1))])
  {
    run, y := OneSliceInserted(oid, payload);
    run, y := Take(run, y, Publish(0));
  }

  lemma OneSliceInserted(oid: ObjectId, payload: seq<byte>) returns (run: seq<Action>, y: System)
    ensures After(run) == Some(y)
    ensures y == System(map[oid := 0], [Cell(oid, 0, 0, Ready(0), 0, [payload], false)],
                        map[0 := Task(oid, 0, 0, Inserted(0, 0))])
  {
    run, y := FillClaimed(oid);
    run, y := Take(run, y, Insert(0, payload));
    assert [] + [payload] == [payload];
    assert y.fills == [Cell(oid, 0, 0, Ready(0), 0, [payload], false)];
  }

  lemma FillClaimed(oid: ObjectId) returns (run: seq<Action>, y: System)
    ensures After(run) == Some(y)
    ensures y == System(map[oid := 0], [Cell(oid, 0, 0, Ready(0), 0, [], false)],
                        map[0 := Task(oid, 0, 0, Filling(0, 0))])
  {
    run, y := [], Init();
    run, y := Take(run, y, Arrive(0, oid, 0, 0));
    run, y := Take(run, y, Miss(0));
    assert y.tasks == map[0 := Task(oid, 0, 0, AtClaim)];
    run, y := Take(run, y, Claim(0));
  }

  lemma Take(run: seq<Action>, y: System, a: Action) returns (longer: seq<Action>, z: System)
    requires After(run) == Some(y) && Enabled(y, a)
    ensures longer == run + [a] && z == Next(y, a) && After(longer) == Some(z)
  {
    longer, z := run + [a], Next(y, a);
    Extend(run, y, a);
  }
}
