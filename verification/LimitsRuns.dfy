/** Every interleaving of acquires and permit drops on one connection limit. */
module LimitsRuns {
  import opened Core
  import opened Counting
  import opened Limits

  /** Where a thread stands between two atomic operations; `peer` is a claimed per-peer slot. */
  datatype Pc =
    | AtClaim(claimant: Peer)
    | AtLoad(peer: Option<Peer>)
    | AtExchange(expected: u64, peer: Option<Peer>)
    | AtRollback(claimant: Peer)
    | Held(peer: Option<Peer>)
    | AtDropPeer(claimant: Peer)
    | Refused(byPeer: bool)
    | Released

  datatype System = System(shared: Shared, threads: map<nat, Pc>)

  /** A thread starts an acquire, for a peer or for nobody, or takes its next atomic step. */
  datatype Action =
    | Start(thread: nat, peer: Option<Peer>)
    | Step(thread: nat, spurious: bool)

  function Init(): System {
    System(Shared(0, 0, 0, map[]), map[])
  }

  predicate Enabled(y: System, a: Action) {
    match a
    case Start(t, _) => t !in y.threads
    case Step(t, _) => t in y.threads && !y.threads[t].Refused? && !y.threads[t].Released?
  }

  function Next(c: Config, y: System, a: Action): System
    requires Enabled(y, a)
  {
    match a
    case Start(t, peer) =>
      y.(threads := y.threads[t := if peer.Some? && c.perPeer.Some? then AtClaim(peer.value) else AtLoad(None)])
    case Step(t, spurious) =>
      var (shared, pc) := Advance(c, y.shared, y.threads[t], spurious);
      System(shared, y.threads[t := pc])
  }

  /** One atomic operation or lock section of one thread. */
  function Advance(c: Config, s: Shared, pc: Pc, spurious: bool): (Shared, Pc)
    requires !pc.Refused? && !pc.Released?
  {
    match pc
    case AtClaim(peer) =>
      if c.perPeer.None? then (s, AtLoad(None))
      else
        var (s', claimed) := ClaimPeer(s, c.perPeer.value, peer);
        (s', if claimed then AtLoad(Some(peer)) else Refused(true))
    case AtLoad(peer) => (s, AtExchange(s.open, peer))
    case AtExchange(expected, peer) =>
      if expected >= c.max then
        (RejectGlobal(s), if peer.Some? then AtRollback(peer.value) else Refused(false))
      else if s.open == expected && !spurious then
        (s.(open := expected + 1), Held(peer))
      else
        (s, AtExchange(s.open, peer))
    case AtRollback(peer) => (ReturnPeer(s, peer), Refused(false))
    case Held(peer) =>
      (s.(open := Pred(s.open)), if peer.Some? then AtDropPeer(peer.value) else Released)
    case AtDropPeer(peer) => (ReturnPeer(s, peer), Released)
  }

  function After(c: Config, actions: seq<Action>): Option<System> {
    if actions == [] then Some(Init())
    else
      match After(c, actions[..|actions| - 1])
      case None => None
      case Some(y) =>
        var last := actions[|actions| - 1];
        if Enabled(y, last) then Some(Next(c, y, last)) else None
  }

  // --------------------------------------------------------- the invariant

  /** The thread owns one unit of `open`. */
  predicate HoldsSlot(pc: Pc) { pc.Held? }

  /** The thread owns one unit of `peer`'s count. */
  predicate Claims(pc: Pc, peer: Peer) {
    match pc
    case AtLoad(p) => p == Some(peer)
    case AtExchange(_, p) => p == Some(peer)
    case AtRollback(p) => p == peer
    case Held(p) => p == Some(peer)
    case AtDropPeer(p) => p == peer
    case _ => false
  }

  function ClaimsFor(peer: Peer): Pc -> bool { pc => Claims(pc, peer) }

  /** The thread's attempt was counted as a rejection. */
  predicate Rejected(pc: Pc) { pc.AtRollback? || pc.Refused? }

  predicate RejectedByPeer(pc: Pc) { pc == Refused(true) }

  /** A count as a `u64` shows it. */
  function Wrapped(n: nat): u64 {
    if n == 0 then 0 else Succ(Wrapped(n - 1))
  }

  ghost predicate Inv(c: Config, y: System) {
    && y.shared.open == Count(y.threads, HoldsSlot) <= c.max
    && y.shared.rejected == Wrapped(Count(y.threads, Rejected))
    && y.shared.rejectedPerPeer == Wrapped(Count(y.threads, RejectedByPeer))
    && (forall peer: Peer :: PeerInv(c, y, peer))
  }

  /** The entry of a peer is the number of its claims; there is no entry for zero claims. */
  ghost predicate PeerInv(c: Config, y: System, peer: Peer) {
    var claims := Count(y.threads, ClaimsFor(peer));
    && (claims > 0 <==> peer in y.shared.peers)
    && (claims > 0 ==> y.shared.peers[peer] == claims && c.perPeer.Some? && claims <= c.perPeer.value)
  }

  lemma StepCounts(c: Config, y: System, a: Action)
    requires Inv(c, y) && Enabled(y, a)
    ensures var z := Next(c, y, a);
            && z.shared.open == Count(z.threads, HoldsSlot) <= c.max
            && z.shared.rejected == Wrapped(Count(z.threads, Rejected))
            && z.shared.rejectedPerPeer == Wrapped(Count(z.threads, RejectedByPeer))
  {
    var t, pc := a.thread, Next(c, y, a).threads[a.thread];
    CountMove(y.threads, t, pc, HoldsSlot);
    CountMove(y.threads, t, pc, Rejected);
    CountMove(y.threads, t, pc, RejectedByPeer);
  }

  lemma StepPeer(c: Config, y: System, a: Action, peer: Peer)
    requires Inv(c, y) && Enabled(y, a)
    ensures PeerInv(c, Next(c, y, a), peer)
  {
    assert PeerInv(c, y, peer);
    CountMove(y.threads, a.thread, Next(c, y, a).threads[a.thread], ClaimsFor(peer));
  }

  lemma StepKeepsInvariant(c: Config, y: System, a: Action)
    requires Inv(c, y) && Enabled(y, a)
    ensures Inv(c, Next(c, y, a))
  {
    StepCounts(c, y, a);
    forall peer: Peer ensures PeerInv(c, Next(c, y, a), peer) {
      StepPeer(c, y, a, peer);
    }
  }

  lemma {:induction false} ReachableInvariant(c: Config, actions: seq<Action>)
    requires After(c, actions).Some?
    ensures Inv(c, After(c, actions).value)
  {
    if actions == [] {
      forall peer: Peer ensures PeerInv(c, Init(), peer) {
        CountZero(Init().threads, ClaimsFor(peer));
      }
      CountZero(Init().threads, HoldsSlot);
      CountZero(Init().threads, Rejected);
      CountZero(Init().threads, RejectedByPeer);
    } else {
      ReachableInvariant(c, actions[..|actions| - 1]);
      StepKeepsInvariant(c, After(c, actions[..|actions| - 1]).value, actions[|actions| - 1]);
    }
  }

  // ------------------------------------------------------------ what follows

  lemma {:induction false} WrappedIsRemainder(n: nat)
    ensures Wrapped(n) == n % (MAX_U64 + 1)
  {
    if n > 0 { WrappedIsRemainder(n - 1); }
  }

  /**
    In every reachable state `open` is the number of held slots and within `max`, each
    peer's entry is the number of its claims and within `per_peer`, there is no entry
    for zero claims, and no thread is about to subtract from zero.
   */
  lemma CountersAreExact(c: Config, actions: seq<Action>, t: nat)
    requires After(c, actions).Some? && t in After(c, actions).value.threads
    ensures var y := After(c, actions).value;
            var pc := y.threads[t];
            && y.shared.open == Count(y.threads, HoldsSlot) <= c.max
            && (forall peer: Peer :: PeerInv(c, y, peer))
            && (pc.Held? ==> y.shared.open >= 1)
            && (pc.AtRollback? || pc.AtDropPeer? ==>
                  pc.claimant in y.shared.peers && y.shared.peers[pc.claimant] >= 1)
  {
    ReachableInvariant(c, actions);
    var y := After(c, actions).value;
    var pc := y.threads[t];
    if pc.Held? {
      CountPositive(y.threads, t, HoldsSlot);
    }
    if pc.AtRollback? || pc.AtDropPeer? {
      CountPositive(y.threads, t, ClaimsFor(pc.claimant));
      assert PeerInv(c, y, pc.claimant);
    }
  }

  /** Every attempt has ended: refused, or granted and dropped again. */
  predicate Quiescent(y: System) {
    forall t :: t in y.threads ==> y.threads[t].Refused? || y.threads[t].Released?
  }

  predicate Granted(pc: Pc) { pc.Released? }

  /** At quiescence nothing is left over, and grants plus rejections are the attempts made. */
  lemma QuiescenceLeavesNothing(c: Config, actions: seq<Action>)
    requires After(c, actions).Some? && Quiescent(After(c, actions).value)
    ensures var y := After(c, actions).value;
            && y.shared.open == 0
            && y.shared.peers == map[]
            && Count(y.threads, Granted) + Count(y.threads, Rejected) == |y.threads|
            && y.shared.rejected == Count(y.threads, Rejected) % (MAX_U64 + 1)
  {
    ReachableInvariant(c, actions);
    var y := After(c, actions).value;
    CountZero(y.threads, HoldsSlot);
    CountPartition(y.threads, Granted, Rejected);
    WrappedIsRemainder(Count(y.threads, Rejected));
    forall peer: Peer ensures peer !in y.shared.peers {
      CountZero(y.threads, ClaimsFor(peer));
      assert PeerInv(c, y, peer);
    }
  }
}
