/**
  The connection limit: a global compare-and-swap counter and a per-peer map behind a
  lock, taken in that order of acquisition and given back on drop.

  `ConnectionLimit` is the object; each of its small methods is one atomic operation
  or one lock section. The module LimitsRuns interleaves those sections for any number
  of threads.
 */
module Limits {
  import opened Core

  type Peer = seq<byte>

  /** `fetch_add(1)` on a `u64`, which wraps. */
  function Succ(x: u64): u64 {
    if x == MAX_U64 then 0 else x + 1
  }

  /** `fetch_sub(1)` on a `u64`, which wraps. */
  function Pred(x: u64): u64 {
    if x == 0 then MAX_U64 else x - 1
  }

  datatype Config = Config(max: u64, perPeer: Option<u64>)

  /** The fields every thread shares. */
  datatype Shared = Shared(open: u64, rejected: u64, rejectedPerPeer: u64, peers: map<Peer, u64>)

  // ------------------------------------------------------ the lock sections

  function PeerCount(s: Shared, peer: Peer): u64 {
    if peer in s.peers then s.peers[peer] else 0
  }

  /** First lock section: claim a per-peer slot, or count a rejection. */
  function ClaimPeer(s: Shared, perPeer: u64, peer: Peer): (Shared, bool) {
    if PeerCount(s, peer) >= perPeer then
      (s.(rejected := Succ(s.rejected), rejectedPerPeer := Succ(s.rejectedPerPeer)), false)
    else
      (s.(peers := s.peers[peer := PeerCount(s, peer) + 1]), true)
  }

  /** Second lock section, on rollback and on drop: give a per-peer slot back. */
  function ReturnPeer(s: Shared, peer: Peer): Shared {
    if peer !in s.peers then s
    else
      var left := Pred(s.peers[peer]);
      s.(peers := if left == 0 then s.peers - {peer} else s.peers[peer := left])
  }

  function RejectGlobal(s: Shared): Shared {
    s.(rejected := Succ(s.rejected))
  }

  // -------------------------------------------------------------- the object

  class ConnectionLimit {
    const max: u64
    const perPeer: Option<u64>
    var open: u64
    var rejected: u64
    var rejectedPerPeer: u64
    var peers: map<Peer, u64>

    function View(): Shared
      reads this
    {
      Shared(open, rejected, rejectedPerPeer, peers)
    }

    /** No zero entry is left behind, and the global count is within its bound. */
    predicate Valid()
      reads this
    {
      open <= max && forall peer :: peer in peers ==> peers[peer] > 0
    }

    constructor (max: u64, perPeer: Option<u64>)
      ensures Valid() && View() == Shared(0, 0, 0, map[])
      ensures this.max == max && this.perPeer == perPeer
    {
      this.max, this.perPeer := max, perPeer;
      open, rejected, rejectedPerPeer, peers := 0, 0, 0, map[];
    }

    method TryClaimPeer(peer: Peer) returns (claimed: bool)
      requires Valid() && perPeer.Some?
      modifies this
      ensures Valid()
      ensures (View(), claimed) == ClaimPeer(old(View()), perPeer.value, peer)
    {
      if peer !in peers {
        peers := peers[peer := 0];
      }
      var count := peers[peer];
      if count >= perPeer.value {
        rejectedPerPeer := Succ(rejectedPerPeer);
        rejected := Succ(rejected);
        if count == 0 {
          peers := peers - {peer};
          assert peers == old(peers);
        }
        return false;
      }
      peers := peers[peer := count + 1];
      assert peers == old(peers)[peer := count + 1];
      return true;
    }

    method GiveBackPeer(peer: Peer)
      requires Valid()
      modifies this`peers
      ensures Valid()
      ensures View() == ReturnPeer(old(View()), peer)
    {
      if peer in peers {
        peers := peers[peer := peers[peer] - 1];
        if peers[peer] == 0 {
          peers := peers - {peer};
          assert peers == old(peers) - {peer};
        }
      }
    }

    /**
      `acquire_global` when no other thread interferes. `spurious` is how often the weak
      exchange fails although the value is the expected one.
     */
    method AcquireGlobal(spurious: nat) returns (granted: bool)
      requires Valid()
      modifies this`open, this`rejected
      ensures Valid()
      ensures granted <==> old(open) < max
      ensures View() == if granted then old(View()).(open := old(open) + 1) else RejectGlobal(old(View()))
    {
      var current := open;
      var failures := spurious;
      while true
        invariant current == open == old(open) && rejected == old(rejected)
        decreases failures
      {
        if current >= max {
          rejected := Succ(rejected);
          return false;
        }
        if open == current && failures == 0 {
          open := current + 1;
          return true;
        }
        current := open;
        failures := failures - 1;
      }
    }

    /**
      `try_acquire_for` without interference: granted exactly when both ceilings allow
      it, and a refusal by the global ceiling leaves the per-peer map as it was.
     */
    method TryAcquireFor(peer: Peer, spurious: nat) returns (granted: bool)
      requires Valid()
      modifies this
      ensures Valid()
      ensures granted <==>
                old(open) < max && (perPeer.Some? ==> old(PeerCount(View(), peer)) < perPeer.value)
      ensures granted ==> open == old(open) + 1 && rejected == old(rejected)
      ensures !granted ==> open == old(open) && peers == old(peers) && rejected == Succ(old(rejected))
      ensures granted && perPeer.Some? ==> peers == old(peers)[peer := old(PeerCount(View(), peer)) + 1]
      ensures perPeer.None? ==> peers == old(peers)
    {
      if perPeer.Some? {
        var claimed := TryClaimPeer(peer);
        if !claimed {
          return false;
        }
        granted := AcquireGlobal(spurious);
        if !granted {
          GiveBackPeer(peer);
          assert peers == old(peers);
        }
        return;
      }
      granted := AcquireGlobal(spurious);
    }

    /** Dropping a permit. */
    method Release(peer: Option<Peer>)
      requires Valid() && open > 0
      modifies this`open, this`peers
      ensures Valid()
      ensures var freed := old(View()).(open := old(open) - 1);
              View() == if peer.Some? then ReturnPeer(freed, peer.value) else freed
    {
      open := open - 1;
      if peer.Some? {
        GiveBackPeer(peer.value);
      }
    }
  }
}
