/** The two threads' termination handlers as the objects they are: flags and states changed in place, each method proved to
    do what the shutdown protocol's step functions say. */
module TerminationThreads {
  import opened Messages
  import opened TerminationSpec

  class PropagatorControl {
    var state: PropPhase
    var load: nat
    var ownDirty: bool
    var waiting: Option<nat>
    var haveReceivedDsTerm: bool
    var haveRepliedDsTerm: bool
    var haveStoppedTimerThr: bool
    var haveStoppedRecvThr: bool

    ghost function View(): Prop
      reads this
    {
      Prop(state, load, ownDirty, waiting, haveReceivedDsTerm, haveRepliedDsTerm, haveStoppedTimerThr, haveStoppedRecvThr)
    }

    constructor ()
      ensures View() == PROP
    {
      state, load, ownDirty, waiting := PRun, 0, false, None;
      haveReceivedDsTerm, haveRepliedDsTerm, haveStoppedTimerThr, haveStoppedRecvThr := false, false, false, false;
    }

    method OnUpdateLog(more: nat)
      modifies this
      ensures View() == OnLog(old(View()), more)
    {
      if state != PRun {
        return;
      }
      load := load + more;
      ownDirty := true;
    }

    method OnUpdateBuffer(more: nat)
      modifies this
      ensures View() == OnForwarded(old(View()), more)
    {
      if state == PRun {
        load := load + more;
      }
    }

    method OnTimerFired() returns (wire: seq<OnWire>, toRecv: seq<ToRecv>)
      modifies this
      ensures PropOut(View(), wire, toRecv) == OnTimer(old(View()))
    {
      wire, toRecv := [], [];
      if load > 0 {
        if ownDirty {
          ownDirty := false;
          waiting := Some(load);
          toRecv := [MyUpdates];
        } else {
          wire := [OnWire.UpdateBuffer(load)];
        }
        load := 0;
      }
      if state == PTermPrep {
        haveStoppedTimerThr := true;
        if haveStoppedRecvThr && haveStoppedTimerThr && haveRepliedDsTerm {
          state := PTerm;
        }
      }
    }

    method OnMyUpdatesAck() returns (wire: seq<OnWire>)
      requires waiting.Some?
      modifies this
      ensures PropOut(View(), wire, []) == OnOwnAck(old(View()))
    {
      wire := [OnWire.UpdateBuffer(waiting.value)];
      waiting := None;
    }

    method OnTerminateSignal() returns (wire: seq<OnWire>, toRecv: seq<ToRecv>)
      modifies this
      ensures PropOut(View(), wire, toRecv) == OnInternalTerminate(old(View()))
    {
      state := PTermPrep;
      wire := [];
      if haveReceivedDsTerm {
        wire := [TerminateAck];
        haveRepliedDsTerm := true;
      }
      toRecv := [PropTerminate];
      load := 0;
    }

    method OnReceiverAck()
      modifies this
      ensures View() == OnRecvAck(old(View()))
    {
      haveStoppedRecvThr := true;
      if haveStoppedTimerThr && haveStoppedRecvThr && haveRepliedDsTerm {
        state := PTerm;
      }
    }

    method OnDownstreamTerminate() returns (wire: seq<OnWire>)
      modifies this
      ensures PropOut(View(), wire, []) == OnDsTerminate(old(View()))
    {
      wire := [];
      haveReceivedDsTerm := true;
      if state == PTermPrep {
        wire := [TerminateAck];
        haveRepliedDsTerm := true;
        if haveStoppedTimerThr && haveStoppedRecvThr && haveRepliedDsTerm {
          state := PTerm;
        }
      }
    }
  }

  class ReceiverControl {
    const peers: set<nat>
    const checksAtSignal: bool        // the exit check the shipped handler of ERInternalTerminate lacks
    var state: RecvPhase
    var batches: nat
    var haveReceivedPropPairTerm: bool
    var haveRepliedPropPairTerm: bool
    var peerInfo: map<nat, bool>      // has_replied_termination_, for every expected peer from the start

    ghost function Acked(): set<nat>
      reads this
    {
      set p | p in peerInfo && peerInfo[p]
    }

    ghost predicate Valid()
      reads this
    {
      peers <= peerInfo.Keys && forall p | p in peerInfo && p !in peers :: peerInfo[p]
    }

    ghost function View(): Recv
      reads this
    {
      Recv(state, batches, haveReceivedPropPairTerm, haveRepliedPropPairTerm, Acked())
    }

    constructor (peers: set<nat>, checksAtSignal: bool)
      ensures Valid() && View() == RECV && this.peers == peers && this.checksAtSignal == checksAtSignal
    {
      this.peers, this.checksAtSignal := peers, checksAtSignal;
      state, batches, haveReceivedPropPairTerm, haveRepliedPropPairTerm := RRun, 0, false, false;
      peerInfo := map p | p in peers :: false;
    }

    // The walk over the peers, which gives up at the first that has not replied.
    method HasAllPeersAckedTerm() returns (all: bool)
      requires Valid()
      ensures all <==> peers <= Acked()
    {
      var left := peerInfo.Keys;
      while left != {}
        invariant left <= peerInfo.Keys && forall p | p in peerInfo && p !in left :: peerInfo[p]
        decreases left
      {
        if forall p :: p !in left {
          assert false;
        }
        var p :| p in left;
        if !peerInfo[p] {
          assert p in peers && p !in Acked();
          return false;
        }
        left := left - {p};
      }
      all := true;
    }

    method OnOwnBatch() returns (ackOwn: bool)
      modifies this
      ensures RecvOut(View(), [], ackOwn, false) == OnMyUpdates(old(View()))
      ensures old(Valid()) ==> Valid()
    {
      if state == RRun {
        batches := batches + 1;
      }
      ackOwn := true;
    }

    method OnTerminateSignal() returns (toProp: seq<FromRecv>, publish: bool)
      requires Valid()
      modifies this
      ensures Valid() && RecvOut(View(), toProp, false, publish) == OnAppTerminate(old(View()), peers, checksAtSignal)
    {
      state := RTermSelf;
      while batches > 0
        invariant Valid() && View() == old(View()).(phase := RTermSelf, batches := batches)
      {
        batches := batches - 1;
      }
      toProp := [];
      if haveReceivedPropPairTerm {
        toProp := [RecvTerminateAck];
        haveRepliedPropPairTerm := true;
      }
      publish := peers != {};
      if checksAtSignal && haveRepliedPropPairTerm {
        var all := HasAllPeersAckedTerm();
        if all {
          state := RTerm;
        }
      }
    }

    // False is the abort.
    method OnPropagatorTerminate() returns (ok: bool, toProp: seq<FromRecv>)
      requires Valid()
      modifies this
      ensures Valid() && match OnPropTerminate(old(View()), peers)
                         case Some(out) => ok && RecvOut(View(), toProp, false, false) == out
                         case None => !ok && View() == old(View())
    {
      ok, toProp := true, [];
      if state == RRun {
        haveReceivedPropPairTerm := true;
      } else if state == RTermSelf {
        toProp := [RecvTerminateAck];
        haveRepliedPropPairTerm := true;
        var all := HasAllPeersAckedTerm();
        if all && haveRepliedPropPairTerm {
          state := RTerm;
        }
      } else {
        ok := false;
      }
    }

    method OnTerminateReply(from: nat)
      requires Valid()
      modifies this
      ensures Valid() && View() == OnTerminateAck(old(View()), from, peers)
    {
      peerInfo := peerInfo[from := true];
      assert Acked() == old(Acked()) + {from};
      var all := HasAllPeersAckedTerm();
      if all && haveRepliedPropPairTerm {
        state := RTerm;
      }
    }
  }
}
