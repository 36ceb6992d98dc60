/** The swap executor of executor.go. `run` waits for the first block height,
    then serves four kinds of event: a new swap, a finished swap, a new block
    height and a block error (plus cancellation). Each `select` arm is a method
    of `Executor`; the per-swap block queues are modelled by the heights pushed
    into them, and a stopped queue by its id in `stopped`. */
module Executor {
  import opened Wrappers
  import opened GoIntegers

  datatype Error =
    | Notifier(reason: string)   // an error from the block error channel before the first height
    | Canceled                   // `mainCtx.Err()`
    | SwapNotFound(id: int)      // "swap id %v not found in queues"
    | BlockError(reason: string) // "block error: %v"

  datatype Phase = WaitingFirstHeight | Running | Exited(err: Error)

  /** Storing a height through `uint32` and reading it back through `int32`
      gives the height back, negative heights included. */
  lemma {:induction false} HeightRoundTrip(h: int)
    requires IsInt32(h)
    ensures Int32(Uint32(h)) == h
  {
    if h < 0 {
      assert Uint32(h) == h + 0x1_0000_0000;
    }
  }

  /** The queues after height `h` has been pushed into each of them. */
  ghost function FanOut(queues: map<nat, seq<int>>, h: int): (q: map<nat, seq<int>>)
    ensures q.Keys == queues.Keys
    ensures forall id :: id in q ==> q[id] == queues[id] + [h]
  {
    map id | id in queues :: queues[id] + [h]
  }

  class Executor {
    /** `currentHeight`, the `uint32` word shared with `height()`. */
    var currentHeight: nat
    /** `run`'s local `height`, an `int32`. */
    var height: int
    /** Whether the `ready` channel has been closed. */
    var ready: bool
    var phase: Phase
    /** `blockEpochQueues`: swap id to the heights pushed into its queue. */
    var queues: map<nat, seq<int>>
    /** Ids of the queues that have been stopped. */
    var stopped: set<nat>
    var nextSwapID: nat
    /** The swaps started so far: each one's id and the height it was started with. */
    var started: seq<(nat, int)>

    ghost predicate Valid()
      reads this
    {
      && currentHeight < 0x1_0000_0000
      && IsInt32(height)
      && (ready ==> !phase.WaitingFirstHeight? && currentHeight == Uint32(height))
      && (phase.Running? ==> ready)
      && (!ready ==> currentHeight == 0 && height == 0 && queues == map[] && nextSwapID == 0)
      && (forall id :: id in queues ==> id < nextSwapID)
      && (forall id :: id in stopped ==> id < nextSwapID)
      && (phase.Running? ==> forall id :: id in queues ==> id !in stopped)
      && |started| == nextSwapID
      && (forall i :: 0 <= i < |started| ==> started[i].0 == i)
    }

    /** `newExecutor`: nothing has happened yet. */
    constructor ()
      ensures Valid() && phase == WaitingFirstHeight && !ready
      ensures queues == map[] && stopped == {} && nextSwapID == 0 && started == []
    {
      currentHeight := 0;
      height := 0;
      ready := false;
      phase := WaitingFirstHeight;
      queues := map[];
      stopped := {};
      nextSwapID := 0;
      started := [];
    }

    /** `height()`: the last stored height, or 0 before the first one. */
    function Height(): (h: int)
      requires Valid()
      reads this
      ensures !ready ==> h == 0
      ensures ready ==> h == height
    {
      HeightRoundTrip(height);
      Int32(currentHeight)
    }

    /** `setHeight`. */
    method SetHeight(h: int)
      requires Valid() && ready && IsInt32(h)
      modifies this
      ensures Valid() && height == h && Height() == h
      ensures ready == old(ready) && phase == old(phase) && queues == old(queues)
      ensures stopped == old(stopped) && nextSwapID == old(nextSwapID) && started == old(started)
    {
      height := h;
      currentHeight := Uint32(h);
    }

    /** The first block height: store it and close `ready`. */
    method FirstHeight(h: int)
      requires Valid() && phase == WaitingFirstHeight && IsInt32(h)
      modifies this
      ensures Valid() && phase == Running && ready && Height() == h
      ensures queues == map[] && stopped == old(stopped) && nextSwapID == 0 && started == []
    {
      phase := Running;
      ready := true;
      height := h;
      currentHeight := Uint32(h);
    }

    /** `run` returns `err`. After the first height, the deferred loop stops
        every queue still in the map. */
    method Exit(err: Error)
      requires Valid() && !phase.Exited?
      modifies this
      ensures Valid() && phase == Exited(err)
      ensures stopped == old(stopped) + old(queues).Keys
      ensures queues == old(queues) && ready == old(ready) && height == old(height)
      ensures currentHeight == old(currentHeight) && nextSwapID == old(nextSwapID) && started == old(started)
    {
      phase := Exited(err);
      var remaining := queues.Keys;
      while remaining != {}
        invariant remaining <= queues.Keys
        invariant stopped == old(stopped) + (queues.Keys - remaining)
        invariant Valid() && phase == Exited(err) && queues == old(queues)
        invariant ready == old(ready) && height == old(height) && currentHeight == old(currentHeight)
        invariant nextSwapID == old(nextSwapID) && started == old(started)
        decreases remaining
      {
        var id :| id in remaining;
        stopped := stopped + {id};
        remaining := remaining - {id};
      }
    }

    /** `initiateSwap` together with the `newSwaps` arm. Before the loop runs
        the send cannot be received and the caller's context ends it: nothing is
        admitted. While running, the swap gets id `nextSwapID`, which no earlier
        swap has had, live or finished, a fresh empty queue and the current
        height; then the counter increments. */
    method InitiateSwap() returns (id: Option<nat>)
      requires Valid()
      modifies this
      ensures Valid()
      ensures !old(phase).Running? ==>
                id == None && queues == old(queues) && nextSwapID == old(nextSwapID) && started == old(started)
      ensures old(phase).Running? ==>
                && id == Some(old(nextSwapID))
                && old(nextSwapID) !in old(queues)
                && old(nextSwapID) !in old(stopped)
                && (forall k :: 0 <= k < |old(started)| ==> old(started)[k].0 != old(nextSwapID))
                && queues == old(queues)[old(nextSwapID) := []]
                && nextSwapID == old(nextSwapID) + 1
                && started == old(started) + [(old(nextSwapID), height)]
      ensures stopped == old(stopped) && phase == old(phase) && height == old(height)
      ensures currentHeight == old(currentHeight) && ready == old(ready)
    {
      if !phase.Running? {
        return None;
      }
      var swapID := nextSwapID;
      queues := queues[swapID := []];
      started := started + [(swapID, height)];
      nextSwapID := nextSwapID + 1;
      return Some(swapID);
    }

    /** The `swapDoneChan` arm: stop and forget the finished swap's queue; an
        unknown id ends `run`. */
    method SwapDone(doneID: int)
      requires Valid() && phase == Running
      modifies this
      ensures Valid()
      ensures (doneID < 0 || doneID !in old(queues)) ==>
                && phase == Exited(SwapNotFound(doneID))
                && stopped == old(stopped) + old(queues).Keys && queues == old(queues)
      ensures 0 <= doneID && doneID in old(queues) ==>
                && phase == Running
                && queues == old(queues) - {doneID as nat}
                && stopped == old(stopped) + {doneID as nat}
      ensures nextSwapID == old(nextSwapID) && started == old(started) && height == old(height)
    {
      if doneID < 0 || doneID !in queues {
        Exit(SwapNotFound(doneID));
        return;
      }
      var id := doneID as nat;
      stopped := stopped + {id};
      queues := queues - {id};
    }

    /** The `blockEpochChan` arm: record the height first, then push it into
        every queue. */
    method NewHeight(h: int)
      requires Valid() && phase == Running && IsInt32(h)
      modifies this
      ensures Valid() && phase == Running && Height() == h
      ensures queues == FanOut(old(queues), h)
      ensures stopped == old(stopped) && nextSwapID == old(nextSwapID) && started == old(started)
    {
      SetHeight(h);
      var remaining := queues.Keys;
      while remaining != {}
        invariant remaining <= queues.Keys == old(queues).Keys
        invariant forall id :: id in remaining ==> queues[id] == old(queues)[id]
        invariant forall id :: id in queues && id !in remaining ==> queues[id] == old(queues)[id] + [h]
        invariant Valid() && phase == Running && height == h && Height() == h
        invariant stopped == old(stopped) && nextSwapID == old(nextSwapID) && started == old(started)
        decreases remaining
      {
        var id :| id in remaining;
        queues := queues[id := queues[id] + [h]];
        remaining := remaining - {id};
      }
    }

    /** The `blockErrorChan` arm after the first height. */
    method BlockErrorEvent(reason: string)
      requires Valid() && phase == Running
      modifies this
      ensures Valid() && phase == Exited(BlockError(reason))
      ensures stopped == old(stopped) + old(queues).Keys
      ensures queues == old(queues) && ready == old(ready) && height == old(height)
      ensures currentHeight == old(currentHeight) && nextSwapID == old(nextSwapID) && started == old(started)
    {
      Exit(BlockError(reason));
    }
  }
}
