/** The RPC-side logic of cmd/loopd/server/swapclient_server.go: confirmation
    target validation, the mapping of swap states and types to their RPC
    enums, the registry of the latest status per swap and of monitor
    subscribers, and the snapshot a new `Monitor` stream starts with. */
module SwapClientServer {
  import opened Wrappers
  import opened OrderedKeys

  /** How many completed swaps a monitor snapshot keeps. */
  const CompletedSwapsCount: nat := 5
  /** The least confirmation target a client may ask for. */
  const MinConfTarget: int := 2
  /** The HTLC confirmation target of loop-in requests. */
  const DefaultConfTarget: int := 6

  type Hash = nat

  // ---------------------------------------------------------------------------
  // Confirmation targets

  datatype ConfTargetError = ConfTargetTooLow(min: int) // "a confirmation target of at least %v must be provided"

  /** `validateConfTarget` as written: the default is ignored, so an unset (0)
      target is rejected like any other target below 2. */
  function ValidateConfTarget(target: int, defaultTarget: int): (r: Result<int, ConfTargetError>)
    ensures r.Success? <==> target >= MinConfTarget
    ensures r.Success? ==> r.value == target
    ensures r.Failure? ==> r.error == ConfTargetTooLow(MinConfTarget)
  {
    if target < MinConfTarget then Failure(ConfTargetTooLow(MinConfTarget)) else Success(target)
  }

  /** The documented behaviour is not the written one: an unset target does
      not fall back to the default, and the default never affects the result. */
  lemma UnsetTargetIsRejected(defaultTarget: int, otherDefault: int, target: int)
    ensures ValidateConfTarget(0, defaultTarget).Failure?
    ensures ValidateConfTarget(target, defaultTarget) == ValidateConfTarget(target, otherDefault)
  {
  }

  /** The behaviour the doc comment of `validateConfTarget` describes: 0 means
      "use the default", other targets below 2 are rejected. */
  function ValidateConfTargetWithDefault(target: int, defaultTarget: int): (r: Result<int, ConfTargetError>)
    ensures target == 0 ==> r == Success(defaultTarget)
    ensures target != 0 ==> r == ValidateConfTarget(target, defaultTarget)
  {
    if target == 0 then Success(defaultTarget) else ValidateConfTarget(target, defaultTarget)
  }

  /** With the default applied, every accepted target is either the one given
      (at least 2) or the default, and an unset target is accepted whenever the
      default itself is a valid target. */
  lemma {:induction false} DefaultedTargetIsValid(target: int, defaultTarget: int)
    requires defaultTarget >= MinConfTarget
    ensures ValidateConfTargetWithDefault(target, defaultTarget).Success? <==> target == 0 || target >= MinConfTarget
    ensures ValidateConfTargetWithDefault(target, defaultTarget).Success? ==>
      ValidateConfTargetWithDefault(target, defaultTarget).value >= MinConfTarget
  {
    if target != 0 {
      assert ValidateConfTargetWithDefault(target, defaultTarget) == ValidateConfTarget(target, defaultTarget);
    }
  }

  // ---------------------------------------------------------------------------
  // Swap information and its RPC form

  /** `loopdb.SwapState`: the five states with their own RPC value, and every
      other state by its code. */
  datatype SwapState =
    | Initiated
    | PreimageRevealed
    | HtlcPublished
    | InvoiceSettled
    | Succeeded
    | OtherState(code: nat)

  datatype SwapType = TypeIn | TypeOut | OtherType(code: nat)

  datatype RpcSwapState =
    | RpcInitiated
    | RpcPreimageRevealed
    | RpcHtlcPublished
    | RpcInvoiceSettled
    | RpcSuccess
    | RpcFailed

  datatype RpcSwapType = RpcLoopIn | RpcLoopOut

  /** `loop.SwapInfo`, the fields the server reads. Times are Unix nanoseconds;
      the HTLC address is kept in its encoded form. */
  datatype SwapInfo = SwapInfo(
    swapHash: Hash,
    state: SwapState,
    swapType: SwapType,
    amountRequested: int,
    initiationTime: int,
    lastUpdate: int,
    htlcAddress: string,
    costServer: int,
    costOnchain: int,
    costOffchain: int)

  datatype SwapStatus = SwapStatus(
    amt: int,
    id: Hash,
    state: RpcSwapState,
    initiationTime: int,
    lastUpdateTime: int,
    htlcAddress: string,
    swapType: RpcSwapType,
    costServer: int,
    costOnchain: int,
    costOffchain: int)

  datatype MarshallError = UnknownSwapType // "unknown swap type"

  /** The state switch of `marshallSwap`: every state without its own RPC value
      is reported as FAILED. */
  function MarshallState(s: SwapState): (r: RpcSwapState)
    ensures r == RpcFailed <==> s.OtherState?
  {
    match s
    case Initiated => RpcInitiated
    case PreimageRevealed => RpcPreimageRevealed
    case HtlcPublished => RpcHtlcPublished
    case InvoiceSettled => RpcInvoiceSettled
    case Succeeded => RpcSuccess
    case OtherState(_) => RpcFailed
  }

  /** The client's reading of an RPC state: FAILED names no single state. */
  function UnmarshallState(r: RpcSwapState): Option<SwapState> {
    match r
    case RpcInitiated => Some(Initiated)
    case RpcPreimageRevealed => Some(PreimageRevealed)
    case RpcHtlcPublished => Some(HtlcPublished)
    case RpcInvoiceSettled => Some(InvoiceSettled)
    case RpcSuccess => Some(Succeeded)
    case RpcFailed => None
  }

  /** The five named states survive the RPC mapping unchanged; all others
      collapse into FAILED, so the mapping is injective exactly on the named states. */
  lemma StateMappingRoundTrip(s: SwapState, t: SwapState)
    ensures !s.OtherState? ==> UnmarshallState(MarshallState(s)) == Some(s)
    ensures s.OtherState? ==> UnmarshallState(MarshallState(s)) == None
    ensures MarshallState(s) == MarshallState(t) && !s.OtherState? ==> s == t
  {
  }

  /** The type switch of `marshallSwap`. */
  function MarshallType(t: SwapType): (r: Result<RpcSwapType, MarshallError>)
    ensures r.Failure? <==> t.OtherType?
  {
    match t
    case TypeIn => Success(RpcLoopIn)
    case TypeOut => Success(RpcLoopOut)
    case OtherType(_) => Failure(UnknownSwapType)
  }

  function UnmarshallType(r: RpcSwapType): SwapType {
    match r
    case RpcLoopIn => TypeIn
    case RpcLoopOut => TypeOut
  }

  /** Loop-in and loop-out map to distinct RPC types and back. */
  lemma TypeMappingRoundTrip(t: SwapType)
    ensures MarshallType(t).Success? ==> UnmarshallType(MarshallType(t).value) == t
  {
  }

  /** `marshallSwap`. */
  function MarshallSwap(info: SwapInfo): (r: Result<SwapStatus, MarshallError>)
    ensures r.Failure? <==> info.swapType.OtherType?
    ensures r.Success? ==>
      && r.value.id == info.swapHash
      && UnmarshallType(r.value.swapType) == info.swapType
      && (info.state.OtherState? <==> r.value.state == RpcFailed)
      && (!info.state.OtherState? ==> UnmarshallState(r.value.state) == Some(info.state))
      && r.value.amt == info.amountRequested
      && r.value.lastUpdateTime == info.lastUpdate
      && r.value.initiationTime == info.initiationTime
      && r.value.htlcAddress == info.htlcAddress
      && r.value.costServer == info.costServer
      && r.value.costOnchain == info.costOnchain
      && r.value.costOffchain == info.costOffchain
  {
    match MarshallType(info.swapType)
    case Failure(e) => Failure(e)
    case Success(swapType) =>
      StateMappingRoundTrip(info.state, info.state);
      Success(SwapStatus(
        info.amountRequested, info.swapHash, MarshallState(info.state),
        info.initiationTime, info.lastUpdate, info.htlcAddress, swapType,
        info.costServer, info.costOnchain, info.costOffchain))
  }

  // ---------------------------------------------------------------------------
  // Ordering by last update

  /** The sort key: `LastUpdate`, negated when the newest come first. */
  function Rank(a: SwapInfo, newestFirst: bool): int {
    if newestFirst then -a.lastUpdate else a.lastUpdate
  }

  predicate SortedBy(s: seq<SwapInfo>, newestFirst: bool) {
    forall i, j :: 0 <= i < j < |s| ==> Rank(s[i], newestFirst) <= Rank(s[j], newestFirst)
  }

  function Insert(x: SwapInfo, s: seq<SwapInfo>, newestFirst: bool): seq<SwapInfo>
    decreases |s|
  {
    if s == [] then [x]
    else if Rank(x, newestFirst) <= Rank(s[0], newestFirst) then [x] + s
    else [s[0]] + Insert(x, s[1..], newestFirst)
  }

  /** A stand-in for `sort.Slice` with a `LastUpdate` comparison. `sort.Slice`
      is not stable, so only sortedness and the permutation are relied upon. */
  function Sort(s: seq<SwapInfo>, newestFirst: bool): seq<SwapInfo>
    decreases |s|
  {
    if s == [] then [] else Insert(s[0], Sort(s[1..], newestFirst), newestFirst)
  }

  lemma {:induction false} InsertPermutes(x: SwapInfo, s: seq<SwapInfo>, newestFirst: bool)
    ensures multiset(Insert(x, s, newestFirst)) == multiset(s) + multiset{x}
    decreases |s|
  {
    if s != [] {
      assert s == [s[0]] + s[1..];
      if Rank(x, newestFirst) > Rank(s[0], newestFirst) {
        InsertPermutes(x, s[1..], newestFirst);
      }
    }
  }

  /** Inserting keeps every element at or above a bound that `x` and all of `s` meet. */
  lemma {:induction false} InsertLowerBound(x: SwapInfo, s: seq<SwapInfo>, newestFirst: bool, bound: int)
    requires bound <= Rank(x, newestFirst)
    requires forall i :: 0 <= i < |s| ==> bound <= Rank(s[i], newestFirst)
    ensures forall i :: 0 <= i < |Insert(x, s, newestFirst)| ==> bound <= Rank(Insert(x, s, newestFirst)[i], newestFirst)
    decreases |s|
  {
    if s != [] && Rank(x, newestFirst) > Rank(s[0], newestFirst) {
      InsertLowerBound(x, s[1..], newestFirst, bound);
      var r := Insert(x, s, newestFirst);
      forall i | 1 <= i < |r| ensures bound <= Rank(r[i], newestFirst) {
        assert r[i] == Insert(x, s[1..], newestFirst)[i - 1];
      }
    }
  }

  lemma {:induction false} InsertSorted(x: SwapInfo, s: seq<SwapInfo>, newestFirst: bool)
    requires SortedBy(s, newestFirst)
    ensures SortedBy(Insert(x, s, newestFirst), newestFirst)
    decreases |s|
  {
    if s != [] && Rank(x, newestFirst) > Rank(s[0], newestFirst) {
      var rest := Insert(x, s[1..], newestFirst);
      InsertSorted(x, s[1..], newestFirst);
      InsertLowerBound(x, s[1..], newestFirst, Rank(s[0], newestFirst));
      var r := [s[0]] + rest;
      forall i, j | 0 <= i < j < |r| ensures Rank(r[i], newestFirst) <= Rank(r[j], newestFirst) {
        assert r[j] == rest[j - 1];
        if i > 0 {
          assert r[i] == rest[i - 1];
        }
      }
    }
  }

  /** The stand-in sort yields a sorted permutation of its input. */
  lemma {:induction false} SortSorted(s: seq<SwapInfo>, newestFirst: bool)
    ensures SortedBy(Sort(s, newestFirst), newestFirst)
    ensures multiset(Sort(s, newestFirst)) == multiset(s)
    decreases |s|
  {
    if s != [] {
      SortSorted(s[1..], newestFirst);
      InsertSorted(s[0], Sort(s[1..], newestFirst), newestFirst);
      InsertPermutes(s[0], Sort(s[1..], newestFirst), newestFirst);
      assert s == [s[0]] + s[1..];
    }
  }

  // ---------------------------------------------------------------------------
  // The Monitor snapshot

  /** The completed swaps the snapshot keeps: the first five of the newest-first order. */
  function Keep(newestFirst: seq<SwapInfo>): (kept: seq<SwapInfo>)
    ensures |kept| == if |newestFirst| > CompletedSwapsCount then CompletedSwapsCount else |newestFirst|
    ensures kept == newestFirst[..|kept|]
  {
    if |newestFirst| > CompletedSwapsCount then newestFirst[..CompletedSwapsCount] else newestFirst
  }

  /** Lines 243-263 of `Monitor`: sort the completed swaps newest first, keep
      five, append them to the pending ones and sort oldest first. */
  function SelectSnapshot(pending: seq<SwapInfo>, completed: seq<SwapInfo>): seq<SwapInfo> {
    var kept := Keep(Sort(completed, true));
    Sort(pending + kept, false)
  }

  /** Of the completed swaps, at most five are kept (all of them when there
      are fewer); kept and dropped together are exactly the completed swaps, and
      no dropped swap is newer than a kept one. */
  lemma {:induction false} KeepsNewest(completed: seq<SwapInfo>)
    ensures var byNewest := Sort(completed, true);
      var kept := Keep(byNewest);
      var dropped := byNewest[|kept|..];
      && multiset(kept) + multiset(dropped) == multiset(completed)
      && |kept| == (if |completed| > CompletedSwapsCount then CompletedSwapsCount else |completed|)
      && (forall x, y :: x in dropped && y in kept ==> x.lastUpdate <= y.lastUpdate)
  {
    var byNewest := Sort(completed, true);
    SortSorted(completed, true);
    assert |byNewest| == |completed| by {
      assert |multiset(byNewest)| == |multiset(completed)|;
    }
    var kept := Keep(byNewest);
    var dropped := byNewest[|kept|..];
    assert byNewest == kept + dropped;
    forall x, y | x in dropped && y in kept ensures x.lastUpdate <= y.lastUpdate {
      var i :| 0 <= i < |dropped| && dropped[i] == x;
      var j :| 0 <= j < |kept| && kept[j] == y;
      assert byNewest[j] == y && byNewest[|kept| + i] == x;
      assert Rank(byNewest[j], true) <= Rank(byNewest[|kept| + i], true);
    }
  }

  /** The snapshot is sorted oldest first and is a permutation of all pending
      swaps plus the kept completed ones. */
  lemma {:induction false} SnapshotSelection(pending: seq<SwapInfo>, completed: seq<SwapInfo>)
    ensures SortedBy(SelectSnapshot(pending, completed), false)
    ensures multiset(SelectSnapshot(pending, completed)) == multiset(pending) + multiset(Keep(Sort(completed, true)))
  {
    var kept := Keep(Sort(completed, true));
    SortSorted(pending + kept, false);
  }

  /** The registered swaps among `keys`, split into pending and completed, in
      ascending hash order (one order Go's map iteration may take). */
  ghost function PartitionFrom(swaps: map<Hash, SwapInfo>, isPending: SwapState -> bool, keys: set<Hash>)
    : (seq<SwapInfo>, seq<SwapInfo>)
    requires keys <= swaps.Keys
    decreases keys
  {
    if keys == {} then ([], [])
    else
      var k := MinKey(keys);
      var rest := PartitionFrom(swaps, isPending, keys - {k});
      if isPending(swaps[k].state) then ([swaps[k]] + rest.0, rest.1)
      else (rest.0, [swaps[k]] + rest.1)
  }

  /** Every registered swap lands in exactly one half, the pending half holds
      exactly the pending ones, and nothing else enters either half. */
  lemma {:induction false} PartitionComplete(swaps: map<Hash, SwapInfo>, isPending: SwapState -> bool, keys: set<Hash>)
    requires keys <= swaps.Keys
    ensures var p := PartitionFrom(swaps, isPending, keys);
      && |p.0| + |p.1| == |keys|
      && (forall k :: k in keys && isPending(swaps[k].state) ==> swaps[k] in p.0)
      && (forall k :: k in keys && !isPending(swaps[k].state) ==> swaps[k] in p.1)
      && (forall x :: x in p.0 ==> isPending(x.state) && exists k :: k in keys && swaps[k] == x)
      && (forall x :: x in p.1 ==> !isPending(x.state) && exists k :: k in keys && swaps[k] == x)
    decreases keys
  {
    if keys != {} {
      var k := MinKey(keys);
      PartitionComplete(swaps, isPending, keys - {k});
      var rest := PartitionFrom(swaps, isPending, keys - {k});
      assert |keys - {k}| == |keys| - 1;
      forall x | x in rest.0 ensures exists k' :: k' in keys && swaps[k'] == x {
        var k' :| k' in keys - {k} && swaps[k'] == x;
      }
      forall x | x in rest.1 ensures exists k' :: k' in keys && swaps[k'] == x {
        var k' :| k' in keys - {k} && swaps[k'] == x;
      }
    }
  }

  /** The snapshot of the whole registry: oldest first, it contains every
      pending swap, only registered swaps, and besides the pending ones at most
      five completed ones. */
  lemma {:induction false} SnapshotOfRegistry(swaps: map<Hash, SwapInfo>, isPending: SwapState -> bool)
    ensures var p := PartitionFrom(swaps, isPending, swaps.Keys);
      var snap := SelectSnapshot(p.0, p.1);
      && SortedBy(snap, false)
      && (forall h :: h in swaps && isPending(swaps[h].state) ==> swaps[h] in snap)
      && (forall x :: x in snap ==> exists h :: h in swaps && swaps[h] == x)
      && |snap| == |p.0| + (if |p.1| > CompletedSwapsCount then CompletedSwapsCount else |p.1|)
  {
    var p := PartitionFrom(swaps, isPending, swaps.Keys);
    var snap := SelectSnapshot(p.0, p.1);
    var kept := Keep(Sort(p.1, true));
    PartitionComplete(swaps, isPending, swaps.Keys);
    SnapshotSelection(p.0, p.1);
    KeepsNewest(p.1);
    assert |snap| == |multiset(snap)|;
    forall h | h in swaps && isPending(swaps[h].state) ensures swaps[h] in snap {
      assert swaps[h] in multiset(p.0);
      assert swaps[h] in multiset(snap);
    }
    forall x | x in snap ensures exists h :: h in swaps && swaps[h] == x {
      assert x in multiset(snap);
      if x !in multiset(p.0) {
        assert x in multiset(kept);
        assert x in multiset(p.1);
        assert x in p.1;
      } else {
        assert x in p.0;
      }
    }
  }

  // ---------------------------------------------------------------------------
  // The registry

  /** The package-level `swaps`, `subscribers` and `nextSubscriberID`. A
      subscriber's channel is modelled by the updates forwarded to it. */
  class Registry {
    var swaps: map<Hash, SwapInfo>
    var subscribers: map<nat, seq<SwapInfo>>
    var nextSubscriberID: nat

    ghost predicate Valid()
      reads this
    {
      && (forall h :: h in swaps ==> swaps[h].swapHash == h)
      && (forall id :: id in subscribers ==> id < nextSubscriberID)
    }

    constructor ()
      ensures Valid() && swaps == map[] && subscribers == map[] && nextSubscriberID == 0
    {
      swaps := map[];
      subscribers := map[];
      nextSubscriberID := 0;
    }

    /** Lines 50-58 of `New`: load the stored swaps, a later entry for a hash
        replacing an earlier one. A failed fetch is returned and nothing is loaded. */
    method Load(fetched: Result<seq<SwapInfo>, string>) returns (err: Option<string>)
      requires Valid()
      modifies this
      ensures Valid()
      ensures fetched.Failure? ==> err == Some(fetched.error) && swaps == old(swaps)
      ensures fetched.Success? ==> err == None && swaps == Overwrite(old(swaps), fetched.value)
      ensures subscribers == old(subscribers) && nextSubscriberID == old(nextSubscriberID)
    {
      if fetched.Failure? {
        return Some(fetched.error);
      }
      var list := fetched.value;
      var i := 0;
      while i < |list|
        invariant 0 <= i <= |list|
        invariant Valid() && Overwrite(old(swaps), list) == Overwrite(swaps, list[i..])
        invariant subscribers == old(subscribers) && nextSubscriberID == old(nextSubscriberID)
      {
        assert list[i..][0] == list[i] && list[i..][1..] == list[i + 1..];
        swaps := swaps[list[i].swapHash := list[i]];
        i := i + 1;
      }
      return None;
    }

    /** The `statusChan` arm of the broadcast goroutine: record the latest
        status of the swap, then forward it to every subscriber. */
    method StatusUpdate(swap: SwapInfo)
      requires Valid()
      modifies this
      ensures Valid()
      ensures swaps == old(swaps)[swap.swapHash := swap]
      ensures subscribers.Keys == old(subscribers).Keys
      ensures forall id :: id in subscribers ==> subscribers[id] == old(subscribers)[id] + [swap]
      ensures nextSubscriberID == old(nextSubscriberID)
    {
      swaps := swaps[swap.swapHash := swap];
      var remaining := subscribers.Keys;
      while remaining != {}
        invariant remaining <= subscribers.Keys == old(subscribers).Keys
        invariant forall id :: id in remaining ==> subscribers[id] == old(subscribers)[id]
        invariant forall id :: id in subscribers && id !in remaining ==> subscribers[id] == old(subscribers)[id] + [swap]
        invariant Valid() && swaps == old(swaps)[swap.swapHash := swap] && nextSubscriberID == old(nextSubscriberID)
        decreases remaining
      {
        var sub :| sub in remaining;
        subscribers := subscribers[sub := subscribers[sub] + [swap]];
        remaining := remaining - {sub};
      }
    }

    /** Lines 219-232 and 243-263 of `Monitor`: register a new subscriber under
        `nextSubscriberID`, then build the snapshot it starts with. */
    method Monitor(isPending: SwapState -> bool) returns (id: nat, snapshot: seq<SwapInfo>)
      requires Valid()
      modifies this
      ensures Valid()
      ensures id == old(nextSubscriberID) && nextSubscriberID == id + 1
      ensures id !in old(subscribers) && subscribers == old(subscribers)[id := []]
      ensures swaps == old(swaps)
      ensures var p := PartitionFrom(swaps, isPending, swaps.Keys); snapshot == SelectSnapshot(p.0, p.1)
    {
      id := nextSubscriberID;
      nextSubscriberID := nextSubscriberID + 1;
      subscribers := subscribers[id := []];

      var pendingSwaps: seq<SwapInfo> := [];
      var completedSwaps: seq<SwapInfo> := [];
      var remaining := swaps.Keys;
      ghost var all := PartitionFrom(swaps, isPending, swaps.Keys);
      assert pendingSwaps + all.0 == all.0 && completedSwaps + all.1 == all.1;
      while remaining != {}
        invariant remaining <= swaps.Keys
        invariant Valid() && swaps == old(swaps) && subscribers == old(subscribers)[id := []]
        invariant id == old(nextSubscriberID) && nextSubscriberID == id + 1
        invariant var all := PartitionFrom(swaps, isPending, swaps.Keys);
          var rest := PartitionFrom(swaps, isPending, remaining);
          all == (pendingSwaps + rest.0, completedSwaps + rest.1)
        decreases remaining
      {
        MinKeyExists(remaining);
        var h :| IsMinKey(remaining, h);
        assert MinKey(remaining) == h;
        var rest := PartitionFrom(swaps, isPending, remaining - {h});
        if isPending(swaps[h].state) {
          assert pendingSwaps + ([swaps[h]] + rest.0) == (pendingSwaps + [swaps[h]]) + rest.0;
          pendingSwaps := pendingSwaps + [swaps[h]];
        } else {
          assert completedSwaps + ([swaps[h]] + rest.1) == (completedSwaps + [swaps[h]]) + rest.1;
          completedSwaps := completedSwaps + [swaps[h]];
        }
        remaining := remaining - {h};
      }
      assert pendingSwaps + [] == pendingSwaps && completedSwaps + [] == completedSwaps;

      var byNewest := Sort(completedSwaps, true);
      if |byNewest| > CompletedSwapsCount {
        byNewest := byNewest[..CompletedSwapsCount];
      }
      var filtered := pendingSwaps + byNewest;
      snapshot := Sort(filtered, false);
    }

    /** The deferred cleanup of `Monitor`: remove exactly this subscriber. */
    method Unsubscribe(id: nat)
      requires Valid()
      modifies this
      ensures Valid()
      ensures subscribers == old(subscribers) - {id}
      ensures swaps == old(swaps) && nextSubscriberID == old(nextSubscriberID)
    {
      subscribers := subscribers - {id};
    }
  }

  /** The swap map after storing each swap of `list` in turn under its hash. */
  function Overwrite(m: map<Hash, SwapInfo>, list: seq<SwapInfo>): map<Hash, SwapInfo>
    decreases |list|
  {
    if list == [] then m else Overwrite(m[list[0].swapHash := list[0]], list[1..])
  }

  /** After loading, each hash maps to the last swap listed under it. */
  lemma {:induction false} OverwriteLastWins(m: map<Hash, SwapInfo>, list: seq<SwapInfo>, i: nat)
    requires i < |list|
    requires forall j :: i < j < |list| ==> list[j].swapHash != list[i].swapHash
    ensures list[i].swapHash in Overwrite(m, list)
    ensures Overwrite(m, list)[list[i].swapHash] == list[i]
    decreases |list|
  {
    var m' := m[list[0].swapHash := list[0]];
    if i > 0 {
      forall j | i - 1 < j < |list[1..]| ensures list[1..][j].swapHash != list[1..][i - 1].swapHash {
        assert list[1..][j] == list[j + 1];
      }
      OverwriteLastWins(m', list[1..], i - 1);
    } else {
      OverwriteUnlisted(m', list[1..], list[0].swapHash);
    }
  }

  /** Hashes not listed keep their entry, or their absence. */
  lemma {:induction false} OverwriteUnlisted(m: map<Hash, SwapInfo>, list: seq<SwapInfo>, h: Hash)
    requires forall j :: 0 <= j < |list| ==> list[j].swapHash != h
    ensures h in Overwrite(m, list) <==> h in m
    ensures h in m ==> Overwrite(m, list)[h] == m[h]
    decreases |list|
  {
    if list != [] {
      forall j | 0 <= j < |list[1..]| ensures list[1..][j].swapHash != h {
        assert list[1..][j] == list[j + 1];
      }
      OverwriteUnlisted(m[list[0].swapHash := list[0]], list[1..], h);
    }
  }

  /** Loading keeps every swap stored under its own hash. */
  lemma {:induction false} OverwriteKeyed(m: map<Hash, SwapInfo>, list: seq<SwapInfo>)
    requires forall h :: h in m ==> m[h].swapHash == h
    ensures forall h :: h in Overwrite(m, list) ==> Overwrite(m, list)[h].swapHash == h
    decreases |list|
  {
    if list != [] {
      OverwriteKeyed(m[list[0].swapHash := list[0]], list[1..]);
    }
  }

  /** Lines 265-270 of `Monitor`: marshal and send the snapshot in order,
      stopping at the first swap that cannot be marshalled. */
  method SendSnapshot(snapshot: seq<SwapInfo>) returns (sent: seq<SwapStatus>, err: Option<MarshallError>)
    ensures err.None? <==> forall i :: 0 <= i < |snapshot| ==> !snapshot[i].swapType.OtherType?
    ensures |sent| <= |snapshot|
    ensures err.Some? ==> err == Some(UnknownSwapType) && |sent| < |snapshot| && snapshot[|sent|].swapType.OtherType?
    ensures forall i :: 0 <= i < |sent| ==> Success(sent[i]) == MarshallSwap(snapshot[i])
    ensures err.None? ==> |sent| == |snapshot|
  {
    sent := [];
    var i := 0;
    while i < |snapshot|
      invariant 0 <= i <= |snapshot| && |sent| == i
      invariant forall j :: 0 <= j < i ==> !snapshot[j].swapType.OtherType?
      invariant forall j :: 0 <= j < i ==> Success(sent[j]) == MarshallSwap(snapshot[j])
    {
      var status := MarshallSwap(snapshot[i]);
      if status.Failure? {
        return sent, Some(status.error);
      }
      sent := sent + [status.value];
      i := i + 1;
    }
    return sent, None;
  }
}
