# Loop swap client core in Dafny

This project models the sequential core of the Loop swap client (loop-out and
loop-in swaps between a Lightning node and a swap server) and proves properties
of that model. The model has seven parts:

- **Swap store** (`store.dfy`, module `SwapStore`). This is the bbolt store of `loopdb/store.go`.
  - There are two root buckets, one per swap direction. Under each swap hash they hold a nested swap bucket, which holds the serialized contract and an `updates` bucket with its sequence counter.
  - `BoltSwapStore` holds the database as a field. Its create, update and fetch methods mirror the Go code step by step.
  - Each mutating method is tied to a transaction function from the old database to the new database or an error. An error leaves the database unchanged, because bbolt rolls the transaction back.
  - Fetching visits the root bucket in ascending key order, as bbolt's `ForEach` does.
- **Output batcher** (`batcher.dfy`, module `Batcher`). This is the `Run` loop of `batcher/batcher.go`.
  - Its `select` arms are the methods `Enqueue` and `Tick`, on a class holding the pending requests and whether the ticker runs.
  - The values sent on the per-request response and error channels are appended to a delivery log (`replies.dfy`). `Await` reads off what a blocked caller receives.
- **Sweeper** (`sweeper.dfy`, module `Sweeper`). This is the sweeper's own batching loop, which has no cap, plus the legacy sweep transaction builder and the sweep fee.
- **Swap executor** (`executor.dfy`, module `Executor`). This is the event loop of `executor.go`: the first block height, new swaps, finished swaps, new heights, block errors and exit.
- **RPC server logic** (`swapclient_server.dfy`, module `SwapClientServer`).
  - Confirmation-target validation and the swap state and type mapping of `marshallSwap`.
  - The global registry of the latest status per swap and of monitor subscribers.
  - The snapshot a new `Monitor` stream starts with.
- **Mobile argument splitting** (`bindings.dfy`, module `MobileBindings`). This is the top of `Start` in `mobile/bindings.go`.
- **Swap server defaulting** (`daemon.dfy`, module `Daemon`). This is the top of `daemon` in `cmd/loopd/daemon.go`.

Shared definitions:
- `wrappers.dfy` holds `Option` and `Result`.
- `keys.dfy` holds the minimum of a finite set of keys, used to visit maps in key order.
- `wire.dfy` holds the Bitcoin transaction types and the wallet oracle.
- `requests.dfy` holds the send request that the batcher and the sweeper both queue, with its projections.
- `ints.dfy` holds Go's `int32`, `uint32` and `int64` conversions.

Wallet, signer, codecs and the preimage hash are not modelled: each one is an oracle passed in as a function-valued field. The chain notifier is not modelled either: the block heights and block errors it delivers are arguments of the executor's methods. The current time is a parameter.

## Model

| member | source | states |
|---|---|---|
| SwapStore.BucketKey | loopdb/store.go:25-33 | loop-out swaps live under "uncharge-swaps" and loop-in swaps under "loop-in", and the two keys differ |
| SwapStore.CreateLoopTx | loopdb/store.go:252-290 | fails exactly when the hash is already a key of the root bucket: "already exists" for a plain value, bbolt's refusal for an existing bucket; on success the hash holds the contract bytes and an empty updates bucket and every other entry is unchanged |
| SwapStore.CreateSwapTx | loopdb/store.go:295-330 | a hash that is not the preimage's hash is rejected before serialization; success iff hash matches, contract encodes and the hash is new; other entries unchanged; well-sequenced logs stay so |
| SwapStore.UpdateLoopTx | loopdb/store.go:334-368 | missing root bucket, missing swap and missing updates bucket each give their own error; success iff the swap and its updates bucket exist and the event encodes; then exactly one entry with id `sequence + 1` is appended, the contract and every other swap are unchanged |
| SwapStore.ApplyUpdates | loopdb/store.go:334-368 | a run of `updateLoop` calls, stopping at the first error; `ApplyUpdatesAppends` states what a successful run appends |
| SwapStore.DecodeAll | loopdb/store.go:163-175 | the inner `ForEach` over the updates bucket, in key order, aborting on the first undecodable entry; `DecodeAllDecodesEach` states its result |
| SwapStore.DecodeAllDecodesEach | loopdb/store.go:163-175 | the log decodes iff every entry decodes, and then into one event per entry, in key order, each the decoding of its own entry |
| SwapStore.LoadSwap | loopdb/store.go:133-185 | what one `ForEach` step makes of an entry: nothing for a plain value, "contract not found", "updates bucket not found", a decoding error, or the loaded swap; its properties are stated by the fetch lemmas below |
| SwapStore.FetchFrom | loopdb/store.go:132-186 | the root bucket's `ForEach` in ascending key order, aborting on the first error; `FetchInKeyOrder` states its properties |
| SwapStore.FetchSwapsView | loopdb/store.go:123-187 | "bucket does not exist" for a missing root bucket, otherwise `FetchFrom` over all its keys; `BoltSwapStore.FetchSwaps` is proved equal to it |
| SwapStore.FetchAllOrNothing | loopdb/store.go:132-186 | a fetch succeeds iff every entry of the root bucket loads; one failing swap aborts the whole fetch, with no partial result |
| SwapStore.FetchListsLoadedSwaps | loopdb/store.go:132-186 | every listed swap is the decoded contract and event log of one of the root bucket's hashes |
| SwapStore.FetchSortedByHash | loopdb/store.go:132 | swaps come out in strictly ascending hash order |
| SwapStore.FetchCoversNested | loopdb/store.go:135-137 | every nested swap bucket is listed; only plain values are skipped |
| SwapStore.FetchInKeyOrder | loopdb/store.go:120-188 | the three fetch properties together |
| SwapStore.DecodeAllSnoc | loopdb/store.go:164-172 | decoding a log extended by one entry extends the decoded events by that event |
| SwapStore.UpdateAppendsOne | loopdb/store.go:354-366 | one update keeps the contract and appends its event to the decoded log |
| SwapStore.ApplyUpdatesAppends | loopdb/store.go:334-368 | with a codec that reads back its events, N updates succeed and append exactly those N events in order, keeping the contract |
| SwapStore.ReplayAfterCreate | loopdb/store.go:252-368 | create then N updates: the fetched swap is its hash, the stored contract and exactly those N events in order |
| SwapStore.CreateTwiceFails | loopdb/store.go:266-277 | a second create of the same hash in the same direction fails, with bbolt's "bucket exists" when it gets that far |
| SwapStore.UpdateIdIsFresh | loopdb/store.go:354-366 | the new entry's id is above every earlier id, earlier entries are untouched, and the log stays well sequenced |
| SwapStore.DirectionsAreDisjoint | loopdb/store.go:345-348 | an update of a hash absent from the loop-out bucket fails with "swap not found", and a loop-in update leaves the loop-out bucket as it was |
| SwapStore.BoltSwapStore.constructor | loopdb/store.go:68-118 | both root buckets exist afterwards and every existing entry is unchanged |
| SwapStore.BoltSwapStore.CreateLoop | loopdb/store.go:252-290 | commits `CreateLoopTx`'s database on success; on error returns it and leaves the database unchanged |
| SwapStore.BoltSwapStore.CreateSwap | loopdb/store.go:295-330 | commits `CreateSwapTx`'s database or returns its error with nothing changed |
| SwapStore.BoltSwapStore.CreateLoopOut | loopdb/store.go:295-310 | `CreateSwap` in the loop-out direction |
| SwapStore.BoltSwapStore.CreateLoopIn | loopdb/store.go:315-330 | `CreateSwap` in the loop-in direction |
| SwapStore.BoltSwapStore.UpdateLoop | loopdb/store.go:334-368 | commits `UpdateLoopTx`'s database or returns its error with nothing changed, including a drawn sequence number |
| SwapStore.BoltSwapStore.UpdateLoopOut | loopdb/store.go:374-378 | `UpdateLoop` on the loop-out bucket only |
| SwapStore.BoltSwapStore.UpdateLoopIn | loopdb/store.go:384-388 | `UpdateLoop` on the loop-in bucket only |
| SwapStore.BoltSwapStore.DecodeEvents | loopdb/store.go:163-175 | the inner loop decodes the log in key order and stops at the first undecodable entry |
| SwapStore.BoltSwapStore.FetchSwaps | loopdb/store.go:120-188 | the loop over the root bucket returns what the fetch specification gives, including "bucket does not exist", "contract not found" and "updates bucket not found" |
| SwapStore.BoltSwapStore.FetchLoopOutSwaps | loopdb/store.go:193-218 | the fetch of the loop-out bucket with the loop-out contract decoder |
| SwapStore.BoltSwapStore.FetchLoopInSwaps | loopdb/store.go:223-248 | the fetch of the loop-in bucket with the loop-in contract decoder |
| Replies.Broadcast | batcher/batcher.go:116-123 | one delivery per listed request, in order, all with the same outcome |
| Replies.Await | batcher/batcher.go:166-174 | the first value sent for a caller's channels, if any; `AwaitSkips` and `AwaitBroadcast` state what it receives |
| Replies.AwaitSkips | batcher/batcher.go:166-174 | deliveries for other requests do not change what a waiting caller receives |
| Replies.AwaitBroadcast | batcher/batcher.go:116-123 | a broadcast answers exactly the requests it names, each with its outcome |
| Batcher.BatchSize | batcher/batcher.go:16 | a batch takes all pending requests, or 50 when more are pending |
| Batcher.PublishTxOuts | batcher/batcher.go:177-189 | succeeds iff the fee estimate and the send both succeed; a fee failure is returned without sending; a send failure or the sent tx is returned as the wallet gives it |
| Batcher.TickSpec | batcher/batcher.go:80-133 | the tick arm as a function of the pending list; `IdleTick`, `PublishTakesPrefix` and `TickAnswersBatchOnly` state what it does, and `Batcher.Tick` is proved equal to it |
| OutputRequests.TxOuts | batcher/batcher.go:97-108 | the outputs of the requests, in order |
| OutputRequests.RespsOf | batcher/batcher.go:116-123 | the channel identities of the requests, in order |
| Batcher.IdleTick | batcher/batcher.go:82-92 | with no cutoff strictly before now, nothing is sent, the list is unchanged and the wallet is not consulted; a cutoff equal to now does not trigger |
| Batcher.PublishTakesPrefix | batcher/batcher.go:97-133 | a publishing tick takes the first min(n, 50) requests, due or not, gives each the one outcome, keeps the rest in order, and pauses the ticker iff none remain |
| Batcher.FeeFailureFailsWholeBatch | batcher/batcher.go:183-188 | a fee-estimation failure reaches every batched request as that error, whatever `SendOutputs` would do |
| Batcher.SixtyDueRequests | batcher/batcher.go:97-133 | sixty due requests: fifty are paid by one transaction and ten stay pending with the ticker running |
| Batcher.TickAnswersBatchOnly | batcher/batcher.go:116-126 | a caller in the batch receives exactly the batch outcome; one beyond the cap receives nothing this tick |
| Batcher.AnswerPrefixKeepsConsistent | batcher/batcher.go:116-133 | answering and dropping the batch keeps the loop's invariant: ticker runs iff requests wait, and no waiting request has been answered |
| Batcher.ScanDue | batcher/batcher.go:83-88 | the scan finds a due request iff some cutoff is strictly before now |
| Batcher.CollectBatch | batcher/batcher.go:97-108 | the loop gathers the outputs of the first `BatchSize` requests and stops at the cap |
| Batcher.AnswerBatch | batcher/batcher.go:116-123 | the loop sends the one outcome to each batched request in order |
| Batcher.Batcher.constructor | batcher/batcher.go:46-66 | no requests, ticker paused, nothing delivered |
| Batcher.Batcher.Enqueue | batcher/batcher.go:73-76 | the request is appended at the end, earlier entries unchanged, and the ticker resumes |
| Batcher.Batcher.SendOutputBatched | batcher/batcher.go:144-164 | a context that ends first gives "context timeout" and nothing is queued; otherwise the request is queued with a fresh channel identity |
| Batcher.Batcher.Tick | batcher/batcher.go:80-133 | the new list, the deliveries and the ticker state are those of the tick specification, and the loop invariant holds |
| Sweeper.PublishTxOutsErrors | sweep/sweeper.go:176-196 | a fee failure is reported as "estimate fee" without calling `SendOutputs`; success iff both wallet calls succeed; a "send outputs" error only after a fee estimate |
| Sweeper.PublishTxOuts | sweep/sweeper.go:176-196 | a fee failure is returned as "estimate fee" without sending; a send failure as "send outputs"; otherwise the sent tx |
| Sweeper.TickSpec | sweep/sweeper.go:100-134 | the sweeper's tick arm as a function of the pending list; `TickPublishesAll` and `TickAnswersEveryone` state what it does, and `Sweeper.Tick` is proved equal to it |
| Sweeper.TickPublishesAll | sweep/sweeper.go:100-134 | a publishing tick pays every pending output with no cap, answers everyone with one outcome, empties the list and pauses the ticker even on failure; an idle tick changes nothing |
| Sweeper.TickAnswersEveryone | sweep/sweeper.go:123-131 | after a publishing tick every waiting caller receives the tick's outcome |
| Sweeper.Sweeper.constructor | sweep/sweeper.go:88-91 | no requests, ticker paused, nothing delivered |
| Sweeper.Sweeper.Enqueue | sweep/sweeper.go:96-98 | the request is appended and the ticker resumes |
| Sweeper.Sweeper.SendOutputBatched | sweep/sweeper.go:144-160 | a context that ends first gives "context timeout before outputs added"; otherwise the request is queued |
| Sweeper.Sweeper.Tick | sweep/sweeper.go:100-134 | the new list, the deliveries and the ticker state are those of the sweeper's tick specification |
| GoIntegers.Int64 | sweep/sweeper.go:226 | `int64` of the amount minus fee: two's complement wrap-around, identity in range |
| Sweeper.UnsignedSweep | sweep/sweeper.go:208-227 | version 2, lock time `uint32(height)`, one HTLC input without witness and with sequence 0 (the zero value of the input literal, so the lock time binds) and one output of `amount - fee` |
| Sweeper.CreateSweepTxOld | sweep/sweeper.go:199-263 | each step's failure is returned as that step's error (script, key, signing, no signature, witness), earlier steps first; when every call succeeds the result is the unsigned sweep with the witness built from the first signature |
| Sweeper.GetSweepFee | sweep/sweeper.go:268-286 | fee failure gives 0 and an "estimate fee" error; otherwise the fee for the weight of one P2WKH output plus the caller's inputs |
| GoIntegers.Uint32 | executor.go:69 | `uint32` of an `int32`: negative values wrap modulo 2^32 |
| GoIntegers.Int32 | executor.go:171 | `int32` of a `uint32`: values from 2^31 up are negative |
| Executor.HeightRoundTrip | executor.go:67-70 | storing a height as `uint32` and reading it back as `int32` gives the height back |
| Executor.FanOut | executor.go:141-147 | the queue map keeps its keys and each queue gets the height appended |
| Executor.Executor.constructor | executor.go:42-48 | waiting for the first height, not ready, no queues, counter at 0 |
| Executor.Executor.Height | executor.go:170-172 | 0 before the first height, afterwards the last height stored |
| Executor.Executor.SetHeight | executor.go:67-70 | stores the height in both the local and the shared word, nothing else changes |
| Executor.Executor.FirstHeight | executor.go:72-85 | the first height is stored and `ready` is closed, with no queues and counter 0 |
| Executor.Executor.Exit | executor.go:72-96 | `run` ends with the error and every queue still in the map is stopped |
| Executor.Executor.InitiateSwap | executor.go:99-127 | before the first height nothing is admitted; while running the swap gets id `nextSwapID`, which no earlier swap has had, live, finished or started before, a fresh empty queue and the current height, and the counter increments |
| Executor.Executor.SwapDone | executor.go:129-137 | a known id has exactly its queue stopped and removed; an unknown id ends `run` with "swap id not found" |
| Executor.Executor.NewHeight | executor.go:139-147 | the height is recorded first, then appended to every queue |
| Executor.Executor.BlockErrorEvent | executor.go:149-150 | `run` ends with the block error and every queue is stopped |
| SwapClientServer.ValidateConfTarget | cmd/loopd/server/swapclient_server.go:405-415 | accepts iff the target is at least 2 and returns it unchanged; otherwise the "at least 2" error |
| SwapClientServer.UnsetTargetIsRejected | cmd/loopd/server/swapclient_server.go:403-415 | an unset target is rejected and the default never affects the result |
| SwapClientServer.ValidateConfTargetWithDefault | cmd/loopd/server/swapclient_server.go:403-404 | 0 gives the default; other targets are validated as before |
| SwapClientServer.DefaultedTargetIsValid | cmd/loopd/server/swapclient_server.go:403-404 | with a valid default, accepted iff the target is 0 or at least 2, and every accepted target is at least 2 |
| SwapClientServer.MarshallState | cmd/loopd/server/swapclient_server.go:156-171 | FAILED exactly for the states other than the five named ones |
| SwapClientServer.StateMappingRoundTrip | cmd/loopd/server/swapclient_server.go:156-171 | the five named states map to their own RPC value and back; every other state collapses into FAILED |
| SwapClientServer.MarshallType | cmd/loopd/server/swapclient_server.go:173-181 | an error exactly for types other than loop-in and loop-out |
| SwapClientServer.TypeMappingRoundTrip | cmd/loopd/server/swapclient_server.go:173-181 | loop-in and loop-out map to their RPC types and back |
| SwapClientServer.MarshallSwap | cmd/loopd/server/swapclient_server.go:153-195 | fails iff the type is unknown; otherwise the hash, amount, initiation and last-update times, HTLC address and the three costs are carried over, and the type and state through the two mappings |
| SwapClientServer.Sort | cmd/loopd/server/swapclient_server.go:244-248 | an insertion sort standing in for `sort.Slice` by `LastUpdate`; `SortSorted` proves it gives a sorted permutation |
| SwapClientServer.InsertPermutes | cmd/loopd/server/swapclient_server.go:244-248 | inserting adds exactly the element |
| SwapClientServer.InsertSorted | cmd/loopd/server/swapclient_server.go:244-248 | inserting into a sorted list keeps it sorted |
| SwapClientServer.SortSorted | cmd/loopd/server/swapclient_server.go:244-248 | the sort yields a sorted permutation of its input |
| SwapClientServer.Keep | cmd/loopd/server/swapclient_server.go:250-253 | the first five swaps of the list, all of them when there are fewer |
| SwapClientServer.SelectSnapshot | cmd/loopd/server/swapclient_server.go:243-263 | completed swaps sorted newest first and cut to five, appended to the pending ones and sorted oldest first; `KeepsNewest` and `SnapshotSelection` state its properties |
| SwapClientServer.KeepsNewest | cmd/loopd/server/swapclient_server.go:243-253 | the kept completed swaps are at most five, kept plus dropped is the completed set, and no dropped swap is newer than a kept one |
| SwapClientServer.SnapshotSelection | cmd/loopd/server/swapclient_server.go:255-263 | the snapshot is sorted oldest first and is a permutation of the pending swaps plus the kept completed ones |
| SwapClientServer.PartitionComplete | cmd/loopd/server/swapclient_server.go:225-232 | every registered swap lands in exactly one half, pending ones in the pending half, and nothing else enters |
| SwapClientServer.PartitionFrom | cmd/loopd/server/swapclient_server.go:225-232 | the registry split into pending and completed swaps; `PartitionComplete` states that the split is exact |
| SwapClientServer.SnapshotOfRegistry | cmd/loopd/server/swapclient_server.go:225-263 | the snapshot of the registry is oldest first, holds every pending swap, holds only registered swaps, and has the pending ones plus at most five more |
| SwapClientServer.Registry.constructor | cmd/loopd/server/swapclient_server.go:33-38 | no swaps, no subscribers, counter at 0 |
| SwapClientServer.Registry.Load | cmd/loopd/server/swapclient_server.go:50-58 | a failed fetch is returned and nothing is loaded; otherwise each fetched swap is stored under its hash in turn |
| SwapClientServer.Registry.StatusUpdate | cmd/loopd/server/swapclient_server.go:68-78 | the swap's entry is overwritten and the update is forwarded to every subscriber, none added or removed |
| SwapClientServer.Registry.Monitor | cmd/loopd/server/swapclient_server.go:219-263 | the new subscriber gets id `nextSubscriberID`, which increments; the snapshot is the selection of the registry's pending and completed swaps |
| SwapClientServer.Registry.Unsubscribe | cmd/loopd/server/swapclient_server.go:236-241 | exactly that subscriber is removed |
| SwapClientServer.OverwriteLastWins | cmd/loopd/server/swapclient_server.go:56-58 | after loading, each hash maps to the last swap listed under it |
| SwapClientServer.OverwriteUnlisted | cmd/loopd/server/swapclient_server.go:56-58 | hashes not listed keep their entry or their absence |
| SwapClientServer.OverwriteKeyed | cmd/loopd/server/swapclient_server.go:56-58 | every loaded swap is stored under its own hash |
| SwapClientServer.Overwrite | cmd/loopd/server/swapclient_server.go:50-58 | each listed swap stored under its hash in turn; `OverwriteLastWins`, `OverwriteUnlisted` and `OverwriteKeyed` state the resulting map |
| SwapClientServer.SendSnapshot | cmd/loopd/server/swapclient_server.go:265-270 | swaps are marshalled and sent in order; the first unknown type stops the stream with that error |
| MobileBindings.Split | mobile/bindings.go:39 | `strings.Split(s, "--")`: at least one piece |
| MobileBindings.JoinSplit | mobile/bindings.go:39 | joining the pieces with "--" gives back the input |
| MobileBindings.PiecesHaveNoSeparator | mobile/bindings.go:39 | no piece contains "--" |
| MobileBindings.SplitCutsLeftmost | mobile/bindings.go:39 | every non-final piece is empty or does not end in '-', so a run of dashes is cut at its leftmost "--"; with the two lemmas above this fixes every cut |
| MobileBindings.NoSeparatorOnePiece | mobile/bindings.go:39 | an input without "--" is a single piece |
| MobileBindings.TrimRight | mobile/bindings.go:45 | a prefix with no trailing white space, and only white space removed |
| MobileBindings.TrimLeft | mobile/bindings.go:45 | a suffix with no leading white space, and only white space removed |
| MobileBindings.TrimSpace | mobile/bindings.go:45 | `strings.TrimSpace`: the result is a window `s[k..k+|t|]` of the input with only white space before and after it, and neither end of the result is white space |
| MobileBindings.Argument | mobile/bindings.go:45 | the argument made from one piece; `ArgumentShape` states it is "--" plus the piece trimmed on the right |
| MobileBindings.ArgumentShape | mobile/bindings.go:45 | `TrimSpace("--" + piece)` is "--" followed by the piece without trailing white space; a white-space-only piece gives exactly "--" |
| MobileBindings.NonEmpty | mobile/bindings.go:40-42 | the kept pieces are exactly the non-empty ones |
| MobileBindings.NonEmptyAppend | mobile/bindings.go:39-46 | dropping empty pieces keeps their order: the pieces kept from `a + b` are those kept from `a`, then those kept from `b` |
| MobileBindings.Arguments | mobile/bindings.go:38-46 | the arguments made from the non-empty pieces; `ArgumentsFollowPieces` and `ArgumentsAreFlags` state them, and `Process.SplitArgs` is proved equal to it |
| MobileBindings.ArgumentsFollowPieces | mobile/bindings.go:38-46 | one argument per non-empty piece, in order, made from that piece |
| MobileBindings.ArgumentsAreFlags | mobile/bindings.go:45 | every argument starts with "--" and does not end in white space |
| MobileBindings.Process.SplitArgs | mobile/bindings.go:38-46 | the loop builds exactly the arguments of the non-empty pieces |
| MobileBindings.Process.Start | mobile/bindings.go:50 | the new arguments are appended after the existing ones, which are unchanged |
| Daemon.ResolveSwapServer | cmd/loopd/daemon.go:33-42 | a set server is kept; an empty one becomes the mainnet or testnet address; any other network is "no swap server address specified" |
| Daemon.ResolvedServerIsSet | cmd/loopd/daemon.go:33-42 | the daemon never goes on with an empty address, and resolving again changes nothing |
| Daemon.Config.DefaultSwapServer | cmd/loopd/daemon.go:25-42 | an lnd connection error is returned first; otherwise the address is set in place, or the error is returned with the configuration unchanged |

## Left out

- bbolt itself is not modelled: pages, the meta bucket, versioning (`setDBVersion`, `syncVersions`) and the `itob` key encoding. Its `ForEach` order is modelled as ascending numeric keys, and a transaction as all-or-nothing.
- The contract and event codecs and `Preimage.Hash()` (SHA-256) are opaque fields of `Codec`.
- The "swap bucket not found" branch of `fetchSwaps` is not modelled. Once an entry is either a nested bucket or a plain value, it cannot be reached.
- Goroutines, channels, the ticker, `context`, `sync.WaitGroup`, atomics and mutexes are not modelled.
  - Each `select` arm is a method, and channel sends are entries in a delivery log or a queue.
  - Blocking, timing, and interleaving between arms are not modelled.
- Cancellation in the middle of a fan-out is not modelled: neither the executor's height loop (executor.go:144-145) nor the server's subscriber loop (cmd/loopd/server/swapclient_server.go:75-76).
- The capacities of the per-swap queue (10) and the per-subscriber queue (20) are not modelled, nor the goroutine that runs each swap.
- The wallet, signer and chain notifier are oracles, and so are `PayToAddrScript`, `ParsePubKey`, `FeeForWeight` and the weight estimator. `time.Now()` is the `now` parameter.
- `Sweeper.Run` starting and stopping the lnd `UtxoSweeper` and its configuration (sweep/sweeper.go:43-86) are not modelled, nor are the debug prints.
- Sweeper.CreateSweepTxOld: Go panics when the signer returns no signatures (`rawSigs[0]`); the model returns a `NoSignature` error instead.
- sweep/clients.go, loopdb/interface.go, cmd/loopd/main.go, cmd/loopd/log.go and loopin_testcontext_test.go are not part of this model.
- The other RPCs of the server (loop out, loop in, terms and quotes) are not modelled.
- The `Monitor` stream after the snapshot (lines 272-288) and errors from `server.Send` are not modelled. What a subscriber receives is the list of updates forwarded to it.
- `State.Type()` is a parameter (`isPending`).
- Go's map iteration order is modelled as ascending keys.
- The order of equal `LastUpdate` values after `sort.Slice` is not modelled. The sort is an insertion sort, and only sortedness and the permutation are relied on.
- The hex encoding of the swap hash in `marshallSwap` is not modelled: the RPC id is the hash itself.
- The `EncodeAddress` step of `marshallSwap` (cmd/loopd/server/swapclient_server.go:189) is not modelled: the HTLC address is kept as the already-encoded string.
- Subscriber ids, swap ids and channel identities are unbounded naturals, so Go's `int` overflow is not modelled.
- Go strings are byte strings; the model works on characters and does not model invalid UTF-8.
- Daemon.ResolveSwapServer: the `mainnetServer` and `testnetServer` constants of cmd/loopd are declared in a file that is not part of this model. The values used are those declared at mobile/bindings.go:22-23.
- The rest of `daemon` and `Start` is not modelled: listeners, the REST proxy, signals, `lnd.Main` and `getStoreDir`.

## Findings

| source | as written | input that shows it | evidently intended | confidence | as-written member | corrected member |
|---|---|---|---|---|---|---|
| cmd/loopd/server/swapclient_server.go:403-415 | `validateConfTarget` rejects every target below 2 and never uses `defaultTarget` | target 0 with default 6: rejected with "a confirmation target of at least 2 must be provided" | the doc comment says an unspecified (0) target uses the default, so 0 with default 6 gives 6 | not executed | SwapClientServer.UnsetTargetIsRejected | SwapClientServer.DefaultedTargetIsValid |
