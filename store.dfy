/** The persistent swap store of loopdb/store.go.

    The bbolt file is a map from top-level bucket names to root buckets. The
    two root buckets used here hold one entry per swap hash: a nested swap
    bucket with the serialized contract and an `updates` sub-bucket, the
    append-only event log. Every update runs inside one bbolt transaction, so
    each operation is specified by a function from the old database to either
    the new database or an error; on an error the database is unchanged.

    The codecs and `Preimage.Hash()` are not part of this model: they are the
    fields of a `Codec` value and are otherwise opaque. */
module SwapStore {
  import opened Wrappers
  import opened OrderedKeys

  /** A 32-byte swap hash. bbolt orders keys byte by byte; read as a big-endian
      number, that order is the numeric order of `Hash`. */
  type Hash = nat
  type Bytes = seq<bv8>
  type Preimage = Bytes

  /** Root bucket of the loop-out swaps (its historical name). */
  const LoopOutBucketKey: string := "uncharge-swaps"
  /** Root bucket of the loop-in swaps. */
  const LoopInBucketKey: string := "loop-in"

  datatype Direction = Out | In

  function BucketKey(dir: Direction): (key: string)
    ensures key == LoopOutBucketKey <==> dir == Out
    ensures key == LoopInBucketKey <==> dir == In
  {
    match dir
    case Out => LoopOutBucketKey
    case In => LoopInBucketKey
  }

  /** A swap contract; everything but the preimage is opaque here. */
  datatype LoopContract = LoopContract(preimage: Preimage, terms: Bytes)
  /** One state transition of a swap: a timestamp and opaque state data. */
  datatype LoopEvent = LoopEvent(time: int, state: Bytes)
  /** A swap as fetched: its hash, its contract and its replayed event log. */
  datatype Loop = Loop(hash: Hash, contract: LoopContract, events: seq<LoopEvent>)

  /** One entry of an updates bucket: the sequence number and the event bytes. */
  datatype Update = Update(id: nat, value: Bytes)
  /** An updates bucket: its entries in key order and bbolt's sequence counter. */
  datatype UpdatesBucket = UpdatesBucket(entries: seq<Update>, sequence: nat)
  /** A swap bucket: the `contract` key and the `updates` sub-bucket, each possibly absent. */
  datatype SwapBucket = SwapBucket(contract: Option<Bytes>, updates: Option<UpdatesBucket>)
  /** A key of a root bucket leads either to a nested bucket or to a plain value. */
  datatype Entry = Nested(bucket: SwapBucket) | Value(raw: Bytes)

  type RootBucket = map<Hash, Entry>
  type Db = map<string, RootBucket>

  datatype Error =
    | HashMismatch                 // "hash and preimage do not match"
    | AlreadyExists(hash: Hash)    // "swap %v already exists"
    | BucketExists                 // bbolt's refusal to create an existing bucket
    | BucketNotFound               // "bucket does not exist"
    | SwapNotFound                 // "swap not found"
    | UpdatesBucketNotFound        // "udpate bucket not found" / "updates bucket not found"
    | ContractNotFound             // "contract not found"
    | CodecError(reason: string)   // a failure reported by a codec

  /** The serializers, deserializers and the preimage hash function. */
  datatype Codec = Codec(
    hashPreimage: Preimage -> Hash,
    encodeContract: (Direction, LoopContract) -> Result<Bytes, Error>,
    decodeContract: (Direction, Bytes) -> Result<LoopContract, Error>,
    encodeEvent: LoopEvent -> Result<Bytes, Error>,
    decodeEvent: Bytes -> Result<LoopEvent, Error>)

  const EmptyUpdates: UpdatesBucket := UpdatesBucket([], 0)

  /** The log is in strictly increasing id order and no id exceeds the counter. */
  predicate WellSequenced(u: UpdatesBucket) {
    && (forall i, j :: 0 <= i < j < |u.entries| ==> u.entries[i].id < u.entries[j].id)
    && (forall i :: 0 <= i < |u.entries| ==> 0 < u.entries[i].id <= u.sequence)
  }

  /** Every updates bucket in the database is well sequenced. All writes to an
      updates bucket go through `updateLoop`, which keeps this. */
  predicate ValidDb(db: Db) {
    forall key, h :: key in db && h in db[key] ==>
      (db[key][h].Nested? && db[key][h].bucket.updates.Some? ==> WellSequenced(db[key][h].bucket.updates.value))
  }

  function Lookup(db: Db, key: string, h: Hash): Option<Entry> {
    if key in db && h in db[key] then Some(db[key][h]) else None
  }

  /** The swap bucket under `h`, if `h` leads to a nested bucket. */
  function SwapAt(db: Db, key: string, h: Hash): Option<SwapBucket> {
    if key in db && h in db[key] && db[key][h].Nested? then Some(db[key][h].bucket) else None
  }

  function RootOf(db: Db, key: string): RootBucket {
    if key in db then db[key] else map[]
  }

  /** The database after `CreateBucketIfNotExists(key)`. */
  function WithBucket(db: Db, key: string): (r: Db)
    ensures key in r && r.Keys == db.Keys + {key}
    ensures forall k, h :: Lookup(r, k, h) == Lookup(db, k, h)
  {
    db[key := RootOf(db, key)]
  }

  // ---------------------------------------------------------------------------
  // Transactions as functions of the database

  /** The transaction of `createLoop`. */
  function CreateLoopTx(db: Db, key: string, h: Hash, contractBytes: Bytes): (r: Result<Db, Error>)
    ensures r.Failure? <==> Lookup(db, key, h).Some?
    ensures r.Failure? ==>
      r.error == (if Lookup(db, key, h).value.Value? then AlreadyExists(h) else BucketExists)
    ensures r.Success? ==> r.value.Keys == db.Keys + {key}
    ensures r.Success? ==>
      SwapAt(r.value, key, h) == Some(SwapBucket(Some(contractBytes), Some(EmptyUpdates)))
    ensures r.Success? ==>
      forall k, h' :: (k != key || h' != h) ==> Lookup(r.value, k, h') == Lookup(db, k, h')
    ensures r.Success? && ValidDb(db) ==> ValidDb(r.value)
  {
    var root := RootOf(db, key);
    if h in root then
      Failure(if root[h].Value? then AlreadyExists(h) else BucketExists)
    else
      Success(db[key := root[h := Nested(SwapBucket(Some(contractBytes), Some(EmptyUpdates)))]])
  }

  /** `CreateLoopOut` / `CreateLoopIn`: hash check, serialization, then `createLoop`. */
  function CreateSwapTx(db: Db, codec: Codec, dir: Direction, h: Hash, swap: LoopContract): (r: Result<Db, Error>)
    ensures h != codec.hashPreimage(swap.preimage) ==> r == Failure(HashMismatch)
    ensures r.Success? <==>
      && h == codec.hashPreimage(swap.preimage)
      && codec.encodeContract(dir, swap).Success?
      && Lookup(db, BucketKey(dir), h).None?
    ensures r.Success? ==>
      SwapAt(r.value, BucketKey(dir), h) ==
        Some(SwapBucket(Some(codec.encodeContract(dir, swap).value), Some(EmptyUpdates)))
    ensures r.Success? ==>
      forall k, h' :: (k != BucketKey(dir) || h' != h) ==> Lookup(r.value, k, h') == Lookup(db, k, h')
    ensures r.Success? && ValidDb(db) ==> ValidDb(r.value)
  {
    if h != codec.hashPreimage(swap.preimage) then Failure(HashMismatch)
    else
      match codec.encodeContract(dir, swap)
      case Failure(e) => Failure(e)
      case Success(bytes) => CreateLoopTx(db, BucketKey(dir), h, bytes)
  }

  /** The transaction of `updateLoop` for the event `ev`. */
  function UpdateLoopTx(db: Db, codec: Codec, key: string, h: Hash, ev: LoopEvent): (r: Result<Db, Error>)
    ensures key !in db ==> r == Failure(BucketNotFound)
    ensures key in db && SwapAt(db, key, h).None? ==> r == Failure(SwapNotFound)
    ensures SwapAt(db, key, h).Some? && SwapAt(db, key, h).value.updates.None? ==>
      r == Failure(UpdatesBucketNotFound)
    ensures r.Success? <==>
      SwapAt(db, key, h).Some? && SwapAt(db, key, h).value.updates.Some? && codec.encodeEvent(ev).Success?
    ensures r.Success? ==> r.value.Keys == db.Keys
    ensures r.Success? ==>
      forall k, h' :: (k != key || h' != h) ==> Lookup(r.value, k, h') == Lookup(db, k, h')
    ensures r.Success? ==>
      var before := SwapAt(db, key, h).value;
      var after := SwapAt(r.value, key, h);
      var u := before.updates.value;
      && after.Some? && after.value.contract == before.contract
      && after.value.updates == Some(UpdatesBucket(
           u.entries + [Update(u.sequence + 1, codec.encodeEvent(ev).value)], u.sequence + 1))
    ensures r.Success? && ValidDb(db) ==> ValidDb(r.value)
  {
    if key !in db then Failure(BucketNotFound)
    else if h !in db[key] || db[key][h].Value? then Failure(SwapNotFound)
    else
      var swap := db[key][h].bucket;
      if swap.updates.None? then Failure(UpdatesBucketNotFound)
      else
        var u := swap.updates.value;
        var id := u.sequence + 1;
        match codec.encodeEvent(ev)
        case Failure(e) => Failure(e)
        case Success(bytes) =>
          var u' := UpdatesBucket(u.entries + [Update(id, bytes)], id);
          var root': RootBucket := db[key][h := Nested(swap.(updates := Some(u')))];
          Success(db[key := root'])
  }

  /** Applies `UpdateLoopTx` for each event in turn, stopping at the first error. */
  function ApplyUpdates(db: Db, codec: Codec, key: string, h: Hash, evs: seq<LoopEvent>): Result<Db, Error>
    decreases |evs|
  {
    if evs == [] then Success(db)
    else
      match UpdateLoopTx(db, codec, key, h, evs[0])
      case Failure(e) => Failure(e)
      case Success(db') => ApplyUpdates(db', codec, key, h, evs[1..])
  }

  // ---------------------------------------------------------------------------
  // Reading the store back

  /** Prefixes `acc` to a successful result; passes an error through. */
  function Then<T>(acc: seq<T>, rest: Result<seq<T>, Error>): Result<seq<T>, Error> {
    match rest
    case Failure(e) => Failure(e)
    case Success(xs) => Success(acc + xs)
  }

  lemma ThenThen<T>(acc: seq<T>, xs: seq<T>, rest: Result<seq<T>, Error>)
    ensures Then(acc, Then(xs, rest)) == Then(acc + xs, rest)
  {
    if rest.Success? {
      assert acc + (xs + rest.value) == (acc + xs) + rest.value;
    }
  }

  lemma ThenNothing<T>(rest: Result<seq<T>, Error>)
    ensures Then([], rest) == rest
  {
    if rest.Success? {
      assert [] + rest.value == rest.value;
    }
  }

  /** Decodes the log in key order; the first undecodable entry aborts. */
  function DecodeAll(codec: Codec, entries: seq<Update>): Result<seq<LoopEvent>, Error>
    decreases |entries|
  {
    if entries == [] then Success([])
    else
      match codec.decodeEvent(entries[0].value)
      case Failure(e) => Failure(e)
      case Success(ev) => Then([ev], DecodeAll(codec, entries[1..]))
  }

  /** What one iteration of the root bucket's ForEach makes of the entry under `h`:
      nothing for a plain value, a swap, or the error that aborts the fetch. */
  function LoadSwap(codec: Codec, dir: Direction, h: Hash, e: Entry): Result<Option<Loop>, Error> {
    match e
    case Value(_) => Success(None)
    case Nested(swap) =>
      if swap.contract.None? then Failure(ContractNotFound)
      else if swap.updates.None? then Failure(UpdatesBucketNotFound)
      else
        match DecodeAll(codec, swap.updates.value.entries)
        case Failure(err) => Failure(err)
        case Success(evs) =>
          match codec.decodeContract(dir, swap.contract.value)
          case Failure(err) => Failure(err)
          case Success(c) => Success(Some(Loop(h, c, evs)))
  }

  /** The swaps among `keys`, visited in ascending key order as bbolt's ForEach does. */
  ghost function FetchFrom(codec: Codec, dir: Direction, root: RootBucket, keys: set<Hash>): Result<seq<Loop>, Error>
    requires keys <= root.Keys
    decreases keys
  {
    if keys == {} then Success([])
    else
      var k := MinKey(keys);
      match LoadSwap(codec, dir, k, root[k])
      case Failure(e) => Failure(e)
      case Success(None) => FetchFrom(codec, dir, root, keys - {k})
      case Success(Some(swap)) => Then([swap], FetchFrom(codec, dir, root, keys - {k}))
  }

  /** The view transaction of `fetchSwaps` together with the per-direction decoder. */
  ghost function FetchSwapsView(db: Db, codec: Codec, key: string, dir: Direction): Result<seq<Loop>, Error> {
    if key !in db then Failure(BucketNotFound)
    else FetchFrom(codec, dir, db[key], db[key].Keys)
  }

  function HashesOf(swaps: seq<Loop>): set<Hash> {
    set i | 0 <= i < |swaps| :: swaps[i].hash
  }

  // ---------------------------------------------------------------------------
  // Properties of the store

  /** A fetch either loads every swap bucket of the root bucket or fails: no partial result. */
  lemma {:induction false} FetchAllOrNothing(codec: Codec, dir: Direction, root: RootBucket, keys: set<Hash>)
    requires keys <= root.Keys
    ensures FetchFrom(codec, dir, root, keys).Success? <==>
      forall h :: h in keys ==> LoadSwap(codec, dir, h, root[h]).Success?
    decreases keys
  {
    if keys != {} {
      var k := MinKey(keys);
      FetchAllOrNothing(codec, dir, root, keys - {k});
    }
  }

  /** Every swap a successful fetch lists is the decoded content of one of the
      fetched keys. */
  lemma {:induction false} FetchListsLoadedSwaps(codec: Codec, dir: Direction, root: RootBucket, keys: set<Hash>)
    requires keys <= root.Keys
    requires FetchFrom(codec, dir, root, keys).Success?
    ensures var swaps := FetchFrom(codec, dir, root, keys).value;
      forall i :: 0 <= i < |swaps| ==>
        swaps[i].hash in keys && LoadSwap(codec, dir, swaps[i].hash, root[swaps[i].hash]) == Success(Some(swaps[i]))
    decreases keys
  {
    if keys != {} {
      var k := MinKey(keys);
      var rest := keys - {k};
      FetchListsLoadedSwaps(codec, dir, root, rest);
      var tail := FetchFrom(codec, dir, root, rest).value;
      var swaps := FetchFrom(codec, dir, root, keys).value;
      match LoadSwap(codec, dir, k, root[k])
      case Success(None) =>
        assert swaps == tail;
      case Success(Some(s)) =>
        assert swaps == [s] + tail;
        forall i | 1 <= i < |swaps|
          ensures swaps[i].hash in keys && LoadSwap(codec, dir, swaps[i].hash, root[swaps[i].hash]) == Success(Some(swaps[i]))
        {
          assert swaps[i] == tail[i - 1];
        }
    }
  }

  /** A successful fetch lists the swaps in strictly ascending hash order. */
  lemma {:induction false} FetchSortedByHash(codec: Codec, dir: Direction, root: RootBucket, keys: set<Hash>)
    requires keys <= root.Keys
    requires FetchFrom(codec, dir, root, keys).Success?
    ensures var swaps := FetchFrom(codec, dir, root, keys).value;
      forall i, j :: 0 <= i < j < |swaps| ==> swaps[i].hash < swaps[j].hash
    decreases keys
  {
    if keys != {} {
      var k := MinKey(keys);
      var rest := keys - {k};
      FetchSortedByHash(codec, dir, root, rest);
      FetchListsLoadedSwaps(codec, dir, root, rest);
      var tail := FetchFrom(codec, dir, root, rest).value;
      var swaps := FetchFrom(codec, dir, root, keys).value;
      match LoadSwap(codec, dir, k, root[k])
      case Success(None) =>
        assert swaps == tail;
      case Success(Some(s)) =>
        assert swaps == [s] + tail;
        forall i, j | 0 <= i < j < |swaps| ensures swaps[i].hash < swaps[j].hash {
          assert swaps[j] == tail[j - 1];
          if i == 0 {
            assert tail[j - 1].hash in rest;
          } else {
            assert swaps[i] == tail[i - 1];
          }
        }
    }
  }

  /** A successful fetch leaves out no nested swap bucket. */
  lemma {:induction false} FetchCoversNested(codec: Codec, dir: Direction, root: RootBucket, keys: set<Hash>)
    requires keys <= root.Keys
    requires FetchFrom(codec, dir, root, keys).Success?
    ensures forall h :: h in keys && root[h].Nested? ==> h in HashesOf(FetchFrom(codec, dir, root, keys).value)
    decreases keys
  {
    if keys != {} {
      var k := MinKey(keys);
      var rest := keys - {k};
      FetchCoversNested(codec, dir, root, rest);
      var tail := FetchFrom(codec, dir, root, rest).value;
      var swaps := FetchFrom(codec, dir, root, keys).value;
      match LoadSwap(codec, dir, k, root[k])
      case Success(None) =>
        assert swaps == tail;
      case Success(Some(s)) =>
        assert swaps == [s] + tail;
        forall h | h in keys && root[h].Nested? ensures h in HashesOf(swaps) {
          if h == k {
            assert swaps[0].hash == k;
          } else {
            var i :| 0 <= i < |tail| && tail[i].hash == h;
            assert swaps[i + 1].hash == h;
          }
        }
    }
  }

  /** A successful fetch lists exactly the nested swap buckets, in ascending hash
      order, each with its contract and its log decoded in sequence order. */
  lemma FetchInKeyOrder(codec: Codec, dir: Direction, root: RootBucket, keys: set<Hash>)
    requires keys <= root.Keys
    requires FetchFrom(codec, dir, root, keys).Success?
    ensures var swaps := FetchFrom(codec, dir, root, keys).value;
      && (forall i, j :: 0 <= i < j < |swaps| ==> swaps[i].hash < swaps[j].hash)
      && (forall i :: 0 <= i < |swaps| ==>
            swaps[i].hash in keys && LoadSwap(codec, dir, swaps[i].hash, root[swaps[i].hash]) == Success(Some(swaps[i])))
      && (forall h :: h in keys && root[h].Nested? ==> h in HashesOf(swaps))
  {
    FetchListsLoadedSwaps(codec, dir, root, keys);
    FetchSortedByHash(codec, dir, root, keys);
    FetchCoversNested(codec, dir, root, keys);
  }

  /** The log decodes iff every entry decodes, and then into one event per
      entry, in key order, each the decoding of its own entry. */
  lemma {:induction false} DecodeAllDecodesEach(codec: Codec, entries: seq<Update>)
    ensures DecodeAll(codec, entries).Success? <==>
      forall i :: 0 <= i < |entries| ==> codec.decodeEvent(entries[i].value).Success?
    ensures DecodeAll(codec, entries).Success? ==>
      && |DecodeAll(codec, entries).value| == |entries|
      && forall i :: 0 <= i < |entries| ==>
           Success(DecodeAll(codec, entries).value[i]) == codec.decodeEvent(entries[i].value)
    decreases |entries|
  {
    if entries != [] {
      DecodeAllDecodesEach(codec, entries[1..]);
      var rest := DecodeAll(codec, entries[1..]);
      if codec.decodeEvent(entries[0].value).Success? && rest.Success? {
        var all := DecodeAll(codec, entries).value;
        assert all == [codec.decodeEvent(entries[0].value).value] + rest.value;
        forall i | 1 <= i < |entries|
          ensures Success(all[i]) == codec.decodeEvent(entries[i].value)
        {
          assert all[i] == rest.value[i - 1] && entries[i] == entries[1..][i - 1];
        }
      } else if codec.decodeEvent(entries[0].value).Success? {
        var i :| 0 <= i < |entries[1..]| && codec.decodeEvent(entries[1..][i].value).Failure?;
        assert entries[1..][i] == entries[i + 1];
      }
    }
  }

  /** Decoding a log extended by one entry extends the decoded log by that event. */
  lemma {:induction false} DecodeAllSnoc(codec: Codec, entries: seq<Update>, u: Update, evs: seq<LoopEvent>, ev: LoopEvent)
    requires DecodeAll(codec, entries) == Success(evs)
    requires codec.decodeEvent(u.value) == Success(ev)
    ensures DecodeAll(codec, entries + [u]) == Success(evs + [ev])
    decreases |entries|
  {
    if entries == [] {
      assert [u][1..] == [];
      assert entries + [u] == [u];
      assert evs == [];
      assert DecodeAll(codec, [u]) == Then([ev], DecodeAll(codec, [u][1..]));
      assert [ev] + [] == evs + [ev];
    } else {
      var e0 := codec.decodeEvent(entries[0].value).value;
      assert DecodeAll(codec, entries) == Then([e0], DecodeAll(codec, entries[1..]));
      var tail := DecodeAll(codec, entries[1..]).value;
      assert evs == [e0] + tail;
      assert (entries + [u])[0] == entries[0];
      assert (entries + [u])[1..] == entries[1..] + [u];
      DecodeAllSnoc(codec, entries[1..], u, tail, ev);
      assert DecodeAll(codec, entries + [u]) == Then([e0], DecodeAll(codec, entries[1..] + [u]));
      assert [e0] + (tail + [ev]) == evs + [ev];
    }
  }

  /** The event codec reads back every event it writes. */
  ghost predicate EventsRoundTrip(codec: Codec) {
    forall ev {:trigger codec.encodeEvent(ev)} ::
      codec.encodeEvent(ev).Success? && codec.decodeEvent(codec.encodeEvent(ev).value) == Success(ev)
  }

  /** The contract codec of `dir` reads back `swap`. */
  ghost predicate ContractRoundTrips(codec: Codec, dir: Direction, swap: LoopContract) {
    && codec.encodeContract(dir, swap).Success?
    && codec.decodeContract(dir, codec.encodeContract(dir, swap).value) == Success(swap)
  }

  /** The swap under `h` exists, holds `contract`, and its log decodes to `logged`. */
  ghost predicate HoldsLog(db: Db, codec: Codec, key: string, h: Hash, contract: Option<Bytes>, logged: seq<LoopEvent>) {
    && SwapAt(db, key, h).Some? && SwapAt(db, key, h).value.updates.Some?
    && SwapAt(db, key, h).value.contract == contract
    && DecodeAll(codec, SwapAt(db, key, h).value.updates.value.entries) == Success(logged)
  }

  /** One `updateLoop` transaction keeps the contract and appends the event to
      the decoded log. */
  lemma {:induction false} UpdateAppendsOne(db: Db, codec: Codec, key: string, h: Hash,
                                            contract: Option<Bytes>, logged: seq<LoopEvent>, ev: LoopEvent)
    requires codec.encodeEvent(ev).Success? && codec.decodeEvent(codec.encodeEvent(ev).value) == Success(ev)
    requires HoldsLog(db, codec, key, h, contract, logged)
    ensures UpdateLoopTx(db, codec, key, h, ev).Success?
    ensures HoldsLog(UpdateLoopTx(db, codec, key, h, ev).value, codec, key, h, contract, logged + [ev])
  {
    var u := SwapAt(db, key, h).value.updates.value;
    var bytes := codec.encodeEvent(ev).value;
    DecodeAllSnoc(codec, u.entries, Update(u.sequence + 1, bytes), logged, ev);
  }

  lemma ApplyUpdatesStep(db: Db, codec: Codec, key: string, h: Hash, evs: seq<LoopEvent>, db1: Db)
    requires evs != [] && UpdateLoopTx(db, codec, key, h, evs[0]) == Success(db1)
    ensures ApplyUpdates(db, codec, key, h, evs) == ApplyUpdates(db1, codec, key, h, evs[1..])
  {
  }

  /** Appending events one by one keeps the contract and appends the events to the decoded log. */
  lemma {:induction false} ApplyUpdatesAppends(db: Db, codec: Codec, key: string, h: Hash,
                                               contract: Option<Bytes>, logged: seq<LoopEvent>, evs: seq<LoopEvent>)
    requires EventsRoundTrip(codec)
    requires HoldsLog(db, codec, key, h, contract, logged)
    ensures ApplyUpdates(db, codec, key, h, evs).Success?
    ensures HoldsLog(ApplyUpdates(db, codec, key, h, evs).value, codec, key, h, contract, logged + evs)
    decreases |evs|
  {
    if evs == [] {
      assert logged + evs == logged;
    } else {
      var ev := evs[0];
      assert codec.encodeEvent(ev).Success? && codec.decodeEvent(codec.encodeEvent(ev).value) == Success(ev);
      UpdateAppendsOne(db, codec, key, h, contract, logged, ev);
      var db1 := UpdateLoopTx(db, codec, key, h, ev).value;
      ApplyUpdatesStep(db, codec, key, h, evs, db1);
      ApplyUpdatesAppends(db1, codec, key, h, contract, logged + [ev], evs[1..]);
      assert (logged + [ev]) + evs[1..] == logged + evs;
    }
  }

  /** Creating a swap and then appending N events makes the swap read back as its
      contract with exactly those N events, in the order they were appended. */
  lemma ReplayAfterCreate(db: Db, codec: Codec, dir: Direction, h: Hash, swap: LoopContract, evs: seq<LoopEvent>)
    requires EventsRoundTrip(codec) && ContractRoundTrips(codec, dir, swap)
    requires h == codec.hashPreimage(swap.preimage)
    requires Lookup(db, BucketKey(dir), h).None?
    ensures CreateSwapTx(db, codec, dir, h, swap).Success?
    ensures var r := ApplyUpdates(CreateSwapTx(db, codec, dir, h, swap).value, codec, BucketKey(dir), h, evs);
      && r.Success?
      && Lookup(r.value, BucketKey(dir), h).Some?
      && LoadSwap(codec, dir, h, Lookup(r.value, BucketKey(dir), h).value) == Success(Some(Loop(h, swap, evs)))
  {
    var key := BucketKey(dir);
    var created := CreateSwapTx(db, codec, dir, h, swap).value;
    assert DecodeAll(codec, SwapAt(created, key, h).value.updates.value.entries) == Success([]);
    ApplyUpdatesAppends(created, codec, key, h, SwapAt(created, key, h).value.contract, [], evs);
    assert [] + evs == evs;
  }

  /** Creating a hash that is already stored in that direction fails, whatever the new contract. */
  lemma CreateTwiceFails(db: Db, codec: Codec, dir: Direction, h: Hash, first: LoopContract, second: LoopContract)
    requires CreateSwapTx(db, codec, dir, h, first).Success?
    ensures var r := CreateSwapTx(CreateSwapTx(db, codec, dir, h, first).value, codec, dir, h, second);
      && r.Failure?
      && (h == codec.hashPreimage(second.preimage) && codec.encodeContract(dir, second).Success? ==>
            r.error == BucketExists)
  {
  }

  /** A successful update gives the new event an id above every earlier id and keeps the log well sequenced. */
  lemma UpdateIdIsFresh(db: Db, codec: Codec, key: string, h: Hash, ev: LoopEvent)
    requires ValidDb(db)
    requires UpdateLoopTx(db, codec, key, h, ev).Success?
    ensures var before := SwapAt(db, key, h).value.updates.value;
      var after := SwapAt(UpdateLoopTx(db, codec, key, h, ev).value, key, h).value.updates.value;
      && |after.entries| == |before.entries| + 1
      && after.entries[..|before.entries|] == before.entries
      && (forall i :: 0 <= i < |before.entries| ==> before.entries[i].id < after.entries[|before.entries|].id)
      && WellSequenced(after)
  {
    var before := SwapAt(db, key, h).value.updates.value;
    assert WellSequenced(before);
    var after := SwapAt(UpdateLoopTx(db, codec, key, h, ev).value, key, h).value.updates.value;
    assert after.entries[..|before.entries|] == before.entries;
  }

  /** Loop-out and loop-in are separate namespaces: an update of one direction
      never sees or touches the other direction's swaps. */
  lemma DirectionsAreDisjoint(db: Db, codec: Codec, h: Hash, ev: LoopEvent)
    requires LoopOutBucketKey in db
    requires SwapAt(db, LoopOutBucketKey, h).None?
    ensures UpdateLoopTx(db, codec, BucketKey(Out), h, ev) == Failure(SwapNotFound)
    ensures forall h' :: UpdateLoopTx(db, codec, BucketKey(In), h', ev).Success? ==>
      UpdateLoopTx(db, codec, BucketKey(In), h', ev).value[LoopOutBucketKey] == db[LoopOutBucketKey]
  {
    forall h' | UpdateLoopTx(db, codec, BucketKey(In), h', ev).Success?
      ensures UpdateLoopTx(db, codec, BucketKey(In), h', ev).value[LoopOutBucketKey] == db[LoopOutBucketKey]
    {
      var db' := UpdateLoopTx(db, codec, BucketKey(In), h', ev).value;
      assert forall x :: x in db[LoopOutBucketKey] <==> Lookup(db', LoopOutBucketKey, x).Some?;
    }
  }

  // ---------------------------------------------------------------------------
  // The store object

  class BoltSwapStore {
    var db: Db
    const codec: Codec

    ghost predicate Valid()
      reads this
    {
      ValidDb(db)
    }

    /** `NewBoltSwapStore`: creates the two root buckets when they are missing. */
    constructor (initial: Db, codec: Codec)
      requires ValidDb(initial)
      ensures Valid() && this.codec == codec
      ensures LoopOutBucketKey in db && LoopInBucketKey in db
      ensures db.Keys == initial.Keys + {LoopOutBucketKey, LoopInBucketKey}
      ensures forall k, h :: Lookup(db, k, h) == Lookup(initial, k, h)
    {
      this.codec := codec;
      var d := WithBucket(initial, LoopOutBucketKey);
      d := WithBucket(d, LoopInBucketKey);
      db := d;
    }

    /** `createLoop`: the steps of one update transaction, committed only at the end. */
    method CreateLoop(key: string, h: Hash, contractBytes: Bytes) returns (err: Option<Error>)
      requires Valid()
      modifies this
      ensures Valid()
      ensures match CreateLoopTx(old(db), key, h, contractBytes)
              case Success(d) => err == None && db == d
              case Failure(e) => err == Some(e) && db == old(db)
    {
      var root := RootOf(db, key);  // CreateBucketIfNotExists
      if h in root && root[h].Value? {
        return Some(AlreadyExists(h));
      }
      if h in root {
        return Some(BucketExists);  // CreateBucket refuses an existing bucket
      }
      var swap := SwapBucket(None, None);
      swap := swap.(contract := Some(contractBytes));
      swap := swap.(updates := Some(EmptyUpdates));
      root := root[h := Nested(swap)];
      db := db[key := root];
      return None;
    }

    method CreateSwap(dir: Direction, h: Hash, swap: LoopContract) returns (err: Option<Error>)
      requires Valid()
      modifies this
      ensures Valid()
      ensures match CreateSwapTx(old(db), codec, dir, h, swap)
              case Success(d) => err == None && db == d
              case Failure(e) => err == Some(e) && db == old(db)
    {
      if h != codec.hashPreimage(swap.preimage) {
        return Some(HashMismatch);
      }
      var bytes := codec.encodeContract(dir, swap);
      if bytes.Failure? {
        return Some(bytes.error);
      }
      err := CreateLoop(BucketKey(dir), h, bytes.value);
    }

    method CreateLoopOut(h: Hash, swap: LoopContract) returns (err: Option<Error>)
      requires Valid()
      modifies this
      ensures Valid()
      ensures match CreateSwapTx(old(db), codec, Out, h, swap)
              case Success(d) => err == None && db == d
              case Failure(e) => err == Some(e) && db == old(db)
    {
      err := CreateSwap(Out, h, swap);
    }

    method CreateLoopIn(h: Hash, swap: LoopContract) returns (err: Option<Error>)
      requires Valid()
      modifies this
      ensures Valid()
      ensures match CreateSwapTx(old(db), codec, In, h, swap)
              case Success(d) => err == None && db == d
              case Failure(e) => err == Some(e) && db == old(db)
    {
      err := CreateSwap(In, h, swap);
    }

    /** `updateLoop`: walks down to the updates bucket, draws the next sequence
        number and writes the event under it. */
    method UpdateLoop(key: string, h: Hash, ev: LoopEvent) returns (err: Option<Error>)
      requires Valid()
      modifies this
      ensures Valid()
      ensures match UpdateLoopTx(old(db), codec, key, h, ev)
              case Success(d) => err == None && db == d
              case Failure(e) => err == Some(e) && db == old(db)
    {
      if key !in db {
        return Some(BucketNotFound);
      }
      var root := db[key];
      if h !in root || root[h].Value? {
        return Some(SwapNotFound);
      }
      var swap := root[h].bucket;
      if swap.updates.None? {
        return Some(UpdatesBucketNotFound);
      }
      var updates := swap.updates.value;
      var id := updates.sequence + 1;  // NextSequence
      updates := updates.(sequence := id);
      var bytes := codec.encodeEvent(ev);
      if bytes.Failure? {
        return Some(bytes.error);
      }
      updates := updates.(entries := updates.entries + [Update(id, bytes.value)]);
      db := db[key := root[h := Nested(swap.(updates := Some(updates)))]];
      return None;
    }

    method UpdateLoopOut(h: Hash, ev: LoopEvent) returns (err: Option<Error>)
      requires Valid()
      modifies this
      ensures Valid()
      ensures match UpdateLoopTx(old(db), codec, LoopOutBucketKey, h, ev)
              case Success(d) => err == None && db == d
              case Failure(e) => err == Some(e) && db == old(db)
    {
      err := UpdateLoop(LoopOutBucketKey, h, ev);
    }

    method UpdateLoopIn(h: Hash, ev: LoopEvent) returns (err: Option<Error>)
      requires Valid()
      modifies this
      ensures Valid()
      ensures match UpdateLoopTx(old(db), codec, LoopInBucketKey, h, ev)
              case Success(d) => err == None && db == d
              case Failure(e) => err == Some(e) && db == old(db)
    {
      err := UpdateLoop(LoopInBucketKey, h, ev);
    }

    /** The inner ForEach of `fetchSwaps`: decodes the updates in key order. */
    method DecodeEvents(entries: seq<Update>) returns (r: Result<seq<LoopEvent>, Error>)
      ensures r == DecodeAll(codec, entries)
    {
      var acc: seq<LoopEvent> := [];
      var i := 0;
      assert entries[0..] == entries;
      ThenNothing(DecodeAll(codec, entries));
      while i < |entries|
        invariant 0 <= i <= |entries|
        invariant DecodeAll(codec, entries) == Then(acc, DecodeAll(codec, entries[i..]))
      {
        assert entries[i..][0] == entries[i];
        assert entries[i..][1..] == entries[i + 1..];
        var ev := codec.decodeEvent(entries[i].value);
        if ev.Failure? {
          return Failure(ev.error);
        }
        ThenThen(acc, [ev.value], DecodeAll(codec, entries[i + 1..]));
        acc := acc + [ev.value];
        i := i + 1;
      }
      assert entries[i..] == [];
      assert acc + [] == acc;
      return Success(acc);
    }

    /** `fetchSwaps` with the contract decoder of `dir` as its callback. */
    method FetchSwaps(key: string, dir: Direction) returns (r: Result<seq<Loop>, Error>)
      ensures r == FetchSwapsView(db, codec, key, dir)
    {
      if key !in db {
        return Failure(BucketNotFound);
      }
      var root := db[key];
      var remaining := root.Keys;
      var acc: seq<Loop> := [];
      ThenNothing(FetchFrom(codec, dir, root, remaining));
      while remaining != {}
        invariant remaining <= root.Keys
        invariant FetchFrom(codec, dir, root, root.Keys) == Then(acc, FetchFrom(codec, dir, root, remaining))
        decreases remaining
      {
        MinKeyExists(remaining);
        var h :| IsMinKey(remaining, h);
        assert MinKey(remaining) == h;
        var entry := root[h];
        if entry.Nested? {
          var swap := entry.bucket;
          if swap.contract.None? {
            return Failure(ContractNotFound);
          }
          if swap.updates.None? {
            return Failure(UpdatesBucketNotFound);
          }
          var events := DecodeEvents(swap.updates.value.entries);
          if events.Failure? {
            return Failure(events.error);
          }
          var contract := codec.decodeContract(dir, swap.contract.value);
          if contract.Failure? {
            return Failure(contract.error);
          }
          ThenThen(acc, [Loop(h, contract.value, events.value)], FetchFrom(codec, dir, root, remaining - {h}));
          acc := acc + [Loop(h, contract.value, events.value)];
        }
        remaining := remaining - {h};
      }
      assert acc + [] == acc;
      return Success(acc);
    }

    method FetchLoopOutSwaps() returns (r: Result<seq<Loop>, Error>)
      ensures r == FetchSwapsView(db, codec, LoopOutBucketKey, Out)
    {
      r := FetchSwaps(LoopOutBucketKey, Out);
    }

    method FetchLoopInSwaps() returns (r: Result<seq<Loop>, Error>)
      ensures r == FetchSwapsView(db, codec, LoopInBucketKey, In)
    {
      r := FetchSwaps(LoopInBucketKey, In);
    }
  }
}
