/** The output batcher of batcher/batcher.go.

    `Run` owns a FIFO of pending send requests and a ticker that runs only
    while requests are pending. On a tick it publishes when some cutoff has
    passed: one transaction paying the first (at most 50) requests, whose
    outcome goes to every one of them. Channel traffic is modelled as data: a
    request's response channels are a number `resp`, and every value sent on
    them is appended to `delivered`. */
module Batcher {
  import opened Wrappers
  import opened Wire
  import opened Replies
  import opened OutputRequests

  /** The largest number of outputs in one batch transaction. */
  const MaxBatchSize: nat := 50

  datatype Error =
    | ContextTimeout          // "context timeout before output picked up by batcher"
    | Wallet(cause: WalletError)

  /** One value sent on the response or error channel of a request. */
  type Reply = Delivery<Result<MsgTx, Error>>

  /** How many of `n` pending requests one batch takes. */
  function BatchSize(n: nat): (k: nat)
    ensures k <= n && k <= MaxBatchSize
    ensures k == n || k == MaxBatchSize
  {
    if n < MaxBatchSize then n else MaxBatchSize
  }

  /** `publishTxOuts`: estimate the fee rate, then ask the wallet to pay the
      outputs at that rate. Either wallet error is returned as it is; the
      wallet is not asked to send after a failed estimate. */
  function PublishTxOuts(wallet: WalletKit, confTarget: int, outs: seq<TxOut>): (r: Result<MsgTx, Error>)
    ensures r.Success? <==>
      && wallet.estimateFee(confTarget).Success?
      && wallet.sendOutputs(outs, wallet.estimateFee(confTarget).value).Success?
    ensures wallet.estimateFee(confTarget).Failure? ==>
      r == Failure(Wallet(wallet.estimateFee(confTarget).error))
    ensures wallet.estimateFee(confTarget).Success? ==>
      match wallet.sendOutputs(outs, wallet.estimateFee(confTarget).value)
      case Failure(e) => r == Failure(Wallet(e))
      case Success(tx) => r == Success(tx)
  {
    match wallet.estimateFee(confTarget)
    case Failure(e) => Failure(Wallet(e))
    case Success(rate) =>
      match wallet.sendOutputs(outs, rate)
      case Failure(e) => Failure(Wallet(e))
      case Success(tx) => Success(tx)
  }

  /** What a tick does: the pending list afterwards, what it sends, and whether it pauses the ticker. */
  datatype TickResult = TickResult(pending: seq<Request>, deliveries: seq<Reply>, pauseTicker: bool)

  function TickSpec(pending: seq<Request>, now: int, wallet: WalletKit, confTarget: int): TickResult {
    if !AnyDue(pending, now) then TickResult(pending, [], false)
    else
      var n := BatchSize(|pending|);
      var outcome := PublishTxOuts(wallet, confTarget, TxOuts(pending[..n]));
      TickResult(pending[n..], Broadcast(RespsOf(pending[..n]), outcome), n == |pending|)
  }

  // ---------------------------------------------------------------------------
  // Properties of a tick

  /** A tick with no cutoff strictly before `now` sends nothing, calls no wallet
      and leaves the list as it is; a cutoff equal to `now` is not due. */
  lemma IdleTick(pending: seq<Request>, now: int, wallet: WalletKit, other: WalletKit, confTarget: int)
    requires forall i :: 0 <= i < |pending| ==> pending[i].cutoff >= now
    ensures TickSpec(pending, now, wallet, confTarget) == TickResult(pending, [], false)
    ensures TickSpec(pending, now, wallet, confTarget) == TickSpec(pending, now, other, confTarget)
  {
  }

  /** A publishing tick takes the longest prefix of at most 50 requests, due or
      not, sends all of them one outcome, and keeps the rest in order. */
  lemma {:induction false} PublishTakesPrefix(pending: seq<Request>, now: int, wallet: WalletKit, confTarget: int)
    requires AnyDue(pending, now)
    ensures var t := TickSpec(pending, now, wallet, confTarget);
      var n := |t.deliveries|;
      && n == (if |pending| < MaxBatchSize then |pending| else MaxBatchSize)
      && pending == pending[..n] + t.pending
      && (forall i :: 0 <= i < n ==> t.deliveries[i].resp == pending[i].resp)
      && (forall i :: 0 <= i < n ==>
            t.deliveries[i].outcome == PublishTxOuts(wallet, confTarget, TxOuts(pending[..n])))
      && (t.pauseTicker <==> t.pending == [])
  {
    var n := BatchSize(|pending|);
    assert pending == pending[..n] + pending[n..];
  }

  /** A fee-estimation failure reaches every request of the batch as the same
      error, whatever `SendOutputs` would have done. */
  lemma FeeFailureFailsWholeBatch(pending: seq<Request>, now: int, wallet: WalletKit, other: WalletKit, confTarget: int)
    requires AnyDue(pending, now)
    requires wallet.estimateFee == other.estimateFee
    requires wallet.estimateFee(confTarget).Failure?
    ensures var t := TickSpec(pending, now, wallet, confTarget);
      && t == TickSpec(pending, now, other, confTarget)
      && |t.deliveries| > 0
      && forall i :: 0 <= i < |t.deliveries| ==>
           t.deliveries[i].outcome == Failure(Wallet(wallet.estimateFee(confTarget).error))
  {
  }

  /** Sixty due requests: one transaction pays the first fifty and ten stay pending. */
  lemma SixtyDueRequests(pending: seq<Request>, now: int, wallet: WalletKit, confTarget: int)
    requires |pending| == 60
    requires forall i :: 0 <= i < 60 ==> Due(pending[i], now)
    ensures var t := TickSpec(pending, now, wallet, confTarget);
      && |t.deliveries| == 50
      && t.pending == pending[50..] && |t.pending| == 10
      && !t.pauseTicker
      && forall i :: 0 <= i < 50 ==>
           t.deliveries[i] == Delivery(pending[i].resp, PublishTxOuts(wallet, confTarget, TxOuts(pending[..50])))
  {
    assert Due(pending[0], now);
  }

  /** After a publishing tick, a waiting caller whose request was in the batch
      receives exactly the batch outcome, and one beyond the cap receives nothing yet. */
  lemma {:induction false} TickAnswersBatchOnly(delivered: seq<Reply>, pending: seq<Request>, now: int, wallet: WalletKit, confTarget: int, k: nat)
    requires AnyDue(pending, now)
    requires k < |pending|
    requires forall i, j :: 0 <= i < j < |pending| ==> pending[i].resp != pending[j].resp
    requires forall d :: 0 <= d < |delivered| ==> delivered[d].resp != pending[k].resp
    ensures var n := BatchSize(|pending|);
      var t := TickSpec(pending, now, wallet, confTarget);
      Await(delivered + t.deliveries, pending[k].resp) ==
        if k < n then Some(PublishTxOuts(wallet, confTarget, TxOuts(pending[..n]))) else None
  {
    var n := BatchSize(|pending|);
    var t := TickSpec(pending, now, wallet, confTarget);
    AwaitSkips(delivered, t.deliveries, pending[k].resp);
    AwaitBroadcast(RespsOf(pending[..n]), PublishTxOuts(wallet, confTarget, TxOuts(pending[..n])), pending[k].resp);
    if k < n {
      assert pending[..n][k] == pending[k];
    } else {
      forall i | 0 <= i < n ensures pending[..n][i].resp != pending[k].resp {
        assert pending[..n][i] == pending[i];
      }
    }
  }

  // ---------------------------------------------------------------------------
  // The batcher's event loop

  /** The state `Run` keeps: the ticker runs exactly while requests wait, waiting
      requests are in the order they came, every channel identity has been
      handed out, and no waiting request has been answered yet. */
  ghost predicate Consistent(pending: seq<Request>, tickerActive: bool, delivered: seq<Reply>, nextResp: nat) {
    && (tickerActive <==> pending != [])
    && (forall i, j :: 0 <= i < j < |pending| ==> pending[i].resp < pending[j].resp)
    && (forall i :: 0 <= i < |pending| ==> pending[i].resp < nextResp)
    && (forall d :: 0 <= d < |delivered| ==> delivered[d].resp < nextResp)
    && (forall i, d :: 0 <= i < |pending| && 0 <= d < |delivered| ==> delivered[d].resp != pending[i].resp)
  }

  /** Answering the first `n` waiting requests and dropping them keeps the state
      consistent: the requests left over have still not been answered. */
  lemma {:induction false} AnswerPrefixKeepsConsistent(pending: seq<Request>, delivered: seq<Reply>, nextResp: nat,
                                                       n: nat, outcome: Result<MsgTx, Error>)
    requires Consistent(pending, pending != [], delivered, nextResp) && n <= |pending|
    ensures Consistent(pending[n..], pending[n..] != [], delivered + Broadcast(RespsOf(pending[..n]), outcome), nextResp)
  {
    var rest, sent := pending[n..], delivered + Broadcast(RespsOf(pending[..n]), outcome);
    forall d | 0 <= d < |sent| ensures sent[d].resp < nextResp {
      if d >= |delivered| {
        assert sent[d].resp == pending[d - |delivered|].resp;
      }
    }
    forall k, d | 0 <= k < |rest| && 0 <= d < |sent| ensures sent[d].resp != rest[k].resp {
      assert rest[k] == pending[n + k];
      if d >= |delivered| {
        assert sent[d].resp == pending[d - |delivered|].resp;
      }
    }
    forall i, j | 0 <= i < j < |rest| ensures rest[i].resp < rest[j].resp {
      assert rest[i] == pending[n + i] && rest[j] == pending[n + j];
    }
  }

  /** The first loop of the ticker arm: is some cutoff strictly before `now`? */
  method ScanDue(pending: seq<Request>, now: int) returns (publish: bool)
    ensures publish <==> AnyDue(pending, now)
  {
    publish := false;
    var i := 0;
    while i < |pending|
      invariant 0 <= i <= |pending|
      invariant publish <==> exists j :: 0 <= j < i && Due(pending[j], now)
    {
      if pending[i].cutoff < now {
        publish := true;
      }
      i := i + 1;
    }
  }

  /** The outputs of the first `BatchSize` requests, gathered up to the cap. */
  method CollectBatch(pending: seq<Request>) returns (txOuts: seq<TxOut>)
    ensures |txOuts| == BatchSize(|pending|)
    ensures txOuts == TxOuts(pending[..BatchSize(|pending|)])
  {
    txOuts := [];
    var i := 0;
    while i < |pending|
      invariant 0 <= i <= BatchSize(|pending|)
      invariant txOuts == TxOuts(pending[..i])
    {
      if i == MaxBatchSize {
        break;
      }
      assert pending[..i + 1] == pending[..i] + [pending[i]];
      txOuts := txOuts + [pending[i].txOut];
      i := i + 1;
    }
  }

  /** The last loop of the ticker arm: the one outcome sent to every request of the batch, in order. */
  method AnswerBatch(batch: seq<Request>, outcome: Result<MsgTx, Error>) returns (replies: seq<Reply>)
    ensures replies == Broadcast(RespsOf(batch), outcome)
  {
    replies := [];
    var i := 0;
    while i < |batch|
      invariant 0 <= i <= |batch|
      invariant |replies| == i
      invariant forall k :: 0 <= k < i ==> replies[k] == Delivery(batch[k].resp, outcome)
    {
      replies := replies + [Delivery(batch[i].resp, outcome)];
      i := i + 1;
    }
  }

  class Batcher {
    const confTarget: int
    /** `sendRequests` of `Run`. */
    var pending: seq<Request>
    /** Whether the publish ticker is running (not paused). */
    var tickerActive: bool
    /** Every value sent on a response or error channel, in order. */
    var delivered: seq<Reply>
    /** Identity of the next pair of response channels `SendOutputBatched` makes. */
    var nextResp: nat

    ghost predicate Valid()
      reads this
    {
      Consistent(pending, tickerActive, delivered, nextResp)
    }

    /** `New` and the start of `Run`: no requests, and the ticker starts paused. */
    constructor (confTarget: int)
      ensures Valid() && this.confTarget == confTarget
      ensures pending == [] && !tickerActive && delivered == []
    {
      this.confTarget := confTarget;
      pending := [];
      tickerActive := false;
      delivered := [];
      nextResp := 0;
    }

    /** The `sendOutputChan` arm of `Run`: append the request and resume the ticker. */
    method Enqueue(req: Request)
      requires Valid() && req.resp == nextResp
      modifies this
      ensures Valid()
      ensures pending == old(pending) + [req] && tickerActive
      ensures delivered == old(delivered) && nextResp == old(nextResp) + 1
    {
      pending := pending + [req];
      nextResp := nextResp + 1;
      tickerActive := true;
    }

    /** The first half of `SendOutputBatched`: hand the request to `Run` unless the
        caller's context ends first. On success it returns the request's channel identity. */
    method SendOutputBatched(txOut: TxOut, cutoff: int, ctxDone: bool) returns (r: Result<nat, Error>)
      requires Valid()
      modifies this
      ensures Valid()
      ensures ctxDone ==>
                && r == Failure(ContextTimeout) && pending == old(pending)
                && tickerActive == old(tickerActive) && nextResp == old(nextResp)
      ensures !ctxDone ==>
                && r == Success(old(nextResp))
                && pending == old(pending) + [Request(txOut, cutoff, old(nextResp))] && tickerActive
                && nextResp == old(nextResp) + 1
      ensures delivered == old(delivered)
    {
      if ctxDone {
        return Failure(ContextTimeout);
      }
      var req := Request(txOut, cutoff, nextResp);
      Enqueue(req);
      return Success(req.resp);
    }

    /** The ticker arm of `Run`. */
    method Tick(now: int, wallet: WalletKit)
      requires Valid() && tickerActive
      modifies this
      ensures Valid() && nextResp == old(nextResp)
      ensures var t := TickSpec(old(pending), now, wallet, confTarget);
        && pending == t.pending
        && delivered == old(delivered) + t.deliveries
        && tickerActive == !t.pauseTicker
    {
      var publish := ScanDue(pending, now);
      if !publish {
        return;
      }
      var txOuts := CollectBatch(pending);

      var tx := PublishTxOuts(wallet, confTarget, txOuts);
      var batch := pending[..|txOuts|];
      var replies := AnswerBatch(batch, tx);
      AnswerPrefixKeepsConsistent(pending, delivered, nextResp, |txOuts|, tx);
      delivered := delivered + replies;
      pending := pending[|txOuts|..];
      if |pending| == 0 {
        tickerActive := false;
      }
    }
  }
}
