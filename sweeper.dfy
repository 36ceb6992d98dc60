/** The sweeper of sweep/sweeper.go: its own batching loop (which, unlike the
    batcher, has no cap and always empties its list), the legacy HTLC sweep
    transaction builder and the sweep fee computation. Wallet, signer, script
    and weight-estimation calls are fallible oracles passed in as values. */
module Sweeper {
  import opened Wrappers
  import opened Wire
  import opened Replies
  import opened OutputRequests
  import opened GoIntegers

  datatype Error =
    | ContextTimeout                  // "Context timeout before outputs added"
    | EstimateFee(cause: WalletError) // "estimate fee: ..."
    | SendOutputs(cause: WalletError) // "send outputs: ..."
    | Script(reason: string)          // error of PayToAddrScript
    | PubKey(reason: string)          // error of ParsePubKey
    | Signing(cause: WalletError)     // "signing: ..."
    | NoSignature                     // the run-time panic of `rawSigs[0]` on an empty result
    | Witness(reason: string)         // error of the witness function

  type Reply = Delivery<Result<MsgTx, Error>>

  /** `publishTxOuts`: estimate the fee rate, then ask the wallet to pay the
      outputs; each failure is wrapped with the step that failed. */
  function PublishTxOuts(wallet: WalletKit, confTarget: int, outs: seq<TxOut>): (r: Result<MsgTx, Error>)
    ensures wallet.estimateFee(confTarget).Failure? ==>
      r == Failure(EstimateFee(wallet.estimateFee(confTarget).error))
    ensures wallet.estimateFee(confTarget).Success? ==>
      match wallet.sendOutputs(outs, wallet.estimateFee(confTarget).value)
      case Failure(e) => r == Failure(SendOutputs(e))
      case Success(tx) => r == Success(tx)
  {
    match wallet.estimateFee(confTarget)
    case Failure(e) => Failure(EstimateFee(e))
    case Success(rate) =>
      match wallet.sendOutputs(outs, rate)
      case Failure(e) => Failure(SendOutputs(e))
      case Success(tx) => Success(tx)
  }

  /** A fee failure is reported as such and the wallet is never asked to send:
      the result is the same whatever `SendOutputs` would do. A send failure is
      reported as a send failure. */
  lemma PublishTxOutsErrors(wallet: WalletKit, other: WalletKit, confTarget: int, outs: seq<TxOut>)
    requires wallet.estimateFee == other.estimateFee
    ensures wallet.estimateFee(confTarget).Failure? ==>
      && PublishTxOuts(wallet, confTarget, outs) == Failure(EstimateFee(wallet.estimateFee(confTarget).error))
      && PublishTxOuts(wallet, confTarget, outs) == PublishTxOuts(other, confTarget, outs)
    ensures PublishTxOuts(wallet, confTarget, outs).Success? <==>
      && wallet.estimateFee(confTarget).Success?
      && wallet.sendOutputs(outs, wallet.estimateFee(confTarget).value).Success?
    ensures PublishTxOuts(wallet, confTarget, outs).Failure? &&
            PublishTxOuts(wallet, confTarget, outs).error.SendOutputs? ==>
      wallet.estimateFee(confTarget).Success?
  {
  }

  /** What a tick does: the pending list afterwards, what it sends, and whether it pauses the ticker. */
  datatype TickResult = TickResult(pending: seq<Request>, deliveries: seq<Reply>, pauseTicker: bool)

  function TickSpec(pending: seq<Request>, now: int, wallet: WalletKit, confTarget: int): TickResult {
    if !AnyDue(pending, now) then TickResult(pending, [], false)
    else TickResult([], Broadcast(RespsOf(pending), PublishTxOuts(wallet, confTarget, TxOuts(pending))), true)
  }

  /** A publishing tick pays every pending output, in arrival order and with no
      cap, answers every request with the same outcome, and always empties the
      list and pauses the ticker, whether or not publishing failed. A tick with
      nothing strictly past its cutoff changes nothing. */
  lemma {:induction false} TickPublishesAll(pending: seq<Request>, now: int, wallet: WalletKit, confTarget: int)
    ensures var t := TickSpec(pending, now, wallet, confTarget);
      if AnyDue(pending, now) then
        && t.pending == [] && t.pauseTicker
        && |t.deliveries| == |pending|
        && forall i :: 0 <= i < |pending| ==>
             t.deliveries[i] == Delivery(pending[i].resp, PublishTxOuts(wallet, confTarget, TxOuts(pending)))
      else
        t == TickResult(pending, [], false)
  {
  }

  /** After a publishing tick every waiting caller receives the one outcome of the tick. */
  lemma {:induction false} TickAnswersEveryone(delivered: seq<Reply>, pending: seq<Request>, now: int, wallet: WalletKit, confTarget: int, k: nat)
    requires AnyDue(pending, now)
    requires k < |pending|
    requires forall d :: 0 <= d < |delivered| ==> delivered[d].resp != pending[k].resp
    ensures Await(delivered + TickSpec(pending, now, wallet, confTarget).deliveries, pending[k].resp)
         == Some(PublishTxOuts(wallet, confTarget, TxOuts(pending)))
  {
    var t := TickSpec(pending, now, wallet, confTarget);
    AwaitSkips(delivered, t.deliveries, pending[k].resp);
    AwaitBroadcast(RespsOf(pending), PublishTxOuts(wallet, confTarget, TxOuts(pending)), pending[k].resp);
    assert RespsOf(pending)[k] == pending[k].resp;
  }

  // ---------------------------------------------------------------------------
  // The sweeper's batching loop

  class Sweeper {
    const confTarget: int
    /** `sendRequests` of `Run`. */
    var pending: seq<Request>
    /** Whether the publish ticker is running (not paused). */
    var tickerActive: bool
    /** Every value sent on a response or error channel, in order. */
    var delivered: seq<Reply>
    /** Identity of the next pair of response channels `SendOutputBatched` makes. */
    var nextResp: nat

    ghost predicate Valid()
      reads this
    {
      && (tickerActive <==> pending != [])
      && (forall i :: 0 <= i < |pending| ==> pending[i].resp < nextResp)
      && (forall d :: 0 <= d < |delivered| ==> delivered[d].resp < nextResp)
      && (forall i, d :: 0 <= i < |pending| && 0 <= d < |delivered| ==> delivered[d].resp != pending[i].resp)
    }

    /** `New` and the start of `Run`: no requests, and the ticker starts paused. */
    constructor (confTarget: int)
      ensures Valid() && this.confTarget == confTarget
      ensures pending == [] && !tickerActive && delivered == []
    {
      this.confTarget := confTarget;
      pending := [];
      tickerActive := false;
      delivered := [];
      nextResp := 0;
    }

    /** The `sendOutputChan` arm of `Run`: append the request and resume the ticker. */
    method Enqueue(req: Request)
      requires Valid() && req.resp == nextResp
      modifies this
      ensures Valid()
      ensures pending == old(pending) + [req] && tickerActive
      ensures delivered == old(delivered) && nextResp == old(nextResp) + 1
    {
      pending := pending + [req];
      nextResp := nextResp + 1;
      tickerActive := true;
    }

    /** The first half of `SendOutputBatched`: hand the request to `Run` unless the
        caller's context ends first; the second half is `Await` on the returned identity. */
    method SendOutputBatched(txOut: TxOut, cutoff: int, ctxDone: bool) returns (r: Result<nat, Error>)
      requires Valid()
      modifies this
      ensures Valid()
      ensures ctxDone ==>
                && r == Failure(ContextTimeout) && pending == old(pending)
                && tickerActive == old(tickerActive) && nextResp == old(nextResp)
      ensures !ctxDone ==>
                && r == Success(old(nextResp))
                && pending == old(pending) + [Request(txOut, cutoff, old(nextResp))] && tickerActive
                && nextResp == old(nextResp) + 1
      ensures delivered == old(delivered)
    {
      if ctxDone {
        return Failure(ContextTimeout);
      }
      var req := Request(txOut, cutoff, nextResp);
      Enqueue(req);
      return Success(req.resp);
    }

    /** The ticker arm of `Run`. */
    method Tick(now: int, wallet: WalletKit)
      requires Valid() && tickerActive
      modifies this
      ensures Valid() && nextResp == old(nextResp)
      ensures var t := TickSpec(old(pending), now, wallet, confTarget);
        && pending == t.pending
        && delivered == old(delivered) + t.deliveries
        && tickerActive == !t.pauseTicker
    {
      var publish := false;
      var i := 0;
      while i < |pending|
        invariant 0 <= i <= |pending|
        invariant publish <==> exists j :: 0 <= j < i && pending[j].cutoff < now
      {
        if pending[i].cutoff < now {
          publish := true;
        }
        i := i + 1;
      }
      if !publish {
        return;
      }

      var txOuts: seq<TxOut> := [];
      i := 0;
      while i < |pending|
        invariant 0 <= i <= |pending|
        invariant txOuts == TxOuts(pending[..i])
      {
        assert pending[..i + 1] == pending[..i] + [pending[i]];
        txOuts := txOuts + [pending[i].txOut];
        i := i + 1;
      }
      assert pending[..i] == pending;

      var tx := PublishTxOuts(wallet, confTarget, txOuts);
      i := 0;
      while i < |pending|
        invariant 0 <= i <= |pending|
        invariant pending == old(pending) && nextResp == old(nextResp)
        invariant delivered == old(delivered) + Broadcast(RespsOf(pending[..i]), tx)
      {
        assert pending[..i + 1] == pending[..i] + [pending[i]];
        delivered := delivered + [Delivery(pending[i].resp, tx)];
        i := i + 1;
      }
      assert pending[..i] == pending;

      pending := [];
      tickerActive := false;
    }
  }

  // ---------------------------------------------------------------------------
  // The legacy sweep transaction builder

  /** `SigHashAll`. */
  const SigHashAll: nat := 1

  /** The fields of the HTLC the builder reads. */
  datatype Htlc = Htlc(script: Bytes, sigScript: Bytes)

  /** `input.SignDescriptor` as the builder fills it in. */
  datatype SignDescriptor = SignDescriptor(
    witnessScript: Bytes, outputValue: int, hashType: nat, inputIndex: nat, pubKey: Bytes)

  /** The calls the builder makes: script construction, key parsing and signing. */
  datatype SweepEnv = SweepEnv(
    payToAddrScript: Bytes -> Result<Bytes, string>,
    parsePubKey: Bytes -> Result<Bytes, string>,
    signOutputRaw: (MsgTx, seq<SignDescriptor>) -> Result<seq<Bytes>, WalletError>)

  /** The transaction as it stands when it is handed to the signer: version 2,
      lock time `uint32(height)`, the HTLC input without witness and the one
      destination output. */
  function UnsignedSweep(height: int, htlc: Htlc, htlcOutpoint: OutPoint, pkScript: Bytes, amount: int, fee: int): (tx: MsgTx)
    requires IsInt32(height)
    ensures tx.version == 2 && tx.lockTime == Uint32(height)
    ensures tx.txIn == [TxIn(htlcOutpoint, htlc.sigScript, [], 0)]
    ensures tx.txIn[0].sequence < 0xffff_ffff && tx.lockTime < 0x1_0000_0000
    ensures tx.txOut == [TxOut(Int64(amount - fee), pkScript)]
  {
    MsgTx(2, [TxIn(htlcOutpoint, htlc.sigScript, [], 0)], [TxOut(Int64(amount - fee), pkScript)], Uint32(height))
  }

  /** `CreateSweepTxOld`: builds the sweep transaction step by step, then signs
      its single input with the HTLC script and installs the witness. */
  method CreateSweepTxOld(
    env: SweepEnv, height: int, htlc: Htlc, htlcOutpoint: OutPoint, keyBytes: Bytes,
    witnessFunc: Bytes -> Result<seq<Bytes>, string>, amount: int, fee: int, destAddr: Bytes)
    returns (r: Result<MsgTx, Error>)
    requires IsInt32(height)
    ensures env.payToAddrScript(destAddr).Failure? ==> r == Failure(Script(env.payToAddrScript(destAddr).error))
    ensures env.payToAddrScript(destAddr).Success? && env.parsePubKey(keyBytes).Failure? ==>
      r == Failure(PubKey(env.parsePubKey(keyBytes).error))
    ensures r.Success? ==>
      && env.payToAddrScript(destAddr).Success?
      && env.parsePubKey(keyBytes).Success?
      && var unsigned := UnsignedSweep(height, htlc, htlcOutpoint, env.payToAddrScript(destAddr).value, amount, fee);
         var desc := SignDescriptor(htlc.script, amount, SigHashAll, 0, env.parsePubKey(keyBytes).value);
         var sigs := env.signOutputRaw(unsigned, [desc]);
         && sigs.Success? && |sigs.value| > 0
         && witnessFunc(sigs.value[0]).Success?
         && r.value == unsigned.(txIn := [unsigned.txIn[0].(witnessStack := witnessFunc(sigs.value[0]).value)])
    ensures r.Failure? && r.error.Signing? ==> env.parsePubKey(keyBytes).Success?
    ensures env.payToAddrScript(destAddr).Success? && env.parsePubKey(keyBytes).Success? ==>
      var unsigned := UnsignedSweep(height, htlc, htlcOutpoint, env.payToAddrScript(destAddr).value, amount, fee);
      var desc := SignDescriptor(htlc.script, amount, SigHashAll, 0, env.parsePubKey(keyBytes).value);
      var sigs := env.signOutputRaw(unsigned, [desc]);
      if sigs.Failure? then r == Failure(Signing(sigs.error))
      else if |sigs.value| == 0 then r == Failure(NoSignature)
      else match witnessFunc(sigs.value[0])
        case Failure(e) => r == Failure(Witness(e))
        case Success(stack) => r == Success(unsigned.(txIn := [unsigned.txIn[0].(witnessStack := stack)]))
  {
    var sweepTx := MsgTx(2, [], [], 0);
    sweepTx := sweepTx.(lockTime := Uint32(height));
    sweepTx := sweepTx.(txIn := sweepTx.txIn + [TxIn(htlcOutpoint, htlc.sigScript, [], 0)]);

    var pkScript := env.payToAddrScript(destAddr);
    if pkScript.Failure? {
      return Failure(Script(pkScript.error));
    }
    sweepTx := sweepTx.(txOut := sweepTx.txOut + [TxOut(Int64(amount - fee), pkScript.value)]);

    var key := env.parsePubKey(keyBytes);
    if key.Failure? {
      return Failure(PubKey(key.error));
    }
    var signDesc := SignDescriptor(htlc.script, amount, SigHashAll, 0, key.value);

    assert sweepTx == UnsignedSweep(height, htlc, htlcOutpoint, pkScript.value, amount, fee);
    var rawSigs := env.signOutputRaw(sweepTx, [signDesc]);
    if rawSigs.Failure? {
      return Failure(Signing(rawSigs.error));
    }
    if |rawSigs.value| == 0 {
      return Failure(NoSignature);
    }
    var sig := rawSigs.value[0];

    var stack := witnessFunc(sig);
    if stack.Failure? {
      return Failure(Witness(stack.error));
    }
    sweepTx := sweepTx.(txIn := sweepTx.txIn[0 := sweepTx.txIn[0].(witnessStack := stack.value)]);
    return Success(sweepTx);
  }

  // ---------------------------------------------------------------------------
  // The sweep fee

  /** The weight estimator of the lnd library, over an estimator state `E`:
      the empty estimate, adding one P2WKH output, the resulting weight, and the
      fee of a weight at a fee rate. */
  datatype WeightModel<!E> = WeightModel(
    empty: E,
    addP2WKHOutput: E -> E,
    weight: E -> nat,
    feeForWeight: (FeeRate, nat) -> int)

  /** `GetSweepFee`. Like the Go function it returns an amount and an error together. */
  function GetSweepFee<E>(wallet: WalletKit, model: WeightModel<E>, addInputEstimate: E -> E, sweepConfTarget: int)
    : (r: (int, Option<Error>))
    ensures r.1.Some? <==> wallet.estimateFee(sweepConfTarget).Failure?
    ensures r.1.Some? ==> r == (0, Some(EstimateFee(wallet.estimateFee(sweepConfTarget).error)))
    ensures r.1.None? ==>
      r.0 == model.feeForWeight(wallet.estimateFee(sweepConfTarget).value,
                                model.weight(addInputEstimate(model.addP2WKHOutput(model.empty))))
  {
    match wallet.estimateFee(sweepConfTarget)
    case Failure(e) => (0, Some(EstimateFee(e)))
    case Success(feeRate) =>
      var withOutput := model.addP2WKHOutput(model.empty);
      var weight := model.weight(addInputEstimate(withOutput));
      (model.feeForWeight(feeRate, weight), None)
  }
}
