/** The send requests queued by the batcher and by the sweeper: an output, a
    cutoff time and the identity of the request's response channels, with the
    projections both loops use when they publish. */
module OutputRequests {
  import opened Wire

  datatype Request = Request(txOut: TxOut, cutoff: int, resp: nat)

  /** `req.cutoff.Before(now)`: strictly before. */
  predicate Due(req: Request, now: int) {
    req.cutoff < now
  }

  predicate AnyDue(pending: seq<Request>, now: int) {
    exists i :: 0 <= i < |pending| && Due(pending[i], now)
  }

  /** The outputs of `reqs`, in order. */
  function TxOuts(reqs: seq<Request>): (outs: seq<TxOut>)
    ensures |outs| == |reqs|
    ensures forall i :: 0 <= i < |reqs| ==> outs[i] == reqs[i].txOut
  {
    seq(|reqs|, i requires 0 <= i < |reqs| => reqs[i].txOut)
  }

  /** The channel identities of `reqs`, in order. */
  function RespsOf(reqs: seq<Request>): (rs: seq<nat>)
    ensures |rs| == |reqs|
    ensures forall i :: 0 <= i < |reqs| ==> rs[i] == reqs[i].resp
  {
    seq(|reqs|, i requires 0 <= i < |reqs| => reqs[i].resp)
  }
}
