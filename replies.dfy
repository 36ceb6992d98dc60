/** Replies sent on per-request channels, modelled as data. A request's pair of
    response and error channels is identified by a number; every value sent on
    one of them is appended, in order, to a log of deliveries. A caller blocked
    on its channels receives the first value sent for its identity. */
module Replies {
  import opened Wrappers

  datatype Delivery<T> = Delivery(resp: nat, outcome: T)

  /** One outcome sent to each of `resps`, in order. */
  function Broadcast<T>(resps: seq<nat>, outcome: T): (ds: seq<Delivery<T>>)
    ensures |ds| == |resps|
    ensures forall i :: 0 <= i < |resps| ==> ds[i] == Delivery(resps[i], outcome)
  {
    seq(|resps|, i requires 0 <= i < |resps| => Delivery(resps[i], outcome))
  }

  /** What a caller waiting on `resp` receives: the first value sent for it, if any. */
  function Await<T>(delivered: seq<Delivery<T>>, resp: nat): Option<T>
    decreases |delivered|
  {
    if delivered == [] then None
    else if delivered[0].resp == resp then Some(delivered[0].outcome)
    else Await(delivered[1..], resp)
  }

  /** Deliveries for other requests do not change what `resp` receives. */
  lemma {:induction false} AwaitSkips<T>(ds: seq<Delivery<T>>, es: seq<Delivery<T>>, resp: nat)
    requires forall i :: 0 <= i < |ds| ==> ds[i].resp != resp
    ensures Await(ds + es, resp) == Await(es, resp)
    decreases |ds|
  {
    if ds != [] {
      assert (ds + es)[0] == ds[0];
      assert (ds + es)[1..] == ds[1..] + es;
      AwaitSkips(ds[1..], es, resp);
    } else {
      assert ds + es == es;
    }
  }

  /** A broadcast answers exactly the requests it names, each with its outcome. */
  lemma {:induction false} AwaitBroadcast<T>(resps: seq<nat>, outcome: T, resp: nat)
    ensures Await(Broadcast(resps, outcome), resp) == if resp in resps then Some(outcome) else None
    decreases |resps|
  {
    if resps != [] {
      assert Broadcast(resps, outcome)[1..] == Broadcast(resps[1..], outcome);
      AwaitBroadcast(resps[1..], outcome, resp);
      assert resp in resps <==> resp == resps[0] || resp in resps[1..];
    }
  }
}
