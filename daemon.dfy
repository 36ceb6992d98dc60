/** The swap-server defaulting at the start of `daemon` in cmd/loopd/daemon.go:
    after connecting to lnd, an unset swap server address is filled in from
    the network name; an unknown network with no address is an error. */
module Daemon {
  import opened Wrappers

  const MainnetServer: string := "swap.lightning.today:11009"
  const TestnetServer: string := "test.swap.lightning.today:11009"

  datatype Error =
    | Lnd(reason: string)   // the error `getLnd` returned
    | NoSwapServer          // "no swap server address specified"

  /** The swap server address `daemon` goes on with, or the error it returns. */
  function ResolveSwapServer(swapServer: string, network: string): (r: Result<string, Error>)
    ensures swapServer != "" ==> r == Success(swapServer)
    ensures swapServer == "" && network == "mainnet" ==> r == Success(MainnetServer)
    ensures swapServer == "" && network == "testnet" ==> r == Success(TestnetServer)
    ensures r.Failure? <==> swapServer == "" && network != "mainnet" && network != "testnet"
    ensures r.Failure? ==> r.error == NoSwapServer
  {
    if swapServer != "" then Success(swapServer)
    else if network == "mainnet" then Success(MainnetServer)
    else if network == "testnet" then Success(TestnetServer)
    else Failure(NoSwapServer)
  }

  /** Whatever the configuration, `daemon` never goes on with an empty address,
      and a second pass changes nothing. */
  lemma {:induction false} ResolvedServerIsSet(swapServer: string, network: string)
    ensures ResolveSwapServer(swapServer, network).Success? ==>
              && ResolveSwapServer(swapServer, network).value != ""
              && ResolveSwapServer(ResolveSwapServer(swapServer, network).value, network)
                   == ResolveSwapServer(swapServer, network)
  {
    var r := ResolveSwapServer(swapServer, network);
    if r.Success? && swapServer == "" {
      assert r.value == MainnetServer || r.value == TestnetServer;
      assert MainnetServer[0] == 's' && TestnetServer[0] == 't';
    }
  }

  /** The part of `config` the defaulting reads and writes. */
  class Config {
    var network: string
    var swapServer: string

    constructor (network: string, swapServer: string)
      ensures this.network == network && this.swapServer == swapServer
    {
      this.network := network;
      this.swapServer := swapServer;
    }

    /** Lines 25-42 of `daemon`: a failed lnd connection (`lndErr`) is returned
        first; otherwise an empty `SwapServer` is set in place from the network,
        or the call fails and the configuration is left as it was. */
    method DefaultSwapServer(lndErr: Option<string>) returns (err: Option<Error>)
      modifies this
      ensures network == old(network)
      ensures lndErr.Some? ==> err == Some(Lnd(lndErr.value)) && swapServer == old(swapServer)
      ensures lndErr.None? ==>
                match ResolveSwapServer(old(swapServer), network)
                case Success(server) => err == None && swapServer == server
                case Failure(e) => err == Some(e) && swapServer == old(swapServer)
    {
      if lndErr.Some? {
        return Some(Lnd(lndErr.value));
      }
      if swapServer == "" {
        if network == "mainnet" {
          swapServer := MainnetServer;
        } else if network == "testnet" {
          swapServer := TestnetServer;
        } else {
          return Some(NoSwapServer);
        }
      }
      return None;
    }
  }
}
