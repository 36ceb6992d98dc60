/** Transaction shapes and the wallet calls that the batcher and the sweeper
    use. The wallet is outside the model: each call is a fallible oracle, a
    function from its arguments to a value or an error. */
module Wire {
  import opened Wrappers

  type Bytes = seq<bv8>

  datatype OutPoint = OutPoint(txid: nat, index: nat)
  datatype TxOut = TxOut(value: int, pkScript: Bytes)
  /** A transaction input. `sequence` is the input's 32-bit sequence number;
      any value below 0xffffffff makes the transaction's lock time binding. */
  datatype TxIn = TxIn(previousOutPoint: OutPoint, signatureScript: Bytes, witnessStack: seq<Bytes>, sequence: nat)
  datatype MsgTx = MsgTx(version: int, txIn: seq<TxIn>, txOut: seq<TxOut>, lockTime: nat)

  /** A fee rate in satoshi per kilo-weight unit. */
  type FeeRate = nat

  datatype WalletError = WalletError(reason: string)

  /** `EstimateFee(confTarget)` and `SendOutputs(outputs, feeRate)` of the wallet. */
  datatype WalletKit = WalletKit(
    estimateFee: int -> Result<FeeRate, WalletError>,
    sendOutputs: (seq<TxOut>, FeeRate) -> Result<MsgTx, WalletError>)
}
