/**
 Blocks as the node reports them (explorer/elements.go). Columns that are stored and
 shown but never read by the indexing logic travel in one opaque `payload` per record.
 */
module ChainModel {
  import opened Common

  datatype OutPoint = OutPoint(txid: string, vout: int)

  datatype Issuance = Issuance(
    asset: string,
    token: string,
    entropy: string,
    isReissuance: bool,
    assetAmount: Option<string>,
    assetAmountCommitment: string,
    tokenAmount: Option<string>,
    tokenAmountCommitment: string,
    payload: string)

  datatype Vin = Vin(
    txid: string,
    vout: Option<int>,
    coinbase: string,
    isPegin: bool,
    issuance: Option<Issuance>,
    payload: string)

  datatype Vout = Vout(
    n: int,
    value: Option<string>,
    asset: string,
    assetCommitment: string,
    valueCommitment: string,
    address: string,
    addresses: seq<string>,
    scriptType: string,
    pegoutChain: string,
    payload: string)

  datatype Tx = Tx(txid: string, vin: seq<Vin>, vout: seq<Vout>, fee: map<string, string>, payload: string)

  datatype Block = Block(
    hash: string,
    height: int,
    previousHash: string,
    time: int,
    txs: seq<Tx>,
    payload: string)

  /**
   What the index is computed with besides the chain. The three computations an insert calls
   out to are function values, so that what is proved about the tables holds for any of them:
   the subsidy at a height, the parsing of an amount, and the re-derivation of an issuance's
   identifiers. The Explorer module supplies the real ones.
   */
  datatype Config = Config(
    policyAsset: string,
    subsidyAt: int -> int,
    parseSats: string -> Option<int>,
    verifies: Issuance -> bool)

  /** The script address of an output: its own field, or a one-element address list. */
  function ScriptAddress(o: Vout): string {
    if o.address != "" then o.address
    else if |o.addresses| == 1 then o.addresses[0]
    else ""
  }

  predicate IsFee(o: Vout) {
    o.scriptType == "fee"
  }

  predicate IsCoinbase(tx: Tx) {
    |tx.vin| > 0 && tx.vin[0].coinbase != ""
  }

  /** The output an input spends, as the inputs table records it. */
  function Prevout(v: Vin): Option<OutPoint> {
    if v.coinbase == "" && v.txid != "" && v.vout.Some? then Some(OutPoint(v.txid, v.vout.value)) else None
  }
}
