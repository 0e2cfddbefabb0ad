/**
 The explorer index as a value: the tables of explorer/schema.go keyed by their primary
 keys, and the effect of every statement of explorer/store.go on them.

 A statement that violates a primary key, a UNIQUE column or an amount check fails, and
 the enclosing SQL transaction is abandoned; `None` stands for that failure.
 */
module Tables {
  import opened Common
  import opened ChainModel

  datatype InputKey = InputKey(txid: string, vin: int)
  datatype AddressKey = AddressKey(address: string, txid: string)

  /** spent_txid, spent_vin, spent_height: written together and cleared together. */
  datatype Spend = Spend(txid: string, vin: int, height: int)

  datatype BlockRow = BlockRow(
    hash: string,
    prevHash: Option<string>,
    time: int,
    txCount: int,
    subsidySats: int,
    feesSats: int,
    payload: string)

  datatype TxRow = TxRow(
    height: int,
    blockHash: string,
    position: int,
    blockTime: int,
    isCoinbase: bool,
    hasIssuance: bool,
    hasPegin: bool,
    hasPegout: bool,
    feeSats: Option<int>,
    fees: Option<map<string, int>>,
    payload: string)

  datatype InputRow = InputRow(prev: Option<OutPoint>, isCoinbase: bool, isPegin: bool, height: int, payload: string)

  datatype OutputRow = OutputRow(
    asset: Option<string>,
    assetCommitment: Option<string>,
    valueSats: Option<int>,
    valueCommitment: Option<string>,
    address: Option<string>,
    isFee: bool,
    pegoutChain: Option<string>,
    height: int,
    payload: string,
    spent: Option<Spend>)

  datatype IssuanceRow = IssuanceRow(
    asset: string,
    token: Option<string>,
    entropy: Option<string>,
    isReissuance: bool,
    assetSats: Option<int>,
    assetCommitment: Option<string>,
    tokenSats: Option<int>,
    tokenCommitment: Option<string>,
    prev: Option<OutPoint>,
    height: int,
    time: int,
    payload: string)

  /** The columns of an asset row fixed by its first issuance. */
  datatype Anchor = Anchor(
    token: Option<string>,
    entropy: Option<string>,
    txid: string,
    vin: int,
    height: int,
    blockHash: string,
    time: int,
    confidential: bool,
    verified: bool)

  /** The columns of an asset row recomputed from the issuances table. */
  datatype Totals = Totals(
    issuedSats: Option<int>,
    tokenSats: Option<int>,
    issuanceCount: int,
    reissuanceCount: int,
    confidentialReissuance: bool)

  datatype AssetRow = AssetRow(anchor: Anchor, totals: Totals)

  datatype AddressRow = AddressRow(height: int, position: int)

  datatype Meta = Meta(indexedHeight: Option<int>, indexedHash: Option<string>, genesisHash: Option<string>)

  datatype Tables = Tables(
    blocks: map<int, BlockRow>,
    transactions: map<string, TxRow>,
    inputs: map<InputKey, InputRow>,
    outputs: map<OutPoint, OutputRow>,
    issuances: map<InputKey, IssuanceRow>,
    assets: map<string, AssetRow>,
    addressTxs: map<AddressKey, AddressRow>,
    meta: Meta)

  const EMPTY: Tables := Tables(map[], map[], map[], map[], map[], map[], map[], Meta(None, None, None))

  const DEFAULT_TOTALS: Totals := Totals(None, None, 1, 0, false)

  /** A transaction at its place in a block. */
  datatype Placed = Placed(block: Block, position: int, tx: Tx)

  /** The state of an open SQL transaction: the tables, and the assets to refresh before commit. */
  datatype Work = Work(t: Tables, touched: set<string>)

  // ----- rows

  /** The explicit fees of a transaction, zero entries dropped; None when one is malformed. */
  function ParseFees(fee: map<string, string>, cfg: Config): Option<map<string, int>> {
    if exists a :: a in fee && cfg.parseSats(fee[a]).None? then None
    else Some(map a | a in fee && cfg.parseSats(fee[a]).value != 0 :: cfg.parseSats(fee[a]).value)
  }

  lemma NoFees(cfg: Config)
    ensures ParseFees(map[], cfg) == Some(map[])
  {
    var none: map<string, string> := map[];
    assert forall a :: a !in none;
  }

  function FeeIn(fees: map<string, int>, asset: string): Option<int> {
    if asset in fees then Some(fees[asset]) else None
  }

  function TxRowOf(p: Placed, fees: map<string, int>, cfg: Config): TxRow {
    TxRow(
      p.block.height, p.block.hash, p.position, p.block.time,
      IsCoinbase(p.tx),
      exists v :: v in p.tx.vin && v.issuance.Some?,
      exists v :: v in p.tx.vin && v.isPegin,
      exists o :: o in p.tx.vout && o.pegoutChain != "",
      FeeIn(fees, cfg.policyAsset),
      if fees == map[] then None else Some(fees),
      p.tx.payload)
  }

  function InputRowOf(p: Placed, v: Vin): InputRow {
    InputRow(Prevout(v), v.coinbase != "", v.isPegin, p.block.height, v.payload)
  }

  function OutputRowOf(p: Placed, o: Vout, value: Option<int>): OutputRow {
    OutputRow(
      Nullable(o.asset), Nullable(o.assetCommitment), value, Nullable(o.valueCommitment),
      Nullable(ScriptAddress(o)), IsFee(o), Nullable(o.pegoutChain), p.block.height, o.payload, None)
  }

  /** An optional amount column: NULL when absent, failing when malformed. */
  function ParseOptional(amount: Option<string>, cfg: Config): Option<Option<int>> {
    if amount.None? then Some(None)
    else
      var sats := cfg.parseSats(amount.value);
      if sats.None? then None else Some(sats)
  }

  /** The amount column of an issuance: explicit, blinded (NULL), or an implied zero. */
  function IssuedAmount(amount: Option<string>, commitment: string, cfg: Config): Option<Option<int>> {
    if amount.None? && commitment == "" then Some(Some(0)) else ParseOptional(amount, cfg)
  }

  function IssuanceRowOf(p: Placed, v: Vin, i: Issuance, assetSats: Option<int>, tokenSats: Option<int>): IssuanceRow {
    IssuanceRow(
      i.asset, Nullable(i.token), Nullable(i.entropy), i.isReissuance,
      assetSats, Nullable(i.assetAmountCommitment), tokenSats, Nullable(i.tokenAmountCommitment),
      if v.txid != "" && v.vout.Some? then Some(OutPoint(v.txid, v.vout.value)) else None,
      p.block.height, p.block.time, i.payload)
  }

  function AnchorOf(p: Placed, vin: int, i: Issuance, cfg: Config): Anchor {
    Anchor(
      Nullable(i.token), Nullable(i.entropy), p.tx.txid, vin, p.block.height, p.block.hash, p.block.time,
      i.assetAmountCommitment != "", cfg.verifies(i))
  }

  function BlockRowOf(b: Block, fees: int, cfg: Config): BlockRow {
    BlockRow(
      b.hash, Nullable(b.previousHash), b.time, |b.txs|,
      cfg.subsidyAt(b.height), fees, b.payload)
  }

  // ----- inserting one transaction

  /** UPDATE outputs SET spent_* WHERE txid = ? AND vout = ?; nothing when no such row exists. */
  function MarkSpent(outputs: map<OutPoint, OutputRow>, k: OutPoint, s: Spend): map<OutPoint, OutputRow> {
    if k in outputs then outputs[k := outputs[k].(spent := Some(s))] else outputs
  }

  function InsertIssuance(w: Work, p: Placed, vin: int, v: Vin, i: Issuance, cfg: Config): Option<Work> {
    var key := InputKey(p.tx.txid, vin);
    var asset, token := IssuedAmount(i.assetAmount, i.assetAmountCommitment, cfg),
                        IssuedAmount(i.tokenAmount, i.tokenAmountCommitment, cfg);
    if asset.None? || token.None? || key in w.t.issuances then None
    else
      var issuances := w.t.issuances[key := IssuanceRowOf(p, v, i, asset.value, token.value)];
      var assets :=
        if i.isReissuance || i.asset in w.t.assets then w.t.assets
        else w.t.assets[i.asset := AssetRow(AnchorOf(p, vin, i, cfg), DEFAULT_TOTALS)];
      Some(Work(w.t.(issuances := issuances, assets := assets), w.touched + {i.asset}))
  }

  /** The input row, and the marker on the output it spends. */
  function AddInput(t: Tables, p: Placed, vin: int, v: Vin): Tables {
    t.(
      inputs := t.inputs[InputKey(p.tx.txid, vin) := InputRowOf(p, v)],
      outputs :=
        if Prevout(v).None? then t.outputs
        else MarkSpent(t.outputs, Prevout(v).value, Spend(p.tx.txid, vin, p.block.height)))
  }

  function InsertInput(w: Work, p: Placed, vin: int, v: Vin, cfg: Config): Option<Work> {
    if InputKey(p.tx.txid, vin) in w.t.inputs then None
    else
      var w' := w.(t := AddInput(w.t, p, vin, v));
      if v.issuance.None? then Some(w') else InsertIssuance(w', p, vin, v, v.issuance.value, cfg)
  }

  function InsertInputs(w: Work, p: Placed, cfg: Config, from: nat): Option<Work>
    requires from <= |p.tx.vin|
    decreases |p.tx.vin| - from
  {
    if from == |p.tx.vin| then Some(w)
    else
      match InsertInput(w, p, from, p.tx.vin[from], cfg)
      case None => None
      case Some(w') => InsertInputs(w', p, cfg, from + 1)
  }

  function InsertOutput(w: Work, p: Placed, o: Vout, cfg: Config): Option<Work> {
    var key := OutPoint(p.tx.txid, o.n);
    var value := ParseOptional(o.value, cfg);
    if value.None? || key in w.t.outputs then None
    else Some(w.(t := w.t.(outputs := w.t.outputs[key := OutputRowOf(p, o, value.value)])))
  }

  function InsertOutputs(w: Work, p: Placed, cfg: Config, from: nat): Option<Work>
    requires from <= |p.tx.vout|
    decreases |p.tx.vout| - from
  {
    if from == |p.tx.vout| then Some(w)
    else
      match InsertOutput(w, p, p.tx.vout[from], cfg)
      case None => None
      case Some(w') => InsertOutputs(w', p, cfg, from + 1)
  }

  function InsertTxRow(w: Work, p: Placed, cfg: Config): Option<Work> {
    var fees := ParseFees(p.tx.fee, cfg);
    if fees.None? || p.tx.txid in w.t.transactions then None
    else Some(w.(t := w.t.(transactions := w.t.transactions[p.tx.txid := TxRowOf(p, fees.value, cfg)])))
  }

  function InsertTransaction(w: Work, p: Placed, cfg: Config): Option<Work> {
    match InsertTxRow(w, p, cfg)
    case None => None
    case Some(w1) =>
      match InsertInputs(w1, p, cfg, 0)
      case None => None
      case Some(w2) => InsertOutputs(w2, p, cfg, 0)
  }

  /** The policy-asset fee a transaction adds to its block; a coinbase adds none. */
  function TxFee(tx: Tx, cfg: Config): int {
    if IsCoinbase(tx) || ParseFees(tx.fee, cfg).None? then 0
    else OrZero(FeeIn(ParseFees(tx.fee, cfg).value, cfg.policyAsset))
  }

  // ----- inserting one block

  function InsertTransactions(w: Work, b: Block, cfg: Config, from: nat): Option<Work>
    requires from <= |b.txs|
    decreases |b.txs| - from
  {
    if from == |b.txs| then Some(w)
    else
      match InsertTransaction(w, Placed(b, from, b.txs[from]), cfg)
      case None => None
      case Some(w') => InsertTransactions(w', b, cfg, from + 1)
  }

  /** fees += txFees over the transactions from `from`, on a 64-bit accumulator. */
  function AddFees(acc: int, b: Block, cfg: Config, from: nat): int
    requires from <= |b.txs|
    decreases |b.txs| - from
  {
    if from == |b.txs| then acc else AddFees(WrapInt64(acc + TxFee(b.txs[from], cfg)), b, cfg, from + 1)
  }

  /** SELECT address, txid FROM outputs JOIN transactions WHERE outputs.height = h. */
  function PaidKeys(transactions: map<string, TxRow>, outputs: map<OutPoint, OutputRow>, h: int): set<AddressKey> {
    set k | k in outputs && outputs[k].height == h && outputs[k].address.Some? && k.txid in transactions
      :: AddressKey(outputs[k].address.value, k.txid)
  }

  /** SELECT prev.address, txid FROM inputs JOIN outputs prev JOIN transactions WHERE inputs.height = h. */
  function DrawnKeys(transactions: map<string, TxRow>, inputs: map<InputKey, InputRow>,
                     outputs: map<OutPoint, OutputRow>, h: int): set<AddressKey>
  {
    set k | k in inputs && inputs[k].height == h && DrawsFrom(inputs[k], outputs).Some? && k.txid in transactions
      :: AddressKey(DrawsFrom(inputs[k], outputs).value, k.txid)
  }

  /** The address of the indexed output an input spends. */
  function DrawsFrom(i: InputRow, outputs: map<OutPoint, OutputRow>): Option<string> {
    if i.prev.Some? && i.prev.value in outputs then outputs[i.prev.value].address else None
  }

  /** INSERT OR IGNORE INTO address_txs, one row per selected key. */
  function InsertOrIgnore(addressTxs: map<AddressKey, AddressRow>, transactions: map<string, TxRow>,
                          h: int, keys: set<AddressKey>): map<AddressKey, AddressRow>
    requires forall k :: k in keys ==> k.txid in transactions
  {
    var rows := map k | k in keys :: AddressRow(h, transactions[k.txid].position);
    rows + addressTxs
  }

  /** address_txs after the two joins over the rows of height h. */
  function IndexedAddresses(transactions: map<string, TxRow>, inputs: map<InputKey, InputRow>,
                            outputs: map<OutPoint, OutputRow>, addressTxs: map<AddressKey, AddressRow>,
                            h: int): map<AddressKey, AddressRow>
  {
    InsertOrIgnore(
      InsertOrIgnore(addressTxs, transactions, h, PaidKeys(transactions, outputs, h)),
      transactions, h, DrawnKeys(transactions, inputs, outputs, h))
  }

  function IndexAddresses(t: Tables, h: int): Tables {
    t.(addressTxs := IndexedAddresses(t.transactions, t.inputs, t.outputs, t.addressTxs, h))
  }

  predicate BlockRowFits(blocks: map<int, BlockRow>, b: Block) {
    b.height !in blocks && forall h :: h in blocks ==> blocks[h].hash != b.hash
  }

  function AddBlockRow(t: Tables, b: Block, cfg: Config): Tables {
    t.(blocks := t.blocks[b.height := BlockRowOf(b, AddFees(0, b, cfg, 0), cfg)])
  }

  /** The block row and the two joins, once every transaction is in. */
  function FinishBlock(w: Work, b: Block, cfg: Config): Option<Work> {
    if !BlockRowFits(w.t.blocks, b) then None
    else Some(w.(t := IndexAddresses(AddBlockRow(w.t, b, cfg), b.height)))
  }

  function InsertBlock(w: Work, b: Block, cfg: Config): Option<Work> {
    match InsertTransactions(w, b, cfg, 0)
    case None => None
    case Some(w1) => FinishBlock(w1, b, cfg)
  }

  function InsertBlocks(w: Work, bs: seq<Block>, cfg: Config): Option<Work>
    decreases |bs|
  {
    if bs == [] then Some(w)
    else
      match InsertBlock(w, bs[0], cfg)
      case None => None
      case Some(w') => InsertBlocks(w', bs[1..], cfg)
  }

  // ----- asset totals

  ghost function IssuanceKeys(issuances: map<InputKey, IssuanceRow>, asset: string): set<InputKey> {
    set k | k in issuances && issuances[k].asset == asset
  }

  ghost function AssetAmounts(issuances: map<InputKey, IssuanceRow>, asset: string): map<InputKey, int> {
    map k | k in issuances && issuances[k].asset == asset :: OrZero(issuances[k].assetSats)
  }

  ghost function TokenAmounts(issuances: map<InputKey, IssuanceRow>, asset: string): map<InputKey, int> {
    map k | k in issuances && issuances[k].asset == asset :: OrZero(issuances[k].tokenSats)
  }

  ghost function Reissuances(issuances: map<InputKey, IssuanceRow>, asset: string): set<InputKey> {
    set k | k in issuances && issuances[k].asset == asset && issuances[k].isReissuance
  }

  ghost function BlindedAssets(issuances: map<InputKey, IssuanceRow>, asset: string): set<InputKey> {
    set k | k in issuances && issuances[k].asset == asset && issuances[k].assetSats.None?
  }

  ghost function BlindedTokens(issuances: map<InputKey, IssuanceRow>, asset: string): set<InputKey> {
    set k | k in issuances && issuances[k].asset == asset && issuances[k].tokenSats.None?
  }

  /** The aggregate query of refreshAssets over one asset's issuances. */
  ghost function TotalsOf(issuances: map<InputKey, IssuanceRow>, asset: string): Totals {
    var blinded, reissued := |BlindedAssets(issuances, asset)|, |Reissuances(issuances, asset)|;
    Totals(
      if blinded == 0 then Some(SumValues(AssetAmounts(issuances, asset))) else None,
      if |BlindedTokens(issuances, asset)| == 0 then Some(SumValues(TokenAmounts(issuances, asset))) else None,
      |IssuanceKeys(issuances, asset)|,
      reissued,
      blinded > 0 && reissued > 0)
  }

  /** SUM over INTEGER columns fails when the sum leaves the int64 range. */
  ghost predicate SumsFit(issuances: map<InputKey, IssuanceRow>, asset: string) {
    FitsInt64(SumValues(AssetAmounts(issuances, asset))) && FitsInt64(SumValues(TokenAmounts(issuances, asset)))
  }

  /** One asset row after the refresh: untouched assets and assets without issuances keep their totals. */
  ghost function RefreshedRow(row: AssetRow, issuances: map<InputKey, IssuanceRow>, touched: set<string>,
                              asset: string): AssetRow
  {
    if asset in touched && IssuanceKeys(issuances, asset) != {} then row.(totals := TotalsOf(issuances, asset)) else row
  }

  ghost function RefreshedRows(assets: map<string, AssetRow>, issuances: map<InputKey, IssuanceRow>,
                               touched: set<string>): map<string, AssetRow>
  {
    map a | a in assets :: RefreshedRow(assets[a], issuances, touched, a)
  }

  ghost function RefreshAssets(t: Tables, touched: set<string>): Option<Tables> {
    if exists a :: a in touched && !SumsFit(t.issuances, a) then None
    else Some(t.(assets := RefreshedRows(t.assets, t.issuances, touched)))
  }

  // ----- the two transactions of the store

  function MetaAfter(meta: Meta, bs: seq<Block>): Meta
    requires bs != []
  {
    var last := bs[|bs| - 1];
    Meta(Some(last.height), Some(last.hash), if bs[0].height == 0 then Some(bs[0].hash) else meta.genesisHash)
  }

  /** The refresh and the cursor, once every block is in. */
  ghost function FinishBatch(w: Work, bs: seq<Block>): Option<Tables>
    requires bs != []
  {
    match RefreshAssets(w.t, w.touched)
    case None => None
    case Some(t') => Some(t'.(meta := MetaAfter(t'.meta, bs)))
  }

  /** applyBlocks: one SQL transaction for a whole batch. */
  ghost function ApplyBlocks(t: Tables, bs: seq<Block>, cfg: Config): Option<Tables> {
    if bs == [] then Some(t)
    else
      match InsertBlocks(Work(t, {}), bs, cfg)
      case None => None
      case Some(w) => FinishBatch(w, bs)
  }

  /** UPDATE outputs SET spent_* = NULL WHERE spent_height = h, then DELETE WHERE height = h. */
  function OutputsWithout(outputs: map<OutPoint, OutputRow>, h: int): map<OutPoint, OutputRow> {
    map k | k in outputs && outputs[k].height != h :: Unspend(outputs[k], h)
  }

  function Unspend(r: OutputRow, h: int): OutputRow {
    if r.spent.Some? && r.spent.value.height == h then r.(spent := None) else r
  }

  function IssuedAt(issuances: map<InputKey, IssuanceRow>, h: int): set<string> {
    set k | k in issuances && issuances[k].height == h :: issuances[k].asset
  }

  function AddressesWithout(m: map<AddressKey, AddressRow>, h: int): map<AddressKey, AddressRow> {
    map k | k in m && m[k].height != h :: m[k]
  }

  function AssetsWithout(m: map<string, AssetRow>, h: int): map<string, AssetRow> {
    map a | a in m && m[a].anchor.height != h :: m[a]
  }

  function IssuancesWithout(m: map<InputKey, IssuanceRow>, h: int): map<InputKey, IssuanceRow> {
    map k | k in m && m[k].height != h :: m[k]
  }

  function InputsWithout(m: map<InputKey, InputRow>, h: int): map<InputKey, InputRow> {
    map k | k in m && m[k].height != h :: m[k]
  }

  function TransactionsWithout(m: map<string, TxRow>, h: int): map<string, TxRow> {
    map k | k in m && m[k].height != h :: m[k]
  }

  function BlocksWithout(m: map<int, BlockRow>, h: int): map<int, BlockRow> {
    map k | k in m && k != h :: m[k]
  }

  /** The eight height-keyed statements of rollbackBlock. */
  function WithoutHeight(t: Tables, h: int): Tables {
    t.(
      outputs := OutputsWithout(t.outputs, h),
      addressTxs := AddressesWithout(t.addressTxs, h),
      assets := AssetsWithout(t.assets, h),
      issuances := IssuancesWithout(t.issuances, h),
      inputs := InputsWithout(t.inputs, h),
      transactions := TransactionsWithout(t.transactions, h),
      blocks := BlocksWithout(t.blocks, h))
  }

  ghost predicate IsTop(blocks: map<int, BlockRow>, h: int) {
    h in blocks && forall k :: k in blocks ==> k <= h
  }

  /** SELECT height, hash FROM blocks ORDER BY height DESC LIMIT 1, written back to the cursor keys. */
  ghost function MetaAtTop(meta: Meta, blocks: map<int, BlockRow>): Meta {
    if exists h :: IsTop(blocks, h) then
      var h :| IsTop(blocks, h);
      meta.(indexedHeight := Some(h), indexedHash := Some(blocks[h].hash))
    else meta.(indexedHeight := None, indexedHash := None)
  }

  /** rollbackBlock: one SQL transaction that removes one height. */
  ghost function RollbackBlock(t: Tables, h: int): Option<Tables> {
    match RefreshAssets(WithoutHeight(t, h), IssuedAt(t.issuances, h))
    case None => None
    case Some(t') => Some(t'.(meta := MetaAtTop(t'.meta, t'.blocks)))
  }

  datatype Cursor = Cursor(height: int, hash: string)

  function CursorOf(t: Tables): Cursor {
    if t.meta.indexedHeight.None? then Cursor(-1, "")
    else Cursor(t.meta.indexedHeight.value, if t.meta.indexedHash.Some? then t.meta.indexedHash.value else "")
  }
}
