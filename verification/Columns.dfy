/**
 What every column of an indexed chain holds, in the fields of the blocks themselves.
 */
module Columns {
  import opened Common
  import opened ChainModel
  import opened Tables
  import opened Operations
  import opened Invariants
  import opened Reorg
  import opened History
  import opened Mirror

  /** A text column: NULL for the empty text, otherwise the text. */
  ghost predicate TextColumn(column: Option<string>, s: string) {
    if s == "" then column == None else column == Some(s)
  }

  /** An amount column: NULL for a missing amount, otherwise what the text parses to. */
  ghost predicate AmountColumn(column: Option<int>, amount: Option<string>, cfg: Config) {
    match amount
    case None => column == None
    case Some(text) => cfg.parseSats(text).Some? && column == cfg.parseSats(text)
  }

  /** The amount of an issuance: nought when it is neither explicit nor blinded. */
  ghost predicate IssuedColumn(column: Option<int>, amount: Option<string>, commitment: string, cfg: Config) {
    if amount == None && commitment == "" then column == Some(0) else AmountColumn(column, amount, cfg)
  }

  /** The first input carries coinbase data. */
  ghost predicate CreatesCoins(tx: Tx) {
    |tx.vin| > 0 && tx.vin[0].coinbase != ""
  }

  // ----- transactions

  ghost predicate FlagColumns(r: TxRow, tx: Tx) {
    && (r.isCoinbase <==> CreatesCoins(tx))
    && (r.hasIssuance <==> exists j :: 0 <= j < |tx.vin| && tx.vin[j].issuance.Some?)
    && (r.hasPegin <==> exists j :: 0 <= j < |tx.vin| && tx.vin[j].isPegin)
    && (r.hasPegout <==> exists j :: 0 <= j < |tx.vout| && tx.vout[j].pegoutChain != "")
  }

  /** Every fee parses; all but nought are listed by asset, and that of the policy asset has its own column. */
  ghost predicate FeeColumns(r: TxRow, fee: map<string, string>, cfg: Config) {
    && (forall a :: a in fee ==> cfg.parseSats(fee[a]).Some?)
    && (r.fees == None <==> forall a :: a in fee ==> cfg.parseSats(fee[a]) == Some(0))
    && (forall a, v :: (r.fees.Some? && a in r.fees.value && r.fees.value[a] == v) <==>
                       (a in fee && cfg.parseSats(fee[a]) == Some(v) && v != 0))
    && (forall v :: r.feeSats == Some(v) <==>
                    cfg.policyAsset in fee && cfg.parseSats(fee[cfg.policyAsset]) == Some(v) && v != 0)
  }

  /** The row of transaction i of block h. */
  lemma TransactionColumns(c: seq<Block>, cfg: Config, h: nat, i: nat, t: Tables)
    requires Index(c, cfg) == Some(t) && h < |c| && i < |c[h].txs|
    ensures var tx := c[h].txs[i];
            && tx.txid in t.transactions
            && var r := t.transactions[tx.txid];
               && r.height == c[h].height && r.position == i
               && r.blockHash == c[h].hash && r.blockTime == c[h].time && r.payload == tx.payload
               && FlagColumns(r, tx) && FeeColumns(r, tx.fee, cfg)
  {
    var p := Placed(c[h], i, c[h].txs[i]);
    ChainIsStored(c, cfg, h, NewTransaction(p));
    RowOfTransaction(p, cfg);
  }

  lemma RowOfTransaction(p: Placed, cfg: Config)
    requires ParseFees(p.tx.fee, cfg).Some?
    ensures var r := TxRowOf(p, ParseFees(p.tx.fee, cfg).value, cfg);
            FlagColumns(r, p.tx) && FeeColumns(r, p.tx.fee, cfg)
  {
    var r := TxRowOf(p, ParseFees(p.tx.fee, cfg).value, cfg);
    FlagsOf(r, p.tx);
    FeesOf(r, p.tx.fee, cfg);
  }

  lemma FlagsOf(r: TxRow, tx: Tx)
    requires r.isCoinbase == IsCoinbase(tx)
    requires r.hasIssuance == exists v :: v in tx.vin && v.issuance.Some?
    requires r.hasPegin == exists v :: v in tx.vin && v.isPegin
    requires r.hasPegout == exists o :: o in tx.vout && o.pegoutChain != ""
    ensures FlagColumns(r, tx)
  {
    assert forall j :: 0 <= j < |tx.vin| ==> tx.vin[j] in tx.vin;
    assert forall j :: 0 <= j < |tx.vout| ==> tx.vout[j] in tx.vout;
  }

  lemma FeesOf(r: TxRow, fee: map<string, string>, cfg: Config)
    requires var fees := ParseFees(fee, cfg);
             fees.Some? && r.feeSats == FeeIn(fees.value, cfg.policyAsset)
             && r.fees == if fees.value == map[] then None else fees
    ensures FeeColumns(r, fee, cfg)
  {
    var fees := ParseFees(fee, cfg).value;
    forall a | a in fee ensures cfg.parseSats(fee[a]).Some? {}
    if fees == map[] {
      forall a | a in fee ensures cfg.parseSats(fee[a]) == Some(0) { assert a !in fees; }
    }
    if forall a :: a in fee ==> cfg.parseSats(fee[a]) == Some(0) { assert fees == map[]; }
  }

  // ----- inputs

  /** The row of input j of transaction i of block h. */
  lemma InputColumns(c: seq<Block>, cfg: Config, h: nat, i: nat, j: nat, t: Tables)
    requires Index(c, cfg) == Some(t) && h < |c| && i < |c[h].txs| && j < |c[h].txs[i].vin|
    ensures var tx, v := c[h].txs[i], c[h].txs[i].vin[j];
            && InputKey(tx.txid, j) in t.inputs
            && var r := t.inputs[InputKey(tx.txid, j)];
               && r.height == c[h].height && r.payload == v.payload
               && (r.isCoinbase <==> v.coinbase != "") && (r.isPegin <==> v.isPegin)
               && (forall x, n :: r.prev == Some(OutPoint(x, n)) <==>
                                  v.coinbase == "" && v.txid == x && x != "" && v.vout == Some(n))
  {
    ChainIsStored(c, cfg, h, NewInput(Placed(c[h], i, c[h].txs[i]), j, c[h].txs[i].vin[j]));
  }

  /** A transaction is flagged as a coinbase exactly when its first input row is. */
  lemma CoinbaseIsFirstInput(c: seq<Block>, cfg: Config, h: nat, i: nat, t: Tables)
    requires Consecutive(c, 0) && Index(c, cfg) == Some(t) && h < |c| && i < |c[h].txs|
    ensures var x := c[h].txs[i].txid;
            && x in t.transactions
            && (t.transactions[x].isCoinbase <==> InputKey(x, 0) in t.inputs && t.inputs[InputKey(x, 0)].isCoinbase)
  {
    var tx := c[h].txs[i];
    TransactionColumns(c, cfg, h, i, t);
    if |tx.vin| > 0 {
      InputColumns(c, cfg, h, i, 0, t);
    } else if InputKey(tx.txid, 0) in t.inputs {
      InputHasPlace(c, cfg, h, i, 0, t);
    }
  }

  /** An input row belongs to the transaction of the chain that has its id. */
  lemma InputHasPlace(c: seq<Block>, cfg: Config, h: nat, i: nat, vin: int, t: Tables)
    requires Consecutive(c, 0) && Index(c, cfg) == Some(t) && h < |c| && i < |c[h].txs|
    requires InputKey(c[h].txs[i].txid, vin) in t.inputs
    ensures 0 <= vin < |c[h].txs[i].vin|
  {
    NothingElseIsStored(c, cfg);
    assert InputFrom(ChainOps(c), InputKey(c[h].txs[i].txid, vin));
    var op :| op in ChainOps(c) && op.NewInput? && InputKey(op.p.tx.txid, op.vin) == InputKey(c[h].txs[i].txid, vin);
    ChainOpsAre(c, op);
    var g :| 0 <= g < |c| && IsOpOf(c[g], op);
    PlaceIsFiled(c, cfg, h, i);
    PlaceIsFiled(c, cfg, g, op.p.position);
  }

  // ----- outputs

  /** The address of an output: its own, or the only one of its list. */
  ghost predicate AddressColumn(column: Option<string>, o: Vout) {
    if o.address != "" then column == Some(o.address)
    else if |o.addresses| == 1 then TextColumn(column, o.addresses[0])
    else column == None
  }

  /** The row of an output of transaction i of block h. Later spends change its marker only. */
  lemma OutputColumns(c: seq<Block>, cfg: Config, h: nat, i: nat, j: nat, t: Tables)
    requires Index(c, cfg) == Some(t) && h < |c| && i < |c[h].txs| && j < |c[h].txs[i].vout|
    ensures var tx, o := c[h].txs[i], c[h].txs[i].vout[j];
            && OutPoint(tx.txid, o.n) in t.outputs
            && var r := t.outputs[OutPoint(tx.txid, o.n)];
               && r.height == c[h].height && r.payload == o.payload
               && TextColumn(r.asset, o.asset) && TextColumn(r.assetCommitment, o.assetCommitment)
               && AmountColumn(r.valueSats, o.value, cfg) && TextColumn(r.valueCommitment, o.valueCommitment)
               && AddressColumn(r.address, o) && TextColumn(r.pegoutChain, o.pegoutChain)
               && (r.isFee <==> o.scriptType == "fee")
  {
    ChainIsStored(c, cfg, h, NewOutput(Placed(c[h], i, c[h].txs[i]), c[h].txs[i].vout[j]));
  }

  // ----- issuances

  /** The row of the issuance at input j of transaction i of block h. */
  lemma IssuanceColumns(c: seq<Block>, cfg: Config, h: nat, i: nat, j: nat, t: Tables)
    requires Index(c, cfg) == Some(t) && h < |c| && i < |c[h].txs| && j < |c[h].txs[i].vin|
    requires c[h].txs[i].vin[j].issuance.Some?
    ensures var tx, v := c[h].txs[i], c[h].txs[i].vin[j];
            var s := v.issuance.value;
            && InputKey(tx.txid, j) in t.issuances
            && var r := t.issuances[InputKey(tx.txid, j)];
               && r.height == c[h].height && r.time == c[h].time && r.payload == s.payload
               && r.asset == s.asset && TextColumn(r.token, s.token) && TextColumn(r.entropy, s.entropy)
               && (r.isReissuance <==> s.isReissuance)
               && IssuedColumn(r.assetSats, s.assetAmount, s.assetAmountCommitment, cfg)
               && TextColumn(r.assetCommitment, s.assetAmountCommitment)
               && IssuedColumn(r.tokenSats, s.tokenAmount, s.tokenAmountCommitment, cfg)
               && TextColumn(r.tokenCommitment, s.tokenAmountCommitment)
               && (forall x, n :: r.prev == Some(OutPoint(x, n)) <==> v.txid == x && x != "" && v.vout == Some(n))
  {
    ChainIsStored(c, cfg, h, NewInput(Placed(c[h], i, c[h].txs[i]), j, c[h].txs[i].vin[j]));
  }

  // ----- blocks

  /** What a transaction pays in the policy asset; nothing when it creates coins, or pays no such fee. */
  ghost function PolicyFee(tx: Tx, cfg: Config): int {
    if CreatesCoins(tx) || cfg.policyAsset !in tx.fee then 0
    else
      match cfg.parseSats(tx.fee[cfg.policyAsset])
      case None => 0
      case Some(v) => v
  }

  ghost function FeesPaid(txs: seq<Tx>, cfg: Config): int {
    if txs == [] then 0 else PolicyFee(txs[0], cfg) + FeesPaid(txs[1..], cfg)
  }

  lemma {:induction false} FeesShownArePaid(c: seq<Block>, cfg: Config, h: nat, from: nat, t: Tables)
    requires Index(c, cfg) == Some(t) && h < |c| && from <= |c[h].txs|
    ensures FeesShown(t.transactions, c[h], from) == FeesPaid(c[h].txs[from..], cfg)
    decreases |c[h].txs| - from
  {
    if from < |c[h].txs| {
      var tx, r := c[h].txs[from], t.transactions;
      TransactionColumns(c, cfg, h, from, t);
      FeeShownIsPaid(t.transactions, tx, cfg);
      FeesShownArePaid(c, cfg, h, from + 1, t);
      assert c[h].txs[from..] == [tx] + c[h].txs[from + 1..];
    }
  }

  lemma FeeShownIsPaid(transactions: map<string, TxRow>, tx: Tx, cfg: Config)
    requires tx.txid in transactions
    requires FlagColumns(transactions[tx.txid], tx) && FeeColumns(transactions[tx.txid], tx.fee, cfg)
    ensures FeeShown(transactions, tx.txid) == PolicyFee(tx, cfg)
  {
    var r := transactions[tx.txid];
    if !CreatesCoins(tx) && r.feeSats.Some? { assert r.feeSats == Some(r.feeSats.value); }
    if cfg.policyAsset in tx.fee && cfg.parseSats(tx.fee[cfg.policyAsset]).Some? {
      var v := cfg.parseSats(tx.fee[cfg.policyAsset]).value;
      assert r.feeSats == Some(v) <==> v != 0;
    }
  }

  /** The row of block h; its fees are the 64-bit sum of what its transactions pay in the policy asset. */
  lemma BlockColumns(c: seq<Block>, cfg: Config, h: nat, t: Tables)
    requires Consecutive(c, 0) && Index(c, cfg) == Some(t) && h < |c|
    ensures h in t.blocks
    ensures var r, b := t.blocks[h], c[h];
            && r.hash == b.hash && TextColumn(r.prevHash, b.previousHash) && r.time == b.time
            && r.txCount == |b.txs| && r.payload == b.payload
            && r.subsidySats == cfg.subsidyAt(h) && r.feesSats == WrapInt64(FeesPaid(b.txs, cfg))
  {
    IndexWellFormed(c, cfg);
    assert t.blocks[h] == StoredRow(c[h], cfg);
    BlockFeesAreRowFees(c, cfg, h, t);
    FeesShownArePaid(c, cfg, h, 0, t);
    assert c[h].txs[0..] == c[h].txs;
  }

  // ----- assets

  /** The operation is a first issuance of the asset. */
  ghost predicate FirstIssues(op: Op, a: string) {
    op.NewInput? && op.v.issuance.Some? && op.v.issuance.value.asset == a && !op.v.issuance.value.isReissuance
  }

  /** The operation is the earliest of the list, at place k, to issue the asset for the first time. */
  ghost predicate Earliest(ops: seq<Op>, a: string, k: nat, op: Op) {
    k < |ops| && ops[k] == op && FirstIssues(op, a) && NoneBefore(ops, a, k)
  }

  ghost predicate NoneBefore(ops: seq<Op>, a: string, k: nat) {
    forall j :: 0 <= j < k && j < |ops| ==> !FirstIssues(ops[j], a)
  }

  /** The columns of an asset row that its issuance fixes. */
  ghost predicate AnchorColumns(r: Anchor, p: Placed, vin: int, s: Issuance, cfg: Config) {
    && TextColumn(r.token, s.token) && TextColumn(r.entropy, s.entropy)
    && r.txid == p.tx.txid && r.vin == vin
    && r.height == p.block.height && r.blockHash == p.block.hash && r.time == p.block.time
    && (r.confidential <==> s.assetAmountCommitment != "") && (r.verified <==> cfg.verifies(s))
  }

  ghost predicate AnchoredBy(assets: map<string, AssetRow>, a: string, op: Op, cfg: Config)
    requires FirstIssues(op, a)
  {
    a in assets && AnchorColumns(assets[a].anchor, op.p, op.vin, op.v.issuance.value, cfg)
  }

  lemma IssuanceKeepsAnchors(w: Work, p: Placed, vin: int, v: Vin, s: Issuance, cfg: Config, a: string)
    requires InsertIssuance(w, p, vin, v, s, cfg).Some?
    ensures var t' := InsertIssuance(w, p, vin, v, s, cfg).value.t;
            && (a in w.t.assets ==> a in t'.assets && t'.assets[a] == w.t.assets[a])
            && (a !in w.t.assets && !(s.asset == a && !s.isReissuance) ==> a !in t'.assets)
            && (a !in w.t.assets && s.asset == a && !s.isReissuance ==>
                  a in t'.assets && AnchorColumns(t'.assets[a].anchor, p, vin, s, cfg))
  {
  }

  lemma PerformAnchors(w: Work, op: Op, cfg: Config, a: string)
    requires Perform(w, op, cfg).Some?
    ensures var t' := Perform(w, op, cfg).value.t;
            && (a in w.t.assets ==> a in t'.assets && t'.assets[a] == w.t.assets[a])
            && (a !in w.t.assets && !FirstIssues(op, a) ==> a !in t'.assets)
            && (a !in w.t.assets && FirstIssues(op, a) ==> AnchoredBy(t'.assets, a, op, cfg))
  {
    if op.NewInput? && op.v.issuance.Some? {
      IssuanceKeepsAnchors(w.(t := AddInput(w.t, op.p, op.vin, op.v)), op.p, op.vin, op.v, op.v.issuance.value, cfg, a);
    }
  }

  lemma {:induction false} RunKeepsAnchor(w: Work, ops: seq<Op>, cfg: Config, a: string)
    requires Run(w, ops, cfg).Some? && a in w.t.assets
    ensures var t' := Run(w, ops, cfg).value.t;
            a in t'.assets && t'.assets[a] == w.t.assets[a]
    decreases |ops|
  {
    if ops != [] {
      PerformAnchors(w, ops[0], cfg, a);
      RunKeepsAnchor(Perform(w, ops[0], cfg).value, ops[1..], cfg, a);
    }
  }

  lemma NoneBeforeTail(ops: seq<Op>, a: string, k: nat)
    requires ops != [] && k > 0 && NoneBefore(ops, a, k)
    ensures !FirstIssues(ops[0], a) && NoneBefore(ops[1..], a, k - 1)
  {
    assert forall j :: 0 <= j < k - 1 && j < |ops[1..]| ==> ops[1..][j] == ops[j + 1];
  }

  lemma {:induction false} RunAddsNoAnchor(w: Work, ops: seq<Op>, cfg: Config, a: string)
    requires Run(w, ops, cfg).Some? && a !in w.t.assets && NoneBefore(ops, a, |ops|)
    ensures a !in Run(w, ops, cfg).value.t.assets
    decreases |ops|
  {
    if ops != [] {
      NoneBeforeTail(ops, a, |ops|);
      PerformAnchors(w, ops[0], cfg, a);
      RunAddsNoAnchor(Perform(w, ops[0], cfg).value, ops[1..], cfg, a);
    }
  }

  lemma {:induction false} RunAnchors(w: Work, ops: seq<Op>, cfg: Config, a: string, k: nat, op: Op)
    requires Run(w, ops, cfg).Some? && a !in w.t.assets && Earliest(ops, a, k, op)
    ensures AnchoredBy(Run(w, ops, cfg).value.t.assets, a, op, cfg)
    decreases |ops|
  {
    var w1 := Perform(w, ops[0], cfg).value;
    PerformAnchors(w, ops[0], cfg, a);
    if k == 0 {
      RunKeepsAnchor(w1, ops[1..], cfg, a);
    } else {
      NoneBeforeTail(ops, a, k);
      RunAnchors(w1, ops[1..], cfg, a, k - 1, op);
    }
  }

  /** Inserting a block leaves the assets its operations leave. */
  lemma BlockAssets(w: Work, b: Block, cfg: Config, w': Work)
    requires InsertBlock(w, b, cfg) == Some(w')
    ensures Run(w, BlockOps(b), cfg).Some? && w'.t.assets == Run(w, BlockOps(b), cfg).value.t.assets
  {
    TransactionsAsOps(w, b, cfg, 0);
    FinishBlockHides(Run(w, BlockOps(b), cfg).value, b, cfg);
  }

  lemma {:induction false} BlocksKeepAnchor(w: Work, bs: seq<Block>, cfg: Config, a: string)
    requires InsertBlocks(w, bs, cfg).Some? && a in w.t.assets
    ensures var t' := InsertBlocks(w, bs, cfg).value.t;
            a in t'.assets && t'.assets[a] == w.t.assets[a]
    decreases |bs|
  {
    if bs != [] {
      var w1 := InsertBlock(w, bs[0], cfg).value;
      BlockAssets(w, bs[0], cfg, w1);
      RunKeepsAnchor(w, BlockOps(bs[0]), cfg, a);
      BlocksKeepAnchor(w1, bs[1..], cfg, a);
    }
  }

  /** The earliest of two lists is in the first, or the first has none. */
  lemma EarliestSplits(xs: seq<Op>, ys: seq<Op>, a: string, k: nat, op: Op)
    requires Earliest(xs + ys, a, k, op)
    ensures k < |xs| ==> Earliest(xs, a, k, op)
    ensures k >= |xs| ==> Earliest(ys, a, k - |xs|, op) && NoneBefore(xs, a, |xs|)
  {
    assert forall j :: 0 <= j < |xs| ==> xs[j] == (xs + ys)[j];
    assert forall j :: 0 <= j < |ys| ==> ys[j] == (xs + ys)[|xs| + j];
  }

  /** The first block anchors the asset, or leaves it to the blocks behind. */
  lemma BlockAnchors(w: Work, b: Block, cfg: Config, a: string, k: nat, op: Op, rest: seq<Op>, w1: Work)
    returns (left: nat)
    requires InsertBlock(w, b, cfg) == Some(w1) && a !in w.t.assets && Earliest(BlockOps(b) + rest, a, k, op)
    ensures k < |BlockOps(b)| ==> AnchoredBy(w1.t.assets, a, op, cfg)
    ensures k >= |BlockOps(b)| ==> a !in w1.t.assets && Earliest(rest, a, left, op)
  {
    left := if k < |BlockOps(b)| then 0 else k - |BlockOps(b)|;
    BlockAssets(w, b, cfg, w1);
    EarliestSplits(BlockOps(b), rest, a, k, op);
    if k < |BlockOps(b)| {
      RunAnchors(w, BlockOps(b), cfg, a, k, op);
    } else {
      RunAddsNoAnchor(w, BlockOps(b), cfg, a);
    }
  }

  lemma FirstOfBlocks(w: Work, bs: seq<Block>, cfg: Config, w': Work) returns (w1: Work)
    requires bs != [] && InsertBlocks(w, bs, cfg) == Some(w')
    ensures InsertBlock(w, bs[0], cfg) == Some(w1) && InsertBlocks(w1, bs[1..], cfg) == Some(w')
  {
    w1 := InsertBlock(w, bs[0], cfg).value;
  }

  lemma {:induction false} BlocksAnchor(w: Work, bs: seq<Block>, cfg: Config, a: string, k: nat, op: Op, w': Work)
    requires InsertBlocks(w, bs, cfg) == Some(w') && a !in w.t.assets && Earliest(ChainOps(bs), a, k, op)
    ensures AnchoredBy(w'.t.assets, a, op, cfg)
    decreases |bs|
  {
    var w1 := FirstOfBlocks(w, bs, cfg, w');
    var left := BlockAnchors(w, bs[0], cfg, a, k, op, ChainOps(bs[1..]), w1);
    if k < |BlockOps(bs[0])| {
      BlocksKeepAnchor(w1, bs[1..], cfg, a);
    } else {
      BlocksAnchor(w1, bs[1..], cfg, a, left, op, w');
    }
  }

  /** The row of an asset: fixed by the earliest first issuance of the chain, whatever later ones say. */
  lemma AssetColumns(c: seq<Block>, cfg: Config, a: string, k: nat, op: Op, t: Tables)
    requires Index(c, cfg) == Some(t) && Earliest(ChainOps(c), a, k, op)
    ensures AnchoredBy(t.assets, a, op, cfg)
  {
    var w := InsertBlocks(Work(EMPTY, {}), c, cfg).value;
    BlocksAnchor(Work(EMPTY, {}), c, cfg, a, k, op, w);
    FinishKeepsAnchors(w, c, t, a);
  }

  lemma FinishKeepsAnchors(w: Work, bs: seq<Block>, t: Tables, a: string)
    requires bs != [] && FinishBatch(w, bs) == Some(t)
    ensures a in t.assets <==> a in w.t.assets
    ensures a in t.assets ==> t.assets[a].anchor == w.t.assets[a].anchor
  {
  }
}
