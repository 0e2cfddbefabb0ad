/**
 Which chains can be indexed at all: the exact conditions, in the fields of the blocks, under which every
 insert and the refresh behind them succeed.
 */
module Acceptance {
  import opened Common
  import opened ChainModel
  import opened Tables
  import opened Operations
  import opened Invariants
  import opened Reorg
  import opened Batches
  import opened History
  import opened Mirror

  // ----- one operation

  ghost predicate ReadableAmount(amount: Option<string>, cfg: Config) {
    amount.Some? ==> cfg.parseSats(amount.value).Some?
  }

  /** Every amount the operation stores can be read. */
  ghost predicate Readable(op: Op, cfg: Config) {
    match op
    case NewTransaction(p) => forall a :: a in p.tx.fee ==> ReadableAmount(Some(p.tx.fee[a]), cfg)
    case NewInput(_, _, v) =>
      v.issuance.Some? ==>
        ReadableAmount(v.issuance.value.assetAmount, cfg) && ReadableAmount(v.issuance.value.tokenAmount, cfg)
    case NewOutput(_, o) => ReadableAmount(o.value, cfg)
  }

  /** The operations would write the same row. */
  ghost predicate Clash(x: Op, y: Op) {
    match x
    case NewTransaction(p) => y.NewTransaction? && y.p.tx.txid == p.tx.txid
    case NewInput(p, vin, _) => y.NewInput? && y.p.tx.txid == p.tx.txid && y.vin == vin
    case NewOutput(p, o) => y.NewOutput? && y.p.tx.txid == p.tx.txid && y.o.n == o.n
  }

  /** The row of the operation is there already. */
  ghost predicate Taken(t: Tables, op: Op) {
    match op
    case NewTransaction(p) => p.tx.txid in t.transactions
    case NewInput(p, vin, v) =>
      || InputKey(p.tx.txid, vin) in t.inputs
      || (v.issuance.Some? && InputKey(p.tx.txid, vin) in t.issuances)
    case NewOutput(p, o) => OutPoint(p.tx.txid, o.n) in t.outputs
  }

  lemma FeesReadable(fee: map<string, string>, cfg: Config)
    ensures ParseFees(fee, cfg).Some? <==> forall a :: a in fee ==> ReadableAmount(Some(fee[a]), cfg)
  {
  }

  lemma PerformSucceeds(w: Work, op: Op, cfg: Config)
    ensures Perform(w, op, cfg).Some? <==> Readable(op, cfg) && !Taken(w.t, op)
  {
    if op.NewTransaction? { FeesReadable(op.p.tx.fee, cfg); }
  }

  lemma PerformTakes(w: Work, op: Op, cfg: Config, x: Op)
    requires Perform(w, op, cfg).Some?
    ensures Taken(Perform(w, op, cfg).value.t, x) <==> Taken(w.t, x) || Clash(op, x)
  {
  }

  // ----- a list of operations

  /** Every operation can be read and finds its row free. */
  ghost predicate EachFits(t: Tables, ops: seq<Op>, cfg: Config) {
    forall i :: 0 <= i < |ops| ==> Readable(ops[i], cfg) && !Taken(t, ops[i])
  }

  ghost predicate NoneClash(ops: seq<Op>) {
    forall i, j :: 0 <= i < j < |ops| ==> !Clash(ops[i], ops[j])
  }

  lemma NoneClashCons(ops: seq<Op>)
    requires ops != []
    ensures NoneClash(ops) <==> NoneClash(ops[1..]) && forall j :: 0 <= j < |ops[1..]| ==> !Clash(ops[0], ops[1..][j])
  {
    var rest := ops[1..];
    assert forall j :: 0 <= j < |rest| ==> rest[j] == ops[j + 1];
    if NoneClash(rest) && forall j :: 0 <= j < |rest| ==> !Clash(ops[0], rest[j]) {
      forall i, j | 0 <= i < j < |ops|
        ensures !Clash(ops[i], ops[j])
      {
        if i > 0 { assert !Clash(rest[i - 1], rest[j - 1]); } else { assert !Clash(ops[0], rest[j - 1]); }
      }
    }
    if NoneClash(ops) {
      forall i, j | 0 <= i < j < |rest| ensures !Clash(rest[i], rest[j]) { assert !Clash(ops[i + 1], ops[j + 1]); }
      forall j | 0 <= j < |rest| ensures !Clash(ops[0], rest[j]) { assert !Clash(ops[0], ops[j + 1]); }
    }
  }

  lemma EachFitsCons(t: Tables, t1: Tables, ops: seq<Op>, cfg: Config)
    requires ops != [] && forall x :: Taken(t1, x) <==> Taken(t, x) || Clash(ops[0], x)
    ensures EachFits(t1, ops[1..], cfg) && Readable(ops[0], cfg) && !Taken(t, ops[0]) <==>
            EachFits(t, ops, cfg) && forall j :: 0 <= j < |ops[1..]| ==> !Clash(ops[0], ops[1..][j])
  {
    var rest := ops[1..];
    assert forall j :: 0 <= j < |rest| ==> rest[j] == ops[j + 1];
    if EachFits(t1, rest, cfg) && Readable(ops[0], cfg) && !Taken(t, ops[0]) {
      forall i | 0 <= i < |ops|
        ensures Readable(ops[i], cfg) && !Taken(t, ops[i])
      {
        if i > 0 { assert Readable(rest[i - 1], cfg) && !Taken(t1, rest[i - 1]); }
      }
    }
    if EachFits(t, ops, cfg) {
      forall j | 0 <= j < |rest| ensures Readable(rest[j], cfg) && !Taken(t, rest[j]) {
        assert Readable(ops[j + 1], cfg) && !Taken(t, ops[j + 1]);
      }
    }
  }

  /** A list of operations runs exactly when each fits and no two write one row. */
  lemma {:induction false} RunSucceeds(w: Work, ops: seq<Op>, cfg: Config)
    ensures Run(w, ops, cfg).Some? <==> EachFits(w.t, ops, cfg) && NoneClash(ops)
    decreases |ops|
  {
    if ops != [] {
      PerformSucceeds(w, ops[0], cfg);
      if Perform(w, ops[0], cfg).Some? {
        var w1 := Perform(w, ops[0], cfg).value;
        forall x
          ensures Taken(w1.t, x) <==> Taken(w.t, x) || Clash(ops[0], x)
        {
          PerformTakes(w, ops[0], cfg, x);
        }
        RunSucceeds(w1, ops[1..], cfg);
        EachFitsCons(w.t, w1.t, ops, cfg);
        NoneClashCons(ops);
      }
    }
  }

  // ----- blocks

  /** The height and the hash of the block are free. */
  ghost predicate BlockIsNew(blocks: map<int, BlockRow>, b: Block) {
    b.height !in blocks && forall h :: h in blocks ==> blocks[h].hash != b.hash
  }

  ghost predicate SameName(a: Block, b: Block) {
    a.height == b.height || a.hash == b.hash
  }

  /** Every block is new, and no two share a height or a hash. */
  ghost predicate BlocksAreNew(blocks: map<int, BlockRow>, bs: seq<Block>) {
    && (forall i :: 0 <= i < |bs| ==> BlockIsNew(blocks, bs[i]))
    && (forall i, j :: 0 <= i < j < |bs| ==> !SameName(bs[i], bs[j]))
  }

  lemma BlocksAreNewCons(blocks: map<int, BlockRow>, bs: seq<Block>, row: BlockRow)
    requires bs != [] && row.hash == bs[0].hash
    ensures BlocksAreNew(blocks, bs) <==>
            BlockIsNew(blocks, bs[0]) && BlocksAreNew(blocks[bs[0].height := row], bs[1..])
  {
    var rest, more := bs[1..], blocks[bs[0].height := row];
    assert forall j :: 0 <= j < |rest| ==> rest[j] == bs[j + 1];
    if BlockIsNew(blocks, bs[0]) && BlocksAreNew(more, rest) {
      forall i, j | 0 <= i < j < |bs|
        ensures !SameName(bs[i], bs[j])
      {
        if i == 0 {
          assert BlockIsNew(more, rest[j - 1]) && more[bs[0].height].hash == bs[0].hash;
        } else {
          assert !SameName(rest[i - 1], rest[j - 1]);
        }
      }
      forall i | 0 <= i < |bs|
        ensures BlockIsNew(blocks, bs[i])
      {
        if i > 0 { NewInLarger(blocks, more, rest[i - 1], bs[0].height); }
      }
    }
    if BlocksAreNew(blocks, bs) {
      forall j | 0 <= j < |rest|
        ensures BlockIsNew(more, rest[j])
      {
        assert BlockIsNew(blocks, bs[j + 1]) && !SameName(bs[0], bs[j + 1]);
      }
      forall i, j | 0 <= i < j < |rest| ensures !SameName(rest[i], rest[j]) {
        assert !SameName(bs[i + 1], bs[j + 1]);
      }
    }
  }

  lemma NewInLarger(blocks: map<int, BlockRow>, more: map<int, BlockRow>, b: Block, h: int)
    requires BlockIsNew(more, b) && h !in blocks && h in more && more == blocks[h := more[h]]
    ensures BlockIsNew(blocks, b)
  {
    forall k | k in blocks ensures blocks[k].hash != b.hash { assert k in more && more[k] == blocks[k]; }
  }

  /** Whether a row is taken depends on the row tables alone. */
  lemma SameTaken(t: Tables, u: Tables, ops: seq<Op>, cfg: Config)
    requires SameBody(t, u)
    ensures EachFits(t, ops, cfg) <==> EachFits(u, ops, cfg)
  {
    assert forall x :: Taken(t, x) <==> Taken(u, x);
  }

  lemma {:induction false} RunKeepsBlocks(w: Work, ops: seq<Op>, cfg: Config)
    requires Run(w, ops, cfg).Some?
    ensures Run(w, ops, cfg).value.t.blocks == w.t.blocks
    decreases |ops|
  {
    if ops != [] { RunKeepsBlocks(Perform(w, ops[0], cfg).value, ops[1..], cfg); }
  }

  /** One block goes in exactly when its operations run and its row is new. */
  lemma BlockSucceeds(w: Work, b: Block, cfg: Config)
    ensures InsertBlock(w, b, cfg).Some? <==> Run(w, BlockOps(b), cfg).Some? && BlockIsNew(w.t.blocks, b)
    ensures InsertBlock(w, b, cfg).Some? ==>
              var t1, t2 := Run(w, BlockOps(b), cfg).value.t, InsertBlock(w, b, cfg).value.t;
              SameBody(t1, t2) && t2.blocks == w.t.blocks[b.height := StoredRow(b, cfg)]
  {
    TransactionsAsOps(w, b, cfg, 0);
    if Run(w, BlockOps(b), cfg).Some? {
      RunKeepsBlocks(w, BlockOps(b), cfg);
      if InsertBlock(w, b, cfg).Some? { FinishBlockHides(Run(w, BlockOps(b), cfg).value, b, cfg); }
    }
  }

  /** The operations of blocks go in exactly when each fits, no two write one row, and the blocks are new. */
  lemma {:induction false} BlocksSucceed(w: Work, bs: seq<Block>, cfg: Config)
    ensures InsertBlocks(w, bs, cfg).Some? <==>
            EachFits(w.t, ChainOps(bs), cfg) && NoneClash(ChainOps(bs)) && BlocksAreNew(w.t.blocks, bs)
    decreases |bs|
  {
    if bs != [] {
      var first, rest := BlockOps(bs[0]), ChainOps(bs[1..]);
      BlockSucceeds(w, bs[0], cfg);
      RunSucceeds(w, first + rest, cfg);
      RunConcat(w, first, rest, cfg);
      BlocksAreNewCons(w.t.blocks, bs, StoredRow(bs[0], cfg));
      if InsertBlock(w, bs[0], cfg).Some? {
        var w1, w2 := Run(w, first, cfg).value, InsertBlock(w, bs[0], cfg).value;
        RunSucceeds(w1, rest, cfg);
        SameTaken(w1.t, w2.t, rest, cfg);
        BlocksSucceed(w2, bs[1..], cfg);
      }
    }
  }

  // ----- sums

  /** What an operation adds to the issued amount of an asset; blinded amounts add nothing. */
  ghost function AssetAdded(op: Op, a: string, cfg: Config): int {
    if op.NewInput? && op.v.issuance.Some? && op.v.issuance.value.asset == a then
      Explicit(op.v.issuance.value.assetAmount, cfg)
    else 0
  }

  ghost function TokenAdded(op: Op, a: string, cfg: Config): int {
    if op.NewInput? && op.v.issuance.Some? && op.v.issuance.value.asset == a then
      Explicit(op.v.issuance.value.tokenAmount, cfg)
    else 0
  }

  ghost function Explicit(amount: Option<string>, cfg: Config): int {
    if amount.None? || cfg.parseSats(amount.value).None? then 0 else cfg.parseSats(amount.value).value
  }

  ghost function AssetsAdded(ops: seq<Op>, a: string, cfg: Config): int {
    if ops == [] then 0 else AssetAdded(ops[0], a, cfg) + AssetsAdded(ops[1..], a, cfg)
  }

  ghost function TokensAdded(ops: seq<Op>, a: string, cfg: Config): int {
    if ops == [] then 0 else TokenAdded(ops[0], a, cfg) + TokensAdded(ops[1..], a, cfg)
  }

  ghost function AssetSum(t: Tables, a: string): int {
    SumValues(AssetAmounts(t.issuances, a))
  }

  ghost function TokenSum(t: Tables, a: string): int {
    SumValues(TokenAmounts(t.issuances, a))
  }

  lemma NewIssuanceAdds(i: map<InputKey, IssuanceRow>, j: map<InputKey, IssuanceRow>, k: InputKey, r: IssuanceRow,
                        a: string)
    requires k !in i && j == i[k := r]
    ensures SumValues(AssetAmounts(j, a)) ==
            SumValues(AssetAmounts(i, a)) + if r.asset == a then OrZero(r.assetSats) else 0
    ensures SumValues(TokenAmounts(j, a)) ==
            SumValues(TokenAmounts(i, a)) + if r.asset == a then OrZero(r.tokenSats) else 0
  {
    if r.asset == a {
      assert AssetAmounts(j, a) == AssetAmounts(i, a)[k := OrZero(r.assetSats)];
      assert TokenAmounts(j, a) == TokenAmounts(i, a)[k := OrZero(r.tokenSats)];
      SumValuesAdd(AssetAmounts(i, a), k, OrZero(r.assetSats));
      SumValuesAdd(TokenAmounts(i, a), k, OrZero(r.tokenSats));
    } else {
      assert AssetAmounts(j, a) == AssetAmounts(i, a) && TokenAmounts(j, a) == TokenAmounts(i, a);
    }
  }

  lemma PerformAdds(w: Work, op: Op, cfg: Config, a: string)
    requires Perform(w, op, cfg).Some?
    ensures var t' := Perform(w, op, cfg).value.t;
            && AssetSum(t', a) == AssetSum(w.t, a) + AssetAdded(op, a, cfg)
            && TokenSum(t', a) == TokenSum(w.t, a) + TokenAdded(op, a, cfg)
  {
    var t' := Perform(w, op, cfg).value.t;
    if op.NewInput? && op.v.issuance.Some? {
      var k := InputKey(op.p.tx.txid, op.vin);
      NewIssuanceAdds(w.t.issuances, t'.issuances, k, t'.issuances[k], a);
    }
  }

  lemma {:induction false} RunAdds(w: Work, ops: seq<Op>, cfg: Config, a: string)
    requires Run(w, ops, cfg).Some?
    ensures var t' := Run(w, ops, cfg).value.t;
            && AssetSum(t', a) == AssetSum(w.t, a) + AssetsAdded(ops, a, cfg)
            && TokenSum(t', a) == TokenSum(w.t, a) + TokensAdded(ops, a, cfg)
    decreases |ops|
  {
    if ops != [] {
      PerformAdds(w, ops[0], cfg, a);
      RunAdds(Perform(w, ops[0], cfg).value, ops[1..], cfg, a);
    }
  }

  lemma {:induction false} AddedConcat(xs: seq<Op>, ys: seq<Op>, a: string, cfg: Config)
    ensures AssetsAdded(xs + ys, a, cfg) == AssetsAdded(xs, a, cfg) + AssetsAdded(ys, a, cfg)
    ensures TokensAdded(xs + ys, a, cfg) == TokensAdded(xs, a, cfg) + TokensAdded(ys, a, cfg)
    decreases |xs|
  {
    if xs == [] {
      assert xs + ys == ys;
    } else {
      assert (xs + ys)[0] == xs[0] && (xs + ys)[1..] == xs[1..] + ys;
      AddedConcat(xs[1..], ys, a, cfg);
    }
  }

  lemma {:induction false} BlocksAdd(w: Work, bs: seq<Block>, cfg: Config, a: string)
    requires InsertBlocks(w, bs, cfg).Some?
    ensures var t' := InsertBlocks(w, bs, cfg).value.t;
            && AssetSum(t', a) == AssetSum(w.t, a) + AssetsAdded(ChainOps(bs), a, cfg)
            && TokenSum(t', a) == TokenSum(w.t, a) + TokensAdded(ChainOps(bs), a, cfg)
    decreases |bs|
  {
    if bs != [] {
      BlockSucceeds(w, bs[0], cfg);
      RunAdds(w, BlockOps(bs[0]), cfg, a);
      BlocksAdd(InsertBlock(w, bs[0], cfg).value, bs[1..], cfg, a);
      AddedConcat(BlockOps(bs[0]), ChainOps(bs[1..]), a, cfg);
    }
  }

  // ----- whole chains

  ghost predicate DistinctHashes(c: seq<Block>) {
    forall i, j :: 0 <= i < j < |c| ==> c[i].hash != c[j].hash
  }

  ghost predicate AmountsReadable(ops: seq<Op>, cfg: Config) {
    forall i :: 0 <= i < |ops| ==> Readable(ops[i], cfg)
  }

  /** No asset's explicit amounts, and none of its tokens', add up to more than 64 bits. */
  ghost predicate SuppliesFit(ops: seq<Op>, cfg: Config) {
    forall a :: FitsInt64(AssetsAdded(ops, a, cfg)) && FitsInt64(TokensAdded(ops, a, cfg))
  }

  /** What a chain must be like to have an index. */
  ghost predicate Acceptable(c: seq<Block>, cfg: Config) {
    && AmountsReadable(ChainOps(c), cfg) && NoneClash(ChainOps(c))
    && DistinctHashes(c) && SuppliesFit(ChainOps(c), cfg)
  }

  lemma InsertsSucceed(c: seq<Block>, cfg: Config)
    requires Consecutive(c, 0)
    ensures InsertBlocks(Work(EMPTY, {}), c, cfg).Some? <==>
            AmountsReadable(ChainOps(c), cfg) && NoneClash(ChainOps(c)) && DistinctHashes(c)
  {
    BlocksSucceed(Work(EMPTY, {}), c, cfg);
    assert forall x :: !Taken(EMPTY, x);
    if DistinctHashes(c) {
      forall i, j | 0 <= i < j < |c| ensures !SameName(c[i], c[j]) { assert c[i].height != c[j].height; }
    }
    if BlocksAreNew(EMPTY.blocks, c) {
      forall i, j | 0 <= i < j < |c| ensures c[i].hash != c[j].hash { assert !SameName(c[i], c[j]); }
    }
  }

  lemma RefreshSucceeds(w: Work, c: seq<Block>, cfg: Config)
    requires c != [] && InsertBlocks(Work(EMPTY, {}), c, cfg) == Some(w) && Consecutive(c, 0)
    ensures FinishBatch(w, c).Some? <==> SuppliesFit(ChainOps(c), cfg)
  {
    EmptyWellFormed();
    InsertBlocksKeeps(Work(EMPTY, {}), c, cfg, 0);
    RefreshOutcome(w.t, w.touched);
    forall a: string
      ensures SumsFit(w.t.issuances, a) <==>
              FitsInt64(AssetsAdded(ChainOps(c), a, cfg)) && FitsInt64(TokensAdded(ChainOps(c), a, cfg))
    {
      BlocksAdd(Work(EMPTY, {}), c, cfg, a);
      assert AssetAmounts(EMPTY.issuances, a) == map[] && TokenAmounts(EMPTY.issuances, a) == map[];
    }
  }

  /**
   Exactly which chains have an index: every amount can be read, no two records claim one row, no two blocks share
   a hash, and what is issued of every asset, and of every token, adds up within 64 bits.
   */
  lemma WhichChainsAreIndexed(c: seq<Block>, cfg: Config)
    requires Consecutive(c, 0)
    ensures Index(c, cfg).Some? <==> Acceptable(c, cfg)
  {
    InsertsSucceed(c, cfg);
    if c == [] {
      assert forall a :: AssetsAdded([], a, cfg) == 0 && TokensAdded([], a, cfg) == 0;
    } else if InsertBlocks(Work(EMPTY, {}), c, cfg).Some? {
      RefreshSucceeds(InsertBlocks(Work(EMPTY, {}), c, cfg).value, c, cfg);
    }
  }
}
