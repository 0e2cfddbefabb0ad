/**
 What every table keeps: rows belong to indexed heights, every asset row hangs on an
 indexed issuance, and its totals are the aggregates of that asset's issuances.
 */
module Invariants {
  import opened Common
  import opened ChainModel
  import opened Tables
  import opened Operations

  ghost predicate TransactionsIn(m: map<string, TxRow>, n: int) {
    forall k :: k in m ==> 0 <= m[k].height < n
  }

  ghost predicate InputsIn(m: map<InputKey, InputRow>, n: int) {
    forall k :: k in m ==> 0 <= m[k].height < n
  }

  ghost predicate OutputsIn(m: map<OutPoint, OutputRow>, n: int) {
    forall k :: k in m ==>
      && 0 <= m[k].height < n
      && (m[k].spent.Some? ==> 0 <= m[k].spent.value.height < n)
  }

  ghost predicate IssuancesIn(m: map<InputKey, IssuanceRow>, n: int) {
    forall k :: k in m ==> 0 <= m[k].height < n
  }

  ghost predicate AssetsIn(m: map<string, AssetRow>, n: int) {
    forall k :: k in m ==> 0 <= m[k].anchor.height < n
  }

  ghost predicate AddressesIn(m: map<AddressKey, AddressRow>, n: int) {
    forall k :: k in m ==> 0 <= m[k].height < n
  }

  /** Every row, and every spent marker, belongs to a height in [0, n). */
  ghost predicate InRange(t: Tables, n: int) {
    && TransactionsIn(t.transactions, n)
    && InputsIn(t.inputs, n)
    && OutputsIn(t.outputs, n)
    && IssuancesIn(t.issuances, n)
    && AssetsIn(t.assets, n)
    && AddressesIn(t.addressTxs, n)
  }

  /** Every asset row was created by an issuance that is still indexed at the height it names. */
  ghost predicate Anchored(assets: map<string, AssetRow>, issuances: map<InputKey, IssuanceRow>) {
    forall a :: a in assets ==> AnchoredAt(issuances, a, assets[a].anchor)
  }

  ghost predicate AnchoredAt(issuances: map<InputKey, IssuanceRow>, a: string, c: Anchor) {
    var k := InputKey(c.txid, c.vin);
    && k in issuances
    && issuances[k].asset == a && !issuances[k].isReissuance && issuances[k].height == c.height
  }

  /** Every first issuance has its asset row, anchored no later than itself. */
  ghost predicate Complete(assets: map<string, AssetRow>, issuances: map<InputKey, IssuanceRow>) {
    forall k :: k in issuances && !issuances[k].isReissuance ==>
      issuances[k].asset in assets && assets[issuances[k].asset].anchor.height <= issuances[k].height
  }

  /** Totals are current for every asset row outside `except`. */
  ghost predicate Current(assets: map<string, AssetRow>, issuances: map<InputKey, IssuanceRow>, except: set<string>) {
    forall a :: a in assets && a !in except ==> assets[a].totals == TotalsOf(issuances, a)
  }

  /** No amount column overflows when it is summed over an asset outside `except`. */
  ghost predicate Summable(issuances: map<InputKey, IssuanceRow>, except: set<string>) {
    forall a :: a !in except ==> SumsFit(issuances, a)
  }

  ghost predicate WorkOk(w: Work, n: int) {
    && InRange(w.t, n)
    && Summable(w.t.issuances, w.touched)
    && Anchored(w.t.assets, w.t.issuances)
    && Complete(w.t.assets, w.t.issuances)
    && Current(w.t.assets, w.t.issuances, w.touched)
  }

  ghost predicate Contiguous(blocks: map<int, BlockRow>, n: int) {
    forall h :: h in blocks <==> 0 <= h < n
  }

  /** The cursor names the top row; the recorded genesis is block 0 whenever block 0 is indexed. */
  ghost predicate CursorAtTop(t: Tables, n: int)
    requires Contiguous(t.blocks, n)
  {
    if n > 0 then
      t.meta == Meta(Some(n - 1), Some(t.blocks[n - 1].hash), Some(t.blocks[0].hash))
    else
      t.meta.indexedHeight == None && t.meta.indexedHash == None
  }

  /** A committed index of n blocks. */
  ghost predicate WellFormed(t: Tables, n: nat) {
    && Contiguous(t.blocks, n)
    && CursorAtTop(t, n)
    && WorkOk(Work(t, {}), n)
  }

  /** The tables that only change once per block or per batch. */
  ghost predicate SameFrame(t: Tables, t': Tables) {
    t'.blocks == t.blocks && t'.meta == t.meta && t'.addressTxs == t.addressTxs
  }

  // ----- totals depend only on the asset's own issuances

  ghost predicate SameIssuances(i: map<InputKey, IssuanceRow>, j: map<InputKey, IssuanceRow>, a: string) {
    && (forall k :: k in i && i[k].asset == a ==> k in j && j[k] == i[k])
    && (forall k :: k in j && j[k].asset == a ==> k in i && i[k] == j[k])
  }

  lemma EmptyWellFormed()
    ensures WellFormed(EMPTY, 0)
  {
    forall a ensures SumsFit(EMPTY.issuances, a) {
      assert AssetAmounts(EMPTY.issuances, a) == map[] && TokenAmounts(EMPTY.issuances, a) == map[];
    }
  }

  lemma TotalsFrame(i: map<InputKey, IssuanceRow>, j: map<InputKey, IssuanceRow>, a: string)
    requires SameIssuances(i, j, a)
    ensures TotalsOf(i, a) == TotalsOf(j, a)
    ensures IssuanceKeys(i, a) == IssuanceKeys(j, a)
    ensures SumsFit(i, a) <==> SumsFit(j, a)
  {
    assert AssetAmounts(i, a) == AssetAmounts(j, a);
    assert TokenAmounts(i, a) == TokenAmounts(j, a);
    assert Reissuances(i, a) == Reissuances(j, a);
    assert BlindedAssets(i, a) == BlindedAssets(j, a);
    assert BlindedTokens(i, a) == BlindedTokens(j, a);
    assert IssuanceKeys(i, a) == IssuanceKeys(j, a);
  }

  // ----- every insert keeps the invariants

  lemma OtherAssetsUnmoved(issuances: map<InputKey, IssuanceRow>, key: InputKey, row: IssuanceRow, a: string)
    requires key !in issuances && row.asset != a
    ensures TotalsOf(issuances[key := row], a) == TotalsOf(issuances, a)
    ensures SumsFit(issuances[key := row], a) <==> SumsFit(issuances, a)
  {
    TotalsFrame(issuances, issuances[key := row], a);
  }

  lemma InsertIssuanceKeeps(w: Work, p: Placed, vin: int, v: Vin, i: Issuance, cfg: Config, n: int)
    requires WorkOk(w, n) && 0 <= p.block.height == n - 1
    requires InsertIssuance(w, p, vin, v, i, cfg).Some?
    ensures var w' := InsertIssuance(w, p, vin, v, i, cfg).value;
            WorkOk(w', n) && SameFrame(w.t, w'.t)
  {
    var w' := InsertIssuance(w, p, vin, v, i, cfg).value;
    var key := InputKey(p.tx.txid, vin);
    forall a | a !in w'.touched
      ensures TotalsOf(w'.t.issuances, a) == TotalsOf(w.t.issuances, a) && SumsFit(w'.t.issuances, a)
    {
      OtherAssetsUnmoved(w.t.issuances, key, w'.t.issuances[key], a);
    }
  }

  lemma InsertInputKeeps(w: Work, p: Placed, vin: int, v: Vin, cfg: Config, n: int)
    requires WorkOk(w, n) && 0 <= p.block.height == n - 1
    requires InsertInput(w, p, vin, v, cfg).Some?
    ensures var w' := InsertInput(w, p, vin, v, cfg).value;
            WorkOk(w', n) && SameFrame(w.t, w'.t)
  {
    var w1 := w.(t := AddInput(w.t, p, vin, v));
    assert WorkOk(w1, n);
    if v.issuance.Some? {
      InsertIssuanceKeeps(w1, p, vin, v, v.issuance.value, cfg, n);
    }
  }

  lemma PerformKeeps(w: Work, op: Op, cfg: Config, n: int)
    requires WorkOk(w, n) && 0 <= op.p.block.height == n - 1
    requires Perform(w, op, cfg).Some?
    ensures var w' := Perform(w, op, cfg).value;
            WorkOk(w', n) && SameFrame(w.t, w'.t)
  {
    match op
    case NewTransaction(p) =>
    case NewInput(p, vin, v) => InsertInputKeeps(w, p, vin, v, cfg, n);
    case NewOutput(p, o) =>
  }

  lemma {:induction false} RunKeeps(w: Work, ops: seq<Op>, b: Block, cfg: Config, n: int)
    requires WorkOk(w, n) && AllIn(ops, b) && 0 <= b.height == n - 1
    requires Run(w, ops, cfg).Some?
    ensures var w' := Run(w, ops, cfg).value;
            WorkOk(w', n) && SameFrame(w.t, w'.t)
    decreases |ops|
  {
    if ops != [] {
      PerformKeeps(w, ops[0], cfg, n);
      RunKeeps(Perform(w, ops[0], cfg).value, ops[1..], b, cfg, n);
    }
  }

  lemma InsertTransactionsKeeps(w: Work, b: Block, cfg: Config, n: int)
    requires WorkOk(w, n) && 0 <= b.height == n - 1
    requires InsertTransactions(w, b, cfg, 0).Some?
    ensures var w' := InsertTransactions(w, b, cfg, 0).value;
            WorkOk(w', n) && SameFrame(w.t, w'.t)
  {
    TransactionsAsOps(w, b, cfg, 0);
    OpsFromIn(b, 0);
    RunKeeps(w, BlockOps(b), b, cfg, n);
  }

  lemma IndexedAddressesIn(t: Tables, h: int, n: int)
    requires AddressesIn(t.addressTxs, n) && 0 <= h < n
    ensures AddressesIn(IndexAddresses(t, h).addressTxs, n)
  {
  }

  lemma AddBlockRowKeeps(w: Work, b: Block, cfg: Config, n: nat)
    requires WorkOk(w, n)
    ensures WorkOk(w.(t := AddBlockRow(w.t, b, cfg)), n)
  {
  }

  lemma FinishBlockKeeps(w: Work, b: Block, cfg: Config, n: nat)
    requires WorkOk(w.(t := AddBlockRow(w.t, b, cfg)), n) && 0 <= b.height < n
    requires FinishBlock(w, b, cfg).Some?
    ensures var w' := FinishBlock(w, b, cfg).value;
            && WorkOk(w', n)
            && w'.t.meta == w.t.meta
            && w'.t.blocks == w.t.blocks[b.height := StoredRow(b, cfg)]
  {
    IndexedAddressesIn(AddBlockRow(w.t, b, cfg), b.height, n);
  }

  lemma WorkOkWiden(w: Work, n: int)
    requires WorkOk(w, n)
    ensures WorkOk(w, n + 1)
  {
  }

  lemma InsertBlockKeeps(w: Work, b: Block, cfg: Config, n: nat)
    requires WorkOk(w, n) && b.height == n
    requires InsertBlock(w, b, cfg).Some?
    ensures var w' := InsertBlock(w, b, cfg).value;
            && WorkOk(w', n + 1)
            && w'.t.meta == w.t.meta
            && w'.t.blocks == w.t.blocks[b.height := StoredRow(b, cfg)]
  {
    WorkOkWiden(w, n);
    InsertTransactionsKeeps(w, b, cfg, n + 1);
    var w1 := InsertTransactions(w, b, cfg, 0).value;
    AddBlockRowKeeps(w1, b, cfg, n + 1);
    FinishBlockKeeps(w1, b, cfg, n + 1);
  }

  /** Blocks at consecutive heights starting at n. */
  ghost predicate Consecutive(bs: seq<Block>, n: int) {
    forall i :: 0 <= i < |bs| ==> bs[i].height == n + i
  }

  /** The rows of `bs` stored above the n rows of `before`. */
  ghost predicate Extended(before: map<int, BlockRow>, bs: seq<Block>, cfg: Config, n: nat, after: map<int, BlockRow>) {
    && (forall h :: 0 <= h < n && h in before ==> h in after && after[h] == before[h])
    && (forall h :: n <= h < n + |bs| ==> h in after && after[h] == StoredRow(bs[h - n], cfg))
  }

  ghost function StoredRow(b: Block, cfg: Config): BlockRow {
    BlockRowOf(b, AddFees(0, b, cfg, 0), cfg)
  }

  /** The blocks table once every block of the batch has its row. */
  ghost function BlocksAfter(blocks: map<int, BlockRow>, bs: seq<Block>, cfg: Config): map<int, BlockRow>
    decreases |bs|
  {
    if bs == [] then blocks else BlocksAfter(blocks[bs[0].height := StoredRow(bs[0], cfg)], bs[1..], cfg)
  }

  lemma ExtendedCons(blocks: map<int, BlockRow>, bs: seq<Block>, cfg: Config, n: nat, after: map<int, BlockRow>)
    requires bs != [] && Contiguous(blocks, n)
    requires Extended(blocks[n := StoredRow(bs[0], cfg)], bs[1..], cfg, n + 1, after)
    ensures Extended(blocks, bs, cfg, n, after)
  {
    forall h | n <= h < n + |bs|
      ensures h in after && after[h] == StoredRow(bs[h - n], cfg)
    {
      if h > n { assert bs[1..][h - (n + 1)] == bs[h - n]; }
    }
  }

  lemma {:induction false} BlocksAfterExtends(blocks: map<int, BlockRow>, bs: seq<Block>, cfg: Config, n: nat)
    requires Consecutive(bs, n) && Contiguous(blocks, n)
    ensures Contiguous(BlocksAfter(blocks, bs, cfg), n + |bs|)
    ensures Extended(blocks, bs, cfg, n, BlocksAfter(blocks, bs, cfg))
    decreases |bs|
  {
    if bs != [] {
      var blocks1 := blocks[bs[0].height := StoredRow(bs[0], cfg)];
      BlocksAfterExtends(blocks1, bs[1..], cfg, n + 1);
      ExtendedCons(blocks, bs, cfg, n, BlocksAfter(blocks1, bs[1..], cfg));
    }
  }

  lemma {:induction false} InsertBlocksKeeps(w: Work, bs: seq<Block>, cfg: Config, n: nat)
    requires WorkOk(w, n) && Consecutive(bs, n)
    requires InsertBlocks(w, bs, cfg).Some?
    ensures var w' := InsertBlocks(w, bs, cfg).value;
            && WorkOk(w', n + |bs|)
            && w'.t.meta == w.t.meta
            && w'.t.blocks == BlocksAfter(w.t.blocks, bs, cfg)
    decreases |bs|
  {
    if bs != [] {
      InsertBlockKeeps(w, bs[0], cfg, n);
      var w1 := InsertBlock(w, bs[0], cfg).value;
      InsertBlocksKeeps(w1, bs[1..], cfg, n + 1);
    }
  }

  // ----- refreshing

  /** Skipping an asset without issuances never leaves a stale row: an anchored asset has one. */
  lemma RefreshCompletes(t: Tables, touched: set<string>)
    requires Anchored(t.assets, t.issuances) && Current(t.assets, t.issuances, touched)
    requires Complete(t.assets, t.issuances) && Summable(t.issuances, touched)
    requires RefreshAssets(t, touched).Some?
    ensures var t' := RefreshAssets(t, touched).value;
            && t' == t.(assets := t'.assets)
            && t'.assets.Keys == t.assets.Keys
            && (forall a :: a in t.assets ==> t'.assets[a].anchor == t.assets[a].anchor)
            && Anchored(t'.assets, t'.issuances) && Complete(t'.assets, t'.issuances)
            && Current(t'.assets, t'.issuances, {})
            && Summable(t'.issuances, {})
  {
    forall a | a in t.assets
      ensures IssuanceKeys(t.issuances, a) != {}
    {
      assert AnchoredAt(t.issuances, a, t.assets[a].anchor);
      var c := t.assets[a].anchor;
      assert InputKey(c.txid, c.vin) in IssuanceKeys(t.issuances, a);
    }
  }

  lemma RefreshKeeps(w: Work, n: int)
    requires WorkOk(w, n) && RefreshAssets(w.t, w.touched).Some?
    ensures var t' := RefreshAssets(w.t, w.touched).value;
            WorkOk(Work(t', {}), n) && t' == w.t.(assets := t'.assets)
  {
    RefreshCompletes(w.t, w.touched);
  }

  lemma FinishBatchKeeps(w: Work, bs: seq<Block>, n: nat)
    requires bs != [] && WorkOk(w, n) && FinishBatch(w, bs).Some?
    ensures var t' := FinishBatch(w, bs).value;
            WorkOk(Work(t', {}), n) && t'.blocks == w.t.blocks && t'.meta == MetaAfter(w.t.meta, bs)
  {
    RefreshKeeps(w, n);
  }

  lemma MetaAfterAtTop(before: Tables, after: Tables, bs: seq<Block>, cfg: Config, n: nat)
    requires bs != [] && Consecutive(bs, n)
    requires Contiguous(before.blocks, n) && CursorAtTop(before, n)
    requires Contiguous(after.blocks, n + |bs|) && Extended(before.blocks, bs, cfg, n, after.blocks)
    requires after.meta == MetaAfter(before.meta, bs)
    ensures CursorAtTop(after, n + |bs|)
  {
    assert after.blocks[n + |bs| - 1] == StoredRow(bs[|bs| - 1], cfg);
    assert n == 0 ==> after.blocks[0] == StoredRow(bs[0], cfg);
  }

  /** Every batch of consecutive blocks, whatever it holds, takes a well-formed index to a well-formed index. */
  lemma ApplyKeepsWellFormed(t: Tables, bs: seq<Block>, cfg: Config, n: nat)
    requires WellFormed(t, n) && Consecutive(bs, n)
    requires ApplyBlocks(t, bs, cfg).Some?
    ensures WellFormed(ApplyBlocks(t, bs, cfg).value, n + |bs|)
    ensures Extended(t.blocks, bs, cfg, n, ApplyBlocks(t, bs, cfg).value.blocks)
  {
    if bs != [] {
      var w := InsertBlocks(Work(t, {}), bs, cfg).value;
      InsertBlocksKeeps(Work(t, {}), bs, cfg, n);
      BlocksAfterExtends(t.blocks, bs, cfg, n);
      FinishBatchKeeps(w, bs, n + |bs|);
      MetaAfterAtTop(t, FinishBatch(w, bs).value, bs, cfg, n);
    }
  }

  // ----- rolling back

  lemma RangeWithoutTip(t: Tables, n: int)
    requires InRange(t, n)
    ensures InRange(WithoutHeight(t, n - 1), n - 1)
  {
  }

  lemma AnchoredWithout(assets: map<string, AssetRow>, issuances: map<InputKey, IssuanceRow>, h: int)
    requires Anchored(assets, issuances)
    ensures Anchored(AssetsWithout(assets, h), IssuancesWithout(issuances, h))
  {
    forall a | a in AssetsWithout(assets, h)
      ensures AnchoredAt(IssuancesWithout(issuances, h), a, assets[a].anchor)
    {
      assert AnchoredAt(issuances, a, assets[a].anchor);
    }
  }

  lemma CompleteWithout(assets: map<string, AssetRow>, issuances: map<InputKey, IssuanceRow>, h: int)
    requires Complete(assets, issuances) && IssuancesIn(issuances, h + 1)
    ensures Complete(AssetsWithout(assets, h), IssuancesWithout(issuances, h))
  {
  }

  lemma CurrentWithout(assets: map<string, AssetRow>, issuances: map<InputKey, IssuanceRow>, h: int)
    requires Current(assets, issuances, {}) && Summable(issuances, {})
    ensures Current(AssetsWithout(assets, h), IssuancesWithout(issuances, h), IssuedAt(issuances, h))
    ensures Summable(IssuancesWithout(issuances, h), IssuedAt(issuances, h))
  {
    forall a | a !in IssuedAt(issuances, h)
      ensures TotalsOf(IssuancesWithout(issuances, h), a) == TotalsOf(issuances, a)
      ensures SumsFit(IssuancesWithout(issuances, h), a)
    {
      UntouchedByRollback(issuances, h, a);
    }
  }

  lemma WorkOkWithoutTip(t: Tables, n: int)
    requires WorkOk(Work(t, {}), n)
    ensures WorkOk(Work(WithoutHeight(t, n - 1), IssuedAt(t.issuances, n - 1)), n - 1)
  {
    RangeWithoutTip(t, n);
    AnchoredWithout(t.assets, t.issuances, n - 1);
    CompleteWithout(t.assets, t.issuances, n - 1);
    CurrentWithout(t.assets, t.issuances, n - 1);
  }

  lemma BlocksWithoutTip(blocks: map<int, BlockRow>, n: int)
    requires Contiguous(blocks, n)
    ensures Contiguous(BlocksWithout(blocks, n - 1), n - 1)
    ensures forall h :: 0 <= h < n - 1 ==> BlocksWithout(blocks, n - 1)[h] == blocks[h]
  {
  }

  lemma UntouchedByRollback(issuances: map<InputKey, IssuanceRow>, h: int, a: string)
    requires a !in IssuedAt(issuances, h)
    ensures TotalsOf(IssuancesWithout(issuances, h), a) == TotalsOf(issuances, a)
    ensures SumsFit(IssuancesWithout(issuances, h), a) <==> SumsFit(issuances, a)
  {
    TotalsFrame(issuances, IssuancesWithout(issuances, h), a);
  }

  lemma TopOfContiguous(blocks: map<int, BlockRow>, n: nat, h: int)
    requires Contiguous(blocks, n)
    ensures IsTop(blocks, h) <==> n > 0 && h == n - 1
  {
    if n > 0 {
      assert (n - 1) in blocks;
    }
  }

  lemma MetaAtTopOfContiguous(meta: Meta, blocks: map<int, BlockRow>, n: nat)
    requires Contiguous(blocks, n)
    ensures MetaAtTop(meta, blocks) ==
            if n > 0 then meta.(indexedHeight := Some(n - 1), indexedHash := Some(blocks[n - 1].hash))
            else meta.(indexedHeight := None, indexedHash := None)
  {
    TopOfContiguous(blocks, n, n - 1);
    forall h ensures IsTop(blocks, h) <==> n > 0 && h == n - 1 {
      TopOfContiguous(blocks, n, h);
    }
  }

  /** Without height h the amounts of every asset issued there still add up within 64 bits. */
  ghost predicate FitsWithout(issuances: map<InputKey, IssuanceRow>, h: int) {
    forall a :: a in IssuedAt(issuances, h) ==> SumsFit(IssuancesWithout(issuances, h), a)
  }

  /** A rollback fails on exactly one account: a sum that overflows once the issuances of its height are gone. */
  lemma RollbackSucceedsWhen(t: Tables, h: int)
    ensures RollbackBlock(t, h).Some? <==> FitsWithout(t.issuances, h)
  {
  }

  lemma CommittedRollback(t: Tables, n: nat)
    requires WellFormed(t, n) && n > 0 && RollbackBlock(t, n - 1).Some?
    ensures var t' := RollbackBlock(t, n - 1).value;
            && WellFormed(t', n - 1)
            && t'.blocks == BlocksWithout(t.blocks, n - 1)
            && t'.meta.genesisHash == t.meta.genesisHash
  {
    var s := WithoutHeight(t, n - 1);
    WorkOkWithoutTip(t, n);
    BlocksWithoutTip(t.blocks, n);
    RefreshKeeps(Work(s, IssuedAt(t.issuances, n - 1)), n - 1);
    MetaAtTopOfContiguous(s.meta, s.blocks, n - 1);
  }

  /**
   Rolling back the tip of a well-formed index commits exactly when no sum overflows without the tip, and
   then gives a well-formed index of one block less, whatever the blocks held.
   */
  lemma RollbackKeepsWellFormed(t: Tables, n: nat)
    requires WellFormed(t, n) && n > 0
    ensures RollbackBlock(t, n - 1).Some? <==> FitsWithout(t.issuances, n - 1)
    ensures RollbackBlock(t, n - 1).Some? ==>
              var t' := RollbackBlock(t, n - 1).value;
              && WellFormed(t', n - 1)
              && t'.blocks == BlocksWithout(t.blocks, n - 1)
              && t'.meta.genesisHash == t.meta.genesisHash
  {
    RollbackSucceedsWhen(t, n - 1);
    if RollbackBlock(t, n - 1).Some? { CommittedRollback(t, n); }
  }
}
