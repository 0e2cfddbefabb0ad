/**
 What rolling a block back leaves behind. Applying a block and rolling it back are written
 in quite different ways; this module computes their composition for every block and shows
 that it is the identity exactly when the block overwrites no older spent marker.
 */
module Reorg {
  import opened Common
  import opened ChainModel
  import opened Tables
  import opened Operations
  import opened Invariants

  // ----- the outpoints a block refers to

  ghost function Refs(ops: seq<Op>): set<OutPoint> {
    set op | op in ops && op.NewInput? && Prevout(op.v).Some? :: Prevout(op.v).value
  }

  ghost function BlockRefs(b: Block): set<OutPoint> {
    Refs(BlockOps(b))
  }

  lemma RefsCons(ops: seq<Op>)
    requires ops != []
    ensures Refs(ops) == Refs([ops[0]]) + Refs(ops[1..])
  {
    assert ops == [ops[0]] + ops[1..];
  }

  /** The outputs with the markers of `refs` removed. */
  ghost function Cleared(outputs: map<OutPoint, OutputRow>, refs: set<OutPoint>): map<OutPoint, OutputRow> {
    map k | k in outputs :: if k in refs then outputs[k].(spent := None) else outputs[k]
  }

  lemma ClearedTwice(outputs: map<OutPoint, OutputRow>, a: set<OutPoint>, b: set<OutPoint>)
    ensures Cleared(Cleared(outputs, a), b) == Cleared(outputs, a + b)
    ensures Cleared(outputs, {}) == outputs
  {
  }

  ghost function AnchorsWithout(assets: map<string, AssetRow>, h: int): map<string, Anchor> {
    map a | a in assets && assets[a].anchor.height != h :: assets[a].anchor
  }

  /** Apart from height h, the same transactions, inputs, issuances and asset anchors. */
  ghost predicate SameRows(t: Tables, t': Tables, h: int) {
    && TransactionsWithout(t'.transactions, h) == TransactionsWithout(t.transactions, h)
    && InputsWithout(t'.inputs, h) == InputsWithout(t.inputs, h)
    && IssuancesWithout(t'.issuances, h) == IssuancesWithout(t.issuances, h)
    && AnchorsWithout(t'.assets, h) == AnchorsWithout(t.assets, h)
  }

  /** Apart from height h, the inserts changed nothing but the markers of `refs`. */
  ghost predicate OnlyStamped(t: Tables, t': Tables, h: int, refs: set<OutPoint>) {
    && SameRows(t, t', h)
    && SameFrame(t, t')
    && OutputsWithout(t'.outputs, h) == Cleared(OutputsWithout(t.outputs, h), refs)
  }

  lemma OnlyStampedTrans(t0: Tables, t1: Tables, t2: Tables, h: int, a: set<OutPoint>, b: set<OutPoint>)
    requires OnlyStamped(t0, t1, h, a) && OnlyStamped(t1, t2, h, b)
    ensures OnlyStamped(t0, t2, h, a + b)
  {
    ClearedTwice(OutputsWithout(t0.outputs, h), a, b);
  }

  lemma OnlyStampedRefl(t: Tables, h: int)
    ensures OnlyStamped(t, t, h, {})
  {
    ClearedTwice(OutputsWithout(t.outputs, h), {}, {});
  }

  // ----- one insert at a time

  lemma MarkedThenUnspent(outputs: map<OutPoint, OutputRow>, k: OutPoint, s: Spend)
    ensures OutputsWithout(MarkSpent(outputs, k, s), s.height) == Cleared(OutputsWithout(outputs, s.height), {k})
  {
  }

  lemma InsertIssuanceStamps(w: Work, p: Placed, vin: int, v: Vin, i: Issuance, cfg: Config)
    requires InsertIssuance(w, p, vin, v, i, cfg).Some?
    ensures var w' := InsertIssuance(w, p, vin, v, i, cfg).value;
            SameRows(w.t, w'.t, p.block.height) && SameFrame(w.t, w'.t) && w'.t.outputs == w.t.outputs
  {
  }

  lemma InsertInputStamps(w: Work, p: Placed, vin: int, v: Vin, cfg: Config)
    requires InsertInput(w, p, vin, v, cfg).Some?
    ensures OnlyStamped(w.t, InsertInput(w, p, vin, v, cfg).value.t, p.block.height,
                        if Prevout(v).Some? then {Prevout(v).value} else {})
  {
    var h := p.block.height;
    var w1 := w.(t := AddInput(w.t, p, vin, v));
    assert SameRows(w.t, w1.t, h);
    if Prevout(v).Some? {
      MarkedThenUnspent(w.t.outputs, Prevout(v).value, Spend(p.tx.txid, vin, h));
    } else {
      ClearedTwice(OutputsWithout(w.t.outputs, h), {}, {});
    }
    if v.issuance.Some? {
      InsertIssuanceStamps(w1, p, vin, v, v.issuance.value, cfg);
    }
  }

  lemma InsertOutputHides(w: Work, p: Placed, o: Vout, cfg: Config)
    requires InsertOutput(w, p, o, cfg).Some?
    ensures OnlyStamped(w.t, InsertOutput(w, p, o, cfg).value.t, p.block.height, {})
  {
    ClearedTwice(OutputsWithout(w.t.outputs, p.block.height), {}, {});
  }

  lemma InsertTxRowHides(w: Work, p: Placed, cfg: Config)
    requires InsertTxRow(w, p, cfg).Some?
    ensures OnlyStamped(w.t, InsertTxRow(w, p, cfg).value.t, p.block.height, {})
  {
    ClearedTwice(OutputsWithout(w.t.outputs, p.block.height), {}, {});
  }

  lemma PerformStamps(w: Work, op: Op, cfg: Config)
    requires Perform(w, op, cfg).Some?
    ensures OnlyStamped(w.t, Perform(w, op, cfg).value.t, op.p.block.height, Refs([op]))
  {
    match op
    case NewTransaction(p) =>
      InsertTxRowHides(w, p, cfg);
      assert Refs([op]) == {};
    case NewInput(p, vin, v) =>
      InsertInputStamps(w, p, vin, v, cfg);
      assert Refs([op]) == if Prevout(v).Some? then {Prevout(v).value} else {};
    case NewOutput(p, o) =>
      InsertOutputHides(w, p, o, cfg);
      assert Refs([op]) == {};
  }

  lemma {:induction false} RunStamps(w: Work, ops: seq<Op>, b: Block, cfg: Config)
    requires AllIn(ops, b) && Run(w, ops, cfg).Some?
    ensures OnlyStamped(w.t, Run(w, ops, cfg).value.t, b.height, Refs(ops))
    decreases |ops|
  {
    if ops == [] {
      OnlyStampedRefl(w.t, b.height);
      assert Refs(ops) == {};
    } else {
      var w1 := Perform(w, ops[0], cfg).value;
      PerformStamps(w, ops[0], cfg);
      RunStamps(w1, ops[1..], b, cfg);
      RefsCons(ops);
      OnlyStampedTrans(w.t, w1.t, Run(w1, ops[1..], cfg).value.t, b.height, Refs([ops[0]]), Refs(ops[1..]));
    }
  }

  /** Rows that INSERT OR IGNORE adds belong to the height it was given. */
  lemma InsertOrIgnoreHides(addressTxs: map<AddressKey, AddressRow>, transactions: map<string, TxRow>,
                            h: int, keys: set<AddressKey>)
    requires forall k :: k in keys ==> k.txid in transactions
    ensures AddressesWithout(InsertOrIgnore(addressTxs, transactions, h, keys), h) == AddressesWithout(addressTxs, h)
  {
  }

  lemma AddressesHidden(t: Tables, h: int)
    ensures AddressesWithout(IndexAddresses(t, h).addressTxs, h) == AddressesWithout(t.addressTxs, h)
  {
    var paid := PaidKeys(t.transactions, t.outputs, h);
    InsertOrIgnoreHides(t.addressTxs, t.transactions, h, paid);
    InsertOrIgnoreHides(InsertOrIgnore(t.addressTxs, t.transactions, h, paid), t.transactions, h,
                        DrawnKeys(t.transactions, t.inputs, t.outputs, h));
  }

  /** The tables FinishBlock leaves alone. */
  ghost predicate SameBody(t: Tables, t': Tables) {
    && t'.transactions == t.transactions && t'.inputs == t.inputs && t'.outputs == t.outputs
    && t'.issuances == t.issuances && t'.assets == t.assets
  }

  lemma FinishBlockHides(w: Work, b: Block, cfg: Config)
    requires FinishBlock(w, b, cfg).Some?
    ensures var t' := FinishBlock(w, b, cfg).value.t;
            && SameBody(w.t, t')
            && AddressesWithout(t'.addressTxs, b.height) == AddressesWithout(w.t.addressTxs, b.height)
            && t'.blocks == w.t.blocks[b.height := StoredRow(b, cfg)] && t'.meta == w.t.meta
            && b.height !in w.t.blocks
  {
    AddressesHidden(AddBlockRow(w.t, b, cfg), b.height);
  }

  // ----- below the tip

  /** A height above every row selects nothing: the eight statements do not change such tables. */
  lemma AboveEverything(t: Tables, n: int)
    requires InRange(t, n) && n !in t.blocks
    ensures WithoutHeight(t, n) == t
  {
    assert TransactionsWithout(t.transactions, n) == t.transactions;
    assert InputsWithout(t.inputs, n) == t.inputs;
    assert OutputsWithout(t.outputs, n) == t.outputs;
    assert IssuancesWithout(t.issuances, n) == t.issuances;
    assert AssetsWithout(t.assets, n) == t.assets;
    assert AddressesWithout(t.addressTxs, n) == t.addressTxs;
    assert BlocksWithout(t.blocks, n) == t.blocks;
  }

  /** Anchors and issuances determine the asset rows once the totals are current. */
  lemma AssetsDetermined(a: map<string, AssetRow>, b: map<string, AssetRow>, issuances: map<InputKey, IssuanceRow>)
    requires Current(a, issuances, {}) && Current(b, issuances, {})
    requires a.Keys == b.Keys && forall k :: k in a ==> a[k].anchor == b[k].anchor
    ensures a == b
  {
    forall k | k in a
      ensures a[k] == b[k]
    {
      assert a[k].totals == TotalsOf(issuances, k) == b[k].totals;
    }
  }

  lemma SameAnchors(a: map<string, AssetRow>, b: map<string, AssetRow>, h: int)
    requires AnchorsWithout(a, h) == AnchorsWithout(b, h)
    ensures AssetsWithout(a, h).Keys == AssetsWithout(b, h).Keys
    ensures forall k :: k in AssetsWithout(a, h) ==> AssetsWithout(a, h)[k].anchor == AssetsWithout(b, h)[k].anchor
  {
    assert AssetsWithout(a, h).Keys == AnchorsWithout(a, h).Keys;
    assert AssetsWithout(b, h).Keys == AnchorsWithout(b, h).Keys;
    forall k | k in AssetsWithout(a, h)
      ensures AssetsWithout(a, h)[k].anchor == AssetsWithout(b, h)[k].anchor
    {
      assert AnchorsWithout(a, h)[k] == AnchorsWithout(b, h)[k];
    }
  }

  // ----- apply, then roll back

  /** The index after a block was applied and rolled back: only the markers it referred to may differ. */
  ghost function Restored(t: Tables, b: Block): Tables {
    t.(
      outputs := Cleared(t.outputs, BlockRefs(b)),
      meta := if b.height == 0 then t.meta.(genesisHash := Some(b.hash)) else t.meta)
  }

  /** t' is t with one more height h: nothing else changed but the markers of `refs`. */
  ghost predicate HeightAdded(t: Tables, t': Tables, h: int, refs: set<OutPoint>) {
    && SameRows(t, t', h)
    && OutputsWithout(t'.outputs, h) == Cleared(OutputsWithout(t.outputs, h), refs)
    && AddressesWithout(t'.addressTxs, h) == AddressesWithout(t.addressTxs, h)
    && BlocksWithout(t'.blocks, h) == BlocksWithout(t.blocks, h)
  }

  lemma InsertBlockAddsHeight(w: Work, b: Block, cfg: Config)
    requires InsertBlock(w, b, cfg).Some?
    ensures HeightAdded(w.t, InsertBlock(w, b, cfg).value.t, b.height, BlockRefs(b))
  {
    TransactionsAsOps(w, b, cfg, 0);
    OpsFromIn(b, 0);
    RunStamps(w, BlockOps(b), b, cfg);
    var w1 := InsertTransactions(w, b, cfg, 0).value;
    FinishBlockHides(w1, b, cfg);
    FinishedBlockAddsHeight(w.t, w1.t, FinishBlock(w1, b, cfg).value.t, b, cfg);
  }

  lemma FinishedBlockAddsHeight(t: Tables, t1: Tables, t2: Tables, b: Block, cfg: Config)
    requires OnlyStamped(t, t1, b.height, BlockRefs(b))
    requires SameBody(t1, t2)
    requires AddressesWithout(t2.addressTxs, b.height) == AddressesWithout(t1.addressTxs, b.height)
    requires t2.blocks == t1.blocks[b.height := StoredRow(b, cfg)]
    ensures HeightAdded(t, t2, b.height, BlockRefs(b))
  {
  }

  lemma RefreshKeepsAnchors(t: Tables, touched: set<string>, h: int)
    requires RefreshAssets(t, touched).Some?
    ensures var t' := RefreshAssets(t, touched).value;
            t' == t.(assets := t'.assets) && AnchorsWithout(t'.assets, h) == AnchorsWithout(t.assets, h)
  {
  }

  lemma ApplyAddsHeight(t: Tables, b: Block, cfg: Config)
    requires ApplyBlocks(t, [b], cfg).Some?
    ensures HeightAdded(t, ApplyBlocks(t, [b], cfg).value, b.height, BlockRefs(b))
  {
    OneBlock(t, b, cfg);
    var w := InsertBlock(Work(t, {}), b, cfg).value;
    InsertBlockAddsHeight(Work(t, {}), b, cfg);
    RefreshKeepsAnchors(w.t, w.touched, b.height);
  }

  lemma OneBlock(t: Tables, b: Block, cfg: Config)
    ensures ApplyBlocks(t, [b], cfg) ==
            match InsertBlock(Work(t, {}), b, cfg) {
              case None => None
              case Some(w) => FinishBatch(w, [b])
            }
  {
    InsertOne(Work(t, {}), b, cfg);
  }

  lemma InsertOne(w: Work, b: Block, cfg: Config)
    ensures InsertBlocks(w, [b], cfg) == InsertBlock(w, b, cfg)
  {
    assert [b][0] == b && [b][1..] == [];
    match InsertBlock(w, b, cfg)
    case None =>
    case Some(w') => assert InsertBlocks(w', [], cfg) == Some(w');
  }

  lemma WithoutAddedHeight(t: Tables, t': Tables, n: int, refs: set<OutPoint>)
    requires InRange(t, n) && n !in t.blocks && HeightAdded(t, t', n, refs)
    ensures var s := WithoutHeight(t', n);
            && s == t.(outputs := Cleared(t.outputs, refs), assets := s.assets, meta := t'.meta)
            && s.assets.Keys == t.assets.Keys
            && forall a :: a in t.assets ==> s.assets[a].anchor == t.assets[a].anchor
  {
    AboveEverything(t, n);
    SameAnchors(t'.assets, t.assets, n);
  }

  lemma RefreshToCurrent(s: Tables, t: Tables, touched: set<string>)
    requires s.issuances == t.issuances && Summable(t.issuances, {})
    requires Anchored(s.assets, s.issuances) && Complete(s.assets, s.issuances)
    requires Current(s.assets, s.issuances, touched)
    requires Current(t.assets, t.issuances, {})
    requires s.assets.Keys == t.assets.Keys && forall a :: a in t.assets ==> s.assets[a].anchor == t.assets[a].anchor
    ensures RefreshAssets(s, touched) == Some(s.(assets := t.assets))
  {
    assert RefreshAssets(s, touched).Some?;
    RefreshCompletes(s, touched);
    AssetsDetermined(RefreshAssets(s, touched).value.assets, t.assets, t.issuances);
  }

  /** Applying any block at the tip and rolling it back yields exactly `Restored`, for every block. */
  lemma RollbackAfterApply(t: Tables, b: Block, cfg: Config, n: nat)
    requires WellFormed(t, n) && b.height == n && ApplyBlocks(t, [b], cfg).Some?
    ensures RollbackBlock(ApplyBlocks(t, [b], cfg).value, n) == Some(Restored(t, b))
  {
    var t' := ApplyBlocks(t, [b], cfg).value;
    var s := WithoutHeight(t', n);
    ApplyKeepsWellFormed(t, [b], cfg, n);
    ApplyAddsHeight(t, b, cfg);
    WithoutAddedHeight(t, t', n, BlockRefs(b));
    WorkOkWithoutTip(t', n + 1);
    RefreshToCurrent(s, t, IssuedAt(t'.issuances, n));
    MetaAtTopOfContiguous(t'.meta, t.blocks, n);
    RestoredMeta(t, t', b, cfg, n);
  }

  lemma RestoredMeta(t: Tables, t': Tables, b: Block, cfg: Config, n: nat)
    requires WellFormed(t, n) && b.height == n
    requires WellFormed(t', n + 1) && Extended(t.blocks, [b], cfg, n, t'.blocks)
    ensures MetaAtTop(t'.meta, t.blocks) == Restored(t, b).meta
  {
    MetaAtTopOfContiguous(t'.meta, t.blocks, n);
    if n == 0 {
      assert t'.blocks[0] == StoredRow([b][0], cfg);
    } else {
      assert t'.blocks[0] == t.blocks[0];
    }
  }

  /** No output the block refers to already carries a marker; every caller can check this before applying. */
  ghost predicate NoOverwrite(outputs: map<OutPoint, OutputRow>, refs: set<OutPoint>) {
    forall k :: k in refs && k in outputs ==> outputs[k].spent.None?
  }

  lemma ClearedIsIdentity(outputs: map<OutPoint, OutputRow>, refs: set<OutPoint>)
    ensures Cleared(outputs, refs) == outputs <==> NoOverwrite(outputs, refs)
  {
    if Cleared(outputs, refs) == outputs {
      forall k | k in refs && k in outputs
        ensures outputs[k].spent.None?
      {
        assert Cleared(outputs, refs)[k] == outputs[k];
      }
    }
  }

  /**
   Rollback undoes apply: every table is restored, cursor included, exactly when the block
   overwrites no older marker. Rolling back genesis leaves `genesis_hash` behind.
   */
  lemma RollbackUndoesApply(t: Tables, b: Block, cfg: Config, n: nat)
    requires WellFormed(t, n) && b.height == n && ApplyBlocks(t, [b], cfg).Some?
    ensures var r := RollbackBlock(ApplyBlocks(t, [b], cfg).value, n);
            && r.Some?
            && (r.value == t.(meta := r.value.meta) <==> NoOverwrite(t.outputs, BlockRefs(b)))
            && (n > 0 ==> r.value.meta == t.meta)
            && (n == 0 ==> r.value.meta == t.meta.(genesisHash := Some(b.hash)))
  {
    RollbackAfterApply(t, b, cfg, n);
    ClearedIsIdentity(t.outputs, BlockRefs(b));
  }

  /** The row at k stays exactly when it has another height. */
  ghost predicate Survives<K(!new), V>(before: map<K, V>, after: map<K, V>, height: V -> int, h: int) {
    && (forall k :: k in after <==> k in before && height(before[k]) != h)
    && (forall k :: k in after ==> after[k] == before[k])
  }

  /** Outputs of other heights stay, and lose their marker exactly when it is of the removed height. */
  ghost predicate OutputsSurvive(before: map<OutPoint, OutputRow>, after: map<OutPoint, OutputRow>, h: int) {
    && (forall k :: k in after <==> k in before && before[k].height != h)
    && (forall k :: k in after ==> after[k].(spent := before[k].spent) == before[k])
    && (forall k, s :: k in after ==> (after[k].spent == Some(s) <==> before[k].spent == Some(s) && s.height != h))
  }

  /** What the rollback of any height removes: its rows of every table, and the markers set at it. */
  lemma WhatARollbackRemoves(t: Tables, h: int, t': Tables)
    requires RollbackBlock(t, h) == Some(t')
    ensures Survives(t.transactions, t'.transactions, (r: TxRow) => r.height, h)
    ensures Survives(t.inputs, t'.inputs, (r: InputRow) => r.height, h)
    ensures Survives(t.issuances, t'.issuances, (r: IssuanceRow) => r.height, h)
    ensures Survives(t.addressTxs, t'.addressTxs, (r: AddressRow) => r.height, h)
    ensures OutputsSurvive(t.outputs, t'.outputs, h)
    ensures forall k :: k in t'.blocks <==> k in t.blocks && k != h
    ensures forall k :: k in t'.blocks ==> t'.blocks[k] == t.blocks[k]
    ensures forall a :: a in t'.assets <==> a in t.assets && t.assets[a].anchor.height != h
    ensures forall a :: a in t'.assets ==> t'.assets[a].anchor == t.assets[a].anchor
    ensures t'.meta.genesisHash == t.meta.genesisHash
  {
  }
}
