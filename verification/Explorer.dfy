/**
 The explorer put together: the store of `Tables` configured with the explorer's own subsidy
 schedule, amount parser and identifier derivation, and what follows for every reachable index.
 */
module Explorer {
  import opened Common
  import opened ChainModel
  import opened Tables
  import opened Operations
  import opened Invariants
  import opened Batches
  import opened History
  import Amounts
  import AssetId
  import Sha256
  import Subsidy

  function ConfigOf(policyAsset: string, initial: nat, interval: nat): Config {
    Config(policyAsset, h => Subsidy.BlockSubsidy(initial, interval, h), Amounts.ParseSats, AssetId.DerivationVerified)
  }

  // ----- the issued subsidy

  /** The subsidy column of the blocks below height n. */
  ghost function SubsidiesBelow(blocks: map<int, BlockRow>, n: int): map<int, int> {
    map h | h in blocks && h < n :: blocks[h].subsidySats
  }

  ghost predicate Scheduled(blocks: map<int, BlockRow>, initial: nat, interval: nat) {
    forall h :: h in blocks ==> blocks[h].subsidySats == Subsidy.BlockSubsidy(initial, interval, h)
  }

  lemma SubsidiesNext(blocks: map<int, BlockRow>, n: nat, k: nat)
    requires Contiguous(blocks, n) && k < n
    ensures SumValues(SubsidiesBelow(blocks, k + 1)) == SumValues(SubsidiesBelow(blocks, k)) + blocks[k].subsidySats
  {
    assert SubsidiesBelow(blocks, k + 1) == SubsidiesBelow(blocks, k)[k := blocks[k].subsidySats];
    SumValuesAdd(SubsidiesBelow(blocks, k), k, blocks[k].subsidySats);
  }

  lemma {:induction false} SubsidiesSum(blocks: map<int, BlockRow>, initial: nat, interval: nat, n: nat, k: nat)
    requires Contiguous(blocks, n) && Scheduled(blocks, initial, interval) && 0 < k <= n
    ensures SumValues(SubsidiesBelow(blocks, k)) == Subsidy.TotalSubsidy(initial, interval, k - 1)
  {
    SubsidiesNext(blocks, n, k - 1);
    if k == 1 {
      assert SubsidiesBelow(blocks, 0) == map[];
    } else {
      SubsidiesSum(blocks, initial, interval, n, k - 1);
    }
  }

  lemma RowsAreScheduled(blocks: map<int, BlockRow>, c: seq<Block>, n: nat, policyAsset: string, initial: nat,
                         interval: nat)
    requires Contiguous(blocks, n) && n == |c| && Consecutive(c, 0)
    requires RowsOf(blocks, c, ConfigOf(policyAsset, initial, interval))
    ensures Scheduled(blocks, initial, interval)
  {
    forall h | h in blocks
      ensures blocks[h].subsidySats == Subsidy.BlockSubsidy(initial, interval, h)
    {
      assert blocks[h] == StoredRow(c[h], ConfigOf(policyAsset, initial, interval));
    }
  }

  lemma {:induction false} OrderlyHeights(d: Database, es: seq<Event>, cfg: Config)
    requires Consecutive(d.chain, 0) && Orderly(d, es, cfg)
    ensures Consecutive(AfterAll(d, es, cfg).chain, 0)
    decreases |es|
  {
    if es != [] {
      if Takes(d.t, es[0], cfg) { ConsecutiveParts(d.chain, es[0].blocks, 0); }
      OrderlyHeights(After(d, es[0], cfg), es[1..], cfg);
    }
  }

  /**
   Whatever blocks were applied and rolled back, the subsidy column of the index is the halving schedule,
   and its total stays below twice the first era.
   */
  lemma IndexedSubsidyIsCapped(es: seq<Event>, policyAsset: string, initial: nat, interval: nat)
    requires 0 < initial < TWO_63 && interval > 0
    requires Orderly(Database(EMPTY, []), es, ConfigOf(policyAsset, initial, interval))
    ensures var d := AfterAll(Database(EMPTY, []), es, ConfigOf(policyAsset, initial, interval));
            && Scheduled(d.t.blocks, initial, interval)
            && SumValues(SubsidiesBelow(d.t.blocks, |d.chain|)) < 2 * initial * interval
  {
    var cfg := ConfigOf(policyAsset, initial, interval);
    EmptyWellFormed();
    OrderlyRun(Database(EMPTY, []), es, cfg);
    OrderlyHeights(Database(EMPTY, []), es, cfg);
    var d := AfterAll(Database(EMPTY, []), es, cfg);
    RowsAreScheduled(d.t.blocks, d.chain, |d.chain|, policyAsset, initial, interval);
    ScheduledSum(d.t.blocks, |d.chain|, initial, interval);
  }

  lemma ScheduledSum(blocks: map<int, BlockRow>, n: nat, initial: nat, interval: nat)
    requires 0 < initial < TWO_63 && interval > 0 && Contiguous(blocks, n) && Scheduled(blocks, initial, interval)
    ensures SumValues(SubsidiesBelow(blocks, n)) < 2 * initial * interval
  {
    if n == 0 {
      assert SubsidiesBelow(blocks, 0) == map[];
      Subsidy.SupplyIsCapped(initial, interval, 0);
    } else {
      SubsidiesSum(blocks, initial, interval, n, n);
      Subsidy.SupplyIsCapped(initial, interval, n - 1);
    }
  }

  // ----- the derivation flag

  function TextOf(column: Option<string>): string {
    if column.Some? then column.value else ""
  }

  /** Asset and token of the row are the canonical spellings of what its entropy e determines. */
  predicate RowDerivedFrom(a: string, c: Anchor, e: Sha256.Digest) {
    && AssetId.ParseId(TextOf(c.entropy)) == Some(e)
    && AssetId.ParseId(a) == Some(AssetId.RawAsset(e)) && AssetId.LowerText(a) == a
    && AssetId.ParseId(TextOf(c.token)) == Some(AssetId.RawToken(e, c.confidential))
    && AssetId.LowerText(TextOf(c.token)) == TextOf(c.token)
  }

  ghost predicate Derived(a: string, c: Anchor) {
    exists e: Sha256.Digest :: RowDerivedFrom(a, c, e)
  }

  /** The derivation flag says exactly whether an entropy determines the row's identifiers. */
  ghost predicate FlagExact(a: string, c: Anchor) {
    c.verified <==> Derived(a, c)
  }

  ghost predicate FlagsExact(assets: map<string, AssetRow>) {
    forall a :: a in assets ==> FlagExact(a, assets[a].anchor)
  }

  lemma AnchorFlag(p: Placed, vin: int, i: Issuance, cfg: Config)
    requires cfg.verifies == AssetId.DerivationVerified
    ensures FlagExact(i.asset, AnchorOf(p, vin, i, cfg))
  {
    var c := AnchorOf(p, vin, i, cfg);
    assert TextOf(c.entropy) == i.entropy && TextOf(c.token) == i.token;
    assert forall e: Sha256.Digest :: RowDerivedFrom(i.asset, c, e) <==> AssetId.DerivedFrom(i, e);
    AssetId.VerifiedMeansDerived(i);
  }

  /** An issuance adds at most its own anchor. */
  lemma IssuanceAnchors(w: Work, p: Placed, vin: int, v: Vin, i: Issuance, cfg: Config)
    requires InsertIssuance(w, p, vin, v, i, cfg).Some?
    ensures var assets := InsertIssuance(w, p, vin, v, i, cfg).value.t.assets;
            assets == w.t.assets || assets == w.t.assets[i.asset := AssetRow(AnchorOf(p, vin, i, cfg), DEFAULT_TOTALS)]
  {
  }

  lemma PerformFlags(w: Work, op: Op, cfg: Config)
    requires cfg.verifies == AssetId.DerivationVerified
    requires FlagsExact(w.t.assets) && Perform(w, op, cfg).Some?
    ensures FlagsExact(Perform(w, op, cfg).value.t.assets)
  {
    if op.NewInput? && op.v.issuance.Some? {
      var i := op.v.issuance.value;
      IssuanceAnchors(w.(t := AddInput(w.t, op.p, op.vin, op.v)), op.p, op.vin, op.v, i, cfg);
      AnchorFlag(op.p, op.vin, i, cfg);
    }
  }

  lemma {:induction false} RunFlags(w: Work, ops: seq<Op>, cfg: Config)
    requires cfg.verifies == AssetId.DerivationVerified
    requires FlagsExact(w.t.assets) && Run(w, ops, cfg).Some?
    ensures FlagsExact(Run(w, ops, cfg).value.t.assets)
    decreases |ops|
  {
    if ops != [] {
      PerformFlags(w, ops[0], cfg);
      RunFlags(Perform(w, ops[0], cfg).value, ops[1..], cfg);
    }
  }

  lemma {:induction false} InsertBlocksFlags(w: Work, bs: seq<Block>, cfg: Config)
    requires cfg.verifies == AssetId.DerivationVerified
    requires FlagsExact(w.t.assets) && InsertBlocks(w, bs, cfg).Some?
    ensures FlagsExact(InsertBlocks(w, bs, cfg).value.t.assets)
    decreases |bs|
  {
    if bs != [] {
      TransactionsAsOps(w, bs[0], cfg, 0);
      RunFlags(w, BlockOps(bs[0]), cfg);
      InsertBlocksFlags(InsertBlock(w, bs[0], cfg).value, bs[1..], cfg);
    }
  }

  lemma ApplyFlags(t: Tables, bs: seq<Block>, cfg: Config)
    requires cfg.verifies == AssetId.DerivationVerified
    requires FlagsExact(t.assets) && ApplyBlocks(t, bs, cfg).Some?
    ensures FlagsExact(ApplyBlocks(t, bs, cfg).value.assets)
  {
    if bs != [] {
      InsertBlocksFlags(Work(t, {}), bs, cfg);
      FinishFlags(InsertBlocks(Work(t, {}), bs, cfg).value, bs);
    }
  }

  lemma RefreshFlags(t: Tables, touched: set<string>)
    requires FlagsExact(t.assets) && RefreshAssets(t, touched).Some?
    ensures FlagsExact(RefreshAssets(t, touched).value.assets)
  {
    var assets := RefreshAssets(t, touched).value.assets;
    assert forall a :: a in assets ==> a in t.assets && assets[a].anchor == t.assets[a].anchor;
  }

  lemma RollbackFlags(t: Tables, h: int)
    requires FlagsExact(t.assets) && RollbackBlock(t, h).Some?
    ensures FlagsExact(RollbackBlock(t, h).value.assets)
  {
    RefreshFlags(WithoutHeight(t, h), IssuedAt(t.issuances, h));
  }

  lemma {:induction false} RunKeepsFlags(d: Database, es: seq<Event>, cfg: Config)
    requires cfg.verifies == AssetId.DerivationVerified && FlagsExact(d.t.assets)
    ensures FlagsExact(AfterAll(d, es, cfg).t.assets)
    decreases |es|
  {
    if es != [] {
      if Takes(d.t, es[0], cfg) { ApplyFlags(d.t, es[0].blocks, cfg); }
      if Undoes(d, es[0], cfg) { RollbackFlags(d.t, CursorOf(d.t).height); }
      RunKeepsFlags(After(d, es[0], cfg), es[1..], cfg);
    }
  }

  /**
   After any run whatever an asset is flagged as verified exactly when its entropy determines both
   its identifiers.
   */
  lemma VerifiedFlagIsHonest(es: seq<Event>, policyAsset: string, initial: nat, interval: nat)
    ensures FlagsExact(AfterAll(Database(EMPTY, []), es, ConfigOf(policyAsset, initial, interval)).t.assets)
  {
    RunKeepsFlags(Database(EMPTY, []), es, ConfigOf(policyAsset, initial, interval));
  }

  /** The refresh recomputes totals only. */
  lemma FinishFlags(w: Work, bs: seq<Block>)
    requires bs != [] && FinishBatch(w, bs).Some? && FlagsExact(w.t.assets)
    ensures FlagsExact(FinishBatch(w, bs).value.assets)
  {
    var assets := FinishBatch(w, bs).value.assets;
    assert forall a :: a in assets ==> a in w.t.assets && assets[a].anchor == w.t.assets[a].anchor;
  }
}
