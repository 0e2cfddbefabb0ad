/**
 History independence: whatever sequence of batches, rollbacks and crashes led to it, the
 index holds what a fresh index of the current chain would hold.
 */
module History {
  import opened Common
  import opened ChainModel
  import opened Tables
  import opened Operations
  import opened Invariants
  import opened Reorg
  import opened Batches

  /** A fresh index of a whole chain, from genesis, in one batch. */
  ghost function Index(c: seq<Block>, cfg: Config): Option<Tables> {
    ApplyBlocks(EMPTY, c, cfg)
  }

  // ----- what chains owe the index

  /** An explicit issuance amount is never negative. */
  ghost predicate CleanAmount(amount: Option<string>, commitment: string, cfg: Config) {
    var sats := IssuedAmount(amount, commitment, cfg);
    sats.Some? && sats.value.Some? ==> sats.value.value >= 0
  }

  ghost predicate CleanOp(op: Op, cfg: Config) {
    op.NewInput? && op.v.issuance.Some? ==>
      var i := op.v.issuance.value;
      && CleanAmount(i.assetAmount, i.assetAmountCommitment, cfg)
      && CleanAmount(i.tokenAmount, i.tokenAmountCommitment, cfg)
  }

  ghost predicate CleanOps(ops: seq<Op>, cfg: Config) {
    forall i :: 0 <= i < |ops| ==> CleanOp(ops[i], cfg)
  }

  ghost predicate CleanAt(c: seq<Block>, i: nat, cfg: Config)
    requires i < |c|
  {
    CleanOps(BlockOps(c[i]), cfg)
  }

  ghost predicate Clean(c: seq<Block>, cfg: Config) {
    forall i :: 0 <= i < |c| ==> CleanAt(c, i, cfg)
  }

  ghost predicate Disjoint(c: seq<Block>, i: nat, j: nat)
    requires i < |c| && j < |c|
  {
    BlockRefs(c[i]) !! BlockRefs(c[j])
  }

  /** No outpoint is spent by two different blocks. */
  ghost predicate NoRespend(c: seq<Block>) {
    forall i, j :: 0 <= i < j < |c| ==> Disjoint(c, i, j)
  }

  /** The last block spends no outpoint that an earlier block spends. */
  ghost predicate FreshTip(c: seq<Block>) {
    forall i :: 0 <= i < |c| - 1 ==> DisjointFromTip(c, i)
  }

  ghost predicate DisjointFromTip(c: seq<Block>, i: nat)
    requires i < |c|
  {
    Disjoint(c, i, |c| - 1)
  }

  lemma NoRespendIsFresh(c: seq<Block>, n: nat)
    requires NoRespend(c) && n <= |c|
    ensures FreshTip(c[..n])
  {
    forall i | 0 <= i < n - 1
      ensures DisjointFromTip(c[..n], i)
    {
      assert Disjoint(c, i, n - 1);
    }
  }

  // ----- inserts only add issuances, and mark only what they refer to

  ghost predicate CleanRows(issuances: map<InputKey, IssuanceRow>) {
    forall k :: k in issuances ==> OrZero(issuances[k].assetSats) >= 0 && OrZero(issuances[k].tokenSats) >= 0
  }

  ghost predicate Kept(i: map<InputKey, IssuanceRow>, j: map<InputKey, IssuanceRow>) {
    forall k :: k in i ==> k in j && j[k] == i[k]
  }

  ghost predicate MarkedBy(o: map<OutPoint, OutputRow>, o': map<OutPoint, OutputRow>, refs: set<OutPoint>) {
    forall k :: k in o' && o'[k].spent.Some? ==> k in refs || (k in o && o[k].spent.Some?)
  }

  lemma InsertIssuanceGrows(w: Work, p: Placed, vin: int, v: Vin, i: Issuance, cfg: Config)
    requires CleanAmount(i.assetAmount, i.assetAmountCommitment, cfg)
    requires CleanAmount(i.tokenAmount, i.tokenAmountCommitment, cfg)
    requires CleanRows(w.t.issuances) && InsertIssuance(w, p, vin, v, i, cfg).Some?
    ensures var t' := InsertIssuance(w, p, vin, v, i, cfg).value.t;
            CleanRows(t'.issuances) && Kept(w.t.issuances, t'.issuances)
  {
  }

  lemma PerformGrows(w: Work, op: Op, cfg: Config)
    requires CleanOp(op, cfg) && CleanRows(w.t.issuances) && Perform(w, op, cfg).Some?
    ensures var t' := Perform(w, op, cfg).value.t;
            CleanRows(t'.issuances) && Kept(w.t.issuances, t'.issuances)
  {
    if op.NewInput? && op.v.issuance.Some? {
      InsertIssuanceGrows(w.(t := AddInput(w.t, op.p, op.vin, op.v)), op.p, op.vin, op.v,
                          op.v.issuance.value, cfg);
    }
  }

  lemma PerformMarks(w: Work, op: Op, cfg: Config)
    requires Perform(w, op, cfg).Some?
    ensures MarkedBy(w.t.outputs, Perform(w, op, cfg).value.t.outputs, Refs([op]))
  {
    if op.NewInput? && Prevout(op.v).Some? {
      assert op in [op];
      assert Prevout(op.v).value in Refs([op]);
    }
  }

  lemma {:induction false} RunGrows(w: Work, ops: seq<Op>, cfg: Config)
    requires CleanOps(ops, cfg) && CleanRows(w.t.issuances) && Run(w, ops, cfg).Some?
    ensures var t' := Run(w, ops, cfg).value.t;
            CleanRows(t'.issuances) && Kept(w.t.issuances, t'.issuances)
    decreases |ops|
  {
    if ops != [] {
      PerformGrows(w, ops[0], cfg);
      RunGrows(Perform(w, ops[0], cfg).value, ops[1..], cfg);
    }
  }

  lemma {:induction false} RunMarks(w: Work, ops: seq<Op>, cfg: Config)
    requires Run(w, ops, cfg).Some?
    ensures MarkedBy(w.t.outputs, Run(w, ops, cfg).value.t.outputs, Refs(ops))
    decreases |ops|
  {
    if ops != [] {
      PerformMarks(w, ops[0], cfg);
      RunMarks(Perform(w, ops[0], cfg).value, ops[1..], cfg);
      RefsCons(ops);
    }
  }

  lemma {:induction false} InsertBlocksGrow(w: Work, bs: seq<Block>, cfg: Config)
    requires Clean(bs, cfg) && CleanRows(w.t.issuances) && InsertBlocks(w, bs, cfg).Some?
    ensures var t' := InsertBlocks(w, bs, cfg).value.t;
            CleanRows(t'.issuances) && Kept(w.t.issuances, t'.issuances)
    decreases |bs|
  {
    if bs != [] {
      TransactionsAsOps(w, bs[0], cfg, 0);
      assert CleanAt(bs, 0, cfg);
      forall i | 0 <= i < |bs[1..]| ensures CleanAt(bs[1..], i, cfg) { assert CleanAt(bs, i + 1, cfg); }
      RunGrows(w, BlockOps(bs[0]), cfg);
      FinishBlockHides(InsertTransactions(w, bs[0], cfg, 0).value, bs[0], cfg);
      InsertBlocksGrow(InsertBlock(w, bs[0], cfg).value, bs[1..], cfg);
    }
  }

  // ----- a prefix of an indexable chain is indexable

  lemma SumsMonotone(i: map<InputKey, IssuanceRow>, j: map<InputKey, IssuanceRow>, a: string)
    requires Kept(i, j) && CleanRows(j) && SumsFit(j, a)
    ensures SumsFit(i, a)
  {
    SumValuesMonotone(AssetAmounts(i, a), AssetAmounts(j, a));
    SumValuesMonotone(TokenAmounts(i, a), TokenAmounts(j, a));
  }

  lemma PartSucceeds(t: Tables, a: seq<Block>, b: seq<Block>, cfg: Config, n: nat)
    requires WellFormed(t, n) && Consecutive(a + b, n)
    requires CleanRows(t.issuances) && Clean(a, cfg) && Clean(b, cfg)
    requires ApplyBlocks(t, a + b, cfg).Some?
    ensures ApplyBlocks(t, a, cfg).Some?
  {
    if a != [] {
      InsertBlocksConcat(Work(t, {}), a, b, cfg);
      var w := InsertBlocks(Work(t, {}), a, cfg).value;
      var w2 := InsertBlocks(w, b, cfg).value;
      InsertBlocksGrow(Work(t, {}), a, cfg);
      InsertBlocksGrow(w, b, cfg);
      InsertBlocksAgree(w, w, b, cfg);
      RefreshOutcome(w.t, w.touched);
      RefreshOutcome(w2.t, w2.touched);
      forall x | x in w.touched
        ensures SumsFit(w.t.issuances, x)
      {
        SumsMonotone(w.t.issuances, w2.t.issuances, x);
      }
    }
  }

  /**
   Without negative issuance amounts every way of cutting a batch is the same: the whole succeeds
   exactly when the parts do, with the same tables.
   */
  lemma BatchSizeIndependence(t: Tables, a: seq<Block>, b: seq<Block>, cfg: Config, n: nat)
    requires WellFormed(t, n) && Consecutive(a + b, n)
    requires CleanRows(t.issuances) && Clean(a, cfg) && Clean(b, cfg)
    ensures ApplyBlocks(t, a + b, cfg) ==
            match ApplyBlocks(t, a, cfg) { case None => None case Some(t1) => ApplyBlocks(t1, b, cfg) }
  {
    if ApplyBlocks(t, a, cfg).Some? {
      BatchSplit(t, a, b, cfg, n);
    } else if ApplyBlocks(t, a + b, cfg).Some? {
      PartSucceeds(t, a, b, cfg, n);
    }
  }

  lemma CleanParts(a: seq<Block>, b: seq<Block>, cfg: Config)
    ensures Clean(a + b, cfg) <==> Clean(a, cfg) && Clean(b, cfg)
  {
    if Clean(a + b, cfg) {
      forall i | 0 <= i < |a| ensures CleanAt(a, i, cfg) { assert CleanAt(a + b, i, cfg); }
      forall i | 0 <= i < |b| ensures CleanAt(b, i, cfg) { assert CleanAt(a + b, |a| + i, cfg); }
    }
    if Clean(a, cfg) && Clean(b, cfg) {
      forall i | 0 <= i < |a + b| ensures CleanAt(a + b, i, cfg) {
        if i < |a| { assert CleanAt(a, i, cfg); } else { assert CleanAt(b, i - |a|, cfg); }
      }
    }
  }

  /** Without negative issuance amounts a fresh index can be cut anywhere, failures included. */
  lemma IndexRefold(c: seq<Block>, bs: seq<Block>, cfg: Config)
    requires Consecutive(c + bs, 0) && Clean(c + bs, cfg)
    ensures Index(c + bs, cfg) ==
            match Index(c, cfg) { case None => None case Some(t) => ApplyBlocks(t, bs, cfg) }
  {
    EmptyWellFormed();
    CleanParts(c, bs, cfg);
    BatchSizeIndependence(EMPTY, c, bs, cfg, 0);
  }

  /** With any amounts: once c is indexed, what follows goes on top of it. */
  lemma IndexOnTop(c: seq<Block>, bs: seq<Block>, cfg: Config)
    requires Consecutive(c + bs, 0) && Index(c, cfg).Some?
    ensures Index(c + bs, cfg) == ApplyBlocks(Index(c, cfg).value, bs, cfg)
  {
    EmptyWellFormed();
    BatchSplit(EMPTY, c, bs, cfg, 0);
  }

  lemma IndexWellFormed(c: seq<Block>, cfg: Config)
    requires Consecutive(c, 0) && Index(c, cfg).Some?
    ensures WellFormed(Index(c, cfg).value, |c|)
    ensures Extended(map[], c, cfg, 0, Index(c, cfg).value.blocks)
  {
    EmptyWellFormed();
    ApplyKeepsWellFormed(EMPTY, c, cfg, 0);
  }

  // ----- markers come from the chain

  lemma InsertBlockMarks(w: Work, b: Block, cfg: Config)
    requires InsertBlock(w, b, cfg).Some?
    ensures MarkedBy(w.t.outputs, InsertBlock(w, b, cfg).value.t.outputs, BlockRefs(b))
  {
    TransactionsAsOps(w, b, cfg, 0);
    RunMarks(w, BlockOps(b), cfg);
    FinishBlockHides(InsertTransactions(w, b, cfg, 0).value, b, cfg);
  }

  /** A marker was there before, or a block of the batch refers to the output. */
  lemma {:induction false} InsertBlocksMark(w: Work, bs: seq<Block>, cfg: Config, k: OutPoint)
    requires InsertBlocks(w, bs, cfg).Some?
    requires var o := InsertBlocks(w, bs, cfg).value.t.outputs; k in o && o[k].spent.Some?
    ensures (k in w.t.outputs && w.t.outputs[k].spent.Some?) || exists i :: 0 <= i < |bs| && k in BlockRefs(bs[i])
    decreases |bs|
  {
    if bs != [] {
      var w1 := InsertBlock(w, bs[0], cfg).value;
      InsertBlockMarks(w, bs[0], cfg);
      InsertBlocksMark(w1, bs[1..], cfg, k);
      if i :| 0 <= i < |bs[1..]| && k in BlockRefs(bs[1..][i]) {
        assert k in BlockRefs(bs[i + 1]);
      }
    }
  }

  lemma MarkersAreRefs(c: seq<Block>, cfg: Config, k: OutPoint)
    requires Index(c, cfg).Some?
    requires k in Index(c, cfg).value.outputs && Index(c, cfg).value.outputs[k].spent.Some?
    ensures exists i :: 0 <= i < |c| && k in BlockRefs(c[i])
  {
    if c != [] {
      FinishBatchAlike(InsertBlocks(Work(EMPTY, {}), c, cfg).value, c);
      InsertBlocksMark(Work(EMPTY, {}), c, cfg, k);
    }
  }

  lemma EarlierRef(c: seq<Block>, b: Block, i: nat, k: OutPoint)
    requires FreshTip(c + [b]) && i < |c| && k in BlockRefs(c[i])
    ensures k !in BlockRefs(b)
  {
    assert DisjointFromTip(c + [b], i);
  }

  lemma FreshTipOverwritesNothing(c: seq<Block>, b: Block, cfg: Config)
    requires FreshTip(c + [b]) && Index(c, cfg).Some?
    ensures NoOverwrite(Index(c, cfg).value.outputs, BlockRefs(b))
  {
    var t := Index(c, cfg).value;
    forall k | k in BlockRefs(b) && k in t.outputs
      ensures t.outputs[k].spent.None?
    {
      if t.outputs[k].spent.Some? {
        MarkersAreRefs(c, cfg, k);
        var i :| 0 <= i < |c| && k in BlockRefs(c[i]);
        EarlierRef(c, b, i, k);
      }
    }
  }

  // ----- where a chain can be cut

  /** The issuances an index holds below the last block are those the earlier blocks inserted. */
  lemma IssuancesBelow(c: seq<Block>, b: Block, cfg: Config, w: Work, t: Tables)
    requires Consecutive(c + [b], 0) && Index(c + [b], cfg) == Some(t)
    requires InsertBlocks(Work(EMPTY, {}), c, cfg) == Some(w)
    ensures IssuancesWithout(t.issuances, |c|) == w.t.issuances
  {
    ConsecutiveParts(c, [b], 0);
    EmptyWellFormed();
    InsertBlocksKeeps(Work(EMPTY, {}), c, cfg, 0);
    assert (c + [b])[|c|] == b;
    InsertBlocksConcat(Work(EMPTY, {}), c, [b], cfg);
    InsertOne(w, b, cfg);
    InsertBlockAddsHeight(w, b, cfg);
    FinishBatchAlike(InsertBlock(w, b, cfg).value, c + [b]);
    IssuancesAllBelow(w.t.issuances, |c|);
  }

  lemma IssuancesAllBelow(issuances: map<InputKey, IssuanceRow>, n: int)
    requires IssuancesIn(issuances, n)
    ensures IssuancesWithout(issuances, n) == issuances
  {
  }

  /** If the tip can be rolled back, the chain below it has a fresh index of its own. */
  lemma CutBelowTip(c: seq<Block>, b: Block, cfg: Config, t: Tables)
    requires Consecutive(c + [b], 0) && Index(c + [b], cfg) == Some(t) && FitsWithout(t.issuances, |c|)
    ensures Index(c, cfg).Some?
  {
    IndexWellFormed(c + [b], cfg);
    PartCommitsWhen(EMPTY, c, [b], cfg);
    if c != [] {
      InsertBlocksConcat(Work(EMPTY, {}), c, [b], cfg);
      var w := InsertBlocks(Work(EMPTY, {}), c, cfg).value;
      IssuancesBelow(c, b, cfg, w, t);
      SumsBelow(t.issuances, |c|);
      assert CutFits(EMPTY, c, cfg);
    }
  }

  lemma SumsBelow(issuances: map<InputKey, IssuanceRow>, h: int)
    requires Summable(issuances, {}) && FitsWithout(issuances, h)
    ensures Summable(IssuancesWithout(issuances, h), {})
  {
    forall a: string
      ensures SumsFit(IssuancesWithout(issuances, h), a)
    {
      if a !in IssuedAt(issuances, h) { UntouchedByRollback(issuances, h, a); }
    }
  }

  // ----- runs

  /** The index holds chain c: exactly the fresh index, up to the genesis hash an emptied index remembers. */
  ghost predicate Holds(t: Tables, c: seq<Block>, cfg: Config) {
    if c == [] then WellFormed(t, 0) && t == EMPTY.(meta := t.meta)
    else Index(c, cfg) == Some(t)
  }

  lemma HoldsWellFormed(t: Tables, c: seq<Block>, cfg: Config)
    requires Consecutive(c, 0) && Holds(t, c, cfg)
    ensures WellFormed(t, |c|)
  {
    if c != [] { IndexWellFormed(c, cfg); }
  }

  /** A committed batch: for any amounts, and whatever it spends. */
  lemma ApplyHolds(t: Tables, c: seq<Block>, bs: seq<Block>, cfg: Config)
    requires Holds(t, c, cfg) && Consecutive(c + bs, 0)
    requires ApplyBlocks(t, bs, cfg).Some?
    ensures Holds(ApplyBlocks(t, bs, cfg).value, c + bs, cfg)
  {
    if bs == [] {
      assert c + bs == c;
    } else if c == [] {
      assert c + bs == bs;
      ApplyToEmptied(t, bs, cfg);
    } else {
      IndexOnTop(c, bs, cfg);
    }
  }

  /** The rollback of a tip over an indexable chain. */
  lemma RollbackToIndex(t: Tables, c: seq<Block>, b: Block, cfg: Config)
    requires Consecutive(c + [b], 0) && Holds(t, c + [b], cfg) && Index(c, cfg).Some?
    ensures var r := RollbackBlock(t, |c|);
            && r.Some?
            && (Holds(r.value, c, cfg) <==> NoOverwrite(Index(c, cfg).value.outputs, BlockRefs(b)))
  {
    var u := Index(c, cfg).value;
    ConsecutiveParts(c, [b], 0);
    IndexOnTop(c, [b], cfg);
    IndexWellFormed(c, cfg);
    assert (c + [b])[|c|] == b;
    RollbackUndoesApply(u, b, cfg, |c|);
    if c == [] {
      EmptyWellFormed();
      ApplyKeepsWellFormed(EMPTY, [b], cfg, 0);
      RollbackKeepsWellFormed(t, 1);
    }
  }

  /**
   Rolling back the tip: it commits exactly when the chain below has a fresh index, and then leaves
   that index, provided the tip spends nothing that an earlier block spends.
   */
  lemma RollbackHolds(t: Tables, c: seq<Block>, b: Block, cfg: Config)
    requires Consecutive(c + [b], 0) && Holds(t, c + [b], cfg) && FreshTip(c + [b])
    ensures RollbackBlock(t, |c|).Some? <==> Index(c, cfg).Some?
    ensures RollbackBlock(t, |c|).Some? ==> Holds(RollbackBlock(t, |c|).value, c, cfg)
  {
    RollbackSucceedsWhen(t, |c|);
    if RollbackBlock(t, |c|).Some? { CutBelowTip(c, b, cfg, t); }
    if Index(c, cfg).Some? {
      RollbackToIndex(t, c, b, cfg);
      FreshTipOverwritesNothing(c, b, cfg);
    }
  }

  /** Without negative issuance amounts a rollback never fails. */
  lemma CleanRollbackCommits(t: Tables, c: seq<Block>, b: Block, cfg: Config)
    requires Consecutive(c + [b], 0) && Holds(t, c + [b], cfg) && FreshTip(c + [b]) && Clean(c + [b], cfg)
    ensures RollbackBlock(t, |c|).Some?
  {
    IndexRefold(c, [b], cfg);
    RollbackHolds(t, c, b, cfg);
  }

  /** One thing that can happen to the store; an attempt that does not commit changes nothing. */
  datatype Event =
    | Apply(blocks: seq<Block>, commits: bool)
    | RollbackTip(commits: bool)
    | Crash

  /** The database together with the chain it was built from. */
  datatype Database = Database(t: Tables, chain: seq<Block>)

  ghost function After(d: Database, e: Event, cfg: Config): Database {
    match e
    case Apply(bs, commits) =>
      if commits && ApplyBlocks(d.t, bs, cfg).Some? then Database(ApplyBlocks(d.t, bs, cfg).value, d.chain + bs)
      else d
    case RollbackTip(commits) =>
      var h := CursorOf(d.t).height;
      if commits && d.chain != [] && RollbackBlock(d.t, h).Some?
      then Database(RollbackBlock(d.t, h).value, d.chain[..|d.chain| - 1])
      else d
    case Crash => d
  }

  ghost function AfterAll(d: Database, es: seq<Event>, cfg: Config): Database
    decreases |es|
  {
    if es == [] then d else AfterAll(After(d, es[0], cfg), es[1..], cfg)
  }

  /** The event commits a batch. */
  ghost predicate Takes(t: Tables, e: Event, cfg: Config) {
    e.Apply? && e.commits && ApplyBlocks(t, e.blocks, cfg).Some?
  }

  /** The event rolls the tip back. */
  ghost predicate Undoes(d: Database, e: Event, cfg: Config) {
    e.RollbackTip? && e.commits && d.chain != [] && RollbackBlock(d.t, CursorOf(d.t).height).Some?
  }

  /**
   Every batch that commits in the run continues the heights of its moment, and every block that is
   rolled back spent nothing that an earlier block of its chain spends.
   */
  ghost predicate Admissible(d: Database, es: seq<Event>, cfg: Config)
    decreases |es|
  {
    es != [] ==>
      && (Takes(d.t, es[0], cfg) ==> Consecutive(es[0].blocks, |d.chain|))
      && (Undoes(d, es[0], cfg) ==> FreshTip(d.chain))
      && Admissible(After(d, es[0], cfg), es[1..], cfg)
  }

  lemma AfterHolds(d: Database, e: Event, cfg: Config)
    requires Consecutive(d.chain, 0) && Holds(d.t, d.chain, cfg)
    requires Takes(d.t, e, cfg) ==> Consecutive(e.blocks, |d.chain|)
    requires Undoes(d, e, cfg) ==> FreshTip(d.chain)
    ensures var d' := After(d, e, cfg);
            Consecutive(d'.chain, 0) && Holds(d'.t, d'.chain, cfg)
  {
    match e
    case Apply(bs, commits) =>
      if Takes(d.t, e, cfg) {
        ConsecutiveParts(d.chain, bs, 0);
        ApplyHolds(d.t, d.chain, bs, cfg);
      }
    case RollbackTip(commits) =>
      if Undoes(d, e, cfg) {
        var c, b := d.chain[..|d.chain| - 1], d.chain[|d.chain| - 1];
        assert d.chain == c + [b];
        HoldsWellFormed(d.t, d.chain, cfg);
        ConsecutiveParts(c, [b], 0);
        RollbackHolds(d.t, c, b, cfg);
      }
    case Crash =>
  }

  lemma {:induction false} RunHolds(d: Database, es: seq<Event>, cfg: Config)
    requires Consecutive(d.chain, 0) && Holds(d.t, d.chain, cfg) && Admissible(d, es, cfg)
    ensures var d' := AfterAll(d, es, cfg);
            Consecutive(d'.chain, 0) && Holds(d'.t, d'.chain, cfg)
    decreases |es|
  {
    if es != [] {
      AfterHolds(d, es[0], cfg);
      RunHolds(After(d, es[0], cfg), es[1..], cfg);
    }
  }

  // ----- runs that may spend anything twice

  /** Every batch that commits continues the heights of its moment; nothing else is asked. */
  ghost predicate Orderly(d: Database, es: seq<Event>, cfg: Config)
    decreases |es|
  {
    es != [] ==>
      && (Takes(d.t, es[0], cfg) ==> Consecutive(es[0].blocks, |d.chain|))
      && Orderly(After(d, es[0], cfg), es[1..], cfg)
  }

  /** The block rows are those of the chain. */
  ghost predicate RowsOf(blocks: map<int, BlockRow>, c: seq<Block>, cfg: Config) {
    forall h :: 0 <= h < |c| ==> h in blocks && blocks[h] == StoredRow(c[h], cfg)
  }

  /** The index holds one row for every block of the chain, and every invariant of a committed index. */
  ghost predicate Filed(t: Tables, c: seq<Block>, cfg: Config) {
    WellFormed(t, |c|) && RowsOf(t.blocks, c, cfg)
  }

  lemma {:induction false} OrderlyApply(t: Tables, c: seq<Block>, bs: seq<Block>, cfg: Config, n: nat, t': Tables,
                                        n': nat)
    requires WellFormed(t, n) && n == |c| && RowsOf(t.blocks, c, cfg) && n' == n + |bs|
    requires Consecutive(bs, n) && ApplyBlocks(t, bs, cfg) == Some(t')
    ensures WellFormed(t', n') && RowsOf(t'.blocks, c + bs, cfg)
  {
    ApplyKeepsWellFormed(t, bs, cfg, n);
    RowsExtended(t.blocks, c, bs, cfg, t'.blocks);
  }

  lemma {:induction false} OrderlyRollback(t: Tables, c: seq<Block>, cfg: Config, n: nat, t': Tables)
    requires WellFormed(t, n) && n == |c| > 0 && RowsOf(t.blocks, c, cfg)
    requires RollbackBlock(t, n - 1) == Some(t')
    ensures Filed(t', c[..n - 1], cfg)
  {
    RollbackKeepsWellFormed(t, n);
    RowsDropped(t.blocks, c, cfg, n);
  }

  lemma RowsDropped(blocks: map<int, BlockRow>, c: seq<Block>, cfg: Config, n: nat)
    requires n == |c| > 0 && RowsOf(blocks, c, cfg)
    ensures RowsOf(BlocksWithout(blocks, n - 1), c[..n - 1], cfg)
  {
  }

  /** What an event that moves the index does to tables and chain. */
  lemma AfterIs(d: Database, e: Event, cfg: Config)
    ensures var d' := After(d, e, cfg);
            if Takes(d.t, e, cfg) then ApplyBlocks(d.t, e.blocks, cfg) == Some(d'.t) && d'.chain == d.chain + e.blocks
            else if Undoes(d, e, cfg) then
              RollbackBlock(d.t, CursorOf(d.t).height) == Some(d'.t) && d'.chain == d.chain[..|d.chain| - 1]
            else d' == d
  {
  }

  lemma TopOfFiled(t: Tables, c: seq<Block>, cfg: Config)
    requires Filed(t, c, cfg)
    ensures CursorOf(t).height == |c| - 1
  {
  }

  lemma {:induction false} OrderlyAfter(d: Database, e: Event, cfg: Config)
    requires Filed(d.t, d.chain, cfg)
    requires Takes(d.t, e, cfg) ==> Consecutive(e.blocks, |d.chain|)
    ensures var d' := After(d, e, cfg);
            Filed(d'.t, d'.chain, cfg)
  {
    var d' := After(d, e, cfg);
    AfterIs(d, e, cfg);
    if Takes(d.t, e, cfg) {
      OrderlyApply(d.t, d.chain, e.blocks, cfg, |d.chain|, d'.t, |d'.chain|);
    } else if Undoes(d, e, cfg) {
      TopOfFiled(d.t, d.chain, cfg);
      OrderlyRollback(d.t, d.chain, cfg, |d.chain|, d'.t);
    }
  }

  lemma RowsExtended(blocks: map<int, BlockRow>, c: seq<Block>, bs: seq<Block>, cfg: Config, after: map<int, BlockRow>)
    requires RowsOf(blocks, c, cfg) && Extended(blocks, bs, cfg, |c|, after)
    ensures RowsOf(after, c + bs, cfg)
  {
    forall h | 0 <= h < |c + bs|
      ensures h in after && after[h] == StoredRow((c + bs)[h], cfg)
    {
      if h >= |c| { assert (c + bs)[h] == bs[h - |c|]; }
    }
  }

  /** The heights are contiguous, the cursor is right and the rows are those of the chain, whatever the blocks spend. */
  lemma {:induction false} OrderlyRun(d: Database, es: seq<Event>, cfg: Config)
    requires Filed(d.t, d.chain, cfg) && Orderly(d, es, cfg)
    ensures Filed(AfterAll(d, es, cfg).t, AfterAll(d, es, cfg).chain, cfg)
    decreases |es|
  {
    if es != [] {
      OrderlyAfter(d, es[0], cfg);
      OrderlyRun(After(d, es[0], cfg), es[1..], cfg);
    }
  }

  // ----- history independence

  /** Every run of batches, rollbacks, failed transactions and crashes ends on the fresh index of its chain. */
  lemma HistoryIndependence(es: seq<Event>, cfg: Config)
    requires Admissible(Database(EMPTY, []), es, cfg)
    ensures var d := AfterAll(Database(EMPTY, []), es, cfg);
            Holds(d.t, d.chain, cfg)
  {
    EmptyWellFormed();
    RunHolds(Database(EMPTY, []), es, cfg);
  }

  /** Two runs that end on the same nonempty chain end on the same tables. */
  lemma SameChainSameTables(es: seq<Event>, fs: seq<Event>, cfg: Config)
    requires Admissible(Database(EMPTY, []), es, cfg) && Admissible(Database(EMPTY, []), fs, cfg)
    requires AfterAll(Database(EMPTY, []), es, cfg).chain == AfterAll(Database(EMPTY, []), fs, cfg).chain != []
    ensures AfterAll(Database(EMPTY, []), es, cfg).t == AfterAll(Database(EMPTY, []), fs, cfg).t
  {
    HistoryIndependence(es, cfg);
    HistoryIndependence(fs, cfg);
  }
}
