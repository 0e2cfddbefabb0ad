/**
 How a batch may be cut. Inserts never look at asset totals, at the cursor, or at the set of
 touched assets, so refreshing in the middle of a sequence of blocks changes nothing that
 the rest of the sequence computes.
 */
module Batches {
  import opened Common
  import opened ChainModel
  import opened Tables
  import opened Operations
  import opened Invariants
  import opened Reorg

  // ----- inserts do not look at totals

  ghost predicate SameAnchorRows(a: map<string, AssetRow>, b: map<string, AssetRow>) {
    a.Keys == b.Keys && forall k :: k in a ==> a[k].anchor == b[k].anchor
  }

  /** Equal tables, up to asset totals and the cursor. */
  ghost predicate Alike(t: Tables, u: Tables) {
    && t.blocks == u.blocks && t.transactions == u.transactions && t.inputs == u.inputs
    && t.outputs == u.outputs && t.issuances == u.issuances && t.addressTxs == u.addressTxs
    && SameAnchorRows(t.assets, u.assets)
  }

  ghost function Touches(op: Op): set<string> {
    if op.NewInput? && op.v.issuance.Some? then {op.v.issuance.value.asset} else {}
  }

  /** Two inserts agree: both fail, or both succeed alike and touch the same assets. */
  ghost predicate Agree(w: Work, u: Work, w': Option<Work>, u': Option<Work>, more: set<string>) {
    && (w'.Some? <==> u'.Some?)
    && (w'.Some? ==>
          && Alike(w'.value.t, u'.value.t)
          && w'.value.touched == w.touched + more && u'.value.touched == u.touched + more
          && w'.value.t.meta == w.t.meta && u'.value.t.meta == u.t.meta)
  }

  lemma InsertIssuanceAgrees(w: Work, u: Work, p: Placed, vin: int, v: Vin, i: Issuance, cfg: Config)
    requires Alike(w.t, u.t)
    ensures Agree(w, u, InsertIssuance(w, p, vin, v, i, cfg), InsertIssuance(u, p, vin, v, i, cfg), {i.asset})
  {
  }

  lemma PerformAgrees(w: Work, u: Work, op: Op, cfg: Config)
    requires Alike(w.t, u.t)
    ensures Agree(w, u, Perform(w, op, cfg), Perform(u, op, cfg), Touches(op))
  {
    match op
    case NewTransaction(p) =>
    case NewInput(p, vin, v) =>
      if v.issuance.Some? && InputKey(p.tx.txid, vin) !in w.t.inputs {
        InsertIssuanceAgrees(w.(t := AddInput(w.t, p, vin, v)), u.(t := AddInput(u.t, p, vin, v)),
                             p, vin, v, v.issuance.value, cfg);
      }
    case NewOutput(p, o) =>
  }

  ghost function TouchedBy(ops: seq<Op>): set<string>
    decreases |ops|
  {
    if ops == [] then {} else Touches(ops[0]) + TouchedBy(ops[1..])
  }

  lemma {:induction false} RunAgrees(w: Work, u: Work, ops: seq<Op>, cfg: Config)
    requires Alike(w.t, u.t)
    ensures Agree(w, u, Run(w, ops, cfg), Run(u, ops, cfg), TouchedBy(ops))
    decreases |ops|
  {
    if ops != [] {
      PerformAgrees(w, u, ops[0], cfg);
      if Perform(w, ops[0], cfg).Some? {
        RunAgrees(Perform(w, ops[0], cfg).value, Perform(u, ops[0], cfg).value, ops[1..], cfg);
      }
    }
  }

  lemma FinishBlockAgrees(w: Work, u: Work, b: Block, cfg: Config)
    requires Alike(w.t, u.t)
    ensures Agree(w, u, FinishBlock(w, b, cfg), FinishBlock(u, b, cfg), {})
  {
  }

  lemma AgreeTrans(w0: Work, u0: Work, w1: Work, u1: Work, w2: Option<Work>, u2: Option<Work>,
                   a: set<string>, b: set<string>)
    requires Agree(w0, u0, Some(w1), Some(u1), a) && Agree(w1, u1, w2, u2, b)
    ensures Agree(w0, u0, w2, u2, a + b)
  {
  }

  lemma InsertBlockAgrees(w: Work, u: Work, b: Block, cfg: Config)
    requires Alike(w.t, u.t)
    ensures Agree(w, u, InsertBlock(w, b, cfg), InsertBlock(u, b, cfg), TouchedBy(BlockOps(b)))
  {
    TransactionsAsOps(w, b, cfg, 0);
    TransactionsAsOps(u, b, cfg, 0);
    RunAgrees(w, u, BlockOps(b), cfg);
    if Run(w, BlockOps(b), cfg).Some? {
      var w1, u1 := Run(w, BlockOps(b), cfg).value, Run(u, BlockOps(b), cfg).value;
      FinishBlockAgrees(w1, u1, b, cfg);
      AgreeTrans(w, u, w1, u1, FinishBlock(w1, b, cfg), FinishBlock(u1, b, cfg), TouchedBy(BlockOps(b)), {});
      assert TouchedBy(BlockOps(b)) + {} == TouchedBy(BlockOps(b));
    }
  }

  ghost function BatchTouches(bs: seq<Block>): set<string>
    decreases |bs|
  {
    if bs == [] then {} else TouchedBy(BlockOps(bs[0])) + BatchTouches(bs[1..])
  }

  lemma {:induction false} InsertBlocksAgree(w: Work, u: Work, bs: seq<Block>, cfg: Config)
    requires Alike(w.t, u.t)
    ensures Agree(w, u, InsertBlocks(w, bs, cfg), InsertBlocks(u, bs, cfg), BatchTouches(bs))
    decreases |bs|
  {
    if bs != [] {
      InsertBlockAgrees(w, u, bs[0], cfg);
      if InsertBlock(w, bs[0], cfg).Some? {
        var w1, u1 := InsertBlock(w, bs[0], cfg).value, InsertBlock(u, bs[0], cfg).value;
        InsertBlocksAgree(w1, u1, bs[1..], cfg);
        AgreeTrans(w, u, w1, u1, InsertBlocks(w1, bs[1..], cfg), InsertBlocks(u1, bs[1..], cfg),
                   TouchedBy(BlockOps(bs[0])), BatchTouches(bs[1..]));
      }
    }
  }

  lemma {:induction false} InsertBlocksConcat(w: Work, a: seq<Block>, b: seq<Block>, cfg: Config)
    ensures InsertBlocks(w, a + b, cfg) ==
            match InsertBlocks(w, a, cfg) { case None => None case Some(w') => InsertBlocks(w', b, cfg) }
    decreases |a|
  {
    if a == [] {
      assert a + b == b;
    } else {
      assert (a + b)[0] == a[0] && (a + b)[1..] == a[1..] + b;
      match InsertBlock(w, a[0], cfg)
      case None =>
      case Some(w') => InsertBlocksConcat(w', a[1..], b, cfg);
    }
  }

  // ----- the refresh at the end

  /** Alike indexes with current totals differ at most in the cursor. */
  lemma AlikeAndCurrent(t: Tables, u: Tables)
    requires Alike(t, u) && Current(t.assets, t.issuances, {}) && Current(u.assets, u.issuances, {})
    ensures t == u.(meta := t.meta)
  {
    AssetsDetermined(t.assets, u.assets, t.issuances);
  }

  lemma FinishBatchAlike(w: Work, bs: seq<Block>)
    requires bs != [] && FinishBatch(w, bs).Some?
    ensures Alike(w.t, FinishBatch(w, bs).value)
  {
    var t' := RefreshAssets(w.t, w.touched).value;
    assert SameAnchorRows(w.t.assets, t'.assets);
  }

  lemma RefreshOutcome(t: Tables, touched: set<string>)
    ensures RefreshAssets(t, touched).Some? <==> forall a :: a in touched ==> SumsFit(t.issuances, a)
  {
  }

  /** Finishing two alike pieces of work: the one that touched less was already summable outside. */
  lemma FinishAgrees(w: Work, u: Work, bs: seq<Block>, cs: seq<Block>, n: int)
    requires bs != [] && cs != [] && Alike(w.t, u.t) && WorkOk(w, n) && WorkOk(u, n)
    requires u.touched <= w.touched
    requires MetaAfter(w.t.meta, bs) == MetaAfter(u.t.meta, cs)
    ensures FinishBatch(w, bs) == FinishBatch(u, cs)
  {
    RefreshOutcome(w.t, w.touched);
    RefreshOutcome(u.t, u.touched);
    if FinishBatch(u, cs).Some? {
      RefreshCompletes(w.t, w.touched);
      RefreshCompletes(u.t, u.touched);
      FinishBatchAlike(w, bs);
      FinishBatchAlike(u, cs);
      AlikeAndCurrent(FinishBatch(w, bs).value, FinishBatch(u, cs).value);
    }
  }

  lemma MetaAfterTwice(meta: Meta, a: seq<Block>, b: seq<Block>, n: nat)
    requires a != [] && b != [] && Consecutive(a + b, n)
    ensures MetaAfter(MetaAfter(meta, a), b) == MetaAfter(meta, a + b)
  {
    assert (a + b)[0] == a[0] && (a + b)[|a|] == b[0] && (a + b)[|a + b| - 1] == b[|b| - 1];
  }

  lemma ConsecutiveParts(a: seq<Block>, b: seq<Block>, n: int)
    ensures Consecutive(a + b, n) <==> Consecutive(a, n) && Consecutive(b, n + |a|)
  {
    if Consecutive(a + b, n) {
      forall i | 0 <= i < |a| ensures a[i].height == n + i { assert (a + b)[i] == a[i]; }
      forall i | 0 <= i < |b| ensures b[i].height == n + |a| + i { assert (a + b)[|a| + i] == b[i]; }
    }
  }

  /**
   Batch-size independence: once its first part is in, applying the rest gives exactly what one
   batch would have given, for every split, failures included.
   */
  lemma BatchSplit(t: Tables, a: seq<Block>, b: seq<Block>, cfg: Config, n: nat)
    requires WellFormed(t, n) && Consecutive(a + b, n)
    requires ApplyBlocks(t, a, cfg).Some?
    ensures ApplyBlocks(ApplyBlocks(t, a, cfg).value, b, cfg) == ApplyBlocks(t, a + b, cfg)
  {
    ConsecutiveParts(a, b, n);
    if a == [] {
      assert a + b == b;
    } else if b == [] {
      assert a + b == a;
    } else {
      var w := InsertBlocks(Work(t, {}), a, cfg).value;
      var t1 := FinishBatch(w, a).value;
      InsertBlocksKeeps(Work(t, {}), a, cfg, n);
      ApplyKeepsWellFormed(t, a, cfg, n);
      FinishBatchAlike(w, a);
      InsertBlocksConcat(Work(t, {}), a, b, cfg);
      InsertBlocksAgree(w, Work(t1, {}), b, cfg);
      SplitFinish(t, w, t1, a, b, cfg, n);
    }
  }

  lemma SplitFinish(t: Tables, w: Work, t1: Tables, a: seq<Block>, b: seq<Block>, cfg: Config, n: nat)
    requires a != [] && b != [] && Consecutive(a + b, n) && Consecutive(b, n + |a|)
    requires WorkOk(w, n + |a|) && WorkOk(Work(t1, {}), n + |a|)
    requires w.t.meta == t.meta && t1.meta == MetaAfter(t.meta, a)
    requires Agree(w, Work(t1, {}), InsertBlocks(w, b, cfg), InsertBlocks(Work(t1, {}), b, cfg), BatchTouches(b))
    requires InsertBlocks(Work(t, {}), a + b, cfg) == InsertBlocks(w, b, cfg)
    ensures ApplyBlocks(t1, b, cfg) == ApplyBlocks(t, a + b, cfg)
  {
    if InsertBlocks(w, b, cfg).Some? {
      var w2, u2 := InsertBlocks(w, b, cfg).value, InsertBlocks(Work(t1, {}), b, cfg).value;
      InsertBlocksKeeps(w, b, cfg, n + |a|);
      InsertBlocksKeeps(Work(t1, {}), b, cfg, n + |a|);
      MetaAfterTwice(t.meta, a, b, n);
      FinishAgrees(w2, u2, a + b, b, n + |a| + |b|);
    }
  }

  /** The sums that a commit between a and what follows it would have to compute fit in 64 bits. */
  ghost predicate CutFits(t: Tables, a: seq<Block>, cfg: Config) {
    InsertBlocks(Work(t, {}), a, cfg).Some? ==>
      var w := InsertBlocks(Work(t, {}), a, cfg).value;
      forall x :: x in w.touched ==> SumsFit(w.t.issuances, x)
  }

  /** For any amounts: a batch that commits can be cut after a exactly when the sums at the cut fit. */
  lemma BatchSplitsWhen(t: Tables, a: seq<Block>, b: seq<Block>, cfg: Config, n: nat)
    requires WellFormed(t, n) && Consecutive(a + b, n) && ApplyBlocks(t, a + b, cfg).Some?
    ensures CutFits(t, a, cfg) <==>
            ApplyBlocks(t, a + b, cfg) ==
            match ApplyBlocks(t, a, cfg) { case None => None case Some(t1) => ApplyBlocks(t1, b, cfg) }
  {
    PartCommitsWhen(t, a, b, cfg);
    if ApplyBlocks(t, a, cfg).Some? { BatchSplit(t, a, b, cfg, n); }
  }

  lemma PartCommitsWhen(t: Tables, a: seq<Block>, b: seq<Block>, cfg: Config)
    requires ApplyBlocks(t, a + b, cfg).Some?
    ensures CutFits(t, a, cfg) <==> ApplyBlocks(t, a, cfg).Some?
  {
    if a != [] {
      InsertBlocksConcat(Work(t, {}), a, b, cfg);
      var w := InsertBlocks(Work(t, {}), a, cfg).value;
      RefreshOutcome(w.t, w.touched);
    }
  }

  /** An empty index holds no trace of what a rolled-back genesis left in `genesis_hash`. */
  lemma ApplyToEmptied(t: Tables, bs: seq<Block>, cfg: Config)
    requires bs != [] && Consecutive(bs, 0)
    requires t == EMPTY.(meta := t.meta) && WellFormed(t, 0)
    ensures ApplyBlocks(t, bs, cfg) == ApplyBlocks(EMPTY, bs, cfg)
  {
    EmptyWellFormed();
    InsertBlocksAgree(Work(t, {}), Work(EMPTY, {}), bs, cfg);
    if InsertBlocks(Work(t, {}), bs, cfg).Some? {
      var w, u := InsertBlocks(Work(t, {}), bs, cfg).value, InsertBlocks(Work(EMPTY, {}), bs, cfg).value;
      InsertBlocksKeeps(Work(t, {}), bs, cfg, 0);
      InsertBlocksKeeps(Work(EMPTY, {}), bs, cfg, 0);
      FinishAgrees(w, u, bs, bs, |bs|);
    }
  }
}
