/**
 What one step decides (explorer/indexer.go), in the raw answers of the node; and what the status
 and the policy asset say after any run.
 */
module Decisions {
  import opened Common
  import opened ChainModel
  import opened Tables
  import opened Invariants
  import opened Indexer
  import opened IndexerSafety

  // ----- a fetched batch against the cursor

  /** Block i of the batch has the i-th height above the cursor. */
  ghost predicate InPlace(c: Cursor, bs: seq<Block>, i: nat)
    requires i < |bs|
  {
    bs[i].height == c.height + 1 + i
  }

  /** The hash block i has to name: that of the block before it, or of the cursor. */
  ghost function HashBefore(c: Cursor, bs: seq<Block>, i: nat): string
    requires i <= |bs|
  {
    if i == 0 then c.hash else bs[i - 1].hash
  }

  /** Block i names the block before it; nothing is asked at genesis, nor where that hash is unknown. */
  ghost predicate Links(c: Cursor, bs: seq<Block>, i: nat)
    requires i < |bs|
  {
    c.height + 1 + i <= 0 || HashBefore(c, bs, i) == "" || bs[i].previousHash == HashBefore(c, bs, i)
  }

  ghost predicate FollowsAt(c: Cursor, bs: seq<Block>, i: nat)
    requires i < |bs|
  {
    InPlace(c, bs, i) && Links(c, bs, i)
  }

  /** The first k blocks continue the cursor. */
  ghost predicate Follows(c: Cursor, bs: seq<Block>, k: nat)
    requires k <= |bs|
  {
    forall i :: 0 <= i < k ==> FollowsAt(c, bs, i)
  }

  /** The first k blocks continue the cursor, and then the batch ends or changes branch. */
  ghost predicate FollowsUpTo(c: Cursor, bs: seq<Block>, k: nat)
    requires k <= |bs|
  {
    Follows(c, bs, k) && (k < |bs| ==> InPlace(c, bs, k) && !Links(c, bs, k))
  }

  /** The first block that does not continue the cursor is one at a wrong height. */
  ghost predicate Misplaced(c: Cursor, bs: seq<Block>) {
    exists k :: 0 <= k < |bs| && Follows(c, bs, k) && !InPlace(c, bs, k)
  }

  lemma {:induction false} ChecksFrom(c: Cursor, bs: seq<Block>, i: nat)
    requires i <= |bs| && Follows(c, bs, i)
    ensures match CheckLinks(bs, c.height + 1, HashBefore(c, bs, i), i)
            case BadHeight => Misplaced(c, bs)
            case LinkedPrefix(n) => FollowsUpTo(c, bs, n)
    decreases |bs| - i
  {
    if i < |bs| && FollowsAt(c, bs, i) {
      ChecksFrom(c, bs, i + 1);
    }
  }

  /** At most one of the descriptions fits a batch, with at most one number. */
  lemma FollowsOnce(c: Cursor, bs: seq<Block>, k: nat, n: nat)
    requires k <= |bs| && n <= |bs| && FollowsUpTo(c, bs, k)
    ensures FollowsUpTo(c, bs, n) ==> n == k
    ensures !Misplaced(c, bs)
  {
    if n < k { assert FollowsAt(c, bs, n); }
    if k < n { assert Follows(c, bs, n) ==> FollowsAt(c, bs, k); }
    forall j | 0 <= j < |bs| && !InPlace(c, bs, j)
      ensures !Follows(c, bs, j)
    {
      if k < j { assert Follows(c, bs, j) ==> FollowsAt(c, bs, k); }
      assert j < k ==> FollowsAt(c, bs, j);
    }
  }

  /**
   What a fetched batch leads to. The blocks that continue the cursor are applied when the batch ends or
   changes branch behind them; a change of branch at its first block rolls the tip back; and a block at a wrong
   height, if it is the first that does not continue, makes the step fail with nothing applied.
   */
  lemma WhatABatchLeadsTo(c: Cursor, bs: seq<Block>, k: nat)
    requires k <= |bs|
    ensures PlanLinked(c, bs) == Apply(bs[..k]) <==> k > 0 && FollowsUpTo(c, bs, k)
    ensures PlanLinked(c, bs).Apply? <==> exists n :: 0 < n <= |bs| && FollowsUpTo(c, bs, n)
    ensures PlanLinked(c, bs).Rollback? <==> bs != [] && InPlace(c, bs, 0) && !Links(c, bs, 0)
    ensures PlanLinked(c, bs).Rollback? ==> PlanLinked(c, bs).height == c.height
    ensures PlanLinked(c, bs) == Fail <==> Misplaced(c, bs)
    ensures PlanLinked(c, bs) == Idle <==> bs == []
  {
    ChecksFrom(c, bs, 0);
    if bs != [] { assert InPlace(c, bs, 0) && !Links(c, bs, 0) ==> FollowsUpTo(c, bs, 0); }
    match CheckLinks(bs, c.height + 1, c.hash, 0)
    case LinkedPrefix(n) =>
      FollowsOnce(c, bs, n, k);
      assert |bs[..n]| == n && |bs[..k]| == k;
      forall j | 0 < j <= |bs| && FollowsUpTo(c, bs, j)
        ensures j == n
      {
        FollowsOnce(c, bs, n, j);
      }
      FollowsOnce(c, bs, n, 0);
    case BadHeight =>
      forall j | 0 <= j <= |bs|
        ensures !FollowsUpTo(c, bs, j)
      {
        if FollowsUpTo(c, bs, j) { FollowsOnce(c, bs, j, j); }
      }
  }

  // ----- the whole decision, in the raw answers of the node

  ghost predicate LooksLikeHash(s: string) {
    |s| == 64
  }

  /** Asked for `count` heights from `from` on, the node gives as many hashes, and for these as many blocks. */
  ghost predicate Offers(w: World, from: int, count: nat, bs: seq<Block>) {
    var hashes := w.blockHashes(seq(count, i => from + i));
    && hashes.Some? && |hashes.value| == count
    && (forall s :: s in hashes.value ==> LooksLikeHash(s))
    && w.blocks(hashes.value) == Some(bs) && |bs| == count
    && (forall b :: b in bs ==> LooksLikeHash(b.hash))
  }

  lemma {:induction false} HeightsAre(from: int, top: int)
    requires from <= top + 1
    ensures Heights(from, top) == seq(top - from + 1, i => from + i)
    decreases top - from
  {
    var all := seq(top - from + 1, i => from + i);
    if from <= top {
      HeightsAre(from + 1, top);
      var rest := seq(top - from, i => from + 1 + i);
      assert all == [from] + rest;
    } else {
      assert all == [];
    }
  }

  lemma FetchIsOffer(w: World, from: int, count: nat, bs: seq<Block>)
    ensures Fetch(w, from, from + count - 1) == Some(bs) <==> Offers(w, from, count, bs)
  {
    HeightsAre(from, from + count - 1);
    assert forall i :: 0 <= i < |bs| ==> bs[i] in bs;
  }

  /** The node announces exactly the stored tip. */
  ghost predicate AtTip(c: Cursor, info: ChainInfo) {
    c.height == info.blocks && c.hash == info.bestBlockHash
  }

  /** The node can say which hash it has at the cursor, or at its own tip if that is lower. */
  ghost predicate Says(c: Cursor, info: ChainInfo, w: World, hash: string) {
    w.blockHash(if c.height < info.blocks then c.height else info.blocks) == Some(hash) && LooksLikeHash(hash)
  }

  /** The node has the stored tip in its chain, so that blocks above it are asked for. */
  ghost predicate Extends(c: Cursor, info: ChainInfo, w: World) {
    !AtTip(c, info) && (c.height >= 0 ==> c.height <= info.blocks && Says(c, info, w, c.hash))
  }

  /** How many blocks are asked for: a batch, or what is left up to the announced height. */
  ghost function Asked(c: Cursor, info: ChainInfo, batchSize: int): int {
    if c.height + batchSize < info.blocks then batchSize else info.blocks - c.height
  }

  /** The batch above the cursor that the node gives. */
  ghost predicate Given(c: Cursor, info: ChainInfo, w: World, batchSize: int, bs: seq<Block>) {
    Extends(c, info, w) && Asked(c, info, batchSize) > 0 && Offers(w, c.height + 1, Asked(c, info, batchSize), bs)
  }

  /** The stored tip has left the chain of the node: its height is gone, or carries another hash. */
  ghost predicate Left(c: Cursor, info: ChainInfo, w: World) {
    && !AtTip(c, info) && c.height >= 0
    && exists hash :: Says(c, info, w, hash) && (c.height > info.blocks || hash != c.hash)
  }

  ghost predicate ChangesBranchAtOnce(c: Cursor, bs: seq<Block>) {
    bs != [] && InPlace(c, bs, 0) && !Links(c, bs, 0)
  }

  lemma PlanOfGiven(c: Cursor, info: ChainInfo, w: World, batchSize: int, bs: seq<Block>)
    requires Extends(c, info, w)
    ensures Asked(c, info, batchSize) <= 0 ==> Plan(c, info, w, batchSize) == Idle
    ensures Given(c, info, w, batchSize, bs) ==> Plan(c, info, w, batchSize) == PlanLinked(c, bs)
    ensures Asked(c, info, batchSize) > 0 ==>
              (exists got :: Given(c, info, w, batchSize, got)) || Plan(c, info, w, batchSize) == Fail
  {
    var n := Asked(c, info, batchSize);
    assert Plan(c, info, w, batchSize) == PlanBatch(c, info, w, batchSize);
    if n > 0 {
      FetchIsOffer(w, c.height + 1, n, bs);
      var fetched := Fetch(w, c.height + 1, c.height + n);
      if fetched.Some? {
        FetchIsOffer(w, c.height + 1, n, fetched.value);
        assert Given(c, info, w, batchSize, fetched.value);
      }
    }
  }

  lemma PlanElsewhere(c: Cursor, info: ChainInfo, w: World, batchSize: int)
    requires !Extends(c, info, w)
    ensures Left(c, info, w) ==> Plan(c, info, w, batchSize) == Rollback(c.height)
    ensures AtTip(c, info) && w.mempool ==> Plan(c, info, w, batchSize) == Idle
    ensures !Left(c, info, w) && !(AtTip(c, info) && w.mempool) ==> Plan(c, info, w, batchSize) == Fail
  {
    var canonical := AskBlockHash(w, Min(c.height, info.blocks));
    assert forall hash :: Says(c, info, w, hash) <==> canonical == Some(hash);
  }

  /** There is only one batch to be given. */
  lemma GivenOnce(c: Cursor, info: ChainInfo, w: World, batchSize: int, a: seq<Block>, b: seq<Block>)
    requires Given(c, info, w, batchSize, a) && Given(c, info, w, batchSize, b)
    ensures a == b
  {
  }

  /**
   The tip is rolled back exactly when it has left the chain of the node, or when the batch given above it starts
   with a block of the next height that names another block before it.
   */
  lemma WhenATipIsRolledBack(c: Cursor, info: ChainInfo, w: World, batchSize: int)
    ensures Plan(c, info, w, batchSize).Rollback? <==>
            || Left(c, info, w)
            || exists bs :: Given(c, info, w, batchSize, bs) && ChangesBranchAtOnce(c, bs)
    ensures Plan(c, info, w, batchSize).Rollback? ==> Plan(c, info, w, batchSize).height == c.height
  {
    if Extends(c, info, w) {
      PlanOfGiven(c, info, w, batchSize, []);
      forall bs | Given(c, info, w, batchSize, bs)
        ensures Plan(c, info, w, batchSize) == PlanLinked(c, bs)
        ensures PlanLinked(c, bs).Rollback? <==> ChangesBranchAtOnce(c, bs)
        ensures PlanLinked(c, bs).Rollback? ==> PlanLinked(c, bs).height == c.height
      {
        PlanOfGiven(c, info, w, batchSize, bs);
        WhatABatchLeadsTo(c, bs, 0);
      }
    } else {
      PlanElsewhere(c, info, w, batchSize);
    }
  }

  /**
   Blocks are applied exactly when the node still has the stored tip, is asked for blocks above it and gives them,
   and then they are those that continue the cursor, up to the end or to a change of branch.
   */
  lemma WhenBlocksAreApplied(c: Cursor, info: ChainInfo, w: World, batchSize: int, linked: seq<Block>)
    ensures Plan(c, info, w, batchSize) == Apply(linked) <==>
            exists bs :: Given(c, info, w, batchSize, bs) && IsLinkedPart(c, bs, linked)
  {
    if Extends(c, info, w) {
      PlanOfGiven(c, info, w, batchSize, []);
      forall bs | Given(c, info, w, batchSize, bs)
        ensures Plan(c, info, w, batchSize) == PlanLinked(c, bs)
        ensures PlanLinked(c, bs) == Apply(linked) <==> IsLinkedPart(c, bs, linked)
      {
        PlanOfGiven(c, info, w, batchSize, bs);
        PartIsPlanned(c, bs, linked);
      }
    } else {
      PlanElsewhere(c, info, w, batchSize);
    }
  }

  ghost predicate IsLinkedPart(c: Cursor, bs: seq<Block>, linked: seq<Block>) {
    0 < |linked| <= |bs| && linked == bs[..|linked|] && FollowsUpTo(c, bs, |linked|)
  }

  lemma PartIsPlanned(c: Cursor, bs: seq<Block>, linked: seq<Block>)
    ensures PlanLinked(c, bs) == Apply(linked) <==> IsLinkedPart(c, bs, linked)
  {
    if |linked| <= |bs| { WhatABatchLeadsTo(c, bs, |linked|); }
    if PlanLinked(c, bs) == Apply(linked) {
      WhatABatchLeadsTo(c, bs, 0);
      var n :| 0 < n <= |bs| && FollowsUpTo(c, bs, n);
      WhatABatchLeadsTo(c, bs, n);
      assert linked == bs[..n];
    }
  }

  /** A step is content exactly at the announced tip with its mempool replaced, or when no block is left to ask for. */
  lemma WhenAStepIdles(c: Cursor, info: ChainInfo, w: World, batchSize: int)
    ensures Plan(c, info, w, batchSize) == Idle <==>
            || (AtTip(c, info) && w.mempool)
            || (Extends(c, info, w) && Asked(c, info, batchSize) <= 0)
  {
    if Extends(c, info, w) {
      PlanOfGiven(c, info, w, batchSize, []);
      forall bs | Given(c, info, w, batchSize, bs)
        ensures Plan(c, info, w, batchSize) == PlanLinked(c, bs) != Idle
      {
        PlanOfGiven(c, info, w, batchSize, bs);
        WhatABatchLeadsTo(c, bs, 0);
      }
    } else {
      PlanElsewhere(c, info, w, batchSize);
    }
  }

  // ----- the policy asset over runs

  ghost predicate Plausible(w: World) {
    w.sidechainInfo.Some? && LooksLikeHash(w.sidechainInfo.value)
  }

  ghost predicate OnlySteps(es: seq<Happening>) {
    forall i :: 0 <= i < |es| ==> es[i].Stepped?
  }

  /** The first step in which a node names a plausible policy asset. */
  ghost predicate FirstPlausible(es: seq<Happening>, k: nat)
    requires OnlySteps(es)
  {
    k < |es| && Plausible(es[k].world) && forall i :: 0 <= i < k ==> !Plausible(es[i].world)
  }

  lemma StepKeepsPolicy(m: Machine, w: World, batchSize: int)
    ensures var m' := Step(m, w, batchSize).0;
            if m.cfg.policyAsset == "" && Plausible(w) then
              && m'.cfg.policyAsset == w.sidechainInfo.value
              && m'.savedPolicy == if w.saves then w.sidechainInfo.value else m.savedPolicy
            else m'.cfg.policyAsset == m.cfg.policyAsset && m'.savedPolicy == m.savedPolicy
  {
  }

  lemma {:induction false} KnownPolicyStays(m: Machine, es: seq<Happening>, batchSize: int)
    requires m.cfg.policyAsset != "" && OnlySteps(es)
    ensures var m' := Trace(m, es, batchSize);
            m'.cfg.policyAsset == m.cfg.policyAsset && m'.savedPolicy == m.savedPolicy
    decreases |es|
  {
    if es != [] {
      StepKeepsPolicy(m, es[0].world, batchSize);
      KnownPolicyStays(Next(m, es[0], batchSize), es[1..], batchSize);
    }
  }

  /**
   A process that knows no policy asset takes the first plausible one it is told, and no later answer changes it.
   It is saved in that step or never: when that write is refused, the process goes on without saving it.
   */
  lemma {:induction false} FirstAnswerIsKept(m: Machine, es: seq<Happening>, batchSize: int)
    requires m.cfg.policyAsset == "" && OnlySteps(es)
    ensures var m' := Trace(m, es, batchSize);
            && (forall k: nat :: FirstPlausible(es, k) ==>
                  && m'.cfg.policyAsset == es[k].world.sidechainInfo.value
                  && m'.savedPolicy == if es[k].world.saves then es[k].world.sidechainInfo.value else m.savedPolicy)
            && ((forall i :: 0 <= i < |es| ==> !Plausible(es[i].world)) ==>
                  m'.cfg.policyAsset == "" && m'.savedPolicy == m.savedPolicy)
    decreases |es|
  {
    if es != [] {
      var m1 := Next(m, es[0], batchSize);
      StepKeepsPolicy(m, es[0].world, batchSize);
      if Plausible(es[0].world) {
        KnownPolicyStays(m1, es[1..], batchSize);
      } else {
        FirstAnswerIsKept(m1, es[1..], batchSize);
        forall k: nat | FirstPlausible(es, k)
          ensures k > 0 && FirstPlausible(es[1..], k - 1) && es[1..][k - 1] == es[k]
        {
          forall i | 0 <= i < k - 1 ensures !Plausible(es[1..][i].world) { assert es[1..][i] == es[i + 1]; }
        }
        assert forall i :: 0 <= i < |es| - 1 ==> es[1..][i] == es[i + 1];
      }
    }
  }

  /** The restart configures the asset, or leaves it open and can read what is saved. */
  ghost predicate Recalls(e: Happening, asset: string) {
    e.Restart? ==> e.configured == asset || (e.configured == "" && e.assetRead)
  }

  /** A saved asset survives every restart that can read it, and every answer. */
  lemma {:induction false} SavedPolicyIsRecalled(m: Machine, es: seq<Happening>, batchSize: int, asset: string)
    requires asset != "" && m.savedPolicy == asset && m.cfg.policyAsset == asset
    requires forall i :: 0 <= i < |es| ==> Recalls(es[i], asset)
    ensures Trace(m, es, batchSize).cfg.policyAsset == asset && Trace(m, es, batchSize).savedPolicy == asset
    decreases |es|
  {
    if es != [] {
      assert Recalls(es[0], asset);
      if es[0].Stepped? { StepKeepsPolicy(m, es[0].world, batchSize); }
      SavedPolicyIsRecalled(Next(m, es[0], batchSize), es[1..], batchSize, asset);
    }
  }

  /** A configured asset wins over a saved one, and neither is invented. */
  lemma ConfiguredPolicyWins(m: Machine, e: Happening, batchSize: int)
    requires e.Restart?
    ensures var policy := Next(m, e, batchSize).cfg.policyAsset;
            && (e.configured != "" ==> policy == e.configured)
            && (policy == "" <==> e.configured == "" && (m.savedPolicy == "" || !e.assetRead))
            && (policy != "" && e.configured == "" ==> policy == m.savedPolicy)
            && Next(m, e, batchSize).savedPolicy == m.savedPolicy
  {
  }

  // ----- the status

  /** Once a height is announced the status says how far the index is behind it, and no other lag is possible. */
  lemma LagIsDistance(m: Machine)
    requires Safe(m) && m.status.chainHeight >= 0
    ensures m.status.lag >= 0 && m.status.indexedHeight + m.status.lag >= m.status.chainHeight
    ensures m.status.lag > 0 ==> m.status.indexedHeight + m.status.lag == m.status.chainHeight
    ensures m.status.indexing <==> !m.status.synchronized
    ensures m.status.synchronized <==>
            m.status.indexedHeight == m.status.chainHeight && m.status.indexedHash == m.status.chainBest
  {
  }

  /** What a step adds to the counters is what it does to the index. */
  lemma StepCounts(m: Machine, w: World, batchSize: int)
    requires ChainShape(m.t)
    ensures var (m', outcome) := Step(m, w, batchSize);
            && m'.status.reorgsHandled == m.status.reorgsHandled + (if outcome == RolledBack then 1 else 0)
            && m'.status.blocksIndexed >= m.status.blocksIndexed
            && (outcome != Applied ==> m'.status.blocksIndexed == m.status.blocksIndexed)
            && Count(m'.t) - Count(m.t) == (m'.status.blocksIndexed - m.status.blocksIndexed)
                                           - (m'.status.reorgsHandled - m.status.reorgsHandled)
  {
    if Decides(m, w) {
      DecisionIsSafe(m, w, batchSize);
      ExecuteCounts(Observed(m, w), Decision(m, w, batchSize), w);
    }
  }

  lemma ExecuteCounts(m: Machine, a: Action, w: World)
    requires ChainShape(m.t)
    requires a.Rollback? ==> a.height == CursorOf(m.t).height >= 0
    requires a.Apply? ==> a.batch != [] && Continues(a.batch, Count(m.t), CursorOf(m.t).hash)
    ensures var (m', outcome) := Execute(m, a, w);
            && m'.status.reorgsHandled == m.status.reorgsHandled + (if outcome == RolledBack then 1 else 0)
            && m'.status.blocksIndexed == m.status.blocksIndexed + (if outcome == Applied then |a.batch| else 0)
            && Count(m'.t) == Count(m.t) + (if outcome == Applied then |a.batch| else 0)
                                         - (if outcome == RolledBack then 1 else 0)
  {
    match a
    case Apply(bs) =>
      var t' := ApplyBlocks(m.t, bs, m.cfg);
      if t'.Some? { ApplyKeepsShape(m.t, bs, m.cfg, t'.value); }
    case Rollback(h) =>
      ShapedPrevious(m.t);
      if RollbackBlock(m.t, h).Some? { RollbackKeepsShape(m.t); }
    case _ =>
  }

  /** As long as the process runs: blocks indexed minus reorganizations handled is what the index has grown by. */
  lemma {:induction false} CountersBalance(m: Machine, es: seq<Happening>, batchSize: int)
    requires Safe(m) && OnlySteps(es)
    ensures var m' := Trace(m, es, batchSize);
            && m'.status.blocksIndexed >= m.status.blocksIndexed && m'.status.reorgsHandled >= m.status.reorgsHandled
            && Count(m'.t) - Count(m.t) == (m'.status.blocksIndexed - m.status.blocksIndexed)
                                           - (m'.status.reorgsHandled - m.status.reorgsHandled)
    decreases |es|
  {
    if es != [] {
      StepCounts(m, es[0].world, batchSize);
      NextSafe(m, es[0], batchSize);
      CountersBalance(Next(m, es[0], batchSize), es[1..], batchSize);
    }
  }
}
