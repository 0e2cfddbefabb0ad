/**
 The indexer against nodes that all follow one chain: it unwinds to the fork point, follows that chain
 batch by batch, and then idles on its index. Steps may fail and processes may restart at any time; what
 is counted are the steps that succeed.
 */
module Convergence {
  import opened Common
  import opened ChainModel
  import opened Tables
  import opened Invariants
  import opened Reorg
  import opened Batches
  import opened History
  import opened Indexer
  import opened IndexerSafety
  import opened Runs
  import Subsidy

  // ----- a node that follows one chain

  ghost function HashesOf(bs: seq<Block>): seq<string> {
    seq(|bs|, i requires 0 <= i < |bs| => bs[i].hash)
  }

  /** Every answer that is given, and is plausible, is drawn from d and its policy asset. */
  ghost predicate Honest(w: World, d: seq<Block>, asset: string) {
    && d != []
    && Announces(w, asset)
    && (AskChainInfo(w).Some? ==> AskChainInfo(w).value == TipOf(d))
    && (forall h :: 0 <= h < |d| && AskBlockHash(w, h).Some? ==> AskBlockHash(w, h).value == d[h].hash)
    && (forall i, j :: 0 <= i <= j < |d| ==> HonestRange(w, d, i, j))
  }

  ghost predicate HonestRange(w: World, d: seq<Block>, i: nat, j: nat)
    requires i <= j < |d|
  {
    var bs := d[i..j + 1];
    && (AskBlockHashes(w, Heights(i, j)).Some? ==> AskBlockHashes(w, Heights(i, j)).value == HashesOf(bs))
    && (AskBlocks(w, HashesOf(bs)).Some? ==> AskBlocks(w, HashesOf(bs)).value == bs)
  }

  /** Every answer is given, and the database can be read and accepts every write. */
  ghost predicate Serves(w: World, d: seq<Block>, asset: string) {
    && Honest(w, d, asset)
    && w.sidechainInfo == Some(asset) && AskChainInfo(w).Some?
    && (forall h :: 0 <= h < |d| ==> AskBlockHash(w, h).Some?)
    && (forall i, j :: 0 <= i <= j < |d| ==> AnswersRange(w, d, i, j))
    && w.mempool && w.readable && w.saves && w.commits
  }

  ghost predicate AnswersRange(w: World, d: seq<Block>, i: nat, j: nat)
    requires i <= j < |d|
  {
    AskBlockHashes(w, Heights(i, j)).Some? && AskBlocks(w, HashesOf(d[i..j + 1])).Some?
  }

  lemma {:induction false} HeightsLength(from: int, top: int)
    requires from <= top + 1
    ensures |Heights(from, top)| == top - from + 1
    decreases top - from
  {
    if from <= top { HeightsLength(from + 1, top); }
  }

  lemma {:induction false} ContinuingBatchPasses(bs: seq<Block>, from: int, previous: string, i: nat)
    requires i <= |bs| && (forall j :: i <= j < |bs| ==> bs[j].height == from + j)
    requires i < |bs| && from + i > 0 && previous != "" ==> bs[i].previousHash == previous
    requires forall j :: i < j < |bs| ==> LinksBack(bs, j)
    ensures CheckLinks(bs, from, previous, i) == LinkedPrefix(|bs|)
    decreases |bs| - i
  {
    if i < |bs| {
      if i + 1 < |bs| { assert LinksBack(bs, i + 1); }
      ContinuingBatchPasses(bs, from, bs[i].hash, i + 1);
    }
  }

  /** The next stretch of d above its first k blocks. */
  ghost function Stretch(d: seq<Block>, k: nat, batchSize: int): seq<Block>
    requires k < |d| && batchSize >= 1
  {
    d[k..Min(k + batchSize, |d|)]
  }

  ghost function TipOf(d: seq<Block>): ChainInfo
    requires d != []
  {
    ChainInfo(|d| - 1, d[|d| - 1].hash)
  }

  lemma FetchedStretch(w: World, d: seq<Block>, k: nat, batchSize: int, asset: string)
    requires Honest(w, d, asset) && k < |d| && batchSize >= 1
    ensures var fetched := Fetch(w, k, Min(k + batchSize - 1, |d| - 1));
            && (fetched.Some? ==> fetched.value == Stretch(d, k, batchSize))
            && (Serves(w, d, asset) ==> fetched.Some?)
  {
    var last := Min(k + batchSize - 1, |d| - 1);
    assert Stretch(d, k, batchSize) == d[k..last + 1];
    assert HonestRange(w, d, k, last);
    if Serves(w, d, asset) { assert AnswersRange(w, d, k, last); }
  }

  lemma StretchPasses(d: seq<Block>, k: nat, batchSize: int)
    requires LinkedChain(d) && k < |d| && batchSize >= 1
    ensures var bs := Stretch(d, k, batchSize);
            CheckLinks(bs, k, if k == 0 then "" else d[k - 1].hash, 0) == LinkedPrefix(|bs|)
  {
    var bs := Stretch(d, k, batchSize);
    if k > 0 { assert LinksBack(d, k); }
    forall j | 0 < j < |bs| ensures LinksBack(bs, j) { assert LinksBack(d, k + j); }
    ContinuingBatchPasses(Stretch(d, k, batchSize), k, if k == 0 then "" else d[k - 1].hash, 0);
  }

  /** The cursor of an index of the first k blocks of d. */
  ghost function CursorBelow(d: seq<Block>, k: nat): Cursor
    requires k <= |d|
  {
    if k == 0 then Cursor(-1, "") else Cursor(k - 1, d[k - 1].hash)
  }

  lemma StretchIsLinked(d: seq<Block>, k: nat, batchSize: int)
    requires LinkedChain(d) && k < |d| && batchSize >= 1
    ensures PlanLinked(CursorBelow(d, k), Stretch(d, k, batchSize)) == Action.Apply(Stretch(d, k, batchSize))
  {
    var bs := Stretch(d, k, batchSize);
    StretchPasses(d, k, batchSize);
    assert bs[..|bs|] == bs;
  }

  lemma PlanBatchBehind(w: World, d: seq<Block>, k: nat, batchSize: int, asset: string)
    requires Honest(w, d, asset) && LinkedChain(d) && k < |d| && batchSize >= 1
    ensures var a := PlanBatch(CursorBelow(d, k), TipOf(d), w, batchSize);
            && (a == Action.Fail || a == Action.Apply(Stretch(d, k, batchSize)))
            && (Serves(w, d, asset) ==> a != Action.Fail)
  {
    FetchedStretch(w, d, k, batchSize, asset);
    StretchIsLinked(d, k, batchSize);
  }

  lemma PlanBehind(w: World, d: seq<Block>, k: nat, batchSize: int, asset: string)
    requires Honest(w, d, asset) && LinkedChain(d) && k < |d| && batchSize >= 1
    ensures var a := Plan(CursorBelow(d, k), TipOf(d), w, batchSize);
            && (a == Action.Fail || a == Action.Apply(Stretch(d, k, batchSize)))
            && (Serves(w, d, asset) ==> a != Action.Fail)
  {
    PlanBatchBehind(w, d, k, batchSize, asset);
    if k > 0 && AskBlockHash(w, k - 1).Some? { assert AskBlockHash(w, k - 1).value == d[k - 1].hash; }
  }

  lemma PlanOnFork(w: World, d: seq<Block>, c: Cursor, batchSize: int, asset: string)
    requires Honest(w, d, asset) && c.height >= 0
    requires c.height >= |d| || c.hash != d[c.height].hash
    ensures var a := Plan(c, TipOf(d), w, batchSize);
            && (a == Action.Fail || a == Action.Rollback(c.height))
            && (Serves(w, d, asset) ==> a != Action.Fail)
  {
    var h := Min(c.height, |d| - 1);
    if AskBlockHash(w, h).Some? { assert AskBlockHash(w, h).value == d[h].hash; }
  }

  lemma PlanAtTip(w: World, d: seq<Block>, batchSize: int, asset: string)
    requires Honest(w, d, asset)
    ensures var a := Plan(CursorBelow(d, |d|), TipOf(d), w, batchSize);
            && (a == Action.Fail || a == Action.Idle)
            && (Serves(w, d, asset) ==> a != Action.Fail)
  {
  }

  // ----- one step

  /** The process has its policy asset, or is about to learn it. */
  ghost predicate Ready(m: Machine, asset: string) {
    m.cfg.policyAsset != "" || IsHash(asset)
  }

  /** Nothing stands in the way of a step. */
  ghost predicate Able(m: Machine, w: World, d: seq<Block>, cfg: Config) {
    Serves(w, d, cfg.policyAsset) && Ready(m, cfg.policyAsset)
  }

  /** The process once it looks at the tip of d. */
  ghost function Looking(m: Machine, w: World, d: seq<Block>): Machine
    requires d != []
  {
    Observe(Resolve(m, w).0, TipOf(d))
  }

  ghost predicate Decided(m: Machine, w: World) {
    Resolve(m, w).1 && AskChainInfo(w).Some? && w.readable
  }

  /** A step either comes to nothing or carries out its plan; learning the asset costs no step. */
  lemma StepFollowsPlan(m: Machine, w: World, batchSize: int, d: seq<Block>, cfg: Config)
    requires Knows(m, cfg) && Honest(w, d, cfg.policyAsset)
    ensures var m1 := Looking(m, w, d);
            if Decided(m, w) then
              && m1.t == m.t && m1.cfg == cfg && Knows(m1, cfg) && (NamesCursor(m1) <==> NamesCursor(m))
              && Step(m, w, batchSize) == Execute(m1, Plan(CursorOf(m.t), TipOf(d), w, batchSize), w)
            else
              && Step(m, w, batchSize).1 == Failed
              && Step(m, w, batchSize).0.t == m.t && Knows(Step(m, w, batchSize).0, cfg)
    ensures Able(m, w, d, cfg) ==> Decided(m, w)
  {
    ResolveKnows(m, w, cfg);
  }

  /** Carrying out a plan of one action. */
  lemma ExecuteOne(m: Machine, a: Action, w: World)
    ensures var (m', outcome) := Execute(m, a, w);
            && m'.cfg == m.cfg && m'.savedPolicy == m.savedPolicy
            && (outcome == Failed || outcome == Unchanged ==> m'.t == m.t)
            && match a
               case Fail => outcome == Failed
               case Idle => outcome == Unchanged
               case Rollback(h) =>
                 if w.commits && RollbackBlock(m.t, h).Some? then
                   outcome == RolledBack && Some(m'.t) == RollbackBlock(m.t, h)
                 else outcome == Failed
               case Apply(bs) =>
                 if bs != [] && w.commits && ApplyBlocks(m.t, bs, m.cfg).Some? then
                   outcome == Applied && Some(m'.t) == ApplyBlocks(m.t, bs, m.cfg)
                 else outcome == Failed
  {
  }

  // ----- the way from c to d

  /** The greatest height at which both chains carry the same hash; -1 when there is none. */
  ghost predicate HighestAgreement(c: seq<Block>, d: seq<Block>, f: int) {
    && -1 <= f < |c| && f < |d|
    && (f >= 0 ==> c[f].hash == d[f].hash)
    && (forall h :: f < h < |c| && h < |d| ==> c[h].hash != d[h].hash)
  }

  lemma ForkPoint(c: seq<Block>, d: seq<Block>, f: int)
    requires LinkedChain(c) && LinkedChain(d) && NamesBlocks(c, d) && HighestAgreement(c, d, f)
    ensures c[..f + 1] == d[..f + 1]
  {
    if f >= 0 { AgreeBelow(c, d, f); }
  }

  /** A place on the way: the first k blocks of c, above the fork, or the first k blocks of d. */
  datatype Position = Above(k: nat) | On(k: nat)

  /** What is fixed: from c, with fork point f, to d. */
  datatype Way = Way(c: seq<Block>, d: seq<Block>, f: int, batchSize: int)

  ghost predicate OnWay(p: Position, y: Way) {
    && -1 <= y.f
    && match p
       case Above(k) => y.f + 1 < k <= |y.c|
       case On(k) => y.f + 1 <= k <= |y.d|
  }

  ghost function ChainAt(p: Position, y: Way): seq<Block>
    requires OnWay(p, y)
  {
    match p
    case Above(k) => y.c[..k]
    case On(k) => y.d[..k]
  }

  /** k blocks of c, above the fork or at it. */
  ghost function Down(k: nat, y: Way): Position {
    if k == y.f + 1 then On(k) else Above(k)
  }

  ghost function Start(y: Way): Position {
    Down(|y.c|, y)
  }

  ghost function Onward(p: Position, y: Way): Position
    requires OnWay(p, y) && y.batchSize >= 1
  {
    match p
    case Above(k) => Down(k - 1, y)
    case On(k) => On(Min(k + y.batchSize, |y.d|))
  }

  /** What a successful step does there. */
  ghost function MoveAt(p: Position, y: Way): Outcome {
    match p
    case Above(_) => RolledBack
    case On(k) => if k < |y.d| then Applied else Unchanged
  }

  /** Every cut of the chain from `from` on has a fresh index. */
  ghost predicate Indexable(c: seq<Block>, from: int, cfg: Config) {
    forall k :: 0 <= k <= |c| && from <= k ==> CutIndexed(c, k, cfg)
  }

  ghost predicate CutIndexed(c: seq<Block>, k: nat, cfg: Config)
    requires k <= |c|
  {
    Index(c[..k], cfg).Some?
  }

  ghost predicate FreshCut(c: seq<Block>, k: nat)
    requires k <= |c|
  {
    FreshTip(c[..k])
  }

  /**
   The two chains are hash-linked and agree up to the fork, a hash names one block, and both can be indexed
   from the fork on; no block of c above the fork spends what a block below it spends.
   */
  ghost predicate Setting(y: Way, cfg: Config) {
    && LinkedChain(y.c) && LinkedChain(y.d) && NamesBlocks(y.c, y.d) && HighestAgreement(y.c, y.d, y.f)
    && (forall k :: 0 <= k <= |y.c| && y.f + 1 < k ==> FreshCut(y.c, k))
    && Indexable(y.c, y.f + 1, cfg) && Indexable(y.d, y.f + 1, cfg)
    && y.d != [] && y.batchSize >= 1
  }

  /** Chains without negative issuance amounts can be cut anywhere. */
  lemma CleanIsIndexable(c: seq<Block>, cfg: Config)
    requires LinkedChain(c) && Clean(c, cfg) && Index(c, cfg).Some?
    ensures Indexable(c, 0, cfg)
  {
    ContinuesConsecutively(c, 0, "");
    forall k | 0 <= k <= |c|
      ensures CutIndexed(c, k, cfg)
    {
      assert c == c[..k] + c[k..];
      IndexRefold(c[..k], c[k..], cfg);
    }
  }

  /** Ordinary chains meet every demand: no negative issuance amount, and no outpoint spent by two blocks. */
  lemma OrdinarySetting(y: Way, cfg: Config)
    requires LinkedChain(y.c) && LinkedChain(y.d) && NamesBlocks(y.c, y.d) && HighestAgreement(y.c, y.d, y.f)
    requires Clean(y.c, cfg) && Clean(y.d, cfg) && Index(y.c, cfg).Some? && Index(y.d, cfg).Some? && NoRespend(y.c)
    requires y.d != [] && y.batchSize >= 1
    ensures Setting(y, cfg)
  {
    CleanIsIndexable(y.c, cfg);
    CleanIsIndexable(y.d, cfg);
    forall k | 0 <= k <= |y.c|
      ensures FreshCut(y.c, k)
    {
      NoRespendIsFresh(y.c, k);
    }
  }

  lemma AboveIsOffBranch(y: Way, k: nat)
    requires HighestAgreement(y.c, y.d, y.f) && y.f + 1 < k <= |y.c|
    ensures k - 1 >= |y.d| || y.c[k - 1].hash != y.d[k - 1].hash
  {
  }

  lemma LinkedCut(c: seq<Block>, k: nat)
    requires LinkedChain(c) && k <= |c|
    ensures LinkedChain(c[..k]) && Consecutive(c[..k], 0)
  {
    PrefixLinked(c, k);
    ContinuesConsecutively(c[..k], 0, "");
  }

  /** A fresh tip over an indexed cut can be rolled back. */
  lemma {:induction false} CutRollsBack(t: Tables, c: seq<Block>, k: nat, cfg: Config)
    requires LinkedChain(c) && 0 < k <= |c| && FreshCut(c, k) && CutIndexed(c, k - 1, cfg) && Holds(t, c[..k], cfg)
    ensures RollbackBlock(t, k - 1).Some? && Holds(RollbackBlock(t, k - 1).value, c[..k - 1], cfg)
  {
    assert c[..k] == c[..k - 1] + [c[k - 1]];
    LinkedCut(c, k);
    RollbackHolds(t, c[..k - 1], c[k - 1], cfg);
  }

  /** Above the fork the tip can be rolled back. */
  lemma RollsDown(t: Tables, y: Way, cfg: Config, k: nat)
    requires Setting(y, cfg) && y.f + 1 < k <= |y.c| && Holds(t, y.c[..k], cfg)
    ensures RollbackBlock(t, k - 1).Some? && Holds(RollbackBlock(t, k - 1).value, y.c[..k - 1], cfg)
  {
    assert FreshCut(y.c, k) && CutIndexed(y.c, k - 1, cfg);
    CutRollsBack(t, y.c, k, cfg);
  }

  /** On the branch the next stretch can be applied. */
  lemma StretchApplies(t: Tables, d: seq<Block>, k: nat, g: nat, bs: seq<Block>, cfg: Config) returns (u: Tables)
    requires LinkedChain(d) && k < g <= |d| && bs == d[k..g] && CutIndexed(d, g, cfg) && Holds(t, d[..k], cfg)
    ensures ApplyBlocks(t, bs, cfg) == Some(u) && Holds(u, d[..g], cfg)
  {
    assert d[..g] == d[..k] + bs;
    LinkedCut(d, g);
    if k == 0 {
      assert bs == d[..g];
      ApplyToEmptied(t, bs, cfg);
    } else {
      IndexOnTop(d[..k], bs, cfg);
    }
    u := ApplyBlocks(t, bs, cfg).value;
    ApplyHolds(t, d[..k], bs, cfg);
  }

  // ----- one step of the way

  /** The process stands at p with the right policy asset. */
  ghost predicate At(m: Machine, p: Position, y: Way, cfg: Config) {
    OnWay(p, y) && Knows(m, cfg) && Holds(m.t, ChainAt(p, y), cfg)
  }

  /** A step fails where it stands, or is the move of its place. */
  ghost predicate Proceeds(m: Machine, m': Machine, outcome: Outcome, p: Position, y: Way, cfg: Config)
    requires OnWay(p, y) && y.batchSize >= 1
  {
    if outcome == Failed then At(m', p, y, cfg) && m'.t == m.t
    else
      && outcome == MoveAt(p, y) && At(m', Onward(p, y), y, cfg)
      && m'.cfg == cfg && (outcome == Unchanged ==> m'.t == m.t)
  }

  lemma CursorOnWay(t: Tables, d: seq<Block>, k: nat, cfg: Config)
    requires LinkedChain(d) && k <= |d| && Holds(t, d[..k], cfg)
    ensures CursorOf(t) == CursorBelow(d, k)
  {
    PrefixLinked(d, k);
    HeldCursor(t, d[..k], cfg);
  }

  /** The tables a committed action leaves. */
  ghost predicate Commits(t: Tables, a: Action, cfg: Config, t': Tables) {
    match a
    case Rollback(h) => RollbackBlock(t, h) == Some(t')
    case Apply(bs) => bs != [] && ApplyBlocks(t, bs, cfg) == Some(t')
    case _ => t' == t
  }

  ghost function OutcomeOf(a: Action): Outcome {
    match a
    case Fail => Failed
    case Idle => Unchanged
    case Rollback(_) => RolledBack
    case Apply(_) => Applied
  }

  /** A step whose plan is a or nothing, where carrying out a would lead to t. */
  lemma PlannedStep(m: Machine, w: World, batchSize: int, d: seq<Block>, cfg: Config, a: Action, t: Tables)
    requires Knows(m, cfg) && Honest(w, d, cfg.policyAsset) && Commits(m.t, a, cfg, t)
    requires var plan := Plan(CursorOf(m.t), TipOf(d), w, batchSize); plan == Action.Fail || plan == a
    ensures var (m', outcome) := Step(m, w, batchSize);
            && Knows(m', cfg)
            && (if outcome == Failed then m'.t == m.t else outcome == OutcomeOf(a) && m'.t == t && m'.cfg == cfg)
            && (Able(m, w, d, cfg) && a != Action.Fail && Plan(CursorOf(m.t), TipOf(d), w, batchSize) == a ==>
                  outcome != Failed)
  {
    StepFollowsPlan(m, w, batchSize, d, cfg);
    ExecuteOne(Looking(m, w, d), Plan(CursorOf(m.t), TipOf(d), w, batchSize), w);
  }

  lemma PlanDown(m: Machine, w: World, y: Way, cfg: Config, k: nat)
    requires LinkedChain(y.c) && HighestAgreement(y.c, y.d, y.f)
    requires Honest(w, y.d, cfg.policyAsset) && At(m, Above(k), y, cfg)
    ensures var plan := Plan(CursorOf(m.t), TipOf(y.d), w, y.batchSize);
            && (plan == Action.Fail || plan == Action.Rollback(k - 1))
            && (Serves(w, y.d, cfg.policyAsset) ==> plan == Action.Rollback(k - 1))
  {
    CursorOnWay(m.t, y.c, k, cfg);
    AboveIsOffBranch(y, k);
    PlanOnFork(w, y.d, CursorBelow(y.c, k), y.batchSize, cfg.policyAsset);
  }

  /** What the step to t, or the failed step, means on the way. */
  lemma Arrives(m: Machine, m': Machine, outcome: Outcome, p: Position, y: Way, cfg: Config, t: Tables)
    requires At(m, p, y, cfg) && y.batchSize >= 1 && MoveAt(p, y) != Failed && Knows(m', cfg)
    requires OnWay(Onward(p, y), y) && Holds(t, ChainAt(Onward(p, y), y), cfg)
    requires if outcome == Failed then m'.t == m.t else outcome == MoveAt(p, y) && m'.t == t && m'.cfg == cfg
    requires outcome == Unchanged ==> t == m.t
    ensures Proceeds(m, m', outcome, p, y, cfg)
  {
  }

  lemma DownTo(t: Tables, y: Way, cfg: Config, k: nat) returns (u: Tables)
    requires Setting(y, cfg) && OnWay(Above(k), y) && Holds(t, y.c[..k], cfg)
    ensures Commits(t, Action.Rollback(k - 1), cfg, u)
    ensures var p := Onward(Above(k), y); OnWay(p, y) && Holds(u, ChainAt(p, y), cfg)
  {
    RollsDown(t, y, cfg, k);
    DownIsBelow(y, cfg, k);
    u := RollbackBlock(t, k - 1).value;
  }

  lemma MovesDown(m: Machine, w: World, y: Way, cfg: Config, k: nat)
    requires Setting(y, cfg) && Honest(w, y.d, cfg.policyAsset) && At(m, Above(k), y, cfg)
    ensures var (m', outcome) := Step(m, w, y.batchSize);
            && Proceeds(m, m', outcome, Above(k), y, cfg)
            && (Able(m, w, y.d, cfg) ==> outcome != Failed)
  {
    PlanDown(m, w, y, cfg, k);
    var t := DownTo(m.t, y, cfg, k);
    PlannedStep(m, w, y.batchSize, y.d, cfg, Action.Rollback(k - 1), t);
    var (m', outcome) := Step(m, w, y.batchSize);
    Arrives(m, m', outcome, Above(k), y, cfg, t);
  }

  /** At the fork both chains are the same. */
  lemma DownIsBelow(y: Way, cfg: Config, k: nat)
    requires Setting(y, cfg) && y.f + 1 < k <= |y.c|
    ensures var p := Onward(Above(k), y); OnWay(p, y) && ChainAt(p, y) == y.c[..k - 1]
  {
    if k - 1 == y.f + 1 { ForkPoint(y.c, y.d, y.f); }
  }

  lemma PlanUp(m: Machine, w: World, y: Way, cfg: Config, k: nat)
    requires Setting(y, cfg) && Honest(w, y.d, cfg.policyAsset) && At(m, On(k), y, cfg) && k < |y.d|
    ensures var plan, a := Plan(CursorOf(m.t), TipOf(y.d), w, y.batchSize), Action.Apply(Stretch(y.d, k, y.batchSize));
            && (plan == Action.Fail || plan == a)
            && (Serves(w, y.d, cfg.policyAsset) ==> plan == a)
  {
    CursorOnWay(m.t, y.d, k, cfg);
    PlanBehind(w, y.d, k, y.batchSize, cfg.policyAsset);
  }

  lemma UpIsHigher(y: Way, cfg: Config, k: nat, g: nat)
    requires Indexable(y.d, y.f + 1, cfg) && y.batchSize >= 1
    requires OnWay(On(k), y) && k < |y.d| && g == Min(k + y.batchSize, |y.d|)
    ensures CutIndexed(y.d, g, cfg) && Onward(On(k), y) == On(g) && OnWay(On(g), y)
    ensures Stretch(y.d, k, y.batchSize) == y.d[k..g]
  {
  }

  lemma MovesUp(m: Machine, w: World, y: Way, cfg: Config, k: nat)
    requires Setting(y, cfg) && Honest(w, y.d, cfg.policyAsset) && At(m, On(k), y, cfg) && k < |y.d|
    ensures var (m', outcome) := Step(m, w, y.batchSize);
            && Proceeds(m, m', outcome, On(k), y, cfg)
            && (Able(m, w, y.d, cfg) ==> outcome != Failed)
  {
    PlanUp(m, w, y, cfg, k);
    var g, bs := Min(k + y.batchSize, |y.d|), Stretch(y.d, k, y.batchSize);
    UpIsHigher(y, cfg, k, g);
    var t := StretchApplies(m.t, y.d, k, g, bs, cfg);
    PlannedStep(m, w, y.batchSize, y.d, cfg, Action.Apply(bs), t);
    var (m', outcome) := Step(m, w, y.batchSize);
    Arrives(m, m', outcome, On(k), y, cfg, t);
  }

  lemma StaysAtTip(m: Machine, w: World, y: Way, cfg: Config)
    requires Setting(y, cfg) && Honest(w, y.d, cfg.policyAsset) && At(m, On(|y.d|), y, cfg)
    ensures var (m', outcome) := Step(m, w, y.batchSize);
            && Proceeds(m, m', outcome, On(|y.d|), y, cfg)
            && (Able(m, w, y.d, cfg) ==> outcome != Failed)
  {
    CursorOnWay(m.t, y.d, |y.d|, cfg);
    PlanAtTip(w, y.d, y.batchSize, cfg.policyAsset);
    PlannedStep(m, w, y.batchSize, y.d, cfg, Action.Idle, m.t);
  }

  /** Every step fails where it stands or makes the move of its place; it fails only if something stands in its way. */
  lemma StepProceeds(m: Machine, w: World, p: Position, y: Way, cfg: Config)
    requires Setting(y, cfg) && Honest(w, y.d, cfg.policyAsset) && At(m, p, y, cfg)
    ensures Proceeds(m, Step(m, w, y.batchSize).0, Step(m, w, y.batchSize).1, p, y, cfg)
    ensures Able(m, w, y.d, cfg) ==> Step(m, w, y.batchSize).1 != Failed
  {
    if p.Above? {
      MovesDown(m, w, y, cfg, p.k);
    } else if p.k < |y.d| {
      MovesUp(m, w, y, cfg, p.k);
    } else {
      StaysAtTip(m, w, y, cfg);
    }
  }

  /** How many batches lead from k blocks to n. */
  ghost function BatchCount(k: nat, n: nat, batchSize: int): nat
    requires batchSize >= 1
    decreases n - k
  {
    if k >= n then 0 else 1 + BatchCount(k + batchSize, n, batchSize)
  }

  lemma {:induction false} BatchCountIsCeiling(k: nat, n: nat, batchSize: int)
    requires batchSize >= 1 && k <= n + batchSize - 1
    ensures BatchCount(k, n, batchSize) == (n - k + batchSize - 1) / batchSize
    decreases n - k
  {
    if k >= n {
      Subsidy.QuotientUnique(n - k + batchSize - 1, batchSize, 0, n - k + batchSize - 1);
    } else {
      BatchCountIsCeiling(k + batchSize, n, batchSize);
      OneMoreBatch(n - k - 1, batchSize);
    }
  }

  lemma OneMoreBatch(x: int, d: int)
    requires d >= 1
    ensures (x + d) / d == x / d + 1
  {
    assert (x / d + 1) * d == (x / d) * d + d;
    Subsidy.QuotientUnique(x + d, d, x / d + 1, x % d);
  }

  // ----- runs

  /** What a happening achieves; a restart achieves nothing. */
  ghost function Achieved(m: Machine, e: Happening, batchSize: int): Outcome {
    match e
    case Stepped(w) => Step(m, w, batchSize).1
    case Restart(_, _, _) => Failed
  }

  /** The happening e leads from m to m' and achieves o. */
  ghost predicate Leads(m: Machine, e: Happening, m': Machine, o: Outcome, batchSize: int) {
    m' == Next(m, e, batchSize) && o == Achieved(m, e, batchSize)
  }

  /** ms is what the happenings es lead to from ms(0), steps and restarts in any order; os is what they achieve. */
  ghost predicate IsRun(ms: nat -> Machine, es: nat -> Happening, os: nat -> Outcome, batchSize: int) {
    forall i: nat {:trigger es(i)} :: Leads(ms(i), es(i), ms(i + 1), os(i), batchSize)
  }

  ghost predicate HonestEvent(e: Happening, d: seq<Block>, asset: string) {
    match e
    case Stepped(w) => Honest(w, d, asset)
    case Restart(configured, _, _) => Names(configured, asset)
  }

  /** Every node follows d; what restarts configure is the policy asset or nothing. */
  ghost predicate AllHonest(es: nat -> Happening, d: seq<Block>, asset: string) {
    forall i: nat {:trigger es(i)} :: HonestEvent(es(i), d, asset)
  }

  /** How many of the first i happenings succeeded. */
  ghost function Moves(os: nat -> Outcome, i: nat): nat {
    if i == 0 then 0 else Moves(os, i - 1) + if os(i - 1) == Failed then 0 else 1
  }

  ghost predicate IsWay(y: Way) {
    -1 <= y.f < |y.c| && y.f < |y.d| && y.batchSize >= 1
  }

  /** The place after n successful steps. */
  ghost function PositionAt(y: Way, n: nat): (p: Position)
    requires IsWay(y)
    ensures OnWay(p, y)
  {
    if n == 0 then Start(y) else Onward(PositionAt(y, n - 1), y)
  }

  lemma EventProceeds(m: Machine, e: Happening, m': Machine, o: Outcome, p: Position, y: Way, cfg: Config)
    requires Setting(y, cfg) && HonestEvent(e, y.d, cfg.policyAsset) && At(m, p, y, cfg)
    requires Leads(m, e, m', o, y.batchSize)
    ensures Proceeds(m, m', o, p, y, cfg)
    ensures AbleStep(m, e, y.d, cfg) ==> o != Failed
  {
    match e
    case Stepped(w) => StepProceeds(m, w, p, y, cfg);
    case Restart(configured, cursorRead, assetRead) => RestartKnows(m, configured, cursorRead, assetRead, cfg);
  }

  /** A step that nothing stands in the way of. */
  ghost predicate AbleStep(m: Machine, e: Happening, d: seq<Block>, cfg: Config) {
    e.Stepped? && Able(m, e.world, d, cfg)
  }

  /** What a run against followers of d has fixed. */
  ghost predicate Following(ms: nat -> Machine, es: nat -> Happening, os: nat -> Outcome, y: Way, cfg: Config) {
    && Setting(y, cfg) && IsRun(ms, es, os, y.batchSize) && AllHonest(es, y.d, cfg.policyAsset)
    && Knows(ms(0), cfg) && Holds(ms(0).t, y.c, cfg)
  }

  lemma StartIsWhole(y: Way)
    requires LinkedChain(y.c) && LinkedChain(y.d) && NamesBlocks(y.c, y.d) && HighestAgreement(y.c, y.d, y.f)
    ensures OnWay(Start(y), y) && ChainAt(Start(y), y) == y.c
  {
    assert y.c[..|y.c|] == y.c;
    if |y.c| == y.f + 1 { ForkPoint(y.c, y.d, y.f); }
  }

  lemma StartsAt(m: Machine, y: Way, cfg: Config)
    requires Setting(y, cfg) && Knows(m, cfg) && Holds(m.t, y.c, cfg)
    ensures At(m, Start(y), y, cfg)
  {
    StartIsWhole(y);
  }

  /** After any number of happenings the index stands where the successful steps have led it. */
  lemma RunIsAt(ms: nat -> Machine, es: nat -> Happening, os: nat -> Outcome, y: Way, cfg: Config, i: nat)
    returns (p: Position)
    requires Following(ms, es, os, y, cfg)
    ensures p == PositionAt(y, Moves(os, i)) && At(ms(i), p, y, cfg)
  {
    p := Start(y);
    StartsAt(ms(0), y, cfg);
    for j := 0 to i
      invariant p == PositionAt(y, Moves(os, j)) && At(ms(j), p, y, cfg)
    {
      var q := p;
      p := PositionAfter(os(j), q, y);
      NextPosition(os, y, j);
      NextStands(ms, es, os, y, cfg, j, q);
    }
  }

  /** A happening that fails leaves the index where it stands, every other leads it on. */
  ghost function PositionAfter(o: Outcome, p: Position, y: Way): Position
    requires OnWay(p, y) && y.batchSize >= 1
  {
    if o == Failed then p else Onward(p, y)
  }

  lemma NextPosition(os: nat -> Outcome, y: Way, i: nat)
    requires IsWay(y)
    ensures PositionAt(y, Moves(os, i + 1)) == PositionAfter(os(i), PositionAt(y, Moves(os, i)), y)
  {
  }

  lemma NextStands(ms: nat -> Machine, es: nat -> Happening, os: nat -> Outcome, y: Way, cfg: Config, i: nat,
                   p: Position)
    requires Following(ms, es, os, y, cfg) && At(ms(i), p, y, cfg)
    ensures At(ms(i + 1), PositionAfter(os(i), p, y), y, cfg)
  {
    RunGoesOn(ms, es, os, y, cfg, i, p);
    StandsAfter(os(i), ms(i), ms(i + 1), p, y, cfg);
  }

  lemma StandsAfter(o: Outcome, m: Machine, m': Machine, p: Position, y: Way, cfg: Config)
    requires OnWay(p, y) && y.batchSize >= 1 && Proceeds(m, m', o, p, y, cfg)
    ensures At(m', PositionAfter(o, p, y), y, cfg)
  {
  }

  lemma RunGoesOn(ms: nat -> Machine, es: nat -> Happening, os: nat -> Outcome, y: Way, cfg: Config, i: nat,
                  p: Position)
    requires Following(ms, es, os, y, cfg) && At(ms(i), p, y, cfg)
    ensures Proceeds(ms(i), ms(i + 1), os(i), p, y, cfg)
    ensures AbleStep(ms(i), es(i), y.d, cfg) ==> os(i) != Failed
  {
    assert HonestEvent(es(i), y.d, cfg.policyAsset) && Leads(ms(i), es(i), ms(i + 1), os(i), y.batchSize);
    EventProceeds(ms(i), es(i), ms(i + 1), os(i), p, y, cfg);
  }

  // ----- the places in numbers

  lemma {:induction false} DownPositions(y: Way, n: nat)
    requires IsWay(y) && n <= |y.c| - 1 - y.f
    ensures PositionAt(y, n) == Down(|y.c| - n, y)
    decreases n
  {
    if n > 0 { DownPositions(y, n - 1); }
  }

  /** The batches still to come from a place on d. */
  ghost function Remaining(p: Position, y: Way): nat
    requires IsWay(y)
  {
    if p.On? then BatchCount(p.k, |y.d|, y.batchSize) else 0
  }

  lemma OneBatchLess(k: nat, n: nat, batchSize: int)
    requires batchSize >= 1 && k < n
    ensures BatchCount(Min(k + batchSize, n), n, batchSize) == BatchCount(k, n, batchSize) - 1
  {
  }

  lemma {:induction false} UpPositions(y: Way, n: nat, r: nat)
    requires IsWay(y) && r == |y.c| - 1 - y.f && r <= n
    ensures var p, a := PositionAt(y, n), BatchCount(y.f + 1, |y.d|, y.batchSize);
            && p.On? && (p.k < |y.d| <==> n < r + a) && Remaining(p, y) == if n < r + a then r + a - n else 0
    decreases n - r
  {
    if n == r {
      DownPositions(y, n);
    } else {
      UpPositions(y, n - 1, r);
      var p := PositionAt(y, n - 1);
      if p.k < |y.d| { OneBatchLess(p.k, |y.d|, y.batchSize); }
    }
  }

  /** The move of the n-th successful step. */
  ghost function MoveNumber(n: nat, r: nat, a: nat): Outcome {
    if n < r then RolledBack else if n < r + a then Applied else Unchanged
  }

  lemma MoveInNumbers(y: Way, n: nat, r: nat)
    requires IsWay(y) && r == |y.c| - 1 - y.f
    ensures var a := BatchCount(y.f + 1, |y.d|, y.batchSize);
            && MoveAt(PositionAt(y, n), y) == MoveNumber(n, r, a)
            && (n >= r + a ==> PositionAt(y, n) == On(|y.d|))
  {
    if n < r { DownPositions(y, n); } else { UpPositions(y, n, r); }
  }

  // ----- convergence

  /** What the i-th happening achieves, and what the index holds before it. */
  ghost predicate Converging(ms: nat -> Machine, os: nat -> Outcome, y: Way, cfg: Config, r: nat, a: nat, i: nat) {
    var n := Moves(os, i);
    && (os(i) == Failed || os(i) == MoveNumber(n, r, a))
    && (os(i) == Failed || os(i) == Unchanged ==> ms(i + 1).t == ms(i).t)
    && (n >= r + a ==> Index(y.d, cfg) == Some(ms(i).t))
  }

  lemma StandingConverges(ms: nat -> Machine, os: nat -> Outcome, y: Way, cfg: Config, r: nat, a: nat, i: nat,
                          p: Position)
    requires OnWay(p, y) && y.batchSize >= 1 && y.d != []
    requires At(ms(i), p, y, cfg) && Proceeds(ms(i), ms(i + 1), os(i), p, y, cfg)
    requires MoveAt(p, y) == MoveNumber(Moves(os, i), r, a) && (Moves(os, i) >= r + a ==> p == On(|y.d|))
    ensures Converging(ms, os, y, cfg, r, a, i)
  {
    if p == On(|y.d|) { AtTipIsIndex(ms(i), y, cfg); }
  }

  /**
   Convergence. Against nodes that follow chain d, from an index of chain c whose highest agreeing height is f,
   whatever calls and writes fail and whenever the process is restarted: the steps that succeed are exactly
   cursor - f rollbacks, then exactly ceil((tip - f) / batchSize) batches (`BatchCountIsCeiling`), then idle
   steps on the index of d; all others change no table.
   */
  lemma Converges(ms: nat -> Machine, es: nat -> Happening, os: nat -> Outcome, y: Way, cfg: Config, i: nat)
    requires Following(ms, es, os, y, cfg)
    ensures Converging(ms, os, y, cfg, |y.c| - 1 - y.f, BatchCount(y.f + 1, |y.d|, y.batchSize), i)
  {
    var r: nat, a := |y.c| - 1 - y.f, BatchCount(y.f + 1, |y.d|, y.batchSize);
    var p := RunIsAt(ms, es, os, y, cfg, i);
    RunGoesOn(ms, es, os, y, cfg, i, p);
    MoveInNumbers(y, Moves(os, i), r);
    StandingConverges(ms, os, y, cfg, r, a, i, p);
  }

  lemma AtTipIsIndex(m: Machine, y: Way, cfg: Config)
    requires At(m, On(|y.d|), y, cfg) && y.d != []
    ensures Index(y.d, cfg) == Some(m.t)
  {
    assert y.d[..|y.d|] == y.d;
  }

  lemma AbleStepMoves(ms: nat -> Machine, es: nat -> Happening, os: nat -> Outcome, y: Way, cfg: Config, i: nat)
    requires Following(ms, es, os, y, cfg) && AbleStep(ms(i), es(i), y.d, cfg)
    ensures os(i) != Failed && ms(i + 1).cfg == cfg
  {
    var p := RunIsAt(ms, es, os, y, cfg, i);
    RunGoesOn(ms, es, os, y, cfg, i, p);
  }

  ghost predicate AllServed(es: nat -> Happening, d: seq<Block>, asset: string) {
    forall i: nat {:trigger es(i)} :: ServedStep(es(i), d, asset)
  }

  ghost predicate ServedStep(e: Happening, d: seq<Block>, asset: string) {
    e.Stepped? && Serves(e.world, d, asset)
  }

  ghost predicate MovesOnceReady(ms: nat -> Machine, os: nat -> Outcome, asset: string, i: nat) {
    Ready(ms(i), asset) ==> os(i) != Failed && Ready(ms(i + 1), asset)
  }

  lemma {:induction false} ReadyMovesAlways(ms: nat -> Machine, os: nat -> Outcome, asset: string, i: nat)
    requires Ready(ms(0), asset) && forall j: nat :: MovesOnceReady(ms, os, asset, j)
    ensures Moves(os, i) == i && Ready(ms(i), asset)
  {
    if i > 0 {
      ReadyMovesAlways(ms, os, asset, i - 1);
      assert MovesOnceReady(ms, os, asset, i - 1);
    }
  }

  /** When every step is served, the i-th step is the i-th move: convergence takes exactly as many steps. */
  lemma ServedStepsAllMove(ms: nat -> Machine, es: nat -> Happening, os: nat -> Outcome, y: Way, cfg: Config, i: nat)
    requires Following(ms, es, os, y, cfg) && AllServed(es, y.d, cfg.policyAsset)
    requires Ready(ms(0), cfg.policyAsset) && cfg.policyAsset != ""
    ensures Moves(os, i) == i
  {
    forall j: nat
      ensures MovesOnceReady(ms, os, cfg.policyAsset, j)
    {
      if Ready(ms(j), cfg.policyAsset) { ServedStepMoves(ms, es, os, y, cfg, j); }
    }
    ReadyMovesAlways(ms, os, cfg.policyAsset, i);
  }

  lemma ServedStepMoves(ms: nat -> Machine, es: nat -> Happening, os: nat -> Outcome, y: Way, cfg: Config, i: nat)
    requires Following(ms, es, os, y, cfg) && AllServed(es, y.d, cfg.policyAsset)
    requires Ready(ms(i), cfg.policyAsset) && cfg.policyAsset != ""
    ensures os(i) != Failed && Ready(ms(i + 1), cfg.policyAsset)
  {
    ServedIsAble(ms(i), es, y.d, cfg, i);
    AbleStepMoves(ms, es, os, y, cfg, i);
  }

  lemma ServedIsAble(m: Machine, es: nat -> Happening, d: seq<Block>, cfg: Config, i: nat)
    requires AllServed(es, d, cfg.policyAsset) && Ready(m, cfg.policyAsset)
    ensures AbleStep(m, es(i), d, cfg)
  {
    assert ServedStep(es(i), d, cfg.policyAsset);
  }

  ghost predicate AbleLater(ms: nat -> Machine, es: nat -> Happening, d: seq<Block>, cfg: Config, i: nat) {
    exists j: nat :: i <= j && AbleStep(ms(j), es(j), d, cfg)
  }

  /** Again and again there is a step that nothing stands in the way of. */
  ghost predicate Fair(ms: nat -> Machine, es: nat -> Happening, d: seq<Block>, cfg: Config) {
    forall i: nat :: AbleLater(ms, es, d, cfg, i)
  }

  lemma {:induction false} MovesGrow(os: nat -> Outcome, i: nat, j: nat)
    requires i <= j
    ensures Moves(os, i) <= Moves(os, j)
    decreases j - i
  {
    if i < j { MovesGrow(os, i, j - 1); }
  }

  ghost predicate MovesLater(os: nat -> Outcome, i: nat) {
    exists j: nat :: i <= j && os(j) != Failed
  }

  lemma {:induction false} MovesReach(os: nat -> Outcome, n: nat) returns (s: nat)
    requires forall i: nat :: MovesLater(os, i)
    ensures Moves(os, s) >= n
  {
    if n == 0 {
      s := 0;
    } else {
      var s0 := MovesReach(os, n - 1);
      assert MovesLater(os, s0);
      var j: nat :| s0 <= j && os(j) != Failed;
      MovesGrow(os, s0, j);
      s := j + 1;
    }
  }

  lemma LaterStep(ms: nat -> Machine, es: nat -> Happening, d: seq<Block>, cfg: Config, i: nat) returns (j: nat)
    requires AbleLater(ms, es, d, cfg, i)
    ensures i <= j && AbleStep(ms(j), es(j), d, cfg)
  {
    j :| i <= j && AbleStep(ms(j), es(j), d, cfg);
  }

  lemma {:induction false} FairMoves(ms: nat -> Machine, es: nat -> Happening, os: nat -> Outcome, y: Way, cfg: Config)
    requires Following(ms, es, os, y, cfg) && Fair(ms, es, y.d, cfg)
    ensures forall i: nat :: MovesLater(os, i)
  {
    forall i: nat
      ensures MovesLater(os, i)
    {
      assert AbleLater(ms, es, y.d, cfg, i);
      var j := LaterStep(ms, es, y.d, cfg, i);
      AbleStepMoves(ms, es, os, y, cfg, j);
    }
  }

  /** From a point on the index is the fresh index of d. */
  ghost predicate Settled(ms: nat -> Machine, d: seq<Block>, cfg: Config, s: nat) {
    forall i: nat :: s <= i ==> Index(d, cfg) == Some(ms(i).t)
  }

  /**
   However often calls and writes fail and processes restart: if steps go on being possible, the index
   settles on that of d.
   */
  lemma EventuallyConverges(ms: nat -> Machine, es: nat -> Happening, os: nat -> Outcome, y: Way, cfg: Config)
    returns (s: nat)
    requires Following(ms, es, os, y, cfg) && Fair(ms, es, y.d, cfg)
    ensures Settled(ms, y.d, cfg, s)
  {
    var r: nat, a := |y.c| - 1 - y.f, BatchCount(y.f + 1, |y.d|, y.batchSize);
    FairMoves(ms, es, os, y, cfg);
    s := MovesReach(os, r + a);
    forall i: nat | s <= i
      ensures Index(y.d, cfg) == Some(ms(i).t)
    {
      MovesGrow(os, s, i);
      Converges(ms, es, os, y, cfg, i);
    }
  }

  // ----- what is reported at the tip

  /** Once the index is that of d, the next served step reports synchronized exactly if the status names the cursor. */
  lemma ConvergedIsReported(m: Machine, w: World, batchSize: int, d: seq<Block>, cfg: Config)
    requires LinkedChain(d) && Knows(m, cfg) && Able(m, w, d, cfg) && Holds(m.t, d, cfg)
    ensures Step(m, w, batchSize).0.status.synchronized <==> NamesCursor(m)
  {
    assert d[..|d|] == d;
    CursorOnWay(m.t, d, |d|, cfg);
    PlanAtTip(w, d, batchSize, cfg.policyAsset);
    StepFollowsPlan(m, w, batchSize, d, cfg);
    ExecuteOne(Looking(m, w, d), Action.Idle, w);
  }

  lemma IdlesAtTip(m: Machine, w: World, batchSize: int, d: seq<Block>, cfg: Config)
    requires Safe(m) && Knows(m, cfg) && Honest(w, d, cfg.policyAsset) && LinkedChain(d) && Holds(m.t, d, cfg)
    ensures var m' := Step(m, w, batchSize).0;
            Safe(m') && Knows(m', cfg) && m'.t == m.t && (NamesCursor(m') <==> NamesCursor(m))
  {
    assert d[..|d|] == d;
    CursorOnWay(m.t, d, |d|, cfg);
    PlanAtTip(w, d, batchSize, cfg.policyAsset);
    StepFollowsPlan(m, w, batchSize, d, cfg);
    ExecuteOne(Looking(m, w, d), Action.Idle, w);
    ExecuteOne(Looking(m, w, d), Action.Fail, w);
    StepTracks(m, w, batchSize);
    NextSafe(m, Stepped(w), batchSize);
  }

  ghost predicate HonestSteps(es: seq<Happening>, d: seq<Block>, asset: string) {
    forall i :: 0 <= i < |es| ==> es[i].Stepped? && HonestEvent(es[i], d, asset)
  }

  /** At the tip a status that does not name the cursor never comes to name it, so it never reports synchronized. */
  lemma {:induction false} UnnamedStaysSilent(m: Machine, es: seq<Happening>, batchSize: int, d: seq<Block>,
                                              cfg: Config)
    requires Safe(m) && Knows(m, cfg) && LinkedChain(d) && Holds(m.t, d, cfg) && HonestSteps(es, d, cfg.policyAsset)
    requires !NamesCursor(m)
    ensures var m' := Trace(m, es, batchSize);
            m'.t == m.t && !NamesCursor(m') && !m'.status.synchronized
    decreases |es|
  {
    if es == [] {
      SynchronizedIsSound(m);
    } else {
      assert HonestEvent(es[0], d, cfg.policyAsset);
      IdlesAtTip(m, es[0].world, batchSize, d, cfg);
      UnnamedStaysSilent(Next(m, es[0], batchSize), es[1..], batchSize, d, cfg);
    }
  }

  /**
   The failing run: a process that already holds the chain of the node, restarted while the cursor cannot be
   read, never reports synchronized, however many steps follow and however well they are served.
   */
  lemma UnreadableRestartIsSilent(m: Machine, configured: string, assetRead: bool, es: seq<Happening>, batchSize: int,
                                  d: seq<Block>, cfg: Config)
    requires Safe(m) && Knows(m, cfg) && Names(configured, cfg.policyAsset)
    requires LinkedChain(d) && d != [] && Holds(m.t, d, cfg) && HonestSteps(es, d, cfg.policyAsset)
    ensures var m' := Trace(m, [Restart(configured, false, assetRead)] + es, batchSize);
            m'.t == m.t && !m'.status.synchronized
  {
    var restart := Restart(configured, false, assetRead);
    HeldCursor(m.t, d, cfg);
    RestartNames(m, configured, false, assetRead);
    RestartKnows(m, configured, false, assetRead, cfg);
    NextSafe(m, restart, batchSize);
    UnnamedStaysSilent(Next(m, restart, batchSize), es, batchSize, d, cfg);
    assert ([restart] + es)[1..] == es;
  }

  // ----- such a node exists

  function Lookup(d: seq<Block>, hash: string): (r: Option<Block>)
    ensures r.Some? ==> r.value in d && r.value.hash == hash
    ensures r.None? ==> forall b :: b in d ==> b.hash != hash
  {
    if d == [] then None else if d[0].hash == hash then Some(d[0]) else Lookup(d[1..], hash)
  }

  function HashesAt(d: seq<Block>, heights: seq<int>): Option<seq<string>>
    decreases |heights|
  {
    if heights == [] then Some([])
    else if heights[0] < 0 || |d| <= heights[0] then None
    else
      match HashesAt(d, heights[1..])
      case None => None
      case Some(rest) => Some([d[heights[0]].hash] + rest)
  }

  function BlocksNamed(d: seq<Block>, hashes: seq<string>): Option<seq<Block>>
    decreases |hashes|
  {
    if hashes == [] then Some([])
    else
      var b := Lookup(d, hashes[0]);
      if b.None? then None
      else
        match BlocksNamed(d, hashes[1..])
        case None => None
        case Some(rest) => Some([b.value] + rest)
  }

  /** A node that looks every answer up in d, fails outside it, and knows its policy asset. */
  function NodeOf(d: seq<Block>, asset: string): World
    requires d != []
  {
    World(
      Some(asset),
      Some(ChainInfo(|d| - 1, d[|d| - 1].hash)),
      h => if 0 <= h < |d| then Some(d[h].hash) else None,
      (hs: seq<int>) => HashesAt(d, hs),
      (hashes: seq<string>) => BlocksNamed(d, hashes),
      true, true, true, true)
  }

  lemma LookupFinds(d: seq<Block>, k: nat)
    requires NamesBlocks(d, d) && k < |d|
    ensures Lookup(d, d[k].hash) == Some(d[k])
  {
    var r := Lookup(d, d[k].hash);
    assert d[k] in d;
    var j :| 0 <= j < |d| && d[j] == r.value;
    assert SameWhenSameHash(d[j], d[k]);
  }

  lemma NodeAnswersRange(d: seq<Block>, asset: string, i: nat, j: nat)
    requires LinkedChain(d) && NamesBlocks(d, d) && i <= j < |d|
    ensures HonestRange(NodeOf(d, asset), d, i, j) && AnswersRange(NodeOf(d, asset), d, i, j)
  {
    var bs := d[i..j + 1];
    NodeAnswersHeights(d, i, j);
    NodeAnswersHashes(d, bs);
    HeightsLength(i, j);
    assert forall k :: 0 <= k < |bs| ==> IsHash(bs[k].hash);
  }

  lemma NodeOfServes(d: seq<Block>, asset: string)
    requires LinkedChain(d) && d != [] && NamesBlocks(d, d)
    ensures Serves(NodeOf(d, asset), d, asset)
  {
    forall i, j | 0 <= i <= j < |d|
      ensures HonestRange(NodeOf(d, asset), d, i, j) && AnswersRange(NodeOf(d, asset), d, i, j)
    {
      NodeAnswersRange(d, asset, i, j);
    }
  }

  lemma HashesCons(bs: seq<Block>)
    requires bs != []
    ensures HashesOf(bs) == [bs[0].hash] + HashesOf(bs[1..])
  {
  }

  lemma {:induction false} NodeAnswersHeights(d: seq<Block>, i: nat, j: nat)
    requires i <= j + 1 <= |d|
    ensures HashesAt(d, Heights(i, j)) == Some(HashesOf(d[i..j + 1]))
    decreases j + 1 - i
  {
    var bs := d[i..j + 1];
    if i <= j {
      NodeAnswersHeights(d, i + 1, j);
      HashesCons(bs);
      assert bs[1..] == d[i + 1..j + 1];
      assert Heights(i, j)[1..] == Heights(i + 1, j);
    } else {
      assert HashesOf(bs) == [];
    }
  }

  lemma {:induction false} NodeAnswersHashes(d: seq<Block>, bs: seq<Block>)
    requires NamesBlocks(d, d) && forall b :: b in bs ==> b in d
    ensures BlocksNamed(d, HashesOf(bs)) == Some(bs)
    decreases |bs|
  {
    if bs == [] {
      assert HashesOf(bs) == [];
    } else {
      assert bs[0] in bs;
      var i :| 0 <= i < |d| && d[i] == bs[0];
      LookupFinds(d, i);
      NodeAnswersHashes(d, bs[1..]);
      HashesCons(bs);
      assert HashesOf(bs)[1..] == HashesOf(bs[1..]);
      assert bs == [bs[0]] + bs[1..];
    }
  }
}
