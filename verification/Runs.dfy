/**
 Whole runs of the indexer, steps and restarts: the tables always are the fresh index of the
 hash-linked chain they were built from, and what "synchronized" says about that chain when a
 hash names one block.
 */
module Runs {
  import opened Common
  import opened ChainModel
  import opened Tables
  import opened Invariants
  import opened Batches
  import opened History
  import opened Indexer
  import opened IndexerSafety

  // ----- hash-linked chains

  ghost predicate LinkedChain(c: seq<Block>) {
    Continues(c, 0, "")
  }

  ghost predicate SameWhenSameHash(a: Block, b: Block) {
    a.hash == b.hash ==> a == b
  }

  /** A hash names one block, its previous hash included. */
  ghost predicate NamesBlocks(c: seq<Block>, d: seq<Block>) {
    forall i, j :: 0 <= i < |c| && 0 <= j < |d| ==> SameWhenSameHash(c[i], d[j])
  }

  /** Two linked chains that agree on one hash agree below it. */
  lemma {:induction false} AgreeBelow(c: seq<Block>, d: seq<Block>, f: nat)
    requires LinkedChain(c) && LinkedChain(d) && NamesBlocks(c, d)
    requires f < |c| && f < |d| && c[f].hash == d[f].hash
    ensures c[..f + 1] == d[..f + 1]
    decreases f
  {
    assert SameWhenSameHash(c[f], d[f]);
    if f > 0 {
      assert LinksBack(c, f) && LinksBack(d, f);
      AgreeBelow(c, d, f - 1);
    }
    assert c[..f + 1] == c[..f] + [c[f]] && d[..f + 1] == d[..f] + [d[f]];
  }

  /** The tip hash names the whole chain. */
  lemma TipNamesChain(c: seq<Block>, d: seq<Block>)
    requires LinkedChain(c) && LinkedChain(d) && NamesBlocks(c, d) && c != [] && d != []
    requires c[|c| - 1].hash == d[|d| - 1].hash
    ensures c == d
  {
    assert SameWhenSameHash(c[|c| - 1], d[|d| - 1]);
    assert |c| - 1 == c[|c| - 1].height == d[|d| - 1].height == |d| - 1;
    AgreeBelow(c, d, |c| - 1);
    assert c[..|c|] == c && d[..|d|] == d;
  }

  /** The cursor of an index that holds c names the last block of c. */
  lemma HeldCursor(t: Tables, c: seq<Block>, cfg: Config)
    requires Holds(t, c, cfg) && LinkedChain(c)
    ensures CursorOf(t) == if c == [] then Cursor(-1, "") else Cursor(|c| - 1, c[|c| - 1].hash)
    ensures ChainShape(t) && Count(t) == |c|
  {
    ContinuesConsecutively(c, 0, "");
    HoldsWellFormed(t, c, cfg);
    CountOfWellFormed(t, |c|);
    if c != [] {
      IndexWellFormed(c, cfg);
      assert t.blocks[|c| - 1] == StoredRow(c[|c| - 1], cfg);
      LinkedAfter(map[], c, cfg, 0, t.blocks);
    }
  }

  /** A synchronized status over an index that holds a linked chain names the whole of that chain. */
  lemma SynchronizedNamesChain(m: Machine, c: seq<Block>, d: seq<Block>, cfg: Config)
    requires Safe(m) && Holds(m.t, c, cfg) && LinkedChain(c)
    requires LinkedChain(d) && d != [] && NamesBlocks(c, d)
    requires d[|d| - 1].hash == m.status.chainBest
    requires m.status.synchronized
    ensures c == d && Index(d, cfg) == Some(m.t) && m.status.lag == 0
  {
    SynchronizedIsSound(m);
    HeldCursor(m.t, c, cfg);
    TipNamesChain(c, d);
  }

  // ----- the policy asset

  /** x is the asset, or not known yet. */
  predicate Names(x: string, asset: string) {
    x == "" || x == asset
  }

  /** The configuration is cfg, up to a policy asset that is still to be learnt. */
  ghost predicate Configured(m: Machine, cfg: Config) {
    m.cfg.(policyAsset := cfg.policyAsset) == cfg && Names(m.cfg.policyAsset, cfg.policyAsset)
  }

  /** And so is the saved policy asset. */
  ghost predicate Knows(m: Machine, cfg: Config) {
    Configured(m, cfg) && Names(m.savedPolicy, cfg.policyAsset)
  }

  /** A plausible answer about the policy asset is the asset of the network. */
  ghost predicate Announces(w: World, asset: string) {
    w.sidechainInfo.Some? && IsHash(w.sidechainInfo.value) ==> w.sidechainInfo.value == asset
  }

  /** Whether or not the asset could be learnt and saved, it is the right one, and nothing else changed. */
  lemma ResolveKnows(m: Machine, w: World, cfg: Config)
    requires Knows(m, cfg) && Announces(w, cfg.policyAsset)
    ensures var (m', resolved) := Resolve(m, w);
            && Knows(m', cfg) && m'.t == m.t && (resolved ==> m'.cfg == cfg)
  {
  }

  // ----- indexer steps are store events

  ghost function ActionEvent(a: Action, w: World): Event {
    match a
    case Rollback(h) => RollbackTip(w.commits)
    case Apply(bs) => Event.Apply(bs, w.commits)
    case _ => Crash
  }

  /** What a step asks of the store; nothing when it fails before, or idles. */
  ghost function EventOf(m: Machine, w: World, batchSize: int): Event {
    var (m1, resolved) := Resolve(m, w);
    if !resolved || AskChainInfo(w).None? || !w.readable then Crash
    else ActionEvent(Plan(CursorOf(m.t), AskChainInfo(w).value, w, batchSize), w)
  }

  /** Carrying out a safe action is a store event. */
  lemma ExecuteIsEvent(m: Machine, a: Action, w: World, c: seq<Block>)
    requires a.Rollback? ==> a.height == CursorOf(m.t).height && c != []
    requires a.Apply? ==> a.batch != []
    ensures Execute(m, a, w).0.t == After(Database(m.t, c), ActionEvent(a, w), m.cfg).t
    ensures Execute(m, a, w).0.cfg == m.cfg && Execute(m, a, w).0.savedPolicy == m.savedPolicy
  {
  }

  lemma EventKeepsLinks(t: Tables, c: seq<Block>, e: Event, cfg: Config)
    requires LinkedChain(c)
    requires e.Apply? ==> Continues(e.blocks, |c|, if c == [] then "" else c[|c| - 1].hash)
    ensures LinkedChain(After(Database(t, c), e, cfg).chain)
  {
    match e
    case Apply(bs, _) => ExtensionLinked(c, bs);
    case RollbackTip(_) => if c != [] { PrefixLinked(c, |c| - 1); }
    case Crash =>
  }

  /** An action planned from the cursor of a held chain is a store event that keeps the chain linked. */
  lemma PlannedIsEvent(m: Machine, info: ChainInfo, w: World, batchSize: int, c: seq<Block>)
    requires Holds(m.t, c, m.cfg) && LinkedChain(c)
    ensures var a := Plan(CursorOf(m.t), info, w, batchSize);
            var m', d' := Execute(m, a, w).0, After(Database(m.t, c), ActionEvent(a, w), m.cfg);
            && m'.t == d'.t && m'.cfg == m.cfg && m'.savedPolicy == m.savedPolicy && LinkedChain(d'.chain)
            && (a.Apply? ==> Consecutive(a.batch, |c|))
  {
    HeldCursor(m.t, c, m.cfg);
    var a := Plan(CursorOf(m.t), info, w, batchSize);
    PlanIsSafe(CursorOf(m.t), info, w, batchSize);
    ExecuteIsEvent(m, a, w, c);
    EventKeepsLinks(m.t, c, ActionEvent(a, w), m.cfg);
    if a.Apply? { ContinuesConsecutively(a.batch, |c|, CursorOf(m.t).hash); }
  }

  /** What a step does to the tables is a store event, whether the asset was known, was learnt, or stays unknown. */
  lemma StepIsStoreEvent(m: Machine, w: World, batchSize: int, c: seq<Block>, cfg: Config)
    requires Knows(m, cfg) && Announces(w, cfg.policyAsset) && Holds(m.t, c, cfg) && LinkedChain(c)
    ensures var m', d' := Step(m, w, batchSize).0, After(Database(m.t, c), EventOf(m, w, batchSize), cfg);
            && m'.t == d'.t && Knows(m', cfg) && LinkedChain(d'.chain)
            && (EventOf(m, w, batchSize).Apply? ==> Consecutive(EventOf(m, w, batchSize).blocks, |c|))
  {
    ResolveKnows(m, w, cfg);
    var (m1, resolved) := Resolve(m, w);
    if resolved && AskChainInfo(w).Some? && w.readable {
      var info := AskChainInfo(w).value;
      PlannedIsEvent(Observe(m1, info), info, w, batchSize, c);
    }
  }

  lemma PrefixLinked(c: seq<Block>, k: nat)
    requires LinkedChain(c) && k <= |c|
    ensures LinkedChain(c[..k])
  {
    forall i | 1 <= i < k ensures LinksBack(c[..k], i) { assert LinksBack(c, i); }
  }

  lemma ExtensionLinked(c: seq<Block>, bs: seq<Block>)
    requires LinkedChain(c) && Continues(bs, |c|, if c == [] then "" else c[|c| - 1].hash)
    ensures LinkedChain(c + bs)
  {
    forall i | 1 <= i < |c + bs| ensures LinksBack(c + bs, i) {
      if i < |c| { assert LinksBack(c, i); }
      if i > |c| { assert LinksBack(bs, i - |c|); }
    }
  }

  /** The chain behind the index after a run. */
  ghost function ChainTrace(m: Machine, c: seq<Block>, es: seq<Happening>, batchSize: int, cfg: Config): seq<Block>
    decreases |es|
  {
    if es == [] then c
    else
      var c' :=
        if es[0].Stepped? then After(Database(m.t, c), EventOf(m, es[0].world, batchSize), cfg).chain else c;
      ChainTrace(Next(m, es[0], batchSize), c', es[1..], batchSize, cfg)
  }

  /**
   Every block the run rolls back spent nothing that an earlier block of its chain spends; nodes and restarts
   that name a policy asset name the one of cfg. A restart may leave it open, and a node may leave it unanswered.
   */
  ghost predicate AdmissibleTrace(m: Machine, c: seq<Block>, es: seq<Happening>, batchSize: int, cfg: Config)
    decreases |es|
  {
    es != [] ==>
      match es[0]
      case Restart(configured, _, _) =>
        && Names(configured, cfg.policyAsset)
        && AdmissibleTrace(Next(m, es[0], batchSize), c, es[1..], batchSize, cfg)
      case Stepped(w) =>
        var e := EventOf(m, w, batchSize);
        && Announces(w, cfg.policyAsset)
        && (Undoes(Database(m.t, c), e, cfg) ==> FreshTip(c))
        && AdmissibleTrace(Next(m, es[0], batchSize), After(Database(m.t, c), e, cfg).chain, es[1..], batchSize, cfg)
  }

  lemma RestartKnows(m: Machine, configured: string, cursorRead: bool, assetRead: bool, cfg: Config)
    requires Knows(m, cfg) && Names(configured, cfg.policyAsset)
    ensures var m' := Restarted(m, configured, cursorRead, assetRead);
            m'.t == m.t && Knows(m', cfg)
  {
  }

  /** Whatever the nodes answered, the index is the fresh index of the hash-linked chain it was built from. */
  lemma {:induction false} TraceHolds(m: Machine, c: seq<Block>, es: seq<Happening>, batchSize: int, cfg: Config)
    requires Knows(m, cfg) && Holds(m.t, c, cfg) && LinkedChain(c)
    requires AdmissibleTrace(m, c, es, batchSize, cfg)
    ensures var m', c' := Trace(m, es, batchSize), ChainTrace(m, c, es, batchSize, cfg);
            Holds(m'.t, c', cfg) && LinkedChain(c') && Knows(m', cfg)
    decreases |es|
  {
    if es != [] {
      match es[0]
      case Stepped(w) =>
        var e := EventOf(m, w, batchSize);
        StepIsStoreEvent(m, w, batchSize, c, cfg);
        ContinuesConsecutively(c, 0, "");
        AfterHolds(Database(m.t, c), e, cfg);
        TraceHolds(Next(m, es[0], batchSize), After(Database(m.t, c), e, cfg).chain, es[1..], batchSize, cfg);
      case Restart(configured, cursorRead, assetRead) =>
        RestartKnows(m, configured, cursorRead, assetRead, cfg);
        TraceHolds(Next(m, es[0], batchSize), c, es[1..], batchSize, cfg);
    }
  }

  /** In particular from an empty database, by a process that knows no policy asset yet. */
  lemma EveryRunHolds(m: Machine, es: seq<Happening>, batchSize: int, cfg: Config)
    requires Initial(m) && Knows(m, cfg) && AdmissibleTrace(m, [], es, batchSize, cfg)
    ensures var m', c' := Trace(m, es, batchSize), ChainTrace(m, [], es, batchSize, cfg);
            Holds(m'.t, c', cfg) && LinkedChain(c')
  {
    EmptyWellFormed();
    TraceHolds(m, [], es, batchSize, cfg);
  }

  /**
   After every run from an empty database a reported `synchronized` means that the index is exactly the fresh
   index of the chain that ends in the node's last reported best hash, whichever linked chain that is.
   */
  lemma SynchronizedMeansIndexed(m: Machine, es: seq<Happening>, batchSize: int, cfg: Config, d: seq<Block>)
    requires Initial(m) && Knows(m, cfg) && AdmissibleTrace(m, [], es, batchSize, cfg)
    requires LinkedChain(d) && d != [] && NamesBlocks(ChainTrace(m, [], es, batchSize, cfg), d)
    ensures var m' := Trace(m, es, batchSize);
            m'.status.synchronized && m'.status.chainBest == d[|d| - 1].hash ==>
              && ChainTrace(m, [], es, batchSize, cfg) == d
              && Index(d, cfg) == Some(m'.t) && m'.status.lag == 0
  {
    EveryRunHolds(m, es, batchSize, cfg);
    EveryReachableStateIsSafe(m, es, batchSize);
    var m', c' := Trace(m, es, batchSize), ChainTrace(m, [], es, batchSize, cfg);
    if m'.status.synchronized && m'.status.chainBest == d[|d| - 1].hash {
      SynchronizedNamesChain(m', c', d, cfg);
    }
  }
}
