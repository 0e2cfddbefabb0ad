/**
 What every step keeps, whatever the node answers: failover to another node between two calls,
 a branch switch in the middle of a step, refused writes, and crashes.
 */
module IndexerSafety {
  import opened Common
  import opened ChainModel
  import opened Tables
  import opened Invariants
  import opened Indexer

  // ----- the shape of the indexed chain

  ghost function Count(t: Tables): int {
    CursorOf(t).height + 1
  }

  ghost predicate RowLinked(blocks: map<int, BlockRow>, h: int) {
    h in blocks && h - 1 in blocks && blocks[h].prevHash == Some(blocks[h - 1].hash)
  }

  /** Each block's prev_hash is its predecessor's hash, and every hash is a real one. */
  ghost predicate LinkedRows(blocks: map<int, BlockRow>, n: int)
    requires Contiguous(blocks, n)
  {
    && (forall h :: 0 <= h < n ==> IsHash(blocks[h].hash))
    && (forall h :: 1 <= h < n ==> RowLinked(blocks, h))
  }

  /** Indexed heights are exactly 0..cursor, hash-linked, the cursor names the top row, and supply is current. */
  ghost predicate ChainShape(t: Tables) {
    && Count(t) >= 0
    && WellFormed(t, Count(t))
    && LinkedRows(t.blocks, Count(t))
  }

  lemma CountOfWellFormed(t: Tables, n: nat)
    requires WellFormed(t, n)
    ensures Count(t) == n
    ensures n > 0 ==> CursorOf(t) == Cursor(n - 1, t.blocks[n - 1].hash)
    ensures n == 0 ==> CursorOf(t) == Cursor(-1, "")
  {
  }

  // ----- what the link check establishes

  ghost predicate LinksBack(bs: seq<Block>, i: int)
    requires 1 <= i < |bs|
  {
    bs[i].previousHash == bs[i - 1].hash
  }

  /** A batch that continues the cursor: right heights, each block linked to the one before. */
  ghost predicate Continues(bs: seq<Block>, from: int, previous: string) {
    && (forall i :: 0 <= i < |bs| ==> bs[i].height == from + i && IsHash(bs[i].hash))
    && (bs != [] && from > 0 && previous != "" ==> bs[0].previousHash == previous)
    && (forall i :: 1 <= i < |bs| ==> LinksBack(bs, i))
  }

  lemma {:induction false} CheckedPrefix(bs: seq<Block>, from: int, previous: string, i: nat)
    requires i <= |bs| && from >= 0 && (forall j :: 0 <= j < |bs| ==> IsHash(bs[j].hash))
    requires CheckLinks(bs, from, previous, i).LinkedPrefix?
    ensures var n := CheckLinks(bs, from, previous, i).n;
            && (forall j :: i <= j < n ==> bs[j].height == from + j)
            && (i < n && from + i > 0 && previous != "" ==> bs[i].previousHash == previous)
            && (forall j :: i < j < n ==> LinksBack(bs, j))
    decreases |bs| - i
  {
    if i < |bs| && bs[i].height == from + i
       && !(from + i > 0 && previous != "" && bs[i].previousHash != previous) {
      CheckedPrefix(bs, from, bs[i].hash, i + 1);
      forall j | i < j < CheckLinks(bs, from, previous, i).n
        ensures LinksBack(bs, j)
      {
        if j == i + 1 { assert bs[j].previousHash == bs[i].hash; }
      }
    }
  }

  /** Whatever the node answered, a planned batch continues the cursor, and a planned rollback is at the cursor. */
  lemma PlanIsSafe(c: Cursor, info: ChainInfo, w: World, batchSize: int)
    requires c.height >= -1 && (c.height == -1 ==> c.hash == "") && (c.height >= 0 ==> IsHash(c.hash))
    ensures match Plan(c, info, w, batchSize)
            case Rollback(h) => h == c.height >= 0
            case Apply(bs) => bs != [] && Continues(bs, c.height + 1, c.hash)
            case _ => true
  {
    PlanBatchIsSafe(c, info, w, batchSize);
  }

  lemma PlanBatchIsSafe(c: Cursor, info: ChainInfo, w: World, batchSize: int)
    requires c.height >= -1 && (c.height == -1 ==> c.hash == "") && (c.height >= 0 ==> IsHash(c.hash))
    ensures match PlanBatch(c, info, w, batchSize)
            case Rollback(h) => h == c.height >= 0
            case Apply(bs) => bs != [] && Continues(bs, c.height + 1, c.hash)
            case _ => true
  {
    var from := c.height + 1;
    var fetched := Fetch(w, from, Min(from + batchSize - 1, info.blocks));
    if fetched.Some? { PlanLinkedIsSafe(c, fetched.value); }
  }

  lemma PlanLinkedIsSafe(c: Cursor, bs: seq<Block>)
    requires c.height >= -1 && (forall j :: 0 <= j < |bs| ==> IsHash(bs[j].hash))
    ensures match PlanLinked(c, bs)
            case Rollback(h) => h == c.height && (c.height == -1 ==> c.hash != "")
            case Apply(linked) => linked != [] && Continues(linked, c.height + 1, c.hash)
            case _ => true
  {
    var from := c.height + 1;
    if CheckLinks(bs, from, c.hash, 0).LinkedPrefix? {
      var n := CheckLinks(bs, from, c.hash, 0).n;
      CheckedPrefix(bs, from, c.hash, 0);
      forall j | 1 <= j < n ensures LinksBack(bs[..n], j) {
        assert LinksBack(bs, j);
      }
    }
  }

  // ----- what a step does to the shape

  lemma AppliedRow(before: map<int, BlockRow>, bs: seq<Block>, cfg: Config, n: nat, after: map<int, BlockRow>, h: int)
    requires Extended(before, bs, cfg, n, after) && n <= h < n + |bs|
    ensures h in after && after[h].hash == bs[h - n].hash && after[h].prevHash == Nullable(bs[h - n].previousHash)
  {
    assert after[h] == StoredRow(bs[h - n], cfg);
  }

  lemma LinkedAfter(before: map<int, BlockRow>, bs: seq<Block>, cfg: Config, n: nat, after: map<int, BlockRow>)
    requires Contiguous(before, n) && LinkedRows(before, n)
    requires Contiguous(after, n + |bs|) && Extended(before, bs, cfg, n, after)
    requires Continues(bs, n, if n > 0 then before[n - 1].hash else "")
    ensures LinkedRows(after, n + |bs|)
  {
    forall h | 0 <= h < n + |bs|
      ensures IsHash(after[h].hash)
      ensures h >= 1 ==> RowLinked(after, h)
    {
      if h >= n {
        AppliedRow(before, bs, cfg, n, after, h);
        if h > n {
          AppliedRow(before, bs, cfg, n, after, h - 1);
          assert LinksBack(bs, h - n);
        } else if n > 0 {
          assert after[n - 1] == before[n - 1];
        }
      } else if h >= 1 {
        assert RowLinked(before, h) && after[h] == before[h] && after[h - 1] == before[h - 1];
      }
    }
  }

  lemma ApplyMovesCursor(t: Tables, bs: seq<Block>, cfg: Config, n: nat)
    requires WellFormed(t, n) && bs != [] && Consecutive(bs, n) && ApplyBlocks(t, bs, cfg).Some?
    ensures var t' := ApplyBlocks(t, bs, cfg).value;
            && WellFormed(t', n + |bs|) && Extended(t.blocks, bs, cfg, n, t'.blocks)
            && CursorOf(t') == Cursor(bs[|bs| - 1].height, bs[|bs| - 1].hash)
  {
    var t' := ApplyBlocks(t, bs, cfg).value;
    ApplyKeepsWellFormed(t, bs, cfg, n);
    CountOfWellFormed(t', n + |bs|);
    AppliedRow(t.blocks, bs, cfg, n, t'.blocks, n + |bs| - 1);
  }

  /** The link of the first new block goes to the cursor. */
  lemma ShapedPrevious(t: Tables)
    requires ChainShape(t)
    ensures CursorOf(t) == Cursor(Count(t) - 1, if Count(t) > 0 then t.blocks[Count(t) - 1].hash else "")
  {
    CountOfWellFormed(t, Count(t));
  }

  lemma ApplyKeepsShape(t: Tables, bs: seq<Block>, cfg: Config, t': Tables)
    requires ChainShape(t) && bs != [] && Continues(bs, Count(t), CursorOf(t).hash)
    requires ApplyBlocks(t, bs, cfg) == Some(t')
    ensures ChainShape(t') && Count(t') == Count(t) + |bs|
    ensures forall h :: 0 <= h < Count(t) ==> t'.blocks[h] == t.blocks[h]
  {
    var n: nat := Count(t);
    ContinuesConsecutively(bs, n, CursorOf(t).hash);
    AppliedIsExtended(t, bs, cfg, n, t');
    ExtendedKeepsShape(t, bs, cfg, n, t');
  }

  lemma AppliedIsExtended(t: Tables, bs: seq<Block>, cfg: Config, n: nat, t': Tables)
    requires WellFormed(t, n) && Consecutive(bs, n) && ApplyBlocks(t, bs, cfg) == Some(t')
    ensures WellFormed(t', n + |bs|) && Extended(t.blocks, bs, cfg, n, t'.blocks)
  {
    ApplyKeepsWellFormed(t, bs, cfg, n);
  }

  lemma ExtendedKeepsShape(t: Tables, bs: seq<Block>, cfg: Config, n: nat, t': Tables)
    requires ChainShape(t) && n == Count(t) && Continues(bs, n, CursorOf(t).hash)
    requires WellFormed(t', n + |bs|) && Extended(t.blocks, bs, cfg, n, t'.blocks)
    ensures ChainShape(t') && Count(t') == n + |bs|
    ensures forall h :: 0 <= h < n ==> t'.blocks[h] == t.blocks[h]
  {
    ShapedPrevious(t);
    ShapeFromRows(t, bs, cfg, n, t');
  }

  lemma ShapeFromRows(t: Tables, bs: seq<Block>, cfg: Config, n: nat, t': Tables)
    requires Contiguous(t.blocks, n) && LinkedRows(t.blocks, n)
    requires Continues(bs, n, if n > 0 then t.blocks[n - 1].hash else "")
    requires WellFormed(t', n + |bs|) && Extended(t.blocks, bs, cfg, n, t'.blocks)
    ensures ChainShape(t') && Count(t') == n + |bs|
  {
    CountOfWellFormed(t', n + |bs|);
    LinkedAfter(t.blocks, bs, cfg, n, t'.blocks);
  }

  lemma ContinuesConsecutively(bs: seq<Block>, n: int, previous: string)
    requires Continues(bs, n, previous)
    ensures Consecutive(bs, n)
  {
  }

  lemma LinkedWithoutTip(blocks: map<int, BlockRow>, n: nat)
    requires n > 0 && Contiguous(blocks, n) && LinkedRows(blocks, n)
    ensures Contiguous(BlocksWithout(blocks, n - 1), n - 1) && LinkedRows(BlocksWithout(blocks, n - 1), n - 1)
  {
    var rest := BlocksWithout(blocks, n - 1);
    forall h | 1 <= h < n - 1 ensures RowLinked(rest, h) {
      assert RowLinked(blocks, h);
    }
  }

  lemma RollbackKeepsShape(t: Tables)
    requires ChainShape(t) && Count(t) > 0
    requires RollbackBlock(t, Count(t) - 1).Some?
    ensures var t' := RollbackBlock(t, Count(t) - 1).value;
            && ChainShape(t') && Count(t') == Count(t) - 1
            && t'.blocks == BlocksWithout(t.blocks, Count(t) - 1)
  {
    var n := Count(t);
    RollbackKeepsWellFormed(t, n);
    CountOfWellFormed(t, n);
    CountOfWellFormed(RollbackBlock(t, n - 1).value, n - 1);
    LinkedWithoutTip(t.blocks, n);
  }

  /** What one step may do to the tables. */
  ghost predicate LegalMove(t: Tables, t': Tables, outcome: Outcome) {
    match outcome
    case Applied => Count(t') > Count(t) && forall h :: h in t.blocks ==> h in t'.blocks && t'.blocks[h] == t.blocks[h]
    case RolledBack => IsTop(t.blocks, Count(t) - 1) && t'.blocks == BlocksWithout(t.blocks, Count(t) - 1)
    case _ => t' == t
  }

  /** A batch that is not applied changes nothing. */
  lemma ApplyOutcome(m: Machine, bs: seq<Block>, w: World)
    requires bs != []
    ensures var (m', outcome) := Execute(m, Apply(bs), w);
            if outcome.Applied? then
              var last := bs[|bs| - 1];
              && ApplyBlocks(m.t, bs, m.cfg) == Some(m'.t)
              && m'.status == Recomputed(m.status.(indexedHeight := last.height, indexedHash := last.hash,
                                                   blocksIndexed := m.status.blocksIndexed + |bs|))
            else outcome.Failed? && m' == m
  {
  }

  /** A rollback that does not commit changes nothing. */
  lemma RollbackOutcome(m: Machine, h: int, w: World)
    ensures var (m', outcome) := Execute(m, Rollback(h), w);
            if outcome.RolledBack? then RollbackBlock(m.t, h) == Some(m'.t) else outcome.Failed? && m' == m
  {
  }

  lemma ApplyIsLegal(t: Tables, bs: seq<Block>, cfg: Config, t': Tables)
    requires ChainShape(t) && bs != [] && Continues(bs, Count(t), CursorOf(t).hash)
    requires ApplyBlocks(t, bs, cfg) == Some(t')
    ensures ChainShape(t') && LegalMove(t, t', Applied)
  {
    ApplyKeepsShape(t, bs, cfg, t');
  }

  lemma RollbackIsLegal(t: Tables, t': Tables)
    requires ChainShape(t) && Count(t) > 0 && RollbackBlock(t, Count(t) - 1) == Some(t')
    ensures ChainShape(t') && LegalMove(t, t', RolledBack)
  {
    RollbackKeepsShape(t);
    TopOfContiguous(t.blocks, Count(t), Count(t) - 1);
  }

  lemma ExecuteKeepsShape(m: Machine, a: Action, w: World)
    requires ChainShape(m.t)
    requires a.Rollback? ==> a.height == CursorOf(m.t).height >= 0
    requires a.Apply? ==> a.batch != [] && Continues(a.batch, Count(m.t), CursorOf(m.t).hash)
    ensures var (m', outcome) := Execute(m, a, w);
            ChainShape(m'.t) && LegalMove(m.t, m'.t, outcome)
  {
    var (m', outcome) := Execute(m, a, w);
    match a
    case Rollback(h) =>
      RollbackOutcome(m, h, w);
      if outcome.RolledBack? { RollbackIsLegal(m.t, m'.t); }
    case Apply(bs) =>
      ApplyOutcome(m, bs, w);
      if outcome.Applied? { ApplyIsLegal(m.t, bs, m.cfg, m'.t); }
    case _ =>
  }

  lemma ShapedCursor(t: Tables)
    requires ChainShape(t)
    ensures var c := CursorOf(t);
            c.height >= -1 && (c.height == -1 ==> c.hash == "") && (c.height >= 0 ==> IsHash(c.hash))
  {
    CountOfWellFormed(t, Count(t));
  }

  /** A step that gets as far as reading the cursor. */
  ghost predicate Decides(m: Machine, w: World) {
    Resolve(m, w).1 && AskChainInfo(w).Some? && w.readable
  }

  ghost function Observed(m: Machine, w: World): Machine
    requires AskChainInfo(w).Some?
  {
    Observe(Resolve(m, w).0, AskChainInfo(w).value)
  }

  ghost function Decision(m: Machine, w: World, batchSize: int): Action
    requires AskChainInfo(w).Some?
  {
    Plan(CursorOf(m.t), AskChainInfo(w).value, w, batchSize)
  }

  /** What a step decides is safe to carry out. */
  lemma DecisionIsSafe(m: Machine, w: World, batchSize: int)
    requires ChainShape(m.t) && Decides(m, w)
    ensures Step(m, w, batchSize) == Execute(Observed(m, w), Decision(m, w, batchSize), w)
    ensures var a := Decision(m, w, batchSize);
            && (a.Rollback? ==> a.height == CursorOf(m.t).height >= 0)
            && (a.Apply? ==> a.batch != [] && Continues(a.batch, Count(m.t), CursorOf(m.t).hash))
  {
    ShapedCursor(m.t);
    PlanIsSafe(CursorOf(m.t), AskChainInfo(w).value, w, batchSize);
  }

  /** Chain-shape safety: one step keeps the shape, and only ever rolls back the tip or extends it. */
  lemma StepKeepsShape(m: Machine, w: World, batchSize: int)
    requires ChainShape(m.t)
    ensures var (m', outcome) := Step(m, w, batchSize);
            ChainShape(m'.t) && LegalMove(m.t, m'.t, outcome)
  {
    if Decides(m, w) {
      DecisionIsSafe(m, w, batchSize);
      ExecuteKeepsShape(Observed(m, w), Decision(m, w, batchSize), w);
    }
  }

  // ----- the status

  /** The status was recomputed by its last update. */
  ghost predicate StatusOk(s: Status) {
    s == Recomputed(s) && (s.chainHeight < 0 ==> !s.synchronized)
  }

  /** The status names the stored cursor, or nothing yet when the cursor was unreadable at start. */
  ghost predicate Tracks(s: Status, t: Tables) {
    || Cursor(s.indexedHeight, s.indexedHash) == CursorOf(t)
    || (s.indexedHeight == -1 && s.indexedHash == "")
  }

  lemma ObservedTracks(m: Machine, w: World)
    requires StatusOk(m.status) && Tracks(m.status, m.t) && AskChainInfo(w).Some?
    ensures var m' := Observed(m, w);
            && m'.t == m.t && StatusOk(m'.status) && Tracks(m'.status, m'.t) && m'.status.chainHeight >= 0
            && (NamesCursor(m') <==> NamesCursor(m))
  {
  }

  /** A step that does not reach its decision moves nothing. */
  lemma UndecidedStep(m: Machine, w: World, batchSize: int)
    requires StatusOk(m.status) && Tracks(m.status, m.t) && !Decides(m, w)
    ensures var (m', outcome) := Step(m, w, batchSize);
            && outcome.Failed? && m'.t == m.t && StatusOk(m'.status)
            && m'.status.indexedHeight == m.status.indexedHeight && m'.status.indexedHash == m.status.indexedHash
  {
  }

  /** A step names the cursor exactly when it was named before, or when the step moves the index. */
  lemma StepTracks(m: Machine, w: World, batchSize: int)
    requires ChainShape(m.t) && StatusOk(m.status) && Tracks(m.status, m.t)
    ensures var (m', outcome) := Step(m, w, batchSize);
            && StatusOk(m'.status) && Tracks(m'.status, m'.t)
            && (NamesCursor(m') <==> NamesCursor(m) || outcome.Applied? || outcome.RolledBack?)
  {
    if Decides(m, w) {
      DecisionIsSafe(m, w, batchSize);
      ObservedTracks(m, w);
      ExecuteTracks(Observed(m, w), Decision(m, w, batchSize), w);
    } else {
      UndecidedStep(m, w, batchSize);
    }
  }

  /** The status names the cursor of the tables it is stored beside. */
  ghost predicate NamesCursor(m: Machine) {
    Cursor(m.status.indexedHeight, m.status.indexedHash) == CursorOf(m.t)
  }

  lemma RecomputedOk(s: Status)
    requires s.chainHeight >= 0
    ensures StatusOk(Recomputed(s))
    ensures Recomputed(s).indexedHeight == s.indexedHeight && Recomputed(s).indexedHash == s.indexedHash
  {
  }

  lemma ApplyTracks(m: Machine, bs: seq<Block>, w: World)
    requires Count(m.t) >= 0 && WellFormed(m.t, Count(m.t))
    requires StatusOk(m.status) && m.status.chainHeight >= 0 && Tracks(m.status, m.t)
    requires bs != [] && Consecutive(bs, Count(m.t))
    ensures var (m', outcome) := Execute(m, Apply(bs), w);
            && StatusOk(m'.status) && Tracks(m'.status, m'.t) && (outcome.Applied? ==> NamesCursor(m'))
            && (outcome.Applied? || (outcome.Failed? && m' == m))
  {
    var (m', outcome) := Execute(m, Apply(bs), w);
    ApplyOutcome(m, bs, w);
    if outcome.Applied? {
      var last := bs[|bs| - 1];
      RecomputedOk(m.status.(indexedHeight := last.height, indexedHash := last.hash,
                             blocksIndexed := m.status.blocksIndexed + |bs|));
      ApplyMovesCursor(m.t, bs, m.cfg, Count(m.t));
    }
  }

  lemma ExecuteTracks(m: Machine, a: Action, w: World)
    requires ChainShape(m.t) && StatusOk(m.status) && m.status.chainHeight >= 0 && Tracks(m.status, m.t)
    requires a.Apply? ==> a.batch != [] && Continues(a.batch, Count(m.t), CursorOf(m.t).hash)
    ensures var (m', outcome) := Execute(m, a, w);
            && StatusOk(m'.status) && Tracks(m'.status, m'.t)
            && (NamesCursor(m') <==> NamesCursor(m) || outcome.Applied? || outcome.RolledBack?)
  {
    match a
    case Apply(bs) =>
      ContinuesConsecutively(bs, Count(m.t), CursorOf(m.t).hash);
      ApplyTracks(m, bs, w);
    case Rollback(h) =>
      RollbackOutcome(m, h, w);
    case _ =>
  }

  // ----- every run

  /** Something that happens to the process: one step in some world, or a restart. */
  datatype Happening =
    | Stepped(world: World)
    | Restart(configured: string, cursorRead: bool, assetRead: bool)

  ghost function Next(m: Machine, e: Happening, batchSize: int): Machine {
    match e
    case Stepped(w) => Step(m, w, batchSize).0
    case Restart(configured, cursorRead, assetRead) => Restarted(m, configured, cursorRead, assetRead)
  }

  ghost function Trace(m: Machine, es: seq<Happening>, batchSize: int): Machine
    decreases |es|
  {
    if es == [] then m else Trace(Next(m, es[0], batchSize), es[1..], batchSize)
  }

  ghost predicate Safe(m: Machine) {
    ChainShape(m.t) && StatusOk(m.status) && Tracks(m.status, m.t)
  }

  /** A new process over an empty database. */
  ghost predicate Initial(m: Machine) {
    m.t == EMPTY && m.status == FreshStatus(Cursor(-1, ""))
  }

  lemma InitialSafe(m: Machine)
    requires Initial(m)
    ensures Safe(m)
  {
    EmptyWellFormed();
  }

  lemma NextSafe(m: Machine, e: Happening, batchSize: int)
    requires Safe(m)
    ensures Safe(Next(m, e, batchSize))
  {
    match e
    case Stepped(w) =>
      StepKeepsShape(m, w, batchSize);
      StepTracks(m, w, batchSize);
    case Restart(_, _, _) =>
  }

  /** Safety over whole runs: every answer arbitrary, every crash allowed. */
  lemma {:induction false} TraceSafe(m: Machine, es: seq<Happening>, batchSize: int)
    requires Safe(m)
    ensures Safe(Trace(m, es, batchSize))
    decreases |es|
  {
    if es != [] {
      NextSafe(m, es[0], batchSize);
      TraceSafe(Next(m, es[0], batchSize), es[1..], batchSize);
    }
  }

  lemma EveryReachableStateIsSafe(m: Machine, es: seq<Happening>, batchSize: int)
    requires Initial(m)
    ensures Safe(Trace(m, es, batchSize))
  {
    InitialSafe(m);
    TraceSafe(m, es, batchSize);
  }

  /**
   Whether the run leaves the status named: a restart that cannot read the cursor unnames it unless the
   index is empty, a restart that can read it names it, and so does every later move of the index.
   */
  ghost predicate Named(named: bool, m: Machine, es: seq<Happening>, batchSize: int)
    decreases |es|
  {
    if es == [] then named
    else
      var after :=
        match es[0]
        case Stepped(w) => named || Step(m, w, batchSize).1.Applied? || Step(m, w, batchSize).1.RolledBack?
        case Restart(_, cursorRead, _) => cursorRead || Count(m.t) == 0;
      Named(after, Next(m, es[0], batchSize), es[1..], batchSize)
  }

  lemma RestartNames(m: Machine, configured: string, cursorRead: bool, assetRead: bool)
    requires ChainShape(m.t)
    ensures NamesCursor(Restarted(m, configured, cursorRead, assetRead)) <==> cursorRead || Count(m.t) == 0
  {
    ShapedCursor(m.t);
  }

  /** After every run the status names the stored cursor exactly when the run leaves it named. */
  lemma {:induction false} TraceNamesCursor(m: Machine, es: seq<Happening>, batchSize: int)
    requires Safe(m)
    ensures NamesCursor(Trace(m, es, batchSize)) <==> Named(NamesCursor(m), m, es, batchSize)
    decreases |es|
  {
    if es != [] {
      NextSafe(m, es[0], batchSize);
      match es[0] {
        case Stepped(w) => StepTracks(m, w, batchSize);
        case Restart(configured, cursorRead, assetRead) => RestartNames(m, configured, cursorRead, assetRead);
      }
      TraceNamesCursor(Next(m, es[0], batchSize), es[1..], batchSize);
    }
  }

  /**
   Synchronized is sound, and complete once the status names the cursor: it is reported exactly
   when the stored cursor is the tip the node last announced, and then the lag is zero.
   */
  lemma SynchronizedIsSound(m: Machine)
    requires Safe(m)
    ensures m.status.synchronized ==>
              && CursorOf(m.t) == Cursor(m.status.chainHeight, m.status.chainBest)
              && m.status.chainHeight >= 0 && m.status.lag == 0 && !m.status.indexing
    ensures m.status.chainHeight >= 0 && Cursor(m.status.indexedHeight, m.status.indexedHash) == CursorOf(m.t) ==>
              (m.status.synchronized <==> CursorOf(m.t) == Cursor(m.status.chainHeight, m.status.chainBest))
  {
  }
}
