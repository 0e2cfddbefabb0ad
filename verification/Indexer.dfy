/**
 The indexer protocol of explorer/indexer.go: one bounded step against a node that is not
 trusted, and whose answers within one step may come from different nodes.
 */
module Indexer {
  import opened Common
  import opened ChainModel
  import opened Tables
  import Store

  datatype ChainInfo = ChainInfo(blocks: int, bestBlockHash: string)

  /**
   Everything outside the indexer during one step, each answer arbitrary: what the pool returns
   for each call (None is a failed call), whether the database can be read, and whether it accepts
   the write of the policy asset (`saves`) and the write of blocks (`commits`).
   */
  datatype World = World(
    sidechainInfo: Option<string>,
    chainInfo: Option<ChainInfo>,
    blockHash: int -> Option<string>,
    blockHashes: seq<int> -> Option<seq<string>>,
    blocks: seq<string> -> Option<seq<Block>>,
    mempool: bool,
    readable: bool,
    saves: bool,
    commits: bool)

  // ----- answers after the checks of explorer/rpc.go

  predicate IsHash(s: string) {
    |s| == 64
  }

  function AskChainInfo(w: World): (r: Option<ChainInfo>)
    ensures r.Some? ==> r.value.blocks >= 0 && IsHash(r.value.bestBlockHash)
  {
    if w.chainInfo.Some? && w.chainInfo.value.blocks >= 0 && IsHash(w.chainInfo.value.bestBlockHash)
    then w.chainInfo else None
  }

  function AskBlockHash(w: World, height: int): (r: Option<string>)
    ensures r.Some? ==> IsHash(r.value)
  {
    var hash := w.blockHash(height);
    if hash.Some? && IsHash(hash.value) then hash else None
  }

  function AskBlockHashes(w: World, heights: seq<int>): (r: Option<seq<string>>)
    ensures r.Some? ==> |r.value| == |heights|
  {
    var hashes := w.blockHashes(heights);
    if hashes.Some? && |hashes.value| == |heights| && forall h :: h in hashes.value ==> IsHash(h) then hashes else None
  }

  function AskBlocks(w: World, hashes: seq<string>): (r: Option<seq<Block>>)
    ensures r.Some? ==> |r.value| == |hashes| && forall i :: 0 <= i < |r.value| ==> IsHash(r.value[i].hash)
  {
    var blocks := w.blocks(hashes);
    if blocks.Some? && |blocks.value| == |hashes| && forall b :: b in blocks.value ==> IsHash(b.hash)
    then blocks else None
  }

  // ----- the status shown to the browser

  datatype Status = Status(
    indexedHeight: int,
    indexedHash: string,
    chainHeight: int,
    chainBest: string,
    lag: int,
    synchronized: bool,
    indexing: bool,
    reorgsHandled: int,
    blocksIndexed: int)

  /** What `update` recomputes after every mutation. */
  function Recomputed(s: Status): Status {
    if s.chainHeight < 0 then s
    else
      var lag := if s.chainHeight < s.indexedHeight then 0 else s.chainHeight - s.indexedHeight;
      var synchronized := s.indexedHeight == s.chainHeight && s.chainBest == s.indexedHash;
      s.(lag := lag, synchronized := synchronized, indexing := !synchronized)
  }

  // ----- deciding what to do

  datatype Action =
    | Fail
    | Idle
    | Rollback(height: int)
    | Apply(batch: seq<Block>)

  /** The outcome of checking a fetched batch against the cursor: a bad height, or the linked prefix. */
  datatype Check = BadHeight | LinkedPrefix(n: nat)

  function CheckLinks(bs: seq<Block>, from: int, previous: string, i: nat): (r: Check)
    requires i <= |bs|
    ensures r.LinkedPrefix? ==> i <= r.n <= |bs|
    decreases |bs| - i
  {
    if i == |bs| then LinkedPrefix(i)
    else if bs[i].height != from + i then BadHeight
    else if from + i > 0 && previous != "" && bs[i].previousHash != previous then LinkedPrefix(i)
    else CheckLinks(bs, from, bs[i].hash, i + 1)
  }

  /** The heights from `from` up to and including `top`. */
  function Heights(from: int, top: int): seq<int>
    decreases top - from
  {
    if top < from then [] else [from] + Heights(from + 1, top)
  }

  /** The two calls that fetch the blocks of a range of heights. */
  function Fetch(w: World, from: int, top: int): Option<seq<Block>> {
    match AskBlockHashes(w, Heights(from, top))
    case None => None
    case Some(hashes) => AskBlocks(w, hashes)
  }

  /** What to do with a fetched batch. */
  function PlanLinked(c: Cursor, bs: seq<Block>): Action {
    match CheckLinks(bs, c.height + 1, c.hash, 0)
    case BadHeight => Fail
    case LinkedPrefix(n) =>
      if n > 0 then Apply(bs[..n])
      else if |bs| > 0 then Rollback(c.height)
      else Idle
  }

  /** Fetching and checking the batch above the cursor. */
  function PlanBatch(c: Cursor, info: ChainInfo, w: World, batchSize: int): Action {
    var from := c.height + 1;
    var to := Min(from + batchSize - 1, info.blocks);
    if to < from then Idle
    else
      match Fetch(w, from, to)
      case None => Fail
      case Some(bs) => PlanLinked(c, bs)
  }

  /** The decision of one step once the tip is known. */
  function Plan(c: Cursor, info: ChainInfo, w: World, batchSize: int): Action {
    if c.height == info.blocks && c.hash == info.bestBlockHash then
      if w.mempool then Idle else Fail
    else if c.height >= 0 then
      match AskBlockHash(w, Min(c.height, info.blocks))
      case None => Fail
      case Some(canonical) =>
        if c.height > info.blocks || canonical != c.hash then Rollback(c.height)
        else PlanBatch(c, info, w, batchSize)
    else PlanBatch(c, info, w, batchSize)
  }

  // ----- carrying it out

  /** The durable tables and policy asset, and the volatile configuration and status. */
  datatype Machine = Machine(t: Tables, savedPolicy: string, cfg: Config, status: Status)

  datatype Outcome = Failed | Unchanged | RolledBack | Applied

  function AfterRollback(s: Status, c: Cursor): Status {
    Recomputed(s.(indexedHeight := c.height, indexedHash := c.hash, reorgsHandled := s.reorgsHandled + 1))
  }

  function AfterBatch(s: Status, bs: seq<Block>): Status
    requires bs != []
  {
    var last := bs[|bs| - 1];
    Recomputed(s.(indexedHeight := last.height, indexedHash := last.hash, blocksIndexed := s.blocksIndexed + |bs|))
  }

  ghost function ExecuteRollback(m: Machine, height: int, w: World): (Machine, Outcome) {
    var r := RollbackBlock(m.t, height);
    if !w.commits || r.None? then (m, Failed)
    else (m.(t := r.value, status := AfterRollback(m.status, CursorOf(r.value))), RolledBack)
  }

  ghost function ExecuteApply(m: Machine, bs: seq<Block>, w: World): (Machine, Outcome) {
    var r := ApplyBlocks(m.t, bs, m.cfg);
    if bs == [] || !w.commits || r.None? then (m, Failed)
    else (m.(t := r.value, status := AfterBatch(m.status, bs)), Applied)
  }

  ghost function Execute(m: Machine, a: Action, w: World): (Machine, Outcome) {
    match a
    case Fail => (m, Failed)
    case Idle => (m, Unchanged)
    case Rollback(h) => ExecuteRollback(m, h, w)
    case Apply(bs) => ExecuteApply(m, bs, w)
  }

  /** The policy asset is learnt once; None when it cannot be learnt or saved. */
  function Resolve(m: Machine, w: World): (Machine, bool) {
    if m.cfg.policyAsset != "" then (m, true)
    else if w.sidechainInfo.None? || !IsHash(w.sidechainInfo.value) then (m, false)
    else
      var asset := w.sidechainInfo.value;
      var m' := m.(cfg := m.cfg.(policyAsset := asset), status := Recomputed(m.status));
      if w.saves then (m'.(savedPolicy := asset), true) else (m', false)
  }

  function Observe(m: Machine, info: ChainInfo): Machine {
    m.(status := Recomputed(m.status.(chainHeight := info.blocks, chainBest := info.bestBlockHash)))
  }

  /** One step. */
  ghost function Step(m: Machine, w: World, batchSize: int): (Machine, Outcome) {
    var (m1, resolved) := Resolve(m, w);
    if !resolved then (m1, Failed)
    else
      match AskChainInfo(w)
      case None => (m1, Failed)
      case Some(info) =>
        var m2 := Observe(m1, info);
        if !w.readable then (m2, Failed)
        else Execute(m2, Plan(CursorOf(m2.t), info, w, batchSize), w)
  }

  /** The status a new process starts with; `c` is the cursor it managed to read. */
  function FreshStatus(c: Cursor): Status {
    Status(c.height, c.hash, -1, "", 0, false, false, 0, 0)
  }

  /**
   A crash or a stop, and a new process over the same database. `configured` is its policy asset setting;
   the flags say whether it could read the cursor and the saved asset, which it does without when it cannot.
   */
  function Restarted(m: Machine, configured: string, cursorRead: bool, assetRead: bool): Machine {
    var c := if cursorRead then CursorOf(m.t) else Cursor(-1, "");
    var policy := if configured != "" then configured else if assetRead then m.savedPolicy else "";
    m.(cfg := m.cfg.(policyAsset := policy), status := FreshStatus(c))
  }

  // ----- the indexer object

  class IndexerProcess {
    const store: Store.Database
    const batchSize: int
    var savedPolicy: string
    var cfg: Config
    var status: Status

    /** newIndexer: resumes from whatever the store lets it read. */
    constructor (store: Store.Database, cfg: Config, savedPolicy: string, batchSize: int, cursorRead: bool,
                 assetRead: bool)
      ensures this.store == store && this.batchSize == batchSize
      ensures View().t == store.committed && View().savedPolicy == savedPolicy
      ensures View() == Restarted(View().(cfg := cfg), cfg.policyAsset, cursorRead, assetRead)
    {
      this.store, this.batchSize, this.savedPolicy := store, batchSize, savedPolicy;
      this.cfg := cfg;
      this.status := FreshStatus(Cursor(-1, ""));
      new;
      if cursorRead {
        var cursor := store.ReadCursor();
        status := FreshStatus(cursor);
      }
      if cfg.policyAsset == "" && assetRead {
        this.cfg := cfg.(policyAsset := savedPolicy);
      }
    }

    function View(): Machine
      reads this, store
    {
      Machine(store.committed, savedPolicy, cfg, status)
    }

    method Update(s: Status)
      modifies this`status
      ensures status == Recomputed(s)
    {
      status := s;
      if s.chainHeight >= 0 {
        var lag := s.chainHeight - s.indexedHeight;
        if lag < 0 {
          lag := 0;
        }
        var synchronized := s.indexedHeight == s.chainHeight && s.chainBest == s.indexedHash;
        status := s.(lag := lag, synchronized := synchronized, indexing := !synchronized);
      }
    }

    method ResolvePolicyAsset(w: World) returns (ok: bool)
      requires cfg.policyAsset == ""
      modifies this
      ensures Resolve(old(View()), w) == (View(), ok)
    {
      if w.sidechainInfo.None? || !IsHash(w.sidechainInfo.value) {
        return false;
      }
      cfg := cfg.(policyAsset := w.sidechainInfo.value);
      Update(status);
      if !w.saves {
        return false;
      }
      savedPolicy := w.sidechainInfo.value;
      ok := true;
    }

    method RollbackOne(height: int, w: World) returns (outcome: Outcome)
      modifies this, store
      ensures (View(), outcome) == ExecuteRollback(old(View()), height, w)
    {
      var ok, cursor := store.RollbackBlock(height, w.commits);
      if !ok {
        return Failed;
      }
      Update(status.(indexedHeight := cursor.height, indexedHash := cursor.hash,
                     reorgsHandled := status.reorgsHandled + 1));
      outcome := RolledBack;
    }

    /** The status once a batch is committed. */
    method NoteBatch(bs: seq<Block>)
      requires bs != []
      modifies this`status
      ensures status == AfterBatch(old(status), bs)
    {
      var last := bs[|bs| - 1];
      Update(status.(indexedHeight := last.height, indexedHash := last.hash,
                     blocksIndexed := status.blocksIndexed + |bs|));
    }

    method ApplyBatch(bs: seq<Block>, w: World) returns (outcome: Outcome)
      requires bs != []
      modifies this, store
      ensures (View(), outcome) == ExecuteApply(old(View()), bs, w)
    {
      var ok := store.ApplyBlocks(bs, cfg, w.commits);
      if !ok {
        return Failed;
      }
      NoteBatch(bs);
      outcome := Applied;
    }

    /** One request for every height up to and including `top`. */
    static method Requests(from: int, top: int) returns (requests: seq<int>)
      requires from <= top
      ensures requests == Heights(from, top)
    {
      requests := [];
      for height := from to top + 1
        invariant requests + Heights(height, top) == Heights(from, top)
      {
        assert requests + ([height] + Heights(height + 1, top)) == requests + [height] + Heights(height + 1, top);
        requests := requests + [height];
      }
    }

    /** The hashes of a range of heights, then the blocks they name. */
    static method FetchRange(from: int, top: int, w: World) returns (fetched: Option<seq<Block>>)
      requires from <= top
      ensures fetched == Fetch(w, from, top)
    {
      var requests := Requests(from, top);
      var hashes := AskBlockHashes(w, requests);
      if hashes.None? {
        return None;
      }
      fetched := AskBlocks(w, hashes.value);
    }

    /** Fetch the batch above the cursor. */
    method Advance(cursor: Cursor, info: ChainInfo, w: World) returns (outcome: Outcome)
      modifies this, store
      ensures (View(), outcome) == Execute(old(View()), PlanBatch(cursor, info, w, batchSize), w)
    {
      var from := cursor.height + 1;
      var to := from + batchSize - 1;
      if to > info.blocks {
        to := info.blocks;
      }
      if to < from {
        return Unchanged;
      }
      var fetched := FetchRange(from, to, w);
      if fetched.None? {
        return Failed;
      }
      assert PlanBatch(cursor, info, w, batchSize) == PlanLinked(cursor, fetched.value);
      outcome := Link(cursor, fetched.value, w);
    }

    /** Check the batch block by block, and apply what continues the cursor. */
    method Link(cursor: Cursor, bs: seq<Block>, w: World) returns (outcome: Outcome)
      modifies this, store
      ensures (View(), outcome) == Execute(old(View()), PlanLinked(cursor, bs), w)
    {
      var from := cursor.height + 1;
      var linked := |bs|;
      var previous := cursor.hash;
      for i := 0 to |bs|
        invariant linked == |bs|
        invariant CheckLinks(bs, from, previous, i) == CheckLinks(bs, from, cursor.hash, 0)
      {
        if bs[i].height != from + i {
          return Failed;
        }
        if from + i > 0 && previous != "" && bs[i].previousHash != previous {
          if i == 0 {
            outcome := RollbackOne(cursor.height, w);
            return;
          }
          linked := i;
          break;
        }
        previous := bs[i].hash;
      }
      if linked == 0 {
        return Unchanged;
      }
      outcome := ApplyBatch(bs[..linked], w);
    }

    method TakeStep(w: World) returns (outcome: Outcome)
      modifies this, store
      ensures (View(), outcome) == Step(old(View()), w, batchSize)
    {
      if cfg.policyAsset == "" {
        var ok := ResolvePolicyAsset(w);
        if !ok {
          return Failed;
        }
      }
      var info := AskChainInfo(w);
      if info.None? {
        return Failed;
      }
      Update(status.(chainHeight := info.value.blocks, chainBest := info.value.bestBlockHash));
      if !w.readable {
        return Failed;
      }
      var cursor := store.ReadCursor();
      if cursor.height == info.value.blocks && cursor.hash == info.value.bestBlockHash {
        return if w.mempool then Unchanged else Failed;
      }
      if cursor.height >= 0 {
        var canonical := AskBlockHash(w, Min(cursor.height, info.value.blocks));
        if canonical.None? {
          return Failed;
        }
        if cursor.height > info.value.blocks || canonical.value != cursor.hash {
          outcome := RollbackOne(cursor.height, w);
          return;
        }
      }
      outcome := Advance(cursor, info.value, w);
    }
  }
}
