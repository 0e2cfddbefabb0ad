/**
 Lists of blocks and of a block's transactions (explorer/queries.go).
 */
module BlockReader {
  import opened Common
  import opened ChainModel
  import opened Tables
  import opened Invariants
  import opened History
  import opened Mirror
  import opened Listings

  // ----- blockList

  datatype BlockSummary = BlockSummary(
    height: int,
    hash: string,
    time: int,
    txCount: int,
    subsidySats: int,
    feesSats: int,
    payload: string)

  function SummaryOf(h: int, r: BlockRow): BlockSummary {
    BlockSummary(h, r.hash, r.time, r.txCount, r.subsidySats, r.feesSats, r.payload)
  }

  function SummariesOf(blocks: map<int, BlockRow>, heights: seq<int>): (rows: seq<BlockSummary>)
    requires forall h :: h in heights ==> h in blocks
    ensures |rows| == |heights|
  {
    if heights == [] then [] else [SummaryOf(heights[0], blocks[heights[0]])] + SummariesOf(blocks, heights[1..])
  }

  /** ORDER BY height DESC. */
  function HighestFirst(): (int, int) -> bool {
    (a: int, b: int) => a > b
  }

  /** WHERE height <= before, when a cursor is given. */
  function Selected(blocks: map<int, BlockRow>, before: Option<int>): set<int> {
    set h | h in blocks && (before.None? || h <= before.value)
  }

  /** The rows the list query returns. */
  ghost function BlockRows(blocks: map<int, BlockRow>, before: Option<int>, count: nat): seq<BlockSummary> {
    var s := Selected(blocks, before);
    ListingLists(s, HighestFirst());
    SliceOf(Listing(s, HighestFirst()), count, 0);
    SummariesOf(blocks, Slice(Listing(s, HighestFirst()), count, 0))
  }

  /** One page out of at most limit + 1 rows: the row too many becomes the next cursor. */
  function PageOf(total: int, rows: seq<BlockSummary>, limit: nat): (seq<BlockSummary>, Page) {
    if |rows| > limit then (rows[..limit], Page(limit, 0, total, None, Some(rows[limit].height)))
    else (rows, Page(limit, 0, total, None, None))
  }

  /** blockList, on the answers of its two statements. */
  method BlockList(total: int, rows: seq<BlockSummary>, limit: nat) returns (out: seq<BlockSummary>, page: Page)
    ensures (out, page) == PageOf(total, rows, limit)
  {
    out := [];
    for i := 0 to |rows|
      invariant out == rows[..i]
    {
      out := out + [rows[i]];
    }
    assert out == rows;
    page := Page(limit, 0, total, None, None);
    if |out| > limit {
      var next := out[limit].height;
      page := page.(nextCursor := Some(next));
      out := out[..limit];
    }
  }

  // ----- the cursor walk

  /** The rows of the first n blocks are the same in both tables. */
  ghost predicate SameBelow(blocks: map<int, BlockRow>, blocks': map<int, BlockRow>, n: int) {
    forall h :: 0 <= h < n ==> h in blocks && h in blocks' && blocks'[h] == blocks[h]
  }

  /** The blocks at heights top, top - 1, … downwards as long as there are any, at most `count` of them. */
  ghost function Downwards(blocks: map<int, BlockRow>, top: int, count: nat): (rows: seq<BlockSummary>)
    decreases count
  {
    if count == 0 || top !in blocks then [] else [SummaryOf(top, blocks[top])] + Downwards(blocks, top - 1, count - 1)
  }

  lemma {:induction false} DownwardsAt(blocks: map<int, BlockRow>, n: nat, top: int, count: nat)
    requires Contiguous(blocks, n) && -1 <= top < n
    ensures |Downwards(blocks, top, count)| == Min(count, top + 1)
    ensures forall i :: 0 <= i < Min(count, top + 1) ==>
              Downwards(blocks, top, count)[i] == SummaryOf(top - i, blocks[top - i])
    decreases count
  {
    if count > 0 && top >= 0 {
      DownwardsAt(blocks, n, top - 1, count - 1);
      var rest := Downwards(blocks, top - 1, count - 1);
      forall i | 0 < i < Min(count, top + 1)
        ensures Downwards(blocks, top, count)[i] == SummaryOf(top - i, blocks[top - i])
      {
        assert rest[i - 1] == SummaryOf(top - 1 - (i - 1), blocks[top - 1 - (i - 1)]);
      }
    }
  }

  /** The lower table is only read below the first n blocks, where both are the same. */
  lemma {:induction false} DownwardsSame(blocks: map<int, BlockRow>, blocks': map<int, BlockRow>, n: nat, top: int,
                                         count: nat)
    requires Contiguous(blocks, n) && SameBelow(blocks, blocks', n) && -1 !in blocks' && -1 <= top < n
    ensures Downwards(blocks', top, count) == Downwards(blocks, top, count)
    decreases count
  {
    if count > 0 && top >= 0 { DownwardsSame(blocks, blocks', n, top - 1, count - 1); }
  }

  lemma {:induction false} DownwardsSplits(blocks: map<int, BlockRow>, n: nat, top: int, limit: nat, rest: nat)
    requires Contiguous(blocks, n) && limit <= top + 1 <= n
    ensures Downwards(blocks, top, limit + rest) == Downwards(blocks, top, limit) + Downwards(blocks, top - limit, rest)
    decreases limit
  {
    if limit > 0 { DownwardsSplits(blocks, n, top - 1, limit - 1, rest); }
  }

  /** The last page is everything that is left. */
  lemma {:induction false} DownwardsEnds(blocks: map<int, BlockRow>, n: nat, top: int, limit: nat, more: nat)
    requires Contiguous(blocks, n) && -1 <= top < n && top < limit
    ensures Downwards(blocks, top, limit + more) == Downwards(blocks, top, limit)
    decreases limit
  {
    if top >= 0 { DownwardsEnds(blocks, n, top - 1, limit - 1, more); }
  }

  lemma {:induction false} SummariesAt(blocks: map<int, BlockRow>, heights: seq<int>, i: nat)
    requires (forall h :: h in heights ==> h in blocks) && i < |heights|
    ensures SummariesOf(blocks, heights)[i] == SummaryOf(heights[i], blocks[heights[i]])
  {
    if i > 0 { SummariesAt(blocks, heights[1..], i - 1); }
  }

  /** The height the query starts from. */
  function TopOf(n: nat, before: Option<int>): int {
    if before.Some? && before.value < n then before.value else n - 1
  }

  ghost function Countdown(top: int): seq<int>
    requires top >= -1
  {
    seq(top + 1, i requires 0 <= i < top + 1 => top - i)
  }

  lemma SelectedCountsDown(blocks: map<int, BlockRow>, n: nat, before: Option<int>)
    requires Contiguous(blocks, n) && (before.Some? ==> before.value >= -1)
    ensures Listing(Selected(blocks, before), HighestFirst()) == Countdown(TopOf(n, before))
  {
    var top, s := TopOf(n, before), Selected(blocks, before);
    forall h
      ensures h in s <==> h in Countdown(top)
    {
      assert h in s <==> 0 <= h <= top;
      if 0 <= h <= top {
        assert Countdown(top)[top - h] == h;
      }
    }
    ListingIsUnique(s, HighestFirst(), Countdown(top));
  }

  lemma QueryGoesDown(blocks: map<int, BlockRow>, n: nat, before: Option<int>, count: nat)
    requires Contiguous(blocks, n) && (before.Some? ==> before.value >= -1)
    ensures BlockRows(blocks, before, count) == Downwards(blocks, TopOf(n, before), count)
  {
    var top := TopOf(n, before);
    var heights := Slice(Countdown(top), count, 0);
    SelectedCountsDown(blocks, n, before);
    DownwardsAt(blocks, n, top, count);
    assert BlockRows(blocks, before, count) == SummariesOf(blocks, heights);
    forall i | 0 <= i < |heights|
      ensures SummariesOf(blocks, heights)[i] == Downwards(blocks, top, count)[i]
    {
      SummariesAt(blocks, heights, i);
    }
  }

  /** One call of the list: the table it read, of n blocks, and the page size asked for. */
  datatype View = View(blocks: map<int, BlockRow>, n: nat, limit: nat)

  /** Following NextCursor from call to call. */
  ghost function Walk(views: seq<View>, before: Option<int>): Reading<BlockSummary>
    decreases |views|
  {
    if views == [] then Reading([], false)
    else
      var v := views[0];
      var (out, page) := PageOf(|v.blocks|, BlockRows(v.blocks, before, v.limit + 1), v.limit);
      if page.nextCursor.None? then Reading(out, true)
      else
        var later := Walk(views[1..], page.nextCursor);
        Reading(out + later.rows, later.finished)
  }

  /** From the n blocks of `blocks` on, tables only grow, and every call asks for something. */
  ghost predicate Rising(blocks: map<int, BlockRow>, n: nat, views: seq<View>)
    decreases |views|
  {
    views != [] ==>
      && Contiguous(views[0].blocks, views[0].n) && n <= views[0].n
      && SameBelow(blocks, views[0].blocks, n)
      && views[0].limit >= 1
      && Rising(views[0].blocks, views[0].n, views[1..])
  }

  function LimitsOf(views: seq<View>): (limits: seq<nat>)
    decreases |views|
  {
    if views == [] then [] else [views[0].limit] + LimitsOf(views[1..])
  }

  /** One page below `top`, and the cursor to the rest. */
  lemma PageGoesDown(blocks: map<int, BlockRow>, n: nat, top: int, total: int, limit: nat)
    requires Contiguous(blocks, n) && -1 <= top < n
    ensures PageOf(total, Downwards(blocks, top, limit + 1), limit).0 == Downwards(blocks, top, limit)
    ensures PageOf(total, Downwards(blocks, top, limit + 1), limit).1.nextCursor
            == if top + 1 > limit then Some(top - limit) else None
  {
    var rows := Downwards(blocks, top, limit + 1);
    DownwardsAt(blocks, n, top, limit + 1);
    DownwardsAt(blocks, n, top, limit);
    if top + 1 > limit {
      DownwardsSplits(blocks, n, top, limit, 1);
      assert rows[..limit] == Downwards(blocks, top, limit);
    } else {
      DownwardsEnds(blocks, n, top, limit, 1);
    }
  }

  /** What one call of the list returns in a store of n blocks. */
  lemma VisitGoesDown(blocks: map<int, BlockRow>, n: nat, before: Option<int>, total: int, limit: nat)
    requires Contiguous(blocks, n) && (before.Some? ==> before.value >= -1)
    ensures var (out, page) := PageOf(total, BlockRows(blocks, before, limit + 1), limit);
            && out == Downwards(blocks, TopOf(n, before), limit)
            && page.nextCursor == if TopOf(n, before) + 1 > limit then Some(TopOf(n, before) - limit) else None
  {
    QueryGoesDown(blocks, n, before, limit + 1);
    PageGoesDown(blocks, n, TopOf(n, before), total, limit);
  }

  /** What one call contributes to the walk. */
  lemma WalkUnfolds(views: seq<View>, before: Option<int>, top: int)
    requires views != [] && Contiguous(views[0].blocks, views[0].n) && (before.Some? ==> before.value >= 0)
    requires top == TopOf(views[0].n, before)
    ensures Walk(views, before) ==
            var v := views[0];
            if top + 1 > v.limit then
              var later := Walk(views[1..], Some(top - v.limit));
              Reading(Downwards(v.blocks, top, v.limit) + later.rows, later.finished)
            else Reading(Downwards(v.blocks, top, v.limit), true)
  {
    VisitGoesDown(views[0].blocks, views[0].n, before, |views[0].blocks|, views[0].limit);
  }

  lemma LimitsTail(views: seq<View>)
    requires views != []
    ensures Sum(LimitsOf(views)) == views[0].limit + Sum(LimitsOf(views[1..]))
  {
    assert LimitsOf(views)[1..] == LimitsOf(views[1..]);
  }

  /** A walk whose next call starts at `top`, a height below n. */
  lemma {:induction false} WalkFrom(blocks: map<int, BlockRow>, n: nat, before: Option<int>, top: int, views: seq<View>)
    requires Contiguous(blocks, n) && Rising(blocks, n, views) && -1 <= top < n && (before.Some? ==> before.value >= 0)
    requires views != [] ==> top == TopOf(views[0].n, before)
    ensures var r := Walk(views, before);
            && r.rows == Downwards(blocks, top, Sum(LimitsOf(views)))
            && (r.finished <==> views != [] && Sum(LimitsOf(views)) >= top + 1)
    decreases |views|
  {
    if views != [] {
      var v, rest := views[0], Sum(LimitsOf(views[1..]));
      WalkUnfolds(views, before, top);
      LimitsTail(views);
      DownwardsSame(blocks, v.blocks, n, top, v.limit + rest);
      if top + 1 > v.limit {
        var below := top - v.limit;
        WalkFrom(v.blocks, v.n, Some(below), below, views[1..]);
        DownwardsSplits(v.blocks, v.n, top, v.limit, rest);
      } else {
        DownwardsEnds(v.blocks, v.n, top, v.limit, rest);
      }
    }
  }

  // ----- the walk beside a working indexer

  /** What happens to the store before a call of the list, and the page size of the call. */
  datatype Visit = Visit(events: seq<Event>, limit: nat)

  ghost predicate NoRollback(es: seq<Event>) {
    forall i :: 0 <= i < |es| ==> !es[i].RollbackTip?
  }

  /** Without rollbacks the chain is only extended. */
  lemma {:induction false} ChainGrows(d: Database, es: seq<Event>, cfg: Config)
    requires NoRollback(es)
    ensures d.chain <= AfterAll(d, es, cfg).chain
    decreases |es|
  {
    if es != [] {
      AfterIs(d, es[0], cfg);
      ChainGrows(After(d, es[0], cfg), es[1..], cfg);
    }
  }

  lemma SameChainSameRows(blocks: map<int, BlockRow>, blocks': map<int, BlockRow>, c: seq<Block>, c': seq<Block>,
                          cfg: Config)
    requires RowsOf(blocks, c, cfg) && RowsOf(blocks', c', cfg) && c <= c'
    ensures SameBelow(blocks, blocks', |c|)
  {
    forall h | 0 <= h < |c|
      ensures h in blocks && h in blocks' && blocks'[h] == blocks[h]
    {
      assert c'[h] == c[h];
    }
  }

  lemma EventsGrow(d: Database, es: seq<Event>, cfg: Config)
    requires Filed(d.t, d.chain, cfg) && NoRollback(es) && Orderly(d, es, cfg)
    ensures var d' := AfterAll(d, es, cfg);
            && Filed(d'.t, d'.chain, cfg) && |d.chain| <= |d'.chain|
            && Contiguous(d'.t.blocks, |d'.chain|)
            && SameBelow(d.t.blocks, d'.t.blocks, |d.chain|)
  {
    var d' := AfterAll(d, es, cfg);
    ChainGrows(d, es, cfg);
    OrderlyRun(d, es, cfg);
    SameChainSameRows(d.t.blocks, d'.t.blocks, d.chain, d'.chain, cfg);
  }

  /** Between the calls blocks are only added, and every call asks for something. */
  ghost predicate Growing(d: Database, visits: seq<Visit>, cfg: Config)
    decreases |visits|
  {
    visits != [] ==>
      && NoRollback(visits[0].events) && Orderly(d, visits[0].events, cfg)
      && visits[0].limit >= 1
      && Growing(AfterAll(d, visits[0].events, cfg), visits[1..], cfg)
  }

  /** The tables the calls read. */
  ghost function ViewsOf(d: Database, visits: seq<Visit>, cfg: Config): (views: seq<View>)
    ensures |views| == |visits|
    decreases |visits|
  {
    if visits == [] then []
    else
      var d' := AfterAll(d, visits[0].events, cfg);
      [View(d'.t.blocks, |d'.chain|, visits[0].limit)] + ViewsOf(d', visits[1..], cfg)
  }

  lemma {:induction false} ViewsRise(d: Database, visits: seq<Visit>, cfg: Config)
    requires Filed(d.t, d.chain, cfg) && Growing(d, visits, cfg)
    ensures Rising(d.t.blocks, |d.chain|, ViewsOf(d, visits, cfg))
    decreases |visits|
  {
    if visits != [] {
      var d' := AfterAll(d, visits[0].events, cfg);
      EventsGrow(d, visits[0].events, cfg);
      ViewsRise(d', visits[1..], cfg);
      assert ViewsOf(d, visits, cfg)[1..] == ViewsOf(d', visits[1..], cfg);
    }
  }

  lemma {:induction false} RisingViews(d: Database, visits: seq<Visit>, cfg: Config) returns (views: seq<View>)
    requires Filed(d.t, d.chain, cfg) && visits != [] && visits[0].events == [] && Growing(d, visits, cfg)
    ensures views == ViewsOf(d, visits, cfg) && views != [] && views[0].n == |d.chain|
    ensures Contiguous(d.t.blocks, |d.chain|) && Rising(d.t.blocks, |d.chain|, views)
  {
    ViewsRise(d, visits, cfg);
    views := ViewsOf(d, visits, cfg);
  }

  /** The walk lists the n blocks from the top downwards as far as the page sizes reach, and ends when that is all. */
  ghost predicate ListsDownwards(blocks: map<int, BlockRow>, n: nat, views: seq<View>) {
    var r, asked := Walk(views, None), Sum(LimitsOf(views));
    && Contiguous(blocks, n)
    && r.rows == Downwards(blocks, n - 1, asked)
    && (r.finished <==> asked >= n)
    && (r.finished ==> |r.rows| == n && forall h :: 0 <= h < n ==> r.rows[n - 1 - h] == SummaryOf(h, blocks[h]))
  }

  /**
   Following NextCursor while batches go on being applied: the walk lists the blocks from the tip of
   the first call downwards, each once, none skipped, and it is over exactly when the page sizes cover them.
   */
  lemma {:induction false} StableCursorWalk(d: Database, visits: seq<Visit>, cfg: Config)
    requires Filed(d.t, d.chain, cfg) && visits != [] && visits[0].events == [] && Growing(d, visits, cfg)
    ensures ListsDownwards(d.t.blocks, |d.chain|, ViewsOf(d, visits, cfg))
  {
    var views := RisingViews(d, visits, cfg);
    WalkIsComplete(d.t.blocks, |d.chain|, views);
  }

  lemma {:induction false} WalkIsComplete(blocks: map<int, BlockRow>, n: nat, views: seq<View>)
    requires Contiguous(blocks, n) && views != [] && views[0].n == n && Rising(blocks, n, views)
    ensures ListsDownwards(blocks, n, views)
  {
    WalkFrom(blocks, n, None, n - 1, views);
    if Sum(LimitsOf(views)) >= n { AllDownwards(blocks, n, Sum(LimitsOf(views))); }
  }

  /** With room for all of them every block is listed, at its place. */
  lemma AllDownwards(blocks: map<int, BlockRow>, n: nat, count: nat)
    requires Contiguous(blocks, n) && count >= n
    ensures var rows := Downwards(blocks, n - 1, count);
            |rows| == n && forall h :: 0 <= h < n ==> rows[n - 1 - h] == SummaryOf(h, blocks[h])
  {
    DownwardsAt(blocks, n, n - 1, count);
    forall h | 0 <= h < n
      ensures Downwards(blocks, n - 1, count)[n - 1 - h] == SummaryOf(h, blocks[h])
    {
      ListedAt(blocks, n, count, h, n - 1 - h);
    }
  }

  lemma ListedAt(blocks: map<int, BlockRow>, n: nat, count: nat, h: nat, i: nat)
    requires Contiguous(blocks, n) && count >= n && h < n && i == n - 1 - h
    ensures |Downwards(blocks, n - 1, count)| == n && Downwards(blocks, n - 1, count)[i] == SummaryOf(h, blocks[h])
  {
    DownwardsAt(blocks, n, n - 1, count);
  }

  // ----- transactionsInBlock

  /** WHERE height = h. */
  function InBlock(transactions: map<string, TxRow>, h: int): set<string> {
    set x | x in transactions && transactions[x].height == h
  }

  function PositionOf(transactions: map<string, TxRow>, x: string): int {
    if x in transactions then transactions[x].position else 0
  }

  /** ORDER BY position. */
  function ByPosition(transactions: map<string, TxRow>): (string, string) -> bool {
    (a: string, b: string) => PositionOf(transactions, a) < PositionOf(transactions, b)
  }

  function TxidsOf(b: Block): seq<string> {
    seq(|b.txs|, i requires 0 <= i < |b.txs| => b.txs[i].txid)
  }

  lemma BlockListing(c: seq<Block>, cfg: Config, h: nat)
    requires Consecutive(c, 0) && Index(c, cfg).Some? && h < |c|
    ensures var txs := Index(c, cfg).value.transactions;
            && Orders(ByPosition(txs), InBlock(txs, h))
            && Listing(InBlock(txs, h), ByPosition(txs)) == TxidsOf(c[h])
            && |InBlock(txs, h)| == |c[h].txs|
  {
    var txs := Index(c, cfg).value.transactions;
    var s, less := InBlock(txs, h), ByPosition(txs);
    forall x | x in s
      ensures 0 <= txs[x].position < |c[h].txs| && c[h].txs[txs[x].position].txid == x && x in TxidsOf(c[h])
    {
      RowIsPlaced(c, cfg, x);
      assert TxidsOf(c[h])[txs[x].position] == x;
    }
    forall i | 0 <= i < |c[h].txs|
      ensures c[h].txs[i].txid in s && txs[c[h].txs[i].txid].position == i
    {
      PlaceIsFiled(c, cfg, h, i);
    }
    ListingIsUnique(s, less, TxidsOf(c[h]));
    ListingLists(s, less);
  }

  /** In every reachable index, the pages of a block's transactions list the block of the chain, in its own order. */
  lemma BlockPagesListTheBlock(es: seq<Event>, cfg: Config, h: nat, limits: seq<nat>)
    requires Admissible(Database(EMPTY, []), es, cfg)
    requires h < |AfterAll(Database(EMPTY, []), es, cfg).chain| && limits != []
    requires Usable(limits, |AfterAll(Database(EMPTY, []), es, cfg).chain[h].txs|)
    ensures var d := AfterAll(Database(EMPTY, []), es, cfg);
            var s, less := InBlock(d.t.transactions, h), ByPosition(d.t.transactions);
            && Orders(less, s)
            && var r := FollowOffsets(Listing(s, less), 0, limits);
               && r.rows == TxidsOf(d.chain[h])[..Min(Sum(limits), |d.chain[h].txs|)]
               && (r.finished <==> Sum(limits) >= |d.chain[h].txs|)
  {
    EmptyWellFormed();
    RunHolds(Database(EMPTY, []), es, cfg);
    var d := AfterAll(Database(EMPTY, []), es, cfg);
    BlockListing(d.chain, cfg, h);
    FollowingOffsetsListsAll(TxidsOf(d.chain[h]), limits);
  }
}
