/**
 What a reader finds on the pages, in the fields of the chain: every listed block, output and balance shows what
 the chain says, in the order the page promises.
 */
module Pages {
  import opened Common
  import opened ChainModel
  import opened Tables
  import opened Operations
  import opened Invariants
  import opened History
  import opened Exactness
  import opened Mirror
  import opened Listings
  import opened BlockReader
  import opened AddressReader
  import opened Columns

  /** A page says what was asked for and how much there is; the next offset is the 64-bit sum, while it is below. */
  lemma PageSaysWhatWasAsked(limit: int, offset: int, total: int)
    ensures var page := MakePage(limit, offset, total);
            && page.limit == limit && page.offset == offset && page.total == total && page.nextCursor == None
            && (page.nextOffset.Some? <==> WrapInt64(offset + limit) < total)
            && (page.nextOffset.Some? && FitsInt64(offset + limit) ==> page.nextOffset.value == offset + limit)
  {
  }

  // ----- blocks

  /** The summary shows this block of the chain. */
  ghost predicate ShowsBlock(s: BlockSummary, b: Block, h: int, cfg: Config) {
    && s.height == h && s.hash == b.hash && s.time == b.time && s.txCount == |b.txs| && s.payload == b.payload
    && s.subsidySats == cfg.subsidyAt(h) && s.feesSats == WrapInt64(FeesPaid(b.txs, cfg))
  }

  /** A finished walk over an unchanged index of c shows every block of c, the tip first. */
  lemma {:induction false} WalkShowsChain(c: seq<Block>, cfg: Config, t: Tables, views: seq<View>, h: nat)
    requires Consecutive(c, 0) && Index(c, cfg) == Some(t) && h < |c| && views != []
    requires views[0].n == |c| && Rising(t.blocks, |c|, views) && Walk(views, None).finished
    ensures var r := Walk(views, None);
            |r.rows| == |c| && ShowsBlock(r.rows[|c| - 1 - h], c[h], h, cfg)
  {
    IndexWellFormed(c, cfg);
    WalkIsComplete(t.blocks, |c|, views);
    BlockColumns(c, cfg, h, t);
    var s := RowOfWalk(t.blocks, |c|, views, h);
    RowShowsBlock(t.blocks, c[h], h, cfg, s);
  }

  lemma {:induction false} RowOfWalk(blocks: map<int, BlockRow>, n: nat, views: seq<View>, h: nat)
    returns (s: BlockSummary)
    requires ListsDownwards(blocks, n, views) && Walk(views, None).finished && h < n
    ensures h in blocks && s == SummaryOf(h, blocks[h])
    ensures |Walk(views, None).rows| == n && Walk(views, None).rows[n - 1 - h] == s
  {
    s := SummaryOf(h, blocks[h]);
  }

  lemma RowShowsBlock(blocks: map<int, BlockRow>, b: Block, h: int, cfg: Config, s: BlockSummary)
    requires h in blocks && s == SummaryOf(h, blocks[h])
    requires var r := blocks[h];
             && r.hash == b.hash && r.time == b.time && r.txCount == |b.txs| && r.payload == b.payload
             && r.subsidySats == cfg.subsidyAt(h) && r.feesSats == WrapInt64(FeesPaid(b.txs, cfg))
    ensures ShowsBlock(s, b, h, cfg)
  {
  }

  // ----- unspent outputs

  /** The output j of transaction i of block h has this key. */
  ghost predicate IsOutputAt(c: seq<Block>, k: OutPoint, h: nat, i: nat, j: nat) {
    && h < |c| && i < |c[h].txs| && j < |c[h].txs[i].vout|
    && k == OutPoint(c[h].txs[i].txid, c[h].txs[i].vout[j].n)
  }

  /** Every output row is that of an output of the chain. */
  lemma OutputHasPlace(c: seq<Block>, cfg: Config, t: Tables, k: OutPoint) returns (h: nat, i: nat, j: nat)
    requires Index(c, cfg) == Some(t) && k in t.outputs
    ensures IsOutputAt(c, k, h, i, j)
  {
    NothingElseIsStored(c, cfg);
    assert OutputFrom(ChainOps(c), k);
    var op :| op in ChainOps(c) && op.NewOutput? && OutPoint(op.p.tx.txid, op.o.n) == k;
    ChainOpsAre(c, op);
    h :| 0 <= h < |c| && IsOpOf(c[h], op);
    i := op.p.position;
    j :| 0 <= j < |op.p.tx.vout| && op.p.tx.vout[j] == op.o;
  }

  /** The entry shows this output of the chain. */
  ghost predicate ShowsOutput(u: Utxo, k: OutPoint, o: Vout, height: int, cfg: Config) {
    && u.k == k && u.height == height
    && TextColumn(u.asset, o.asset) && TextColumn(u.assetCommitment, o.assetCommitment)
    && AmountColumn(u.valueSats, o.value, cfg) && TextColumn(u.valueCommitment, o.valueCommitment)
    && (u.confidential <==> o.value == None)
  }

  /** What the page shows of an output is what the chain says of it: confidential means that no amount is given. */
  lemma UtxoShowsOutput(c: seq<Block>, cfg: Config, t: Tables, k: OutPoint) returns (h: nat, i: nat, j: nat)
    requires Index(c, cfg) == Some(t) && k in t.outputs
    ensures IsOutputAt(c, k, h, i, j)
    ensures ShowsOutput(UtxoOf(k, t.outputs[k]), k, c[h].txs[i].vout[j], c[h].height, cfg)
  {
    h, i, j := OutputHasPlace(c, cfg, t, k);
    OutputColumns(c, cfg, h, i, j, t);
  }

  /** The pages of an address go down in height; at one height by transaction id, and within it by output number. */
  lemma UtxosAreNewestFirst(outputs: map<OutPoint, OutputRow>, address: string, limits: seq<nat>, i: nat, j: nat)
    requires limits != [] && Usable(limits, |Unspent(outputs, address)|)
    requires var r := FollowOffsets(UtxoListing(outputs, address), 0, limits); r.finished && i < j < |r.rows|
    ensures var rows := FollowOffsets(UtxoListing(outputs, address), 0, limits).rows;
            && rows[i] in outputs && rows[j] in outputs
            && outputs[rows[i]].address == Some(address) && outputs[rows[i]].spent == None
            && outputs[rows[i]].height >= outputs[rows[j]].height
            && (outputs[rows[i]].height == outputs[rows[j]].height ==>
                  TextBefore(rows[i].txid, rows[j].txid) ||
                  (rows[i].txid == rows[j].txid && rows[i].vout < rows[j].vout))
  {
    UtxoPagesListUnspent(outputs, address, limits);
    var rows := FollowOffsets(UtxoListing(outputs, address), 0, limits).rows;
    assert rows[i] in rows && rows[j] in rows;
    assert UtxoOrder(outputs)(rows[i], rows[j]);
  }

  // ----- address history

  /** An ordered history goes down in height, and within a block down in position. */
  lemma HistoryIsLatestFirst(t: Tables, address: string, rows: seq<string>, i: nat, j: nat)
    requires Ordered(rows, HistoryOrder(t, address)) && i < j < |rows|
    ensures var a, b := AddressKey(address, rows[i]), AddressKey(address, rows[j]);
            && a in t.addressTxs && b in t.addressTxs
            && t.addressTxs[a].height >= t.addressTxs[b].height
            && (t.addressTxs[a].height == t.addressTxs[b].height ==>
                  t.addressTxs[a].position > t.addressTxs[b].position)
  {
    assert HistoryOrder(t, address)(rows[i], rows[j]);
  }

  // ----- balances

  /** The output pays the address an explicit amount of the asset. */
  ghost predicate PaysExplicitly(outputs: map<OutPoint, OutputRow>, address: string, asset: string, k: OutPoint) {
    && k in outputs && outputs[k].address == Some(address)
    && outputs[k].asset == Some(asset) && outputs[k].valueSats != None
  }

  ghost predicate ListsOnce(rows: seq<OutPoint>) {
    forall i, j :: 0 <= i < j < |rows| ==> rows[i] != rows[j]
  }

  /** The numbers of the listed outputs added up along the list. */
  ghost function Along(rows: seq<OutPoint>, amount: OutPoint -> int): int {
    if rows == [] then 0 else amount(rows[0]) + Along(rows[1..], amount)
  }

  lemma {:induction false} SumAlong(m: map<OutPoint, int>, rows: seq<OutPoint>, amount: OutPoint -> int)
    requires ListsOnce(rows) && (forall k :: k in m <==> k in rows) && forall k :: k in m ==> m[k] == amount(k)
    ensures SumValues(m) == Along(rows, amount)
    decreases |rows|
  {
    if rows == [] {
      assert m == map[] by { assert forall k :: k in m ==> k in rows; }
    } else {
      var first, rest := rows[0], rows[1..];
      assert first in rows;
      forall k ensures k in m - {first} <==> k in rest {
        if k in rest {
          var i :| 0 <= i < |rest| && rest[i] == k;
          assert rows[i + 1] == k && k in rows;
        }
      }
      forall i, j | 0 <= i < j < |rest| ensures rest[i] != rest[j] { assert rows[i + 1] != rows[j + 1]; }
      SumValuesRemove(m, first);
      SumAlong(m - {first}, rest, amount);
    }
  }

  lemma {:induction false} SizeAlong(s: set<OutPoint>, rows: seq<OutPoint>, one: OutPoint -> int)
    requires ListsOnce(rows) && (forall k :: k in s ==> k in rows)
    requires forall k :: k in rows ==> one(k) == if k in s then 1 else 0
    ensures |s| == Along(rows, one)
    decreases |rows|
  {
    if rows == [] {
      assert s == {} by { assert forall k :: k in s ==> k in rows; }
    } else {
      var first, rest := rows[0], rows[1..];
      assert first in rows;
      forall k | k in rest
        ensures k in rows && k != first
      {
        var i :| 0 <= i < |rest| && rest[i] == k;
        assert rows[i + 1] == k && rows[0] != rows[i + 1];
      }
      forall k | k in s - {first} ensures k in rest {
        var i :| 0 <= i < |rows| && rows[i] == k;
        assert rest[i - 1] == k;
      }
      forall i, j | 0 <= i < j < |rest| ensures rest[i] != rest[j] { assert rows[i + 1] != rows[j + 1]; }
      SizeAlong(s - {first}, rest, one);
    }
  }

  ghost function ExplicitAmount(outputs: map<OutPoint, OutputRow>): OutPoint -> int {
    (k: OutPoint) => if k in outputs then OrZero(outputs[k].valueSats) else 0
  }

  ghost function SpentAmount(outputs: map<OutPoint, OutputRow>): OutPoint -> int {
    (k: OutPoint) => if k in outputs && outputs[k].spent != None then OrZero(outputs[k].valueSats) else 0
  }

  ghost function OneIfUnspent(outputs: map<OutPoint, OutputRow>): OutPoint -> int {
    (k: OutPoint) => if k in outputs && outputs[k].spent == None then 1 else 0
  }

  ghost function One(): OutPoint -> int {
    (k: OutPoint) => 1
  }

  /** A balance row adds up, over the outputs that pay the address explicitly in the asset, each once. */
  ghost predicate AddsUp(outputs: map<OutPoint, OutputRow>, g: Group, rows: seq<OutPoint>) {
    && g.received == Along(rows, ExplicitAmount(outputs)) && g.spent == Along(rows, SpentAmount(outputs))
    && g.outputCount == Along(rows, One()) && g.unspentCount == Along(rows, OneIfUnspent(outputs))
  }

  /** Received, spent and both counts of every balance row, along any list of the outputs it stands for. */
  lemma BalanceAddsUp(outputs: map<OutPoint, OutputRow>, address: string, g: Group, rows: seq<OutPoint>)
    requires IsGroup(outputs, address, g)
    requires ListsOnce(rows) && forall k :: k in rows <==> PaysExplicitly(outputs, address, g.asset, k)
    ensures AddsUp(outputs, g, rows)
  {
    var received, spent := ReceivedBy(outputs, address, g.asset), SpentBy(outputs, address, g.asset);
    var unspent := set k | k in outputs && InGroup(outputs[k], address, g.asset) && outputs[k].spent.None?;
    SumAlong(received, rows, ExplicitAmount(outputs));
    SumAlong(spent, rows, SpentAmount(outputs));
    SizeAlong(received.Keys, rows, One());
    SizeAlong(unspent, rows, OneIfUnspent(outputs));
    assert |received| == |received.Keys|;
  }
}
