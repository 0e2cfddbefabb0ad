/**
 What the explorer says about one address (explorer/queries_more.go): its balances, its unspent
 outputs page by page, and its transactions page by page.
 */
module AddressReader {
  import opened Common
  import opened ChainModel
  import opened Tables
  import opened Invariants
  import opened History
  import opened Exactness
  import opened Mirror
  import opened Listings

  // ----- addressUTXOs

  /** WHERE address = ? AND spent_txid IS NULL. */
  function Unspent(outputs: map<OutPoint, OutputRow>, address: string): set<OutPoint> {
    set k | k in outputs && outputs[k].address == Some(address) && outputs[k].spent.None?
  }

  function HeightOf(outputs: map<OutPoint, OutputRow>, k: OutPoint): int {
    if k in outputs then outputs[k].height else 0
  }

  predicate NewerFirst(outputs: map<OutPoint, OutputRow>, a: OutPoint, b: OutPoint) {
    var x, y := HeightOf(outputs, a), HeightOf(outputs, b);
    x > y || (x == y && (TextBefore(a.txid, b.txid) || (a.txid == b.txid && a.vout < b.vout)))
  }

  /** ORDER BY height DESC, txid, vout. */
  function UtxoOrder(outputs: map<OutPoint, OutputRow>): (OutPoint, OutPoint) -> bool {
    (a: OutPoint, b: OutPoint) => NewerFirst(outputs, a, b)
  }

  lemma UtxoOrderOrders(outputs: map<OutPoint, OutputRow>, s: set<OutPoint>)
    ensures Orders(UtxoOrder(outputs), s)
  {
    forall a, b | a in s && b in s
      ensures NewerFirst(outputs, a, b) ==> !NewerFirst(outputs, b, a)
      ensures NewerFirst(outputs, a, b) || NewerFirst(outputs, b, a) || a == b
    {
      TextDecides(a.txid, b.txid);
    }
    forall a, b, c | a in s && b in s && c in s && NewerFirst(outputs, a, b) && NewerFirst(outputs, b, c)
      ensures NewerFirst(outputs, a, c)
    {
      if TextBefore(a.txid, b.txid) && TextBefore(b.txid, c.txid) { TextChains(a.txid, b.txid, c.txid); }
    }
  }

  /** The unspent outputs of an address, in the order the pages show them. */
  ghost function UtxoListing(outputs: map<OutPoint, OutputRow>, address: string): seq<OutPoint> {
    UtxoOrderOrders(outputs, Unspent(outputs, address));
    Listing(Unspent(outputs, address), UtxoOrder(outputs))
  }

  datatype Utxo = Utxo(k: OutPoint, height: int, asset: Option<string>, assetCommitment: Option<string>,
                       valueSats: Option<int>, valueCommitment: Option<string>, confidential: bool)

  function UtxoOf(k: OutPoint, r: OutputRow): Utxo {
    Utxo(k, r.height, r.asset, r.assetCommitment, r.valueSats, r.valueCommitment, r.valueSats.None?)
  }

  /** addressUTXOs, on the answers of its two statements. */
  method AddressUtxos(total: int, rows: seq<(OutPoint, OutputRow)>, limit: int, offset: int)
    returns (out: seq<Utxo>, page: Page)
    ensures |out| == |rows| && forall i :: 0 <= i < |rows| ==> out[i] == UtxoOf(rows[i].0, rows[i].1)
    ensures page == MakePage(limit, offset, total)
  {
    out := [];
    for i := 0 to |rows|
      invariant |out| == i && forall j :: 0 <= j < i ==> out[j] == UtxoOf(rows[j].0, rows[j].1)
    {
      var r := rows[i].1;
      var u := Utxo(rows[i].0, r.height, r.asset, r.assetCommitment, r.valueSats, r.valueCommitment, false);
      out := out + [u.(confidential := u.valueSats.None?)];
    }
    page := MakePage(limit, offset, total);
  }

  /** Following NextOffset lists every unspent output of the address once, newest first, and then stops. */
  lemma UtxoPagesListUnspent(outputs: map<OutPoint, OutputRow>, address: string, limits: seq<nat>)
    requires limits != [] && Usable(limits, |Unspent(outputs, address)|)
    ensures var r := FollowOffsets(UtxoListing(outputs, address), 0, limits);
            && (r.finished <==> Sum(limits) >= |Unspent(outputs, address)|)
            && (r.finished ==> Ordered(r.rows, UtxoOrder(outputs)) && Lists(r.rows, Unspent(outputs, address)))
            && (r.finished ==> |r.rows| == |Unspent(outputs, address)|)
  {
    UtxoOrderOrders(outputs, Unspent(outputs, address));
    ListingLists(Unspent(outputs, address), UtxoOrder(outputs));
    FollowingOffsetsListsAll(UtxoListing(outputs, address), limits);
  }

  // ----- addressSummary

  /** Rows of one group: WHERE address = ? AND asset IS NOT NULL AND value_sats IS NOT NULL GROUP BY asset. */
  predicate InGroup(r: OutputRow, address: string, asset: string) {
    r.address == Some(address) && r.asset == Some(asset) && r.valueSats.Some?
  }

  ghost function ReceivedBy(outputs: map<OutPoint, OutputRow>, address: string, asset: string): map<OutPoint, int> {
    map k | k in outputs && InGroup(outputs[k], address, asset) :: outputs[k].valueSats.value
  }

  ghost function SpentBy(outputs: map<OutPoint, OutputRow>, address: string, asset: string): map<OutPoint, int> {
    map k | k in outputs && InGroup(outputs[k], address, asset)
      :: if outputs[k].spent.Some? then outputs[k].valueSats.value else 0
  }

  datatype Group = Group(asset: string, received: int, spent: int, outputCount: int, unspentCount: int)

  datatype AssetBalance = AssetBalance(group: Group, balance: int)

  ghost function GroupOf(outputs: map<OutPoint, OutputRow>, address: string, asset: string): Group {
    Group(
      asset,
      SumValues(ReceivedBy(outputs, address, asset)),
      SumValues(SpentBy(outputs, address, asset)),
      |ReceivedBy(outputs, address, asset)|,
      |set k | k in outputs && InGroup(outputs[k], address, asset) && outputs[k].spent.None?|)
  }

  /** A sum outside the 64-bit range fails the statement instead. */
  ghost predicate IsGroup(outputs: map<OutPoint, OutputRow>, address: string, g: Group) {
    && g == GroupOf(outputs, address, g.asset)
    && (exists k :: k in outputs && InGroup(outputs[k], address, g.asset))
    && FitsInt64(g.received) && FitsInt64(g.spent)
  }

  /** The rows of the balance statement: one per asset, largest received amount first. */
  ghost predicate IsGroupQuery(outputs: map<OutPoint, OutputRow>, address: string, rows: seq<Group>) {
    && (forall i :: 0 <= i < |rows| ==> IsGroup(outputs, address, rows[i]))
    && (forall i, j :: 0 <= i < j < |rows| ==> rows[i].asset != rows[j].asset && rows[i].received >= rows[j].received)
    && (forall k ::
        k in outputs && outputs[k].address == Some(address) && outputs[k].asset.Some? && outputs[k].valueSats.Some? ==>
          exists i :: 0 <= i < |rows| && rows[i].asset == outputs[k].asset.value)
  }

  function BalanceOf(g: Group): AssetBalance {
    AssetBalance(g, WrapInt64(g.received - g.spent))
  }

  datatype Counts = Counts(transactions: int, outputs: int, unspent: int, confidential: int)

  datatype Summary = Summary(address: string, counts: Counts, balances: seq<AssetBalance>)

  /** addressSummary, on the answers of its two statements; nothing known about the address is an error. */
  method AddressSummary(address: string, counts: Counts, rows: seq<Group>) returns (summary: Option<Summary>)
    ensures summary.None? <==> counts.outputs == 0 && counts.transactions == 0
    ensures summary.Some? ==>
              && summary.value.address == address && summary.value.counts == counts
              && |summary.value.balances| == |rows|
              && forall i :: 0 <= i < |rows| ==> summary.value.balances[i] == BalanceOf(rows[i])
  {
    if counts.outputs == 0 && counts.transactions == 0 {
      return None;
    }
    var balances := [];
    for i := 0 to |rows|
      invariant |balances| == i && forall j :: 0 <= j < i ==> balances[j] == BalanceOf(rows[j])
    {
      var b := AssetBalance(rows[i], 0);
      b := b.(balance := WrapInt64(b.group.received - b.group.spent));
      balances := balances + [b];
    }
    summary := Some(Summary(address, counts, balances));
  }

  // ----- balances against pages

  /** What a listed output shows of an asset: its explicit amount, or nothing. */
  function ShownOf(outputs: map<OutPoint, OutputRow>, asset: string, k: OutPoint): int {
    if k in outputs && outputs[k].asset == Some(asset) then OrZero(outputs[k].valueSats) else 0
  }

  /** The amounts of an asset added up over a list of outputs. */
  function PageSum(outputs: map<OutPoint, OutputRow>, asset: string, rows: seq<OutPoint>): int {
    if rows == [] then 0 else ShownOf(outputs, asset, rows[0]) + PageSum(outputs, asset, rows[1..])
  }

  ghost function ShownBy(outputs: map<OutPoint, OutputRow>, asset: string, s: set<OutPoint>): map<OutPoint, int> {
    map k | k in s :: ShownOf(outputs, asset, k)
  }

  /** Adding up along an ordered list is adding up over the set it lists. */
  lemma {:induction false} PageSumIsSum(outputs: map<OutPoint, OutputRow>, asset: string, less: (OutPoint,
                                        OutPoint) -> bool,
                                        rows: seq<OutPoint>, s: set<OutPoint>)
    requires Orders(less, s) && Ordered(rows, less) && Lists(rows, s)
    ensures PageSum(outputs, asset, rows) == SumValues(ShownBy(outputs, asset, s))
    decreases |rows|
  {
    if rows == [] {
      assert s == {} by { assert forall k :: k in s ==> k in rows; }
      assert ShownBy(outputs, asset, s) == map[];
    } else {
      RestLists(s, less, rows);
      var k, rest := rows[0], s - {rows[0]};
      PageSumIsSum(outputs, asset, less, rows[1..], rest);
      assert k in s;
      SumValuesRemove(ShownBy(outputs, asset, s), k);
      assert ShownBy(outputs, asset, s) - {k} == ShownBy(outputs, asset, rest);
    }
  }

  /** Received minus spent is what the unspent outputs show. */
  lemma NetIsUnspent(outputs: map<OutPoint, OutputRow>, address: string, asset: string)
    ensures SumValues(ReceivedBy(outputs, address, asset)) - SumValues(SpentBy(outputs, address, asset))
            == SumValues(ShownBy(outputs, asset, Unspent(outputs, address)))
  {
    var received, spent := ReceivedBy(outputs, address, asset), SpentBy(outputs, address, asset);
    var net := map k | k in outputs && InGroup(outputs[k], address, asset)
      :: if outputs[k].spent.Some? then 0 else outputs[k].valueSats.value;
    var kept := map k | k in outputs && InGroup(outputs[k], address, asset) && outputs[k].spent.None?
      :: outputs[k].valueSats.value;
    SumValuesMinus(received, spent, net);
    SumValuesDropZeros(kept, net);
    SumValuesDropZeros(kept, ShownBy(outputs, asset, Unspent(outputs, address)));
  }

  /**
   The balance of an address equals what its unspent-output pages add up to: as mathematical
   numbers always, and as the reported 64-bit number exactly when the sum fits.
   */
  lemma BalanceEqualsPages(outputs: map<OutPoint, OutputRow>, address: string, rows: seq<Group>, i: nat,
                           limits: seq<nat>)
    requires IsGroupQuery(outputs, address, rows) && i < |rows|
    requires limits != [] && Usable(limits, |Unspent(outputs, address)|)
    ensures var r := FollowOffsets(UtxoListing(outputs, address), 0, limits);
            r.finished ==>
              var shown := PageSum(outputs, rows[i].asset, r.rows);
              && rows[i].received - rows[i].spent == shown
              && (BalanceOf(rows[i]).balance == shown <==> FitsInt64(shown))
  {
    var asset := rows[i].asset;
    assert IsGroup(outputs, address, rows[i]);
    UtxoPagesListUnspent(outputs, address, limits);
    UtxoOrderOrders(outputs, Unspent(outputs, address));
    var r := FollowOffsets(UtxoListing(outputs, address), 0, limits);
    if r.finished {
      PageSumIsSum(outputs, asset, UtxoOrder(outputs), r.rows, Unspent(outputs, address));
      NetIsUnspent(outputs, address, asset);
    }
  }

  lemma {:induction false} ZerosSumToZero(outputs: map<OutPoint, OutputRow>, asset: string, rows: seq<OutPoint>)
    requires forall k :: k in rows ==> ShownOf(outputs, asset, k) == 0
    ensures PageSum(outputs, asset, rows) == 0
    decreases |rows|
  {
    if rows != [] {
      assert rows[0] in rows;
      ZerosSumToZero(outputs, asset, rows[1..]);
    }
  }

  /** An asset the balances leave out adds up to nothing on the pages. */
  lemma NoBalanceShowsNothing(outputs: map<OutPoint, OutputRow>, address: string, rows: seq<Group>, asset: string,
                              limits: seq<nat>)
    requires IsGroupQuery(outputs, address, rows) && forall i :: 0 <= i < |rows| ==> rows[i].asset != asset
    requires limits != [] && Usable(limits, |Unspent(outputs, address)|)
    ensures var r := FollowOffsets(UtxoListing(outputs, address), 0, limits);
            r.finished ==> PageSum(outputs, asset, r.rows) == 0
  {
    UtxoPagesListUnspent(outputs, address, limits);
    var r := FollowOffsets(UtxoListing(outputs, address), 0, limits);
    if r.finished {
      forall k | k in r.rows
        ensures ShownOf(outputs, asset, k) == 0
      {
        assert k in Unspent(outputs, address);
      }
      ZerosSumToZero(outputs, asset, r.rows);
    }
  }

  // ----- addressTransactions

  /** WHERE a.address = ?, joined with the transactions. */
  function TxidsAt(t: Tables, address: string): set<string> {
    set q | q in t.addressTxs && q.address == address && q.txid in t.transactions :: q.txid
  }

  /** What COUNT(*) counts, without the join. */
  function RowsAt(t: Tables, address: string): set<AddressKey> {
    set q | q in t.addressTxs && q.address == address
  }

  predicate LaterFirst(t: Tables, address: string, a: string, b: string) {
    var x, y := AddressKey(address, a), AddressKey(address, b);
    && x in t.addressTxs && y in t.addressTxs
    && (t.addressTxs[x].height > t.addressTxs[y].height
        || (t.addressTxs[x].height == t.addressTxs[y].height && t.addressTxs[x].position > t.addressTxs[y].position))
  }

  /** ORDER BY a.height DESC, a.position DESC. */
  function HistoryOrder(t: Tables, address: string): (string, string) -> bool {
    (a: string, b: string) => LaterFirst(t, address, a, b)
  }

  /** No two transactions of a chain share a place. */
  lemma PlaceIsUnique(c: seq<Block>, cfg: Config, address: string, a: string, b: string)
    requires Consecutive(c, 0) && Index(c, cfg).Some? && AddressExact(Index(c, cfg).value)
    requires var t := Index(c, cfg).value;
             AddressKey(address, a) in t.addressTxs && AddressKey(address, b) in t.addressTxs
    ensures var t := Index(c, cfg).value;
            t.addressTxs[AddressKey(address, a)] == t.addressTxs[AddressKey(address, b)] ==> a == b
  {
    var t := Index(c, cfg).value;
    assert RowPlaced(t, AddressKey(address, a)) && RowPlaced(t, AddressKey(address, b));
    RowIsPlaced(c, cfg, a);
    RowIsPlaced(c, cfg, b);
  }

  lemma HistoryOrders(c: seq<Block>, cfg: Config, address: string)
    requires Consecutive(c, 0) && Index(c, cfg).Some? && AddressExact(Index(c, cfg).value)
    ensures Orders(HistoryOrder(Index(c, cfg).value, address), TxidsAt(Index(c, cfg).value, address))
  {
    var t := Index(c, cfg).value;
    var s := TxidsAt(t, address);
    forall a, b | a in s && b in s
      ensures LaterFirst(t, address, a, b) ==> !LaterFirst(t, address, b, a)
      ensures LaterFirst(t, address, a, b) || LaterFirst(t, address, b, a) || a == b
    {
      assert AddressKey(address, a) in t.addressTxs && AddressKey(address, b) in t.addressTxs;
      PlaceIsUnique(c, cfg, address, a, b);
    }
  }

  /** The join loses no row, so the count the pages are cut by is the number of listed transactions. */
  lemma JoinLosesNothing(t: Tables, address: string)
    requires AddressExact(t)
    ensures forall x :: x in TxidsAt(t, address) <==> Involves(t, AddressKey(address, x))
    ensures |RowsAt(t, address)| == |TxidsAt(t, address)|
  {
    forall x
      ensures x in TxidsAt(t, address) <==> AddressKey(address, x) in t.addressTxs
    {
      if AddressKey(address, x) in t.addressTxs { assert RowPlaced(t, AddressKey(address, x)); }
    }
    SameCount(RowsAt(t, address), TxidsAt(t, address), address);
  }

  lemma {:induction false} SameCount(keys: set<AddressKey>, txids: set<string>, address: string)
    requires forall q :: q in keys ==> q.address == address && q.txid in txids
    requires forall x :: x in txids ==> AddressKey(address, x) in keys
    ensures |keys| == |txids|
    decreases |keys|
  {
    if keys == {} {
      assert txids == {} by { assert forall x :: x in txids ==> AddressKey(address, x) in keys; }
    } else {
      var q :| q in keys;
      SameCount(keys - {q}, txids - {q.txid}, address);
    }
  }

  /**
   In every reachable index whose chain spends soundly, the pages of an address list every transaction
   that pays it or spends from it, each once, latest first, and then stop.
   */
  lemma HistoryPagesListInvolved(es: seq<Event>, cfg: Config, address: string, limits: seq<nat>)
    requires Admissible(Database(EMPTY, []), es, cfg)
    requires SoundChain(AfterAll(Database(EMPTY, []), es, cfg).chain, {})
    requires limits != [] && Usable(limits, |RowsAt(AfterAll(Database(EMPTY, []), es, cfg).t, address)|)
    ensures var t := AfterAll(Database(EMPTY, []), es, cfg).t;
            var s, less := TxidsAt(t, address), HistoryOrder(t, address);
            && Orders(less, s) && |s| == |RowsAt(t, address)|
            && var r := FollowOffsets(Listing(s, less), 0, limits);
               && (r.finished <==> Sum(limits) >= |RowsAt(t, address)|)
               && (r.finished ==> Ordered(r.rows, less) && |r.rows| == |s|)
               && (r.finished ==> forall x :: x in r.rows <==> Involves(t, AddressKey(address, x)))
  {
    EmptyWellFormed();
    RunHolds(Database(EMPTY, []), es, cfg);
    ReachableExact(es, cfg);
    var d := AfterAll(Database(EMPTY, []), es, cfg);
    HoldsWellFormed(d.t, d.chain, cfg);
    JoinLosesNothing(d.t, address);
    var s, less := TxidsAt(d.t, address), HistoryOrder(d.t, address);
    if d.chain == [] {
      assert d.t.addressTxs == map[];
      assert forall x :: x !in s;
    } else {
      HistoryOrders(d.chain, cfg, address);
    }
    ListingLists(s, less);
    FollowingOffsetsListsAll(Listing(s, less), limits);
  }

  /** WHERE address = ?. */
  function PaidTo(outputs: map<OutPoint, OutputRow>, address: string): set<OutPoint> {
    set k | k in outputs && outputs[k].address == Some(address)
  }

  /**
   The counts of an address are both zero, so that it is reported as unknown, exactly when no indexed output
   pays it.
   */
  lemma UnknownMeansUnpaid(t: Tables, address: string)
    requires AddressExact(t)
    ensures |PaidTo(t.outputs, address)| == 0 && |RowsAt(t, address)| == 0
            <==> forall k :: k in t.outputs ==> t.outputs[k].address != Some(address)
  {
    var paid := PaidTo(t.outputs, address);
    if k :| k in t.outputs && t.outputs[k].address == Some(address) {
      assert k in paid;
    } else {
      assert paid == {};
      forall q | q in t.addressTxs
        ensures q.address != address
      {
        assert Involves(t, q);
      }
      assert RowsAt(t, address) == {};
    }
  }
}
