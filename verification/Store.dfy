/**
 The store of explorer/store.go: an open SQL transaction whose tables the nested loops
 mutate, and the committed database that a transaction replaces as a whole or not at all.

 Every method is proved to compute the function of the Tables module that carries its name.
 */
module Store {
  import opened Common
  import opened ChainModel
  import opened Tables
  import Spec = Tables

  // ----- the aggregate query

  datatype Aggregate = Aggregate(
    count: int, reissued: int, blindedAssets: int, blindedTokens: int, assetSum: int, tokenSum: int)

  ghost function AggregateOf(issuances: map<InputKey, IssuanceRow>, asset: string): Aggregate {
    Aggregate(
      |IssuanceKeys(issuances, asset)|, |Reissuances(issuances, asset)|,
      |BlindedAssets(issuances, asset)|, |BlindedTokens(issuances, asset)|,
      SumValues(AssetAmounts(issuances, asset)), SumValues(TokenAmounts(issuances, asset)))
  }

  function AddRow(g: Aggregate, r: IssuanceRow): Aggregate {
    Aggregate(
      g.count + 1,
      g.reissued + (if r.isReissuance then 1 else 0),
      g.blindedAssets + (if r.assetSats.None? then 1 else 0),
      g.blindedTokens + (if r.tokenSats.None? then 1 else 0),
      g.assetSum + OrZero(r.assetSats),
      g.tokenSum + OrZero(r.tokenSats))
  }

  lemma OtherAssetRow(seen: map<InputKey, IssuanceRow>, k: InputKey, r: IssuanceRow, asset: string)
    requires k !in seen && r.asset != asset
    ensures AggregateOf(seen[k := r], asset) == AggregateOf(seen, asset)
  {
    var all := seen[k := r];
    assert AssetAmounts(all, asset) == AssetAmounts(seen, asset);
    assert TokenAmounts(all, asset) == TokenAmounts(seen, asset);
    assert IssuanceKeys(all, asset) == IssuanceKeys(seen, asset);
    assert Reissuances(all, asset) == Reissuances(seen, asset);
    assert BlindedAssets(all, asset) == BlindedAssets(seen, asset);
    assert BlindedTokens(all, asset) == BlindedTokens(seen, asset);
  }

  lemma AmountsGrow(seen: map<InputKey, IssuanceRow>, k: InputKey, r: IssuanceRow, asset: string)
    requires k !in seen && r.asset == asset
    ensures AssetAmounts(seen[k := r], asset) == AssetAmounts(seen, asset)[k := OrZero(r.assetSats)]
    ensures TokenAmounts(seen[k := r], asset) == TokenAmounts(seen, asset)[k := OrZero(r.tokenSats)]
  {
  }

  lemma SumsStep(seen: map<InputKey, IssuanceRow>, k: InputKey, r: IssuanceRow, asset: string)
    requires k !in seen && r.asset == asset
    ensures SumValues(AssetAmounts(seen[k := r], asset)) == SumValues(AssetAmounts(seen, asset)) + OrZero(r.assetSats)
    ensures SumValues(TokenAmounts(seen[k := r], asset)) == SumValues(TokenAmounts(seen, asset)) + OrZero(r.tokenSats)
  {
    SumValuesAdd(AssetAmounts(seen, asset), k, OrZero(r.assetSats));
    SumValuesAdd(TokenAmounts(seen, asset), k, OrZero(r.tokenSats));
    AmountsGrow(seen, k, r, asset);
  }

  lemma KeysStep(seen: map<InputKey, IssuanceRow>, k: InputKey, r: IssuanceRow, asset: string)
    requires k !in seen && r.asset == asset
    ensures |IssuanceKeys(seen[k := r], asset)| == |IssuanceKeys(seen, asset)| + 1
  {
    assert IssuanceKeys(seen[k := r], asset) == IssuanceKeys(seen, asset) + {k};
  }

  lemma ReissuancesStep(seen: map<InputKey, IssuanceRow>, k: InputKey, r: IssuanceRow, asset: string)
    requires k !in seen && r.asset == asset
    ensures |Reissuances(seen[k := r], asset)| == |Reissuances(seen, asset)| + (if r.isReissuance then 1 else 0)
  {
    var before, after := Reissuances(seen, asset), Reissuances(seen[k := r], asset);
    if r.isReissuance {
      assert after == before + {k};
    } else {
      assert after == before;
    }
  }

  lemma BlindedAssetsStep(seen: map<InputKey, IssuanceRow>, k: InputKey, r: IssuanceRow, asset: string)
    requires k !in seen && r.asset == asset
    ensures |BlindedAssets(seen[k := r], asset)| == |BlindedAssets(seen, asset)| + (if r.assetSats.None? then 1 else 0)
  {
    var before, after := BlindedAssets(seen, asset), BlindedAssets(seen[k := r], asset);
    if r.assetSats.None? {
      assert after == before + {k};
    } else {
      assert after == before;
    }
  }

  lemma BlindedTokensStep(seen: map<InputKey, IssuanceRow>, k: InputKey, r: IssuanceRow, asset: string)
    requires k !in seen && r.asset == asset
    ensures |BlindedTokens(seen[k := r], asset)| == |BlindedTokens(seen, asset)| + (if r.tokenSats.None? then 1 else 0)
  {
    var before, after := BlindedTokens(seen, asset), BlindedTokens(seen[k := r], asset);
    if r.tokenSats.None? {
      assert after == before + {k};
    } else {
      assert after == before;
    }
  }

  /** One more row visited by the aggregate query of refreshAssets. */
  lemma AggregateStep(seen: map<InputKey, IssuanceRow>, k: InputKey, r: IssuanceRow, asset: string)
    requires k !in seen
    ensures AggregateOf(seen[k := r], asset) ==
            if r.asset == asset then AddRow(AggregateOf(seen, asset), r) else AggregateOf(seen, asset)
  {
    if r.asset == asset {
      SumsStep(seen, k, r, asset);
      KeysStep(seen, k, r, asset);
      ReissuancesStep(seen, k, r, asset);
      BlindedAssetsStep(seen, k, r, asset);
      BlindedTokensStep(seen, k, r, asset);
    } else {
      OtherAssetRow(seen, k, r, asset);
    }
  }

  /** SELECT COUNT(*), SUM(...) FROM issuances WHERE asset_id = ?, rows in any order. */
  method AggregateQuery(issuances: map<InputKey, IssuanceRow>, asset: string) returns (g: Aggregate)
    ensures g == AggregateOf(issuances, asset)
  {
    g := Aggregate(0, 0, 0, 0, 0, 0);
    var todo := issuances.Keys;
    ghost var seen: map<InputKey, IssuanceRow> := map[];
    assert AssetAmounts(seen, asset) == map[] && TokenAmounts(seen, asset) == map[];
    while todo != {}
      invariant todo <= issuances.Keys
      invariant seen == map k | k in issuances && k !in todo :: issuances[k]
      invariant g == AggregateOf(seen, asset)
      decreases todo
    {
      var k :| k in todo;
      AggregateStep(seen, k, issuances[k], asset);
      if issuances[k].asset == asset {
        g := AddRow(g, issuances[k]);
      }
      todo := todo - {k};
      seen := seen[k := issuances[k]];
    }
    assert seen == issuances;
  }

  // ----- small loops

  /** The explicit fees, parsed in whatever order the map is ranged over. */
  method ScanFees(fee: map<string, string>, cfg: Config) returns (fees: Option<map<string, int>>)
    ensures fees == ParseFees(fee, cfg)
  {
    var todo := fee.Keys;
    var found: map<string, int> := map[];
    while todo != {}
      invariant todo <= fee.Keys
      invariant forall a :: a in fee && a !in todo ==> cfg.parseSats(fee[a]).Some?
      invariant found ==
                map a | a in fee && a !in todo && cfg.parseSats(fee[a]).value != 0 :: cfg.parseSats(fee[a]).value
      decreases todo
    {
      var a :| a in todo;
      var sats := cfg.parseSats(fee[a]);
      if sats.None? {
        return None;
      }
      if sats.value != 0 {
        found := found[a := sats.value];
      }
      todo := todo - {a};
    }
    assert found == map a | a in fee && cfg.parseSats(fee[a]).value != 0 :: cfg.parseSats(fee[a]).value;
    fees := Some(found);
  }

  method ScanInputs(vin: seq<Vin>) returns (hasIssuance: bool, hasPegin: bool)
    ensures hasIssuance <==> exists v :: v in vin && v.issuance.Some?
    ensures hasPegin <==> exists v :: v in vin && v.isPegin
  {
    hasIssuance, hasPegin := false, false;
    for i := 0 to |vin|
      invariant hasIssuance <==> exists v :: v in vin[..i] && v.issuance.Some?
      invariant hasPegin <==> exists v :: v in vin[..i] && v.isPegin
    {
      assert vin[..i + 1] == vin[..i] + [vin[i]];
      if vin[i].issuance.Some? { hasIssuance := true; }
      if vin[i].isPegin { hasPegin := true; }
    }
    assert vin[..|vin|] == vin;
  }

  method ScanOutputs(vout: seq<Vout>) returns (hasPegout: bool)
    ensures hasPegout <==> exists o :: o in vout && o.pegoutChain != ""
  {
    hasPegout := false;
    for i := 0 to |vout|
      invariant hasPegout <==> exists o :: o in vout[..i] && o.pegoutChain != ""
    {
      assert vout[..i + 1] == vout[..i] + [vout[i]];
      if vout[i].pegoutChain != "" { hasPegout := true; }
    }
    assert vout[..|vout|] == vout;
  }

  // ----- refreshing asset by asset

  lemma RefreshOneMore(assets: map<string, AssetRow>, issuances: map<InputKey, IssuanceRow>,
                       done: set<string>, a: string)
    requires a !in done
    ensures var rows, more := RefreshedRows(assets, issuances, done), RefreshedRows(assets, issuances, done + {a});
            more == if a in rows then rows[a := RefreshedRow(rows[a], issuances, {a}, a)] else rows
  {
  }

  lemma UnspendThenDelete(o: map<OutPoint, OutputRow>, h: int)
    ensures var cleared := map k | k in o :: Unspend(o[k], h);
            (map k | k in cleared && cleared[k].height != h :: cleared[k]) == OutputsWithout(o, h)
  {
  }

  // ----- an open transaction

  class SqlTransaction {
    var blocks: map<int, BlockRow>
    var transactions: map<string, TxRow>
    var inputs: map<InputKey, InputRow>
    var outputs: map<OutPoint, OutputRow>
    var issuances: map<InputKey, IssuanceRow>
    var assets: map<string, AssetRow>
    var addressTxs: map<AddressKey, AddressRow>
    var meta: Meta

    constructor Begin(t: Tables)
      ensures View() == t
    {
      blocks, transactions, inputs, outputs := t.blocks, t.transactions, t.inputs, t.outputs;
      issuances, assets, addressTxs, meta := t.issuances, t.assets, t.addressTxs, t.meta;
    }

    function View(): Tables
      reads this
    {
      Tables(blocks, transactions, inputs, outputs, issuances, assets, addressTxs, meta)
    }

    method InsertIssuance(p: Placed, vin: int, v: Vin, i: Issuance, cfg: Config, touched: set<string>)
      returns (ok: bool, touched': set<string>)
      modifies this
      ensures Spec.InsertIssuance(Work(old(View()), touched), p, vin, v, i, cfg) ==
              if ok then Some(Work(View(), touched')) else None
    {
      touched' := touched;
      var assetSats := IssuedAmount(i.assetAmount, i.assetAmountCommitment, cfg);
      var tokenSats := IssuedAmount(i.tokenAmount, i.tokenAmountCommitment, cfg);
      var key := InputKey(p.tx.txid, vin);
      if assetSats.None? || tokenSats.None? || key in issuances {
        return false, touched;
      }
      issuances := issuances[key := IssuanceRowOf(p, v, i, assetSats.value, tokenSats.value)];
      touched' := touched + {i.asset};
      if !i.isReissuance && i.asset !in assets {
        assets := assets[i.asset := AssetRow(AnchorOf(p, vin, i, cfg), DEFAULT_TOTALS)];
      }
      ok := true;
    }

    method InsertInput(p: Placed, vin: int, v: Vin, cfg: Config, touched: set<string>)
      returns (ok: bool, touched': set<string>)
      modifies this
      ensures Spec.InsertInput(Work(old(View()), touched), p, vin, v, cfg) ==
              if ok then Some(Work(View(), touched')) else None
    {
      var key := InputKey(p.tx.txid, vin);
      if key in inputs {
        return false, touched;
      }
      inputs := inputs[key := InputRowOf(p, v)];
      if Prevout(v).Some? && Prevout(v).value in outputs {
        var k := Prevout(v).value;
        outputs := outputs[k := outputs[k].(spent := Some(Spend(p.tx.txid, vin, p.block.height)))];
      }
      assert View() == AddInput(old(View()), p, vin, v);
      if v.issuance.Some? {
        ok, touched' := InsertIssuance(p, vin, v, v.issuance.value, cfg, touched);
      } else {
        ok, touched' := true, touched;
      }
    }

    method InsertOutput(p: Placed, o: Vout, cfg: Config, touched: set<string>) returns (ok: bool)
      modifies this
      ensures Spec.InsertOutput(Work(old(View()), touched), p, o, cfg) ==
              if ok then Some(Work(View(), touched)) else None
    {
      var value := ParseOptional(o.value, cfg);
      var key := OutPoint(p.tx.txid, o.n);
      if value.None? || key in outputs {
        return false;
      }
      outputs := outputs[key := OutputRowOf(p, o, value.value)];
      ok := true;
    }

    method InsertTxRow(p: Placed, fees: map<string, int>, cfg: Config, touched: set<string>) returns (ok: bool)
      requires ParseFees(p.tx.fee, cfg) == Some(fees)
      modifies this
      ensures Spec.InsertTxRow(Work(old(View()), touched), p, cfg) == if ok then Some(Work(View(), touched)) else None
    {
      var hasIssuance, hasPegin := ScanInputs(p.tx.vin);
      var hasPegout := ScanOutputs(p.tx.vout);
      if p.tx.txid in transactions {
        return false;
      }
      var row := TxRow(
        p.block.height, p.block.hash, p.position, p.block.time, IsCoinbase(p.tx), hasIssuance, hasPegin, hasPegout,
        FeeIn(fees, cfg.policyAsset), if fees == map[] then None else Some(fees), p.tx.payload);
      transactions := transactions[p.tx.txid := row];
      ok := true;
    }

    method InsertTransaction(p: Placed, cfg: Config, touched: set<string>)
      returns (ok: bool, txFees: int, touched': set<string>)
      modifies this
      ensures Spec.InsertTransaction(Work(old(View()), touched), p, cfg) ==
              if ok then Some(Work(View(), touched')) else None
      ensures ok ==> txFees == TxFee(p.tx, cfg)
    {
      txFees, touched' := 0, touched;
      var fees := ScanFees(p.tx.fee, cfg);
      if fees.None? {
        return false, 0, touched;
      }
      ok := InsertTxRow(p, fees.value, cfg, touched);
      if !ok {
        return;
      }
      ghost var w1 := Work(View(), touched);
      for i := 0 to |p.tx.vin|
        invariant Spec.InsertInputs(Work(View(), touched'), p, cfg, i) == Spec.InsertInputs(w1, p, cfg, 0)
      {
        ok, touched' := InsertInput(p, i, p.tx.vin[i], cfg, touched');
        if !ok {
          return;
        }
      }
      ghost var w2 := Work(View(), touched');
      for i := 0 to |p.tx.vout|
        invariant Spec.InsertOutputs(Work(View(), touched'), p, cfg, i) == Spec.InsertOutputs(w2, p, cfg, 0)
      {
        ok := InsertOutput(p, p.tx.vout[i], cfg, touched');
        if !ok {
          return;
        }
      }
      if !IsCoinbase(p.tx) && cfg.policyAsset in fees.value {
        txFees := fees.value[cfg.policyAsset];
      }
      ok := true;
    }

    /** One round of the loop over a block's transactions. */
    method InsertNext(b: Block, position: nat, cfg: Config, fees: int, touched: set<string>)
      returns (ok: bool, fees': int, touched': set<string>)
      requires position < |b.txs|
      modifies this
      ensures Spec.InsertTransactions(Work(old(View()), touched), b, cfg, position)
              == if ok then Spec.InsertTransactions(Work(View(), touched'), b, cfg, position + 1) else None
      ensures ok ==> AddFees(fees, b, cfg, position) == AddFees(fees', b, cfg, position + 1)
    {
      var txFees;
      ok, txFees, touched' := InsertTransaction(Placed(b, position, b.txs[position]), cfg, touched);
      fees' := WrapInt64(fees + txFees);
    }

    method InsertTransactions(b: Block, cfg: Config, touched: set<string>)
      returns (ok: bool, fees: int, touched': set<string>)
      modifies this
      ensures Spec.InsertTransactions(Work(old(View()), touched), b, cfg, 0) ==
              if ok then Some(Work(View(), touched')) else None
      ensures ok ==> fees == AddFees(0, b, cfg, 0)
    {
      ghost var w0 := Work(View(), touched);
      fees, touched' := 0, touched;
      for position := 0 to |b.txs|
        invariant Spec.InsertTransactions(Work(View(), touched'), b, cfg, position) ==
                  Spec.InsertTransactions(w0, b, cfg, 0)
        invariant AddFees(fees, b, cfg, position) == AddFees(0, b, cfg, 0)
      {
        ok, fees, touched' := InsertNext(b, position, cfg, fees, touched');
        if !ok {
          return;
        }
      }
      ok := true;
    }

    method InsertBlock(b: Block, cfg: Config, touched: set<string>) returns (ok: bool, touched': set<string>)
      modifies this
      ensures Spec.InsertBlock(Work(old(View()), touched), b, cfg) == if ok then Some(Work(View(), touched')) else None
    {
      var fees;
      ok, fees, touched' := InsertTransactions(b, cfg, touched);
      if ok {
        ok := FinishBlock(b, fees, cfg, touched');
      }
    }

    method FinishBlock(b: Block, fees: int, cfg: Config, touched: set<string>) returns (ok: bool)
      requires fees == AddFees(0, b, cfg, 0)
      modifies this
      ensures Spec.FinishBlock(Work(old(View()), touched), b, cfg) == if ok then Some(Work(View(), touched)) else None
    {
      if !BlockRowFits(blocks, b) {
        return false;
      }
      blocks := blocks[b.height := BlockRowOf(b, fees, cfg)];
      addressTxs := InsertOrIgnore(addressTxs, transactions, b.height, PaidKeys(transactions, outputs, b.height));
      addressTxs :=
        InsertOrIgnore(addressTxs, transactions, b.height, DrawnKeys(transactions, inputs, outputs, b.height));
      ok := true;
    }

    /** The aggregate columns of one asset, from the issuances table. */
    method RefreshAsset(a: string) returns (ok: bool)
      modifies this`assets
      ensures ok <==> SumsFit(issuances, a)
      ensures ok ==>
                assets == if a in old(assets) then old(assets)[a := RefreshedRow(old(assets)[a], issuances, {a}, a)]
                               else old(assets)
    {
      var g := AggregateQuery(issuances, a);
      if !FitsInt64(g.assetSum) || !FitsInt64(g.tokenSum) {
        return false;
      }
      if g.count != 0 && a in assets {
        var totals := Totals(
          if g.blindedAssets == 0 then Some(g.assetSum) else None,
          if g.blindedTokens == 0 then Some(g.tokenSum) else None,
          g.count, g.reissued, g.blindedAssets > 0 && g.reissued > 0);
        assets := assets[a := assets[a].(totals := totals)];
      }
      ok := true;
    }

    /** The refresh visits the touched assets in any order; the result does not depend on it. */
    method RefreshAssets(touched: set<string>) returns (ok: bool)
      modifies this`assets
      ensures Spec.RefreshAssets(old(View()), touched) == if ok then Some(View()) else None
    {
      ghost var assets0 := assets;
      var todo := touched;
      assert assets == RefreshedRows(assets0, issuances, {});
      while todo != {}
        invariant todo <= touched
        invariant assets == RefreshedRows(assets0, issuances, touched - todo)
        invariant forall a :: a in touched && a !in todo ==> SumsFit(issuances, a)
        decreases todo
      {
        var a :| a in todo;
        ok := RefreshAsset(a);
        if !ok {
          assert a in touched && !SumsFit(issuances, a);
          return;
        }
        RefreshOneMore(assets0, issuances, touched - todo, a);
        assert touched - (todo - {a}) == touched - todo + {a};
        todo := todo - {a};
      }
      assert touched - todo == touched;
      ok := true;
    }

    /** SELECT height, hash FROM blocks ORDER BY height DESC LIMIT 1, and the cursor keys it rewrites. */
    method MoveCursorToTop() returns (cursor: Cursor)
      modifies this`meta
      ensures meta == MetaAtTop(old(meta), blocks)
      ensures cursor == CursorOf(View())
    {
      var top := Greatest(blocks.Keys);
      if top.None? {
        meta := meta.(indexedHeight := None, indexedHash := None);
        cursor := Cursor(-1, "");
      } else {
        assert IsTop(blocks, top.value);
        meta := meta.(indexedHeight := Some(top.value), indexedHash := Some(blocks[top.value].hash));
        cursor := Cursor(top.value, blocks[top.value].hash);
      }
    }

    /** The eight statements, in the order they are listed. */
    method DeleteHeight(h: int)
      modifies this
      ensures View() == WithoutHeight(old(View()), h)
    {
      ghost var o := outputs;
      outputs := map k | k in outputs :: Unspend(outputs[k], h);
      addressTxs := AddressesWithout(addressTxs, h);
      assets := AssetsWithout(assets, h);
      issuances := IssuancesWithout(issuances, h);
      outputs := map k | k in outputs && outputs[k].height != h :: outputs[k];
      inputs := InputsWithout(inputs, h);
      transactions := TransactionsWithout(transactions, h);
      blocks := BlocksWithout(blocks, h);
      UnspendThenDelete(o, h);
    }
  }

  // ----- the committed database

  class Database {
    var committed: Tables

    constructor Create()
      ensures committed == EMPTY
    {
      committed := EMPTY;
    }

    /** The stored cursor; height -1 stands for an empty index, whatever hash is stored. */
    method ReadCursor() returns (c: Cursor)
      ensures committed.meta.indexedHeight.None? ==> c == Cursor(-1, "")
      ensures committed.meta.indexedHeight.Some? ==> c.height == committed.meta.indexedHeight.value
      ensures committed.meta.indexedHeight.Some? && committed.meta.indexedHash.Some? ==>
                c.hash == committed.meta.indexedHash.value
      ensures c == CursorOf(committed)
    {
      var height := committed.meta.indexedHeight;
      if height.None? {
        return Cursor(-1, "");
      }
      var hash := committed.meta.indexedHash;
      c := Cursor(height.value, if hash.Some? then hash.value else "");
    }

    /** All of the batch or none of it; `commits` says whether the database accepted the commit. */
    method ApplyBlocks(bs: seq<Block>, cfg: Config, commits: bool) returns (ok: bool)
      modifies this
      ensures ok <==> bs == [] || (commits && Spec.ApplyBlocks(old(committed), bs, cfg).Some?)
      ensures ok ==> Spec.ApplyBlocks(old(committed), bs, cfg) == Some(committed)
      ensures !ok ==> committed == old(committed)
    {
      if bs == [] {
        return true;
      }
      var tx := new SqlTransaction.Begin(committed);
      var touched: set<string> := {};
      ghost var w0 := Work(committed, {});
      assert bs[0..] == bs;
      for i := 0 to |bs|
        invariant committed == old(committed)
        invariant InsertBlocks(Work(tx.View(), touched), bs[i..], cfg) == InsertBlocks(w0, bs, cfg)
      {
        assert bs[i..][0] == bs[i] && bs[i..][1..] == bs[i + 1..];
        ok, touched := tx.InsertBlock(bs[i], cfg, touched);
        if !ok {
          return;
        }
      }
      ok := tx.RefreshAssets(touched);
      if !ok || !commits {
        return false;
      }
      var last := bs[|bs| - 1];
      tx.meta := tx.meta.(indexedHeight := Some(last.height), indexedHash := Some(last.hash));
      if bs[0].height == 0 {
        tx.meta := tx.meta.(genesisHash := Some(bs[0].hash));
      }
      committed := tx.View();
    }

    method RollbackBlock(h: int, commits: bool) returns (ok: bool, cursor: Cursor)
      modifies this
      ensures ok <==> commits && Spec.RollbackBlock(old(committed), h).Some?
      ensures ok ==> Spec.RollbackBlock(old(committed), h) == Some(committed) && cursor == CursorOf(committed)
      ensures !ok ==> committed == old(committed)
    {
      cursor := Cursor(-1, "");
      var tx := new SqlTransaction.Begin(committed);
      var touched := IssuedAt(tx.issuances, h);
      tx.DeleteHeight(h);
      ok := tx.RefreshAssets(touched);
      if !ok || !commits {
        return false, cursor;
      }
      cursor := tx.MoveCursorToTop();
      committed := tx.View();
    }
  }
}
