/**
 Why rollback needs the chain to spend every outpoint once: three small blocks, the last of which
 spends an output again. Its marker replaces the older one, and rolling the block back clears the
 output instead of restoring the older marker.
 */
module DoubleSpend {
  import opened Common
  import opened ChainModel
  import opened Tables
  import opened Operations
  import opened Invariants
  import opened Reorg
  import opened IndexerSafety

  const COIN: OutPoint := OutPoint("coin", 0)

  const OUTPUT: Vout := Vout(0, None, "", "", "", "", [], "", "", "")

  const SPENDING: Vin := Vin("coin", Some(0), "", false, None, "")

  const CREATE: Tx := Tx("coin", [], [OUTPUT], map[], "")

  function Spending(txid: string): Tx {
    Tx(txid, [SPENDING], [], map[], "")
  }

  const A: string := Repeat('a', 64)
  const B: string := Repeat('b', 64)
  const C: string := Repeat('c', 64)

  lemma HashesDiffer()
    ensures A != B && A != C && B != C
  {
    RepeatsDiffer('a', 'b', 64);
    RepeatsDiffer('a', 'c', 64);
    RepeatsDiffer('b', 'c', 64);
  }

  const GENESIS: Block := Block(A, 0, "", 0, [CREATE], "")
  const FIRST: Block := Block(B, 1, A, 0, [Spending("y")], "")
  const SECOND: Block := Block(C, 2, B, 0, [Spending("z")], "")

  /** Any node may announce the three blocks. */
  lemma BlocksContinue()
    ensures Continues([GENESIS, FIRST, SECOND], 0, "")
  {
  }

  lemma NothingTouched(t: Tables)
    ensures RefreshAssets(t, {}).Some?
    ensures var u := RefreshAssets(t, {}).value;
            u == t.(assets := u.assets)
  {
  }

  /** The genesis block inserts one unspent output. */
  lemma GenesisInserts(cfg: Config)
    ensures InsertTransactions(Work(EMPTY, {}), GENESIS, cfg, 0).Some?
    ensures var w := InsertTransactions(Work(EMPTY, {}), GENESIS, cfg, 0).value;
            && w.touched == {} && w.t.blocks == map[]
            && w.t.transactions.Keys == {"coin"} && w.t.inputs == map[]
            && w.t.outputs.Keys == {COIN} && w.t.outputs[COIN].spent.None?
  {
    NoFees(cfg);
    var p := Placed(GENESIS, 0, CREATE);
    assert GENESIS.txs[0] == CREATE;
    var w1 := InsertTxRow(Work(EMPTY, {}), p, cfg).value;
    assert InsertInputs(w1, p, cfg, 0) == Some(w1);
    assert CREATE.vout[0] == OUTPUT;
    var w2 := InsertOutput(w1, p, OUTPUT, cfg).value;
    assert InsertOutputs(w2, p, cfg, 1) == Some(w2);
    assert InsertTransactions(w2, GENESIS, cfg, 1) == Some(w2);
  }

  /** A block with one transaction that spends the coin. */
  ghost predicate SpendsCoin(b: Block, txid: string) {
    b.txs == [Spending(txid)]
  }

  /** Inserting such a block marks the coin, whatever its marker was. */
  lemma SpendInserts(w: Work, b: Block, txid: string, cfg: Config)
    requires SpendsCoin(b, txid) && w.touched == {}
    requires txid !in w.t.transactions && InputKey(txid, 0) !in w.t.inputs && COIN in w.t.outputs
    ensures InsertTransactions(w, b, cfg, 0).Some?
    ensures var w' := InsertTransactions(w, b, cfg, 0).value;
            && w'.touched == {} && w'.t.blocks == w.t.blocks
            && w'.t.transactions.Keys == w.t.transactions.Keys + {txid}
            && w'.t.inputs.Keys == w.t.inputs.Keys + {InputKey(txid, 0)}
            && w'.t.outputs == w.t.outputs[COIN := w.t.outputs[COIN].(spent := Some(Spend(txid, 0, b.height)))]
  {
    NoFees(cfg);
    var tx := Spending(txid);
    var p := Placed(b, 0, tx);
    assert b.txs[0] == tx && tx.vin[0] == SPENDING;
    var w1 := InsertTxRow(w, p, cfg).value;
    var w2 := InsertInput(w1, p, 0, SPENDING, cfg).value;
    assert Prevout(SPENDING) == Some(COIN);
    assert InsertInputs(w2, p, cfg, 1) == Some(w2);
    assert InsertOutputs(w2, p, cfg, 0) == Some(w2);
    assert InsertTransactions(w2, b, cfg, 1) == Some(w2);
  }

  /** The rest of a one-block batch that touches no asset: a new height and a new hash are all it asks for. */
  lemma BlockFinishes(t: Tables, b: Block, cfg: Config)
    requires InsertTransactions(Work(t, {}), b, cfg, 0).Some?
    requires InsertTransactions(Work(t, {}), b, cfg, 0).value.touched == {}
    requires BlockRowFits(InsertTransactions(Work(t, {}), b, cfg, 0).value.t.blocks, b)
    ensures ApplyBlocks(t, [b], cfg).Some?
    ensures var w, u := InsertTransactions(Work(t, {}), b, cfg, 0).value, ApplyBlocks(t, [b], cfg).value;
            && u.transactions == w.t.transactions && u.inputs == w.t.inputs && u.outputs == w.t.outputs
            && u.blocks == w.t.blocks[b.height := StoredRow(b, cfg)]
  {
    OneBlock(t, b, cfg);
    var w := InsertTransactions(Work(t, {}), b, cfg, 0).value;
    NothingTouched(FinishBlock(w, b, cfg).value.t);
  }

  ghost predicate AfterGenesis(t: Tables) {
    && t.blocks.Keys == {0} && t.blocks[0].hash == A
    && t.transactions.Keys == {"coin"} && t.inputs == map[]
    && t.outputs.Keys == {COIN}
  }

  lemma GenesisIsIndexed(cfg: Config) returns (t: Tables)
    ensures ApplyBlocks(EMPTY, [GENESIS], cfg) == Some(t) && AfterGenesis(t) && WellFormed(t, 1)
  {
    GenesisInserts(cfg);
    BlockFinishes(EMPTY, GENESIS, cfg);
    t := ApplyBlocks(EMPTY, [GENESIS], cfg).value;
    EmptyWellFormed();
    ApplyKeepsWellFormed(EMPTY, [GENESIS], cfg, 0);
  }

  /** The coin is marked as spent by the first spender. */
  ghost predicate AfterFirst(t: Tables) {
    && t.blocks.Keys == {0, 1} && t.blocks[0].hash == A && t.blocks[1].hash == B
    && t.transactions.Keys == {"coin", "y"} && t.inputs.Keys == {InputKey("y", 0)}
    && t.outputs.Keys == {COIN} && t.outputs[COIN].spent == Some(Spend("y", 0, 1))
  }

  lemma FirstFits(blocks: map<int, BlockRow>)
    requires blocks.Keys == {0} && blocks[0].hash == A
    ensures BlockRowFits(blocks, FIRST)
  {
    HashesDiffer();
  }

  lemma SecondFits(blocks: map<int, BlockRow>)
    requires blocks.Keys == {0, 1} && blocks[0].hash == A && blocks[1].hash == B
    ensures BlockRowFits(blocks, SECOND)
  {
    HashesDiffer();
  }

  lemma FirstIsIndexed(t: Tables, cfg: Config) returns (u: Tables)
    requires AfterGenesis(t)
    ensures ApplyBlocks(t, [FIRST], cfg) == Some(u) && AfterFirst(u)
  {
    FirstFits(t.blocks);
    SpendInserts(Work(t, {}), FIRST, "y", cfg);
    BlockFinishes(t, FIRST, cfg);
    u := ApplyBlocks(t, [FIRST], cfg).value;
  }

  lemma SecondIsIndexed(t: Tables, cfg: Config) returns (u: Tables)
    requires AfterFirst(t)
    ensures ApplyBlocks(t, [SECOND], cfg) == Some(u)
  {
    SecondFits(t.blocks);
    SpendInserts(Work(t, {}), SECOND, "z", cfg);
    BlockFinishes(t, SECOND, cfg);
    u := ApplyBlocks(t, [SECOND], cfg).value;
  }

  /** Applying the second spend and rolling it back brings the cursor back, but not the index. */
  lemma SecondSpendIsNotUndone(cfg: Config) returns (t0: Tables, t1: Tables, t2: Tables, r: Tables)
    ensures ApplyBlocks(EMPTY, [GENESIS], cfg) == Some(t0)
    ensures ApplyBlocks(t0, [FIRST], cfg) == Some(t1)
    ensures ApplyBlocks(t1, [SECOND], cfg) == Some(t2)
    ensures RollbackBlock(t2, 2) == Some(r) && CursorOf(r) == CursorOf(t1) && r != t1
    ensures Continues([GENESIS, FIRST, SECOND], 0, "")
  {
    BlocksContinue();
    t0 := GenesisIsIndexed(cfg);
    t1 := FirstIsIndexed(t0, cfg);
    ApplyKeepsWellFormed(t0, [FIRST], cfg, 1);
    t2 := SecondIsIndexed(t1, cfg);
    r := RolledBack(t1, t2, cfg);
  }

  lemma RolledBack(t1: Tables, t2: Tables, cfg: Config) returns (r: Tables)
    requires AfterFirst(t1) && WellFormed(t1, 2) && ApplyBlocks(t1, [SECOND], cfg) == Some(t2)
    ensures RollbackBlock(t2, 2) == Some(r) && CursorOf(r) == CursorOf(t1) && r != t1
  {
    RollbackUndoesApply(t1, SECOND, cfg, 2);
    SecondRefersToCoin();
    assert !NoOverwrite(t1.outputs, BlockRefs(SECOND));
    r := RollbackBlock(t2, 2).value;
  }

  lemma SecondRefersToCoin()
    ensures COIN in BlockRefs(SECOND)
  {
    var p := Placed(SECOND, 0, Spending("z"));
    var op := NewInput(p, 0, SPENDING);
    assert SECOND.txs[0] == Spending("z") && p.tx.vin[0] == SPENDING;
    assert InputOps(p, 0) == [op] + InputOps(p, 1);
    assert TxOps(p) == [NewTransaction(p)] + (InputOps(p, 0) + OutputOps(p, 0));
    assert TxOps(p)[1] == op;
    assert OpsFrom(SECOND, 0) == TxOps(p) + OpsFrom(SECOND, 1);
    assert BlockOps(SECOND)[1] == op;
    assert op in BlockOps(SECOND) && Prevout(op.v) == Some(COIN);
  }
}
