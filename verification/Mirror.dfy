/**
 The row tables mirror the chain: every transaction, input, output and issuance of every
 block has its row, filed under its own position, and the tables hold nothing else.
 */
module Mirror {
  import opened Common
  import opened ChainModel
  import opened Tables
  import opened Operations
  import opened Invariants
  import opened Batches
  import opened Reorg
  import opened History

  // ----- the operations of a block, by position

  /** The operation stands for a transaction of the block, or for one of its inputs or outputs. */
  ghost predicate IsOpOf(b: Block, op: Op) {
    && op.p.block == b
    && 0 <= op.p.position < |b.txs|
    && op.p.tx == b.txs[op.p.position]
    && match op
       case NewTransaction(p) => true
       case NewInput(p, vin, v) => 0 <= vin < |p.tx.vin| && v == p.tx.vin[vin]
       case NewOutput(p, o) => o in p.tx.vout
  }

  lemma {:induction false} InputOpsAre(p: Placed, from: nat, op: Op)
    requires from <= |p.tx.vin|
    ensures op in InputOps(p, from) <==>
            op.NewInput? && op.p == p && from <= op.vin < |p.tx.vin| && op.v == p.tx.vin[op.vin]
    decreases |p.tx.vin| - from
  {
    if from < |p.tx.vin| { InputOpsAre(p, from + 1, op); }
  }

  lemma {:induction false} OutputOpsAre(p: Placed, from: nat, op: Op)
    requires from <= |p.tx.vout|
    ensures op in OutputOps(p, from) <==> op.NewOutput? && op.p == p && op.o in p.tx.vout[from..]
    decreases |p.tx.vout| - from
  {
    if from < |p.tx.vout| {
      OutputOpsAre(p, from + 1, op);
      assert p.tx.vout[from..] == [p.tx.vout[from]] + p.tx.vout[from + 1..];
    }
  }

  lemma {:induction false} OpsFromAre(b: Block, from: nat, op: Op)
    requires from <= |b.txs|
    ensures op in OpsFrom(b, from) <==> IsOpOf(b, op) && from <= op.p.position
    decreases |b.txs| - from
  {
    if from < |b.txs| {
      var p := Placed(b, from, b.txs[from]);
      OpsFromAre(b, from + 1, op);
      InputOpsAre(p, 0, op);
      OutputOpsAre(p, 0, op);
      assert p.tx.vout[0..] == p.tx.vout;
      assert op in TxOps(p) <==> op == NewTransaction(p) || op in InputOps(p, 0) || op in OutputOps(p, 0);
    }
  }

  /** The flat list holds one operation per transaction, input and output of the block, and no other. */
  lemma BlockOpsAre(b: Block, op: Op)
    ensures op in BlockOps(b) <==> IsOpOf(b, op)
  {
    OpsFromAre(b, 0, op);
  }

  lemma {:induction false} InputOpAt(p: Placed, from: nat, j: nat)
    requires from <= |p.tx.vin|
    ensures |InputOps(p, from)| == |p.tx.vin| - from
    ensures from + j < |p.tx.vin| ==> InputOps(p, from)[j] == NewInput(p, from + j, p.tx.vin[from + j])
    decreases |p.tx.vin| - from
  {
    if from < |p.tx.vin| { InputOpAt(p, from + 1, if j == 0 then 0 else j - 1); }
  }

  lemma {:induction false} OutputOpAt(p: Placed, from: nat, j: nat)
    requires from <= |p.tx.vout|
    ensures |OutputOps(p, from)| == |p.tx.vout| - from
    ensures from + j < |p.tx.vout| ==> OutputOps(p, from)[j] == NewOutput(p, p.tx.vout[from + j])
    decreases |p.tx.vout| - from
  {
    if from < |p.tx.vout| { OutputOpAt(p, from + 1, if j == 0 then 0 else j - 1); }
  }

  /** Of a transaction the row comes first, then its inputs and then its outputs, each in their order. */
  lemma TxOpsInOrder(p: Placed, j: nat)
    ensures |TxOps(p)| == 1 + |p.tx.vin| + |p.tx.vout| && TxOps(p)[0] == NewTransaction(p)
    ensures j < |p.tx.vin| ==> TxOps(p)[1 + j] == NewInput(p, j, p.tx.vin[j])
    ensures j < |p.tx.vout| ==> TxOps(p)[1 + |p.tx.vin| + j] == NewOutput(p, p.tx.vout[j])
  {
    InputOpAt(p, 0, j);
    OutputOpAt(p, 0, j);
  }

  lemma {:induction false} OpsFromInOrder(b: Block, from: nat, k: nat, l: nat)
    requires from <= |b.txs| && k < l < |OpsFrom(b, from)|
    ensures from <= OpsFrom(b, from)[k].p.position <= OpsFrom(b, from)[l].p.position
    decreases |b.txs| - from
  {
    var ops := TxOps(Placed(b, from, b.txs[from]));
    var rest := OpsFrom(b, from + 1);
    assert OpsFrom(b, from)[l] in OpsFrom(b, from);
    OpsFromAre(b, from, OpsFrom(b, from)[l]);
    if k < |ops| {
      assert ops[k] in ops;
      OpOfTransaction(Placed(b, from, b.txs[from]), ops[k]);
    } else {
      OpsFromInOrder(b, from + 1, k - |ops|, l - |ops|);
      assert OpsFrom(b, from)[k] == rest[k - |ops|] && OpsFrom(b, from)[l] == rest[l - |ops|];
    }
  }

  lemma OpOfTransaction(p: Placed, op: Op)
    requires op in TxOps(p)
    ensures op.p == p
  {
    InputOpsAre(p, 0, op);
    OutputOpsAre(p, 0, op);
  }

  /** The operations of a block follow the order of its transactions. */
  lemma BlockOpsInOrder(b: Block, k: nat, l: nat)
    requires k < l < |BlockOps(b)|
    ensures BlockOps(b)[k].p.position <= BlockOps(b)[l].p.position
  {
    OpsFromInOrder(b, 0, k, l);
  }

  // ----- one row per operation

  ghost predicate StoredTransaction(t: Tables, p: Placed, cfg: Config) {
    && p.tx.txid in t.transactions
    && ParseFees(p.tx.fee, cfg).Some?
    && t.transactions[p.tx.txid] == TxRowOf(p, ParseFees(p.tx.fee, cfg).value, cfg)
  }

  ghost predicate StoredIssuance(t: Tables, p: Placed, vin: int, v: Vin, i: Issuance, cfg: Config) {
    var k := InputKey(p.tx.txid, vin);
    var asset, token := IssuedAmount(i.assetAmount, i.assetAmountCommitment, cfg),
                        IssuedAmount(i.tokenAmount, i.tokenAmountCommitment, cfg);
    k in t.issuances && asset.Some? && token.Some? && t.issuances[k] == IssuanceRowOf(p, v, i, asset.value, token.value)
  }

  ghost predicate StoredInput(t: Tables, p: Placed, vin: int, v: Vin, cfg: Config) {
    var k := InputKey(p.tx.txid, vin);
    && k in t.inputs && t.inputs[k] == InputRowOf(p, v)
    && (v.issuance.Some? ==> StoredIssuance(t, p, vin, v, v.issuance.value, cfg))
  }

  /** Later spends change the marker of an output, and nothing else in its row. */
  ghost predicate StoredOutput(t: Tables, p: Placed, o: Vout, cfg: Config) {
    var k := OutPoint(p.tx.txid, o.n);
    var value := ParseOptional(o.value, cfg);
    k in t.outputs && value.Some? && t.outputs[k].(spent := None) == OutputRowOf(p, o, value.value)
  }

  ghost predicate Stored(t: Tables, op: Op, cfg: Config) {
    match op
    case NewTransaction(p) => StoredTransaction(t, p, cfg)
    case NewInput(p, vin, v) => StoredInput(t, p, vin, v, cfg)
    case NewOutput(p, o) => StoredOutput(t, p, o, cfg)
  }

  lemma PerformStores(w: Work, op: Op, cfg: Config)
    requires Perform(w, op, cfg).Some?
    ensures Stored(Perform(w, op, cfg).value.t, op, cfg)
  {
  }

  /** Later operations never overwrite a row: its key is taken. */
  lemma PerformKeepsStored(w: Work, op: Op, earlier: Op, cfg: Config)
    requires Stored(w.t, earlier, cfg) && Perform(w, op, cfg).Some?
    ensures Stored(Perform(w, op, cfg).value.t, earlier, cfg)
  {
    match op
    case NewTransaction(p) =>
    case NewInput(p, vin, v) =>
      var t1 := AddInput(w.t, p, vin, v);
      assert Stored(t1, earlier, cfg);
      if v.issuance.Some? {
        InsertIssuanceKeepsStored(w.(t := t1), p, vin, v, v.issuance.value, earlier, cfg);
      }
    case NewOutput(p, o) =>
  }

  lemma InsertIssuanceKeepsStored(w: Work, p: Placed, vin: int, v: Vin, i: Issuance, earlier: Op, cfg: Config)
    requires Stored(w.t, earlier, cfg) && InsertIssuance(w, p, vin, v, i, cfg).Some?
    ensures Stored(InsertIssuance(w, p, vin, v, i, cfg).value.t, earlier, cfg)
  {
  }

  lemma {:induction false} RunKeepsStored(w: Work, ops: seq<Op>, earlier: Op, cfg: Config)
    requires Stored(w.t, earlier, cfg) && Run(w, ops, cfg).Some?
    ensures Stored(Run(w, ops, cfg).value.t, earlier, cfg)
    decreases |ops|
  {
    if ops != [] {
      PerformKeepsStored(w, ops[0], earlier, cfg);
      RunKeepsStored(Perform(w, ops[0], cfg).value, ops[1..], earlier, cfg);
    }
  }

  lemma {:induction false} RunStores(w: Work, ops: seq<Op>, op: Op, cfg: Config)
    requires op in ops && Run(w, ops, cfg).Some?
    ensures Stored(Run(w, ops, cfg).value.t, op, cfg)
    decreases |ops|
  {
    var w1 := Perform(w, ops[0], cfg).value;
    if op == ops[0] {
      PerformStores(w, op, cfg);
      RunKeepsStored(w1, ops[1..], op, cfg);
    } else {
      assert op in ops[1..];
      RunStores(w1, ops[1..], op, cfg);
    }
  }

  // ----- and no other row

  /** The rows of t' outside t carry the keys of these operations. */
  ghost predicate OnlyFrom(t: Tables, t': Tables, ops: seq<Op>) {
    && (forall x :: x in t'.transactions && x !in t.transactions ==> TxFrom(ops, x))
    && (forall k :: k in t'.inputs && k !in t.inputs ==> InputFrom(ops, k))
    && (forall k :: k in t'.outputs && k !in t.outputs ==> OutputFrom(ops, k))
    && (forall k :: k in t'.issuances && k !in t.issuances ==> IssuanceFrom(ops, k))
  }

  ghost predicate TxFrom(ops: seq<Op>, x: string) {
    exists op :: op in ops && op.NewTransaction? && op.p.tx.txid == x
  }

  ghost predicate InputFrom(ops: seq<Op>, k: InputKey) {
    exists op :: op in ops && op.NewInput? && InputKey(op.p.tx.txid, op.vin) == k
  }

  ghost predicate OutputFrom(ops: seq<Op>, k: OutPoint) {
    exists op :: op in ops && op.NewOutput? && OutPoint(op.p.tx.txid, op.o.n) == k
  }

  ghost predicate IssuanceFrom(ops: seq<Op>, k: InputKey) {
    exists op :: op in ops && op.NewInput? && op.v.issuance.Some? && InputKey(op.p.tx.txid, op.vin) == k
  }

  lemma PerformOnly(w: Work, op: Op, cfg: Config, ops: seq<Op>)
    requires op in ops && Perform(w, op, cfg).Some?
    ensures OnlyFrom(w.t, Perform(w, op, cfg).value.t, ops)
  {
  }

  lemma OnlyFromTrans(t0: Tables, t1: Tables, t2: Tables, ops: seq<Op>)
    requires OnlyFrom(t0, t1, ops) && OnlyFrom(t1, t2, ops)
    ensures OnlyFrom(t0, t2, ops)
  {
  }

  lemma {:induction false} RunOnly(w: Work, ops: seq<Op>, cfg: Config, all: seq<Op>)
    requires (forall op :: op in ops ==> op in all) && Run(w, ops, cfg).Some?
    ensures OnlyFrom(w.t, Run(w, ops, cfg).value.t, all)
    decreases |ops|
  {
    if ops != [] {
      var w1 := Perform(w, ops[0], cfg).value;
      PerformOnly(w, ops[0], cfg, all);
      RunOnly(w1, ops[1..], cfg, all);
      OnlyFromTrans(w.t, w1.t, Run(w1, ops[1..], cfg).value.t, all);
    }
  }

  // ----- whole chains

  ghost function ChainOps(c: seq<Block>): seq<Op>
    decreases |c|
  {
    if c == [] then [] else BlockOps(c[0]) + ChainOps(c[1..])
  }

  lemma {:induction false} ChainOpsAre(c: seq<Block>, op: Op)
    ensures op in ChainOps(c) <==> exists i :: 0 <= i < |c| && IsOpOf(c[i], op)
    decreases |c|
  {
    if c != [] {
      BlockOpsAre(c[0], op);
      ChainOpsAre(c[1..], op);
      if op in ChainOps(c[1..]) {
        var j :| 0 <= j < |c[1..]| && IsOpOf(c[1..][j], op);
        assert IsOpOf(c[j + 1], op);
      }
      if i :| 0 <= i < |c| && IsOpOf(c[i], op) {
        if i > 0 { assert IsOpOf(c[1..][i - 1], op); }
      }
    }
  }

  lemma {:induction false} InsertBlocksMirror(w: Work, bs: seq<Block>, cfg: Config, op: Op)
    requires InsertBlocks(w, bs, cfg).Some? && (Stored(w.t, op, cfg) || op in ChainOps(bs))
    ensures Stored(InsertBlocks(w, bs, cfg).value.t, op, cfg)
    decreases |bs|
  {
    if bs != [] {
      TransactionsAsOps(w, bs[0], cfg, 0);
      var w1 := Run(w, BlockOps(bs[0]), cfg).value;
      if Stored(w.t, op, cfg) {
        RunKeepsStored(w, BlockOps(bs[0]), op, cfg);
      } else if op in BlockOps(bs[0]) {
        RunStores(w, BlockOps(bs[0]), op, cfg);
      }
      FinishBlockHides(w1, bs[0], cfg);
      SameBodyStored(w1.t, InsertBlock(w, bs[0], cfg).value.t, op, cfg);
      InsertBlocksMirror(InsertBlock(w, bs[0], cfg).value, bs[1..], cfg, op);
    }
  }

  lemma SameBodyStored(t: Tables, u: Tables, op: Op, cfg: Config)
    requires t.transactions == u.transactions && t.inputs == u.inputs
    requires t.outputs == u.outputs && t.issuances == u.issuances
    ensures Stored(t, op, cfg) <==> Stored(u, op, cfg)
  {
  }

  lemma {:induction false} InsertBlocksOnly(w: Work, bs: seq<Block>, cfg: Config, all: seq<Op>)
    requires InsertBlocks(w, bs, cfg).Some? && forall op :: op in ChainOps(bs) ==> op in all
    ensures OnlyFrom(w.t, InsertBlocks(w, bs, cfg).value.t, all)
    decreases |bs|
  {
    if bs != [] {
      TransactionsAsOps(w, bs[0], cfg, 0);
      var w1 := Run(w, BlockOps(bs[0]), cfg).value;
      RunOnly(w, BlockOps(bs[0]), cfg, all);
      FinishBlockHides(w1, bs[0], cfg);
      var w2 := InsertBlock(w, bs[0], cfg).value;
      assert OnlyFrom(w.t, w2.t, all);
      InsertBlocksOnly(w2, bs[1..], cfg, all);
      OnlyFromTrans(w.t, w2.t, InsertBlocks(w2, bs[1..], cfg).value.t, all);
    }
  }

  /** Every transaction, input, output and issuance of the chain is stored at its own place. */
  lemma ChainIsStored(c: seq<Block>, cfg: Config, h: nat, op: Op)
    requires Index(c, cfg).Some? && h < |c| && IsOpOf(c[h], op)
    ensures Stored(Index(c, cfg).value, op, cfg)
  {
    ChainOpsAre(c, op);
    InsertBlocksMirror(Work(EMPTY, {}), c, cfg, op);
    SameBodyStored(InsertBlocks(Work(EMPTY, {}), c, cfg).value.t, Index(c, cfg).value, op, cfg);
  }

  /** The row tables hold nothing that is not in the chain (`ChainOpsAre` says what the list holds). */
  lemma NothingElseIsStored(c: seq<Block>, cfg: Config)
    requires Index(c, cfg).Some?
    ensures OnlyFrom(EMPTY, Index(c, cfg).value, ChainOps(c))
  {
    InsertBlocksOnly(Work(EMPTY, {}), c, cfg, ChainOps(c));
  }

  // ----- transactions and their places

  /** The transaction at place i of block h has its row, filed under that height and place. */
  lemma PlaceIsFiled(c: seq<Block>, cfg: Config, h: nat, i: nat)
    requires Consecutive(c, 0) && Index(c, cfg).Some? && h < |c| && i < |c[h].txs|
    ensures var t, x := Index(c, cfg).value, c[h].txs[i].txid;
            x in t.transactions && t.transactions[x].height == h && t.transactions[x].position == i
  {
    ChainIsStored(c, cfg, h, NewTransaction(Placed(c[h], i, c[h].txs[i])));
  }

  /** And every row is filed under the place its transaction has in the chain. */
  lemma RowIsPlaced(c: seq<Block>, cfg: Config, x: string)
    requires Consecutive(c, 0) && Index(c, cfg).Some? && x in Index(c, cfg).value.transactions
    ensures var r := Index(c, cfg).value.transactions[x];
            0 <= r.height < |c| && 0 <= r.position < |c[r.height].txs| && c[r.height].txs[r.position].txid == x
  {
    NothingElseIsStored(c, cfg);
    assert TxFrom(ChainOps(c), x);
    var op :| op in ChainOps(c) && op.NewTransaction? && op.p.tx.txid == x;
    ChainOpsAre(c, op);
    var h :| 0 <= h < |c| && IsOpOf(c[h], op);
    PlaceIsFiled(c, cfg, h, op.p.position);
  }

  // ----- the fees of a block

  /** What a transaction row shows as its fee in the policy asset; a coinbase pays none. */
  function FeeShown(transactions: map<string, TxRow>, x: string): int {
    if x in transactions && !transactions[x].isCoinbase then OrZero(transactions[x].feeSats) else 0
  }

  /** The fees shown by the rows of a block's transactions from `from` on. */
  function FeesShown(transactions: map<string, TxRow>, b: Block, from: nat): int
    requires from <= |b.txs|
    decreases |b.txs| - from
  {
    if from == |b.txs| then 0 else FeeShown(transactions, b.txs[from].txid) + FeesShown(transactions, b, from + 1)
  }

  lemma WrapTwice(x: int, y: int)
    ensures WrapInt64(WrapInt64(x) + y) == WrapInt64(x + y)
  {
    var w := WrapInt64(x);
    assert (w - x) % TWO_64 == 0;
    SameResidue(w + y + TWO_63, x + y + TWO_63);
  }

  lemma SameResidue(a: int, b: int)
    requires (a - b) % TWO_64 == 0
    ensures a % TWO_64 == b % TWO_64
  {
  }

  lemma {:induction false} FeesAddUp(acc: int, t: Tables, b: Block, cfg: Config, from: nat)
    requires from <= |b.txs| && FitsInt64(acc)
    requires forall i :: from <= i < |b.txs| ==> StoredTransaction(t, Placed(b, i, b.txs[i]), cfg)
    ensures AddFees(acc, b, cfg, from) == WrapInt64(acc + FeesShown(t.transactions, b, from))
    decreases |b.txs| - from
  {
    if from < |b.txs| {
      var fee := TxFee(b.txs[from], cfg);
      assert StoredTransaction(t, Placed(b, from, b.txs[from]), cfg);
      assert fee == FeeShown(t.transactions, b.txs[from].txid);
      FeesAddUp(WrapInt64(acc + fee), t, b, cfg, from + 1);
      WrapTwice(acc + fee, FeesShown(t.transactions, b, from + 1));
    }
  }

  /** Every transaction of block h has its full row. */
  ghost predicate AllStored(t: Tables, b: Block, cfg: Config) {
    forall i :: 0 <= i < |b.txs| ==> StoredTransaction(t, Placed(b, i, b.txs[i]), cfg)
  }

  lemma BlockIsStored(c: seq<Block>, cfg: Config, h: nat, t: Tables)
    requires Index(c, cfg) == Some(t) && h < |c|
    ensures AllStored(t, c[h], cfg)
  {
    forall i | 0 <= i < |c[h].txs|
      ensures StoredTransaction(t, Placed(c[h], i, c[h].txs[i]), cfg)
    {
      ChainIsStored(c, cfg, h, NewTransaction(Placed(c[h], i, c[h].txs[i])));
    }
  }

  lemma BlockRowIsStored(c: seq<Block>, cfg: Config, h: nat, t: Tables)
    requires Consecutive(c, 0) && Index(c, cfg) == Some(t) && h < |c|
    ensures h in t.blocks && t.blocks[h].feesSats == AddFees(0, c[h], cfg, 0)
  {
    IndexWellFormed(c, cfg);
    assert t.blocks[h] == StoredRow(c[h], cfg);
  }

  lemma FeesOfStored(t: Tables, b: Block, cfg: Config, fees: int)
    requires AllStored(t, b, cfg) && fees == AddFees(0, b, cfg, 0)
    ensures fees == WrapInt64(FeesShown(t.transactions, b, 0))
  {
    FeesAddUp(0, t, b, cfg, 0);
  }

  /** The fee column of a block is the 64-bit sum of what its transaction rows show. */
  lemma BlockFeesAreRowFees(c: seq<Block>, cfg: Config, h: nat, t: Tables)
    requires Consecutive(c, 0) && Index(c, cfg) == Some(t) && h < |c|
    ensures h in t.blocks && t.blocks[h].feesSats == WrapInt64(FeesShown(t.transactions, c[h], 0))
  {
    BlockRowIsStored(c, cfg, h, t);
    BlockIsStored(c, cfg, h, t);
    FeesOfStored(t, c[h], cfg, t.blocks[h].feesSats);
  }
}
