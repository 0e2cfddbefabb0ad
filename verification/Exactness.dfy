/**
 What the tables mean. Spent markers, address history and supply figures are maintained by
 incremental statements; here each is shown to say exactly what it claims about the rows
 that are indexed, in every reachable state.
 */
module Exactness {
  import opened Common
  import opened ChainModel
  import opened Tables
  import opened Operations
  import opened Invariants
  import opened Reorg
  import opened Batches
  import opened History

  // ----- chains whose outpoints are created, then spent at most once

  /** An outpoint already referred to is neither referred to again nor created later. */
  ghost predicate Fresh(op: Op, refs: set<OutPoint>) {
    match op
    case NewTransaction(p) => true
    case NewInput(p, vin, v) => Prevout(v).Some? ==> Prevout(v).value !in refs
    case NewOutput(p, o) => OutPoint(p.tx.txid, o.n) !in refs
  }

  ghost predicate SoundFrom(ops: seq<Op>, refs: set<OutPoint>)
    decreases |ops|
  {
    ops != [] ==> Fresh(ops[0], refs) && SoundFrom(ops[1..], refs + Refs([ops[0]]))
  }

  ghost predicate SoundChain(c: seq<Block>, refs: set<OutPoint>)
    decreases |c|
  {
    c != [] ==> SoundFrom(BlockOps(c[0]), refs) && SoundChain(c[1..], refs + BlockRefs(c[0]))
  }

  // ----- spent markers

  /** A marker names an indexed input that spends the output, at the height it was indexed. */
  ghost predicate MarkersNameInputs(inputs: map<InputKey, InputRow>, outputs: map<OutPoint, OutputRow>) {
    forall k :: k in outputs && outputs[k].spent.Some? ==>
      var s := outputs[k].spent.value;
      var i := InputKey(s.txid, s.vin);
      i in inputs && inputs[i].prev == Some(k) && inputs[i].height == s.height
  }

  /** Every indexed input of an indexed output is named by that output's marker. */
  ghost predicate InputsAreMarked(inputs: map<InputKey, InputRow>, outputs: map<OutPoint, OutputRow>) {
    forall i :: i in inputs && inputs[i].prev.Some? && inputs[i].prev.value in outputs ==>
      outputs[inputs[i].prev.value].spent == Some(Spend(i.txid, i.vin, inputs[i].height))
  }

  ghost predicate SpentExact(t: Tables) {
    MarkersNameInputs(t.inputs, t.outputs) && InputsAreMarked(t.inputs, t.outputs)
  }

  ghost predicate RefsCover(inputs: map<InputKey, InputRow>, refs: set<OutPoint>) {
    forall i :: i in inputs && inputs[i].prev.Some? ==> inputs[i].prev.value in refs
  }

  ghost predicate NewOutputsOutside(o: map<OutPoint, OutputRow>, o': map<OutPoint, OutputRow>, refs: set<OutPoint>) {
    forall k :: k in o' && k !in o ==> k !in refs
  }

  /** The issuance part of an input changes neither transactions, inputs nor outputs. */
  lemma InputEffect(w: Work, p: Placed, vin: int, v: Vin, cfg: Config)
    requires InsertInput(w, p, vin, v, cfg).Some?
    ensures var t', t1 := InsertInput(w, p, vin, v, cfg).value.t, AddInput(w.t, p, vin, v);
            && InputKey(p.tx.txid, vin) !in w.t.inputs
            && t'.inputs == t1.inputs && t'.outputs == t1.outputs && t'.transactions == t1.transactions
  {
  }

  lemma PerformSpent(w: Work, op: Op, cfg: Config, refs: set<OutPoint>)
    requires SpentExact(w.t) && RefsCover(w.t.inputs, refs) && Fresh(op, refs)
    requires Perform(w, op, cfg).Some?
    ensures var t' := Perform(w, op, cfg).value.t;
            && SpentExact(t') && RefsCover(t'.inputs, refs + Refs([op]))
            && NewOutputsOutside(w.t.outputs, t'.outputs, refs)
  {
    match op
    case NewTransaction(p) =>
    case NewInput(p, vin, v) =>
      InputEffect(w, p, vin, v, cfg);
      if Prevout(v).Some? {
        assert op in [op];
        assert Prevout(v).value in Refs([op]);
      }
    case NewOutput(p, o) =>
  }

  lemma {:induction false} RunSpent(w: Work, ops: seq<Op>, cfg: Config, refs: set<OutPoint>)
    requires SpentExact(w.t) && RefsCover(w.t.inputs, refs) && SoundFrom(ops, refs)
    requires Run(w, ops, cfg).Some?
    ensures var t' := Run(w, ops, cfg).value.t;
            && SpentExact(t') && RefsCover(t'.inputs, refs + Refs(ops))
            && NewOutputsOutside(w.t.outputs, t'.outputs, refs)
    decreases |ops|
  {
    if ops == [] {
      assert Refs(ops) == {} && refs + {} == refs;
    } else {
      PerformSpent(w, ops[0], cfg, refs);
      RunSpent(Perform(w, ops[0], cfg).value, ops[1..], cfg, refs + Refs([ops[0]]));
      RefsCons(ops);
      assert refs + Refs([ops[0]]) + Refs(ops[1..]) == refs + Refs(ops);
    }
  }

  // ----- rows belong to their transaction

  ghost predicate OutputsOwned(transactions: map<string, TxRow>, outputs: map<OutPoint, OutputRow>) {
    forall k :: k in outputs ==> k.txid in transactions && outputs[k].height == transactions[k.txid].height
  }

  ghost predicate InputsOwned(transactions: map<string, TxRow>, inputs: map<InputKey, InputRow>) {
    forall k :: k in inputs ==> k.txid in transactions && inputs[k].height == transactions[k.txid].height
  }

  ghost predicate Owned(t: Tables) {
    OutputsOwned(t.transactions, t.outputs) && InputsOwned(t.transactions, t.inputs)
  }

  ghost predicate HasOwner(t: Tables, p: Placed) {
    p.tx.txid in t.transactions && t.transactions[p.tx.txid].height == p.block.height
  }

  ghost predicate RowsOf(ops: seq<Op>, p: Placed) {
    forall i :: 0 <= i < |ops| ==> ops[i].p == p && !ops[i].NewTransaction?
  }

  lemma PerformOwned(w: Work, op: Op, cfg: Config)
    requires Owned(w.t) && (op.NewTransaction? || HasOwner(w.t, op.p))
    requires Perform(w, op, cfg).Some?
    ensures Owned(Perform(w, op, cfg).value.t) && HasOwner(Perform(w, op, cfg).value.t, op.p)
  {
    if op.NewInput? {
      InputEffect(w, op.p, op.vin, op.v, cfg);
    }
  }

  lemma {:induction false} RunOwned(w: Work, ops: seq<Op>, p: Placed, cfg: Config)
    requires Owned(w.t) && HasOwner(w.t, p) && RowsOf(ops, p)
    requires Run(w, ops, cfg).Some?
    ensures Owned(Run(w, ops, cfg).value.t)
    decreases |ops|
  {
    if ops != [] {
      PerformOwned(w, ops[0], cfg);
      RunOwned(Perform(w, ops[0], cfg).value, ops[1..], p, cfg);
    }
  }

  lemma {:induction false} InputRowsOf(p: Placed, from: nat)
    requires from <= |p.tx.vin|
    ensures RowsOf(InputOps(p, from), p)
    decreases |p.tx.vin| - from
  {
    if from < |p.tx.vin| { InputRowsOf(p, from + 1); }
  }

  lemma {:induction false} OutputRowsOf(p: Placed, from: nat)
    requires from <= |p.tx.vout|
    ensures RowsOf(OutputOps(p, from), p)
    decreases |p.tx.vout| - from
  {
    if from < |p.tx.vout| { OutputRowsOf(p, from + 1); }
  }

  lemma TxOwned(w: Work, p: Placed, cfg: Config)
    requires Owned(w.t) && Run(w, TxOps(p), cfg).Some?
    ensures Owned(Run(w, TxOps(p), cfg).value.t)
  {
    var rest := InputOps(p, 0) + OutputOps(p, 0);
    RunCons(w, NewTransaction(p), rest, cfg);
    PerformOwned(w, NewTransaction(p), cfg);
    InputRowsOf(p, 0);
    OutputRowsOf(p, 0);
    RunOwned(InsertTxRow(w, p, cfg).value, rest, p, cfg);
  }

  lemma {:induction false} BlockOwned(w: Work, b: Block, cfg: Config, from: nat)
    requires from <= |b.txs| && Owned(w.t) && Run(w, OpsFrom(b, from), cfg).Some?
    ensures Owned(Run(w, OpsFrom(b, from), cfg).value.t)
    decreases |b.txs| - from
  {
    if from < |b.txs| {
      var p := Placed(b, from, b.txs[from]);
      RunConcat(w, TxOps(p), OpsFrom(b, from + 1), cfg);
      TxOwned(w, p, cfg);
      BlockOwned(Run(w, TxOps(p), cfg).value, b, cfg, from + 1);
    }
  }

  // ----- address history

  /** A transaction has an output to the address. */
  ghost predicate Pays(t: Tables, txid: string, address: string) {
    exists k :: k in t.outputs && k.txid == txid && t.outputs[k].address == Some(address)
  }

  /** A transaction spends an indexed output of the address. */
  ghost predicate Draws(t: Tables, txid: string, address: string) {
    exists k :: k in t.inputs && k.txid == txid && DrawsFrom(t.inputs[k], t.outputs) == Some(address)
  }

  ghost predicate Involves(t: Tables, q: AddressKey) {
    Pays(t, q.txid, q.address) || Draws(t, q.txid, q.address)
  }

  /** The row of an address and a transaction carries the transaction's own height and position. */
  ghost predicate RowPlaced(t: Tables, q: AddressKey)
    requires q in t.addressTxs
  {
    && q.txid in t.transactions
    && t.addressTxs[q] == AddressRow(t.transactions[q.txid].height, t.transactions[q.txid].position)
  }

  /** One row per address and transaction, exactly where the transaction pays or draws. */
  ghost predicate AddressExact(t: Tables) {
    && (forall q :: q in t.addressTxs <==> Involves(t, q))
    && (forall q :: q in t.addressTxs ==> RowPlaced(t, q))
  }

  /** t1 is t0 with rows added at height h only; markers aside, the rows of t0 are unchanged. */
  ghost predicate RowsAdded(t0: Tables, t1: Tables, h: int) {
    && (forall x :: x in t0.transactions ==>
          x in t1.transactions && t1.transactions[x] == t0.transactions[x] && t0.transactions[x].height != h)
    && (forall x :: x in t1.transactions && t1.transactions[x].height != h ==> x in t0.transactions)
    && (forall k :: k in t0.inputs ==> k in t1.inputs && t1.inputs[k] == t0.inputs[k])
    && (forall k :: k in t1.inputs && t1.inputs[k].height != h ==> k in t0.inputs)
    && (forall k :: k in t0.outputs ==> k in t1.outputs && t1.outputs[k].address == t0.outputs[k].address)
    && (forall k :: k in t1.outputs && t1.outputs[k].height != h ==> k in t0.outputs)
  }

  lemma RowsAddedFromHeight(t0: Tables, t1: Tables, h: int, refs: set<OutPoint>)
    requires InRange(t0, h) && SameRows(t0, t1, h)
    requires OutputsWithout(t1.outputs, h) == Cleared(OutputsWithout(t0.outputs, h), refs)
    ensures RowsAdded(t0, t1, h)
  {
    TransactionsKept(t0.transactions, t1.transactions, h);
    InputsKept(t0.inputs, t1.inputs, h);
    OutputsKept(t0.outputs, t1.outputs, h, refs);
  }

  lemma TransactionsKept(m: map<string, TxRow>, m': map<string, TxRow>, h: int)
    requires TransactionsIn(m, h) && TransactionsWithout(m', h) == TransactionsWithout(m, h)
    ensures forall x :: x in m ==> x in m' && m'[x] == m[x] && m[x].height != h
    ensures forall x :: x in m' && m'[x].height != h ==> x in m
  {
    forall x | x in m ensures x in m' && m'[x] == m[x] {
      assert x in TransactionsWithout(m, h);
      assert TransactionsWithout(m', h)[x] == TransactionsWithout(m, h)[x];
    }
    forall x | x in m' && m'[x].height != h ensures x in m {
      assert x in TransactionsWithout(m', h);
    }
  }

  lemma InputsKept(m: map<InputKey, InputRow>, m': map<InputKey, InputRow>, h: int)
    requires InputsIn(m, h) && InputsWithout(m', h) == InputsWithout(m, h)
    ensures forall x :: x in m ==> x in m' && m'[x] == m[x]
    ensures forall x :: x in m' && m'[x].height != h ==> x in m
  {
    forall x | x in m ensures x in m' && m'[x] == m[x] {
      assert x in InputsWithout(m, h);
      assert InputsWithout(m', h)[x] == InputsWithout(m, h)[x];
    }
    forall x | x in m' && m'[x].height != h ensures x in m {
      assert x in InputsWithout(m', h);
    }
  }

  lemma OutputsKept(m: map<OutPoint, OutputRow>, m': map<OutPoint, OutputRow>, h: int, refs: set<OutPoint>)
    requires OutputsIn(m, h) && OutputsWithout(m', h) == Cleared(OutputsWithout(m, h), refs)
    ensures forall x :: x in m ==> x in m' && m'[x].address == m[x].address
    ensures forall x :: x in m' && m'[x].height != h ==> x in m
  {
    forall x | x in m ensures x in m' && m'[x].address == m[x].address {
      assert x in Cleared(OutputsWithout(m, h), refs);
      assert OutputsWithout(m', h)[x] == Cleared(OutputsWithout(m, h), refs)[x];
    }
    forall x | x in m' && m'[x].height != h ensures x in m {
      assert x in OutputsWithout(m', h);
    }
  }

  /** Transactions indexed earlier involve the same addresses as before. */
  lemma InvolvesOld(t0: Tables, t1: Tables, h: int, refs: set<OutPoint>, q: AddressKey)
    requires RowsAdded(t0, t1, h) && Owned(t0) && Owned(t1) && q.txid in t0.transactions
    requires RefsCover(t0.inputs, refs) && NewOutputsOutside(t0.outputs, t1.outputs, refs)
    ensures Involves(t1, q) <==> Involves(t0, q)
  {
    if Pays(t0, q.txid, q.address) {
      var k :| k in t0.outputs && k.txid == q.txid && t0.outputs[k].address == Some(q.address);
      assert k in t1.outputs && t1.outputs[k].address == Some(q.address);
    }
    if Pays(t1, q.txid, q.address) {
      var k :| k in t1.outputs && k.txid == q.txid && t1.outputs[k].address == Some(q.address);
      assert k in t0.outputs;
    }
    if Draws(t0, q.txid, q.address) {
      var k :| k in t0.inputs && k.txid == q.txid && DrawsFrom(t0.inputs[k], t0.outputs) == Some(q.address);
      assert k in t1.inputs && DrawsFrom(t1.inputs[k], t1.outputs) == Some(q.address);
    }
    if Draws(t1, q.txid, q.address) {
      var k :| k in t1.inputs && k.txid == q.txid && DrawsFrom(t1.inputs[k], t1.outputs) == Some(q.address);
      assert k in t0.inputs && DrawsFrom(t0.inputs[k], t0.outputs) == Some(q.address);
    }
  }

  /** Transactions of the new height are exactly the ones the two joins select. */
  lemma InvolvesNew(t0: Tables, t1: Tables, h: int, q: AddressKey)
    requires RowsAdded(t0, t1, h) && Owned(t1)
    ensures (q in PaidKeys(t1.transactions, t1.outputs, h) || q in DrawnKeys(t1.transactions, t1.inputs, t1.outputs, h))
            <==> Involves(t1, q) && q.txid !in t0.transactions
  {
    if q.txid !in t0.transactions {
      if Pays(t1, q.txid, q.address) {
        var k :| k in t1.outputs && k.txid == q.txid && t1.outputs[k].address == Some(q.address);
        assert t1.outputs[k].height == h;
        assert q == AddressKey(t1.outputs[k].address.value, k.txid);
      }
      if Draws(t1, q.txid, q.address) {
        var k :| k in t1.inputs && k.txid == q.txid && DrawsFrom(t1.inputs[k], t1.outputs) == Some(q.address);
        assert t1.inputs[k].height == h;
        assert q == AddressKey(DrawsFrom(t1.inputs[k], t1.outputs).value, k.txid);
      }
    }
  }

  lemma AddressStep(t0: Tables, t1: Tables, h: int, refs: set<OutPoint>)
    requires AddressExact(t0) && Owned(t0) && Owned(t1) && RowsAdded(t0, t1, h)
    requires RefsCover(t0.inputs, refs) && NewOutputsOutside(t0.outputs, t1.outputs, refs)
    requires t1.addressTxs == t0.addressTxs
    ensures AddressExact(IndexAddresses(t1, h))
  {
    var t2 := IndexAddresses(t1, h);
    forall q: AddressKey
      ensures q in t2.addressTxs <==> Involves(t2, q)
      ensures q in t2.addressTxs ==> RowPlaced(t2, q)
    {
      AddressStepAt(t0, t1, h, refs, q);
    }
  }

  lemma AddressStepAt(t0: Tables, t1: Tables, h: int, refs: set<OutPoint>, q: AddressKey)
    requires AddressExact(t0) && Owned(t0) && Owned(t1) && RowsAdded(t0, t1, h)
    requires RefsCover(t0.inputs, refs) && NewOutputsOutside(t0.outputs, t1.outputs, refs)
    requires t1.addressTxs == t0.addressTxs
    ensures var t2 := IndexAddresses(t1, h);
            && (q in t2.addressTxs <==> Involves(t2, q))
            && (q in t2.addressTxs ==> RowPlaced(t2, q))
  {
    var t2 := IndexAddresses(t1, h);
    SameInvolvement(t1, t2, q);
    InvolvesNew(t0, t1, h, q);
    if q.txid in t0.transactions {
      InvolvesOld(t0, t1, h, refs, q);
    }
    if q in t0.addressTxs {
      assert RowPlaced(t0, q);
    }
  }

  lemma SameInvolvement(t1: Tables, t2: Tables, q: AddressKey)
    requires t2.outputs == t1.outputs && t2.inputs == t1.inputs
    ensures Involves(t2, q) <==> Involves(t1, q)
  {
  }

  // ----- every reachable state

  ghost predicate Exact(t: Tables, refs: set<OutPoint>) {
    SpentExact(t) && AddressExact(t) && Owned(t) && RefsCover(t.inputs, refs)
  }

  lemma InsertBlockExact(w: Work, b: Block, cfg: Config, refs: set<OutPoint>)
    requires Exact(w.t, refs) && InRange(w.t, b.height) && SoundFrom(BlockOps(b), refs)
    requires InsertBlock(w, b, cfg).Some?
    ensures Exact(InsertBlock(w, b, cfg).value.t, refs + BlockRefs(b))
  {
    TransactionsAsOps(w, b, cfg, 0);
    OpsFromIn(b, 0);
    var w1 := Run(w, BlockOps(b), cfg).value;
    RunSpent(w, BlockOps(b), cfg, refs);
    BlockOwned(w, b, cfg, 0);
    RunStamps(w, BlockOps(b), b, cfg);
    RowsAddedFromHeight(w.t, w1.t, b.height, BlockRefs(b));
    FinishExact(w.t, w1, b, cfg, refs);
  }

  lemma FinishExact(t0: Tables, w1: Work, b: Block, cfg: Config, refs: set<OutPoint>)
    requires AddressExact(t0) && Owned(t0) && RefsCover(t0.inputs, refs)
    requires SpentExact(w1.t) && Owned(w1.t) && RefsCover(w1.t.inputs, refs + BlockRefs(b))
    requires RowsAdded(t0, w1.t, b.height) && NewOutputsOutside(t0.outputs, w1.t.outputs, refs)
    requires w1.t.addressTxs == t0.addressTxs
    requires FinishBlock(w1, b, cfg).Some?
    ensures Exact(FinishBlock(w1, b, cfg).value.t, refs + BlockRefs(b))
  {
    var t1 := AddBlockRow(w1.t, b, cfg);
    assert Owned(t1) && RowsAdded(t0, t1, b.height);
    AddressStep(t0, t1, b.height, refs);
  }

  lemma {:induction false} InsertBlocksExact(w: Work, bs: seq<Block>, cfg: Config, refs: set<OutPoint>, n: nat)
    requires Exact(w.t, refs) && WorkOk(w, n) && Consecutive(bs, n) && SoundChain(bs, refs)
    requires InsertBlocks(w, bs, cfg).Some?
    ensures exists all :: Exact(InsertBlocks(w, bs, cfg).value.t, all)
    decreases |bs|
  {
    if bs != [] {
      InsertBlockExact(w, bs[0], cfg, refs);
      InsertBlockKeeps(w, bs[0], cfg, n);
      InsertBlocksExact(InsertBlock(w, bs[0], cfg).value, bs[1..], cfg, refs + BlockRefs(bs[0]), n + 1);
    }
  }

  lemma EmptyExact(t: Tables)
    requires t == EMPTY.(meta := t.meta)
    ensures Exact(t, {})
  {
  }

  lemma IndexExact(c: seq<Block>, cfg: Config)
    requires Consecutive(c, 0) && SoundChain(c, {}) && Index(c, cfg).Some?
    ensures SpentExact(Index(c, cfg).value) && AddressExact(Index(c, cfg).value)
  {
    EmptyWellFormed();
    EmptyExact(EMPTY);
    if c != [] {
      InsertBlocksExact(Work(EMPTY, {}), c, cfg, {}, 0);
      var w := InsertBlocks(Work(EMPTY, {}), c, cfg).value;
      var all :| Exact(w.t, all);
      FinishBatchSameRows(w, c);
      SameRowsExact(w.t, Index(c, cfg).value);
    }
  }

  lemma FinishBatchSameRows(w: Work, bs: seq<Block>)
    requires bs != [] && FinishBatch(w, bs).Some?
    ensures var t' := FinishBatch(w, bs).value;
            t' == w.t.(assets := t'.assets, meta := t'.meta)
  {
  }

  lemma SameRowsExact(t: Tables, u: Tables)
    requires u == t.(assets := u.assets, meta := u.meta) && SpentExact(t) && AddressExact(t)
    ensures SpentExact(u) && AddressExact(u)
  {
    forall q: AddressKey
      ensures q in u.addressTxs <==> Involves(u, q)
      ensures q in u.addressTxs ==> RowPlaced(u, q)
    {
      SameInvolvement(t, u, q);
      if q in t.addressTxs { assert RowPlaced(t, q); }
    }
  }

  /** After any run whose chain spends soundly, spent markers and address history say exactly what is indexed. */
  lemma ReachableExact(es: seq<Event>, cfg: Config)
    requires Admissible(Database(EMPTY, []), es, cfg)
    requires SoundChain(AfterAll(Database(EMPTY, []), es, cfg).chain, {})
    ensures var t := AfterAll(Database(EMPTY, []), es, cfg).t;
            SpentExact(t) && AddressExact(t)
  {
    EmptyWellFormed();
    RunHolds(Database(EMPTY, []), es, cfg);
    var d := AfterAll(Database(EMPTY, []), es, cfg);
    if d.chain == [] {
      EmptyExact(d.t);
    } else {
      IndexExact(d.chain, cfg);
    }
  }

  // ----- a sound chain respends nothing

  lemma {:induction false} SoundOpsAvoid(ops: seq<Op>, refs: set<OutPoint>)
    requires SoundFrom(ops, refs)
    ensures Refs(ops) !! refs
    decreases |ops|
  {
    if ops != [] {
      SoundOpsAvoid(ops[1..], refs + Refs([ops[0]]));
      RefsCons(ops);
    }
  }

  lemma {:induction false} SoundChainAvoids(c: seq<Block>, refs: set<OutPoint>, j: nat)
    requires SoundChain(c, refs) && j < |c|
    ensures BlockRefs(c[j]) !! refs
    decreases |c|
  {
    if j == 0 {
      SoundOpsAvoid(BlockOps(c[0]), refs);
    } else {
      SoundChainAvoids(c[1..], refs + BlockRefs(c[0]), j - 1);
    }
  }

  lemma {:induction false} SoundChainPair(c: seq<Block>, refs: set<OutPoint>, i: nat, j: nat)
    requires SoundChain(c, refs) && i < j < |c|
    ensures BlockRefs(c[i]) !! BlockRefs(c[j])
    decreases |c|
  {
    if i == 0 {
      SoundChainAvoids(c[1..], refs + BlockRefs(c[0]), j - 1);
    } else {
      SoundChainPair(c[1..], refs + BlockRefs(c[0]), i - 1, j - 1);
    }
  }

  /** Chains that create outpoints before spending them, and spend them once, satisfy the rollback condition. */
  lemma SoundChainsNeverRespend(c: seq<Block>)
    requires SoundChain(c, {})
    ensures NoRespend(c)
  {
    forall i, j | 0 <= i < j < |c|
      ensures Disjoint(c, i, j)
    {
      SoundChainPair(c, {}, i, j);
    }
  }

  // ----- supply

  ghost predicate Blinded(issuances: map<InputKey, IssuanceRow>, a: string) {
    exists k :: k in issuances && issuances[k].asset == a && issuances[k].assetSats.None?
  }

  ghost predicate Issued(issuances: map<InputKey, IssuanceRow>, a: string) {
    exists k :: k in issuances && issuances[k].asset == a && !issuances[k].isReissuance
  }

  /**
   Supply honesty, for any consecutive blocks whatever: an asset row exists exactly while a first
   issuance is indexed; its supply is NULL exactly when some surviving issuance is blinded and is
   otherwise the exact sum; its counts are the numbers of surviving issuances and reissuances.
   */
  lemma SupplyIsHonest(t: Tables, n: nat, a: string)
    requires WellFormed(t, n)
    ensures a in t.assets <==> Issued(t.issuances, a)
    ensures a in t.assets ==>
              var s := t.assets[a].totals;
              && (s.issuedSats.None? <==> Blinded(t.issuances, a))
              && (s.issuedSats.Some? ==> s.issuedSats.value == SumValues(AssetAmounts(t.issuances, a)))
              && s.issuanceCount == |IssuanceKeys(t.issuances, a)| > 0
              && s.reissuanceCount == |Reissuances(t.issuances, a)| < s.issuanceCount
              && (s.confidentialReissuance <==> Blinded(t.issuances, a) && s.reissuanceCount > 0)
  {
    if a in t.assets {
      assert AnchoredAt(t.issuances, a, t.assets[a].anchor);
      var c := t.assets[a].anchor;
      var k := InputKey(c.txid, c.vin);
      assert k in IssuanceKeys(t.issuances, a) && k !in Reissuances(t.issuances, a);
      ProperSubset(Reissuances(t.issuances, a), IssuanceKeys(t.issuances, a), k);
      if Blinded(t.issuances, a) {
        var j :| j in t.issuances && t.issuances[j].asset == a && t.issuances[j].assetSats.None?;
        assert j in BlindedAssets(t.issuances, a);
      } else {
        assert BlindedAssets(t.issuances, a) == {};
      }
    }
  }

  lemma ProperSubset(a: set<InputKey>, b: set<InputKey>, k: InputKey)
    requires a <= b && k in b && k !in a
    ensures |a| < |b|
  {
    SubsetSize(a, b - {k});
  }

  lemma {:induction false} SubsetSize(a: set<InputKey>, b: set<InputKey>)
    requires a <= b
    ensures |a| <= |b|
    decreases |a|
  {
    if a != {} {
      var x :| x in a;
      SubsetSize(a - {x}, b - {x});
    }
  }
}
