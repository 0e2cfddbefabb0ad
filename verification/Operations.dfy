/**
 The inserts of a block as one flat list of row operations. The nested loops of insertBlock
 and insertTransaction run exactly this list, so a property that every single operation keeps
 is kept by the whole block.
 */
module Operations {
  import opened Common
  import opened ChainModel
  import opened Tables

  datatype Op =
    | NewTransaction(p: Placed)
    | NewInput(p: Placed, vin: int, v: Vin)
    | NewOutput(p: Placed, o: Vout)

  function Perform(w: Work, op: Op, cfg: Config): Option<Work> {
    match op
    case NewTransaction(p) => InsertTxRow(w, p, cfg)
    case NewInput(p, vin, v) => InsertInput(w, p, vin, v, cfg)
    case NewOutput(p, o) => InsertOutput(w, p, o, cfg)
  }

  function Run(w: Work, ops: seq<Op>, cfg: Config): Option<Work>
    decreases |ops|
  {
    if ops == [] then Some(w)
    else
      match Perform(w, ops[0], cfg)
      case None => None
      case Some(w') => Run(w', ops[1..], cfg)
  }

  function InputOps(p: Placed, from: nat): seq<Op>
    requires from <= |p.tx.vin|
    decreases |p.tx.vin| - from
  {
    if from == |p.tx.vin| then [] else [NewInput(p, from, p.tx.vin[from])] + InputOps(p, from + 1)
  }

  function OutputOps(p: Placed, from: nat): seq<Op>
    requires from <= |p.tx.vout|
    decreases |p.tx.vout| - from
  {
    if from == |p.tx.vout| then [] else [NewOutput(p, p.tx.vout[from])] + OutputOps(p, from + 1)
  }

  function TxOps(p: Placed): seq<Op> {
    [NewTransaction(p)] + (InputOps(p, 0) + OutputOps(p, 0))
  }

  function OpsFrom(b: Block, from: nat): seq<Op>
    requires from <= |b.txs|
    decreases |b.txs| - from
  {
    if from == |b.txs| then [] else TxOps(Placed(b, from, b.txs[from])) + OpsFrom(b, from + 1)
  }

  function BlockOps(b: Block): seq<Op> {
    OpsFrom(b, 0)
  }

  lemma {:induction false} RunConcat(w: Work, xs: seq<Op>, ys: seq<Op>, cfg: Config)
    ensures Run(w, xs + ys, cfg) ==
            match Run(w, xs, cfg) { case None => None case Some(w') => Run(w', ys, cfg) }
    decreases |xs|
  {
    if xs == [] {
      assert xs + ys == ys;
    } else {
      assert (xs + ys)[0] == xs[0] && (xs + ys)[1..] == xs[1..] + ys;
      match Perform(w, xs[0], cfg)
      case None =>
      case Some(w') => RunConcat(w', xs[1..], ys, cfg);
    }
  }

  lemma RunCons(w: Work, op: Op, rest: seq<Op>, cfg: Config)
    ensures Run(w, [op] + rest, cfg) ==
            match Perform(w, op, cfg) { case None => None case Some(w') => Run(w', rest, cfg) }
  {
    assert ([op] + rest)[1..] == rest;
  }

  lemma {:induction false} InputsAsOps(w: Work, p: Placed, cfg: Config, from: nat)
    requires from <= |p.tx.vin|
    ensures InsertInputs(w, p, cfg, from) == Run(w, InputOps(p, from), cfg)
    decreases |p.tx.vin| - from
  {
    if from < |p.tx.vin| {
      RunCons(w, NewInput(p, from, p.tx.vin[from]), InputOps(p, from + 1), cfg);
      match InsertInput(w, p, from, p.tx.vin[from], cfg)
      case None =>
      case Some(w') => InputsAsOps(w', p, cfg, from + 1);
    }
  }

  lemma {:induction false} OutputsAsOps(w: Work, p: Placed, cfg: Config, from: nat)
    requires from <= |p.tx.vout|
    ensures InsertOutputs(w, p, cfg, from) == Run(w, OutputOps(p, from), cfg)
    decreases |p.tx.vout| - from
  {
    if from < |p.tx.vout| {
      RunCons(w, NewOutput(p, p.tx.vout[from]), OutputOps(p, from + 1), cfg);
      match InsertOutput(w, p, p.tx.vout[from], cfg)
      case None =>
      case Some(w') => OutputsAsOps(w', p, cfg, from + 1);
    }
  }

  lemma TransactionAsOps(w: Work, p: Placed, cfg: Config)
    ensures InsertTransaction(w, p, cfg) == Run(w, TxOps(p), cfg)
  {
    RunCons(w, NewTransaction(p), InputOps(p, 0) + OutputOps(p, 0), cfg);
    match InsertTxRow(w, p, cfg)
    case None =>
    case Some(w1) =>
      RunConcat(w1, InputOps(p, 0), OutputOps(p, 0), cfg);
      InputsAsOps(w1, p, cfg, 0);
      match InsertInputs(w1, p, cfg, 0)
      case None =>
      case Some(w2) => OutputsAsOps(w2, p, cfg, 0);
  }

  /** The nested loops over transactions, inputs and outputs run the flat list. */
  lemma {:induction false} TransactionsAsOps(w: Work, b: Block, cfg: Config, from: nat)
    requires from <= |b.txs|
    ensures InsertTransactions(w, b, cfg, from) == Run(w, OpsFrom(b, from), cfg)
    decreases |b.txs| - from
  {
    if from < |b.txs| {
      var p := Placed(b, from, b.txs[from]);
      RunConcat(w, TxOps(p), OpsFrom(b, from + 1), cfg);
      TransactionAsOps(w, p, cfg);
      match InsertTransaction(w, p, cfg)
      case None =>
      case Some(w') => TransactionsAsOps(w', b, cfg, from + 1);
    }
  }

  /** Every operation of the list belongs to the block. */
  ghost predicate AllIn(ops: seq<Op>, b: Block) {
    forall i :: 0 <= i < |ops| ==> ops[i].p.block == b
  }

  lemma {:induction false} InputOpsIn(p: Placed, from: nat)
    requires from <= |p.tx.vin|
    ensures AllIn(InputOps(p, from), p.block)
    decreases |p.tx.vin| - from
  {
    if from < |p.tx.vin| { InputOpsIn(p, from + 1); }
  }

  lemma {:induction false} OutputOpsIn(p: Placed, from: nat)
    requires from <= |p.tx.vout|
    ensures AllIn(OutputOps(p, from), p.block)
    decreases |p.tx.vout| - from
  {
    if from < |p.tx.vout| { OutputOpsIn(p, from + 1); }
  }

  lemma {:induction false} OpsFromIn(b: Block, from: nat)
    requires from <= |b.txs|
    ensures AllIn(OpsFrom(b, from), b)
    decreases |b.txs| - from
  {
    if from < |b.txs| {
      var p := Placed(b, from, b.txs[from]);
      InputOpsIn(p, 0);
      OutputOpsIn(p, 0);
      OpsFromIn(b, from + 1);
    }
  }
}
