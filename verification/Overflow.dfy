/**
 Why rollback and the cutting of batches need issuance amounts that are not negative: two small blocks, the
 second of which issues a negative amount that keeps an asset's sum within 64 bits. Together they
 are applied; the first alone is refused, and so is every rollback of the second.
 */
module Overflow {
  import opened Common
  import opened ChainModel
  import opened Tables
  import opened Operations
  import opened Invariants
  import opened Reorg
  import opened Indexer
  import opened IndexerSafety
  import Amounts

  const LARGE: int := TWO_63 - 1

  ghost function AmountText(v: int): string {
    Amounts.Text(Amounts.EightDecimals(v))
  }

  ghost function Issue(v: int, again: bool): Issuance {
    Issuance("a", "", "", again, Some(AmountText(v)), "", None, "", "")
  }

  ghost function Issuing(v: int, again: bool): Vin {
    Vin("", None, "", false, Some(Issue(v, again)), "")
  }

  ghost function IssueTwice(): Tx {
    Tx("x", [Issuing(LARGE, false), Issuing(3, true)], [], map[], "")
  }

  ghost function IssueLess(): Tx {
    Tx("y", [Issuing(-5, true)], [], map[], "")
  }

  ghost function First(): Block {
    Block(Repeat('a', 64), 0, "", 0, [IssueTwice()], "")
  }

  ghost function Second(): Block {
    Block(Repeat('b', 64), 1, Repeat('a', 64), 0, [IssueLess()], "")
  }

  /** Any node may announce the two blocks: the first can open a chain and the second continues it. */
  lemma SecondContinuesFirst()
    ensures Continues([First(), Second()], 0, "")
  {
    PairContinues(First(), Second());
  }

  lemma PairContinues(b: Block, b': Block)
    requires IsHash(b.hash) && IsHash(b'.hash) && b.height == 0 && b'.height == 1 && b'.previousHash == b.hash
    ensures Continues([b, b'], 0, "")
  {
  }

  /** The configuration parses amounts as the explorer does. */
  ghost predicate Parses(cfg: Config) {
    cfg.parseSats == Amounts.ParseSats
  }

  lemma AmountsParse(cfg: Config, v: int)
    requires Parses(cfg) && FitsInt64(v)
    ensures IssuedAmount(Some(AmountText(v)), "", cfg) == Some(Some(v))
    ensures IssuedAmount(None, "", cfg) == Some(Some(0))
  {
    Amounts.EightDecimalsRoundTrip(v);
  }

  /** One more issuance of the asset. */
  lemma IssueInserts(w: Work, p: Placed, vin: int, v: int, again: bool, cfg: Config)
    requires Parses(cfg) && FitsInt64(v)
    requires InputKey(p.tx.txid, vin) !in w.t.inputs && InputKey(p.tx.txid, vin) !in w.t.issuances
    ensures InsertInput(w, p, vin, Issuing(v, again), cfg).Some?
    ensures var w' := InsertInput(w, p, vin, Issuing(v, again), cfg).value;
            var k := InputKey(p.tx.txid, vin);
            && w'.touched == w.touched + {"a"} && w'.t.blocks == w.t.blocks && w'.t.transactions == w.t.transactions
            && w'.t.inputs.Keys == w.t.inputs.Keys + {k}
            && w'.t.issuances ==
               w.t.issuances[k := IssuanceRowOf(p, Issuing(v, again), Issue(v, again), Some(v), Some(0))]
  {
    AmountsParse(cfg, v);
  }

  const K0: InputKey := InputKey("x", 0)
  const K1: InputKey := InputKey("x", 1)
  const K2: InputKey := InputKey("y", 0)

  ghost predicate IsIssue(r: IssuanceRow, v: int, height: int) {
    r.asset == "a" && r.assetSats == Some(v) && r.tokenSats == Some(0) && r.height == height
  }

  ghost predicate IssuedTwice(issuances: map<InputKey, IssuanceRow>) {
    issuances.Keys == {K0, K1} && IsIssue(issuances[K0], LARGE, 0) && IsIssue(issuances[K1], 3, 0)
  }

  ghost predicate IssuedThrice(issuances: map<InputKey, IssuanceRow>) {
    && issuances.Keys == {K0, K1, K2}
    && IsIssue(issuances[K0], LARGE, 0) && IsIssue(issuances[K1], 3, 0) && IsIssue(issuances[K2], -5, 1)
  }

  lemma TwoOverflow(issuances: map<InputKey, IssuanceRow>)
    requires IssuedTwice(issuances)
    ensures !SumsFit(issuances, "a")
  {
    var one: map<InputKey, int> := map[K0 := LARGE];
    assert AssetAmounts(issuances, "a") == one[K1 := 3];
    assert one == map[][K0 := LARGE];
    SumValuesAdd(map[], K0, LARGE);
    SumValuesAdd(one, K1, 3);
  }

  lemma ThreeFit(issuances: map<InputKey, IssuanceRow>)
    requires IssuedThrice(issuances)
    ensures SumsFit(issuances, "a")
  {
    ThreeAmounts(AssetAmounts(issuances, "a"), LARGE, 3, -5);
    ThreeAmounts(TokenAmounts(issuances, "a"), 0, 0, 0);
  }

  lemma ThreeAmounts(m: map<InputKey, int>, x: int, y: int, z: int)
    requires m.Keys == {K0, K1, K2} && m[K0] == x && m[K1] == y && m[K2] == z
    ensures SumValues(m) == x + y + z
  {
    var one: map<InputKey, int> := map[K0 := x];
    assert one == map[][K0 := x];
    assert m == one[K1 := y][K2 := z];
    SumValuesAdd(map[], K0, x);
    SumValuesAdd(one, K1, y);
    SumValuesAdd(one[K1 := y], K2, z);
  }

  /** What the first block leaves behind, before its row and the refresh. */
  ghost predicate FirstIn(w: Work) {
    && w.touched == {"a"} && w.t.blocks == map[]
    && w.t.transactions.Keys == {"x"} && w.t.inputs.Keys == {K0, K1} && IssuedTwice(w.t.issuances)
  }

  lemma FirstInserts(cfg: Config) returns (w: Work)
    requires Parses(cfg)
    ensures InsertTransactions(Work(EMPTY, {}), First(), cfg, 0) == Some(w) && FirstIn(w)
  {
    NoFees(cfg);
    var p := Placed(First(), 0, IssueTwice());
    assert First().txs[0] == IssueTwice();
    var w1 := InsertTxRow(Work(EMPTY, {}), p, cfg).value;
    IssueInserts(w1, p, 0, LARGE, false, cfg);
    var w2 := InsertInput(w1, p, 0, Issuing(LARGE, false), cfg).value;
    IssueInserts(w2, p, 1, 3, true, cfg);
    w := InsertInput(w2, p, 1, Issuing(3, true), cfg).value;
    assert InsertInputs(w, p, cfg, 2) == Some(w) && InsertInputs(w2, p, cfg, 1) == Some(w);
    assert InsertOutputs(w, p, cfg, 0) == Some(w);
    assert InsertTransactions(w, First(), cfg, 1) == Some(w);
  }

  lemma SecondInserts(w: Work, cfg: Config) returns (w': Work)
    requires Parses(cfg) && w.touched == {"a"} && IssuedTwice(w.t.issuances)
    requires w.t.transactions.Keys == {"x"} && w.t.inputs.Keys == {K0, K1}
    ensures InsertTransactions(w, Second(), cfg, 0) == Some(w')
    ensures w'.touched == {"a"} && w'.t.blocks == w.t.blocks && IssuedThrice(w'.t.issuances)
  {
    NoFees(cfg);
    var p := Placed(Second(), 0, IssueLess());
    assert Second().txs[0] == IssueLess();
    var w1 := InsertTxRow(w, p, cfg).value;
    IssueInserts(w1, p, 0, -5, true, cfg);
    w' := InsertInput(w1, p, 0, Issuing(-5, true), cfg).value;
    assert InsertInputs(w', p, cfg, 1) == Some(w');
    assert InsertOutputs(w', p, cfg, 0) == Some(w');
    assert InsertTransactions(w', Second(), cfg, 1) == Some(w');
  }

  /** Alone, the first block is refused: its sum overflows. */
  lemma FirstIsRefused(cfg: Config)
    requires Parses(cfg)
    ensures ApplyBlocks(EMPTY, [First()], cfg).None?
  {
    OneBlock(EMPTY, First(), cfg);
    var w := FirstInserts(cfg);
    if FinishBlock(w, First(), cfg).Some? {
      FinishBlockHides(w, First(), cfg);
      TwoOverflow(w.t.issuances);
    }
  }

  lemma FirstFinishes(w: Work, cfg: Config) returns (w': Work)
    requires FirstIn(w)
    ensures FinishBlock(w, First(), cfg) == Some(w') && w'.touched == {"a"} && IssuedTwice(w'.t.issuances)
    ensures w'.t.transactions == w.t.transactions && w'.t.inputs == w.t.inputs
    ensures w'.t.blocks == map[0 := StoredRow(First(), cfg)]
  {
    w' := FinishBlock(w, First(), cfg).value;
    FinishBlockHides(w, First(), cfg);
  }

  lemma SecondFinishes(w: Work, cfg: Config) returns (w': Work)
    requires w.touched == {"a"} && IssuedThrice(w.t.issuances) && w.t.blocks == map[0 := StoredRow(First(), cfg)]
    ensures FinishBlock(w, Second(), cfg) == Some(w') && w'.touched == {"a"} && IssuedThrice(w'.t.issuances)
  {
    RepeatsDiffer('a', 'b', 64);
    assert BlockRowFits(w.t.blocks, Second());
    w' := FinishBlock(w, Second(), cfg).value;
    FinishBlockHides(w, Second(), cfg);
  }

  lemma TwoBlocks(w: Work, b: Block, b': Block, cfg: Config, w1: Work, w2: Work)
    requires InsertBlock(w, b, cfg) == Some(w1) && InsertBlock(w1, b', cfg) == Some(w2)
    ensures InsertBlocks(w, [b, b'], cfg) == Some(w2)
  {
    InsertOne(w1, b', cfg);
    assert [b, b'][1..] == [b'];
  }

  lemma BothInsert(cfg: Config) returns (w: Work)
    requires Parses(cfg)
    ensures InsertBlocks(Work(EMPTY, {}), [First(), Second()], cfg) == Some(w)
    ensures w.touched == {"a"} && IssuedThrice(w.t.issuances)
  {
    var w1 := FirstInserts(cfg);
    var w2 := FirstFinishes(w1, cfg);
    var w3 := SecondInserts(w2, cfg);
    w := SecondFinishes(w3, cfg);
    TwoBlocks(Work(EMPTY, {}), First(), Second(), cfg, w2, w);
  }

  lemma BatchFinishes(w: Work, bs: seq<Block>) returns (t: Tables)
    requires w.touched == {"a"} && IssuedThrice(w.t.issuances) && bs != []
    ensures FinishBatch(w, bs) == Some(t) && t.issuances == w.t.issuances
  {
    ThreeFit(w.t.issuances);
    t := FinishBatch(w, bs).value;
  }

  /** Both blocks together are applied. */
  lemma BothAreApplied(cfg: Config) returns (t: Tables)
    requires Parses(cfg)
    ensures ApplyBlocks(EMPTY, [First(), Second()], cfg) == Some(t) && IssuedThrice(t.issuances)
  {
    var w := BothInsert(cfg);
    t := BatchFinishes(w, [First(), Second()]);
  }

  lemma WithoutSecond(issuances: map<InputKey, IssuanceRow>)
    requires IssuedThrice(issuances)
    ensures !FitsWithout(issuances, 1)
  {
    assert issuances[K2].height == 1 && "a" in IssuedAt(issuances, 1);
    TwoOverflow(IssuancesWithout(issuances, 1));
  }

  lemma BothAreWellFormed(cfg: Config, t: Tables)
    requires ApplyBlocks(EMPTY, [First(), Second()], cfg) == Some(t)
    ensures WellFormed(t, 2)
  {
    EmptyWellFormed();
    ApplyKeepsWellFormed(EMPTY, [First(), Second()], cfg, 0);
  }

  /**
   The batch of both blocks commits although its first part does not, and the tip of the well-formed
   index it leaves cannot be rolled back.
   */
  lemma NegativeAmountsBreakBoth(cfg: Config) returns (t: Tables)
    requires Parses(cfg)
    ensures ApplyBlocks(EMPTY, [First(), Second()], cfg) == Some(t) && ApplyBlocks(EMPTY, [First()], cfg).None?
    ensures WellFormed(t, 2) && RollbackBlock(t, 1).None?
    ensures Continues([First(), Second()], 0, "")
  {
    SecondContinuesFirst();
    FirstIsRefused(cfg);
    t := BothAreApplied(cfg);
    BothAreWellFormed(cfg, t);
    WithoutSecond(t.issuances);
    RollbackSucceedsWhen(t, 1);
  }
}
