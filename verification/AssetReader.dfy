/**
 The wording of an asset's supply (explorer/queries_more.go): what is said must follow from what is
 indexed.
 */
module AssetReader {
  import opened Common
  import opened Tables
  import opened Invariants
  import opened History
  import opened Exactness

  const VERIFIABLE := "publicly verifiable"
  const NOT_VERIFIABLE := "not publicly verifiable"
  const UNKNOWN := "unknown (confidential reissuance token amount)"
  const FIXED := "fixed supply (no reissuance token was issued)"
  const REISSUABLE := "reissuable (a reissuance token exists)"

  function SupplyState(issuedSats: Option<int>): string {
    if issuedSats.Some? then VERIFIABLE else NOT_VERIFIABLE
  }

  function ReissuanceState(tokenSats: Option<int>): string {
    match tokenSats
    case None => UNKNOWN
    case Some(n) => if n == 0 then FIXED else REISSUABLE
  }

  class AssetRecord {
    var issuedSats: Option<int>
    var tokenSats: Option<int>
    var supplyState: string
    var reissuanceState: string

    /** A scanned row, before its wording. */
    constructor (row: AssetRow)
      ensures issuedSats == row.totals.issuedSats && tokenSats == row.totals.tokenSats
    {
      issuedSats, tokenSats := row.totals.issuedSats, row.totals.tokenSats;
      supplyState, reissuanceState := "", "";
    }

    /** describe. */
    method Describe()
      modifies this`supplyState, this`reissuanceState
      ensures supplyState == SupplyState(issuedSats)
      ensures reissuanceState == ReissuanceState(tokenSats)
    {
      if issuedSats.Some? {
        supplyState := VERIFIABLE;
      } else {
        supplyState := NOT_VERIFIABLE;
      }
      if tokenSats.None? {
        reissuanceState := UNKNOWN;
      } else if tokenSats.value == 0 {
        reissuanceState := FIXED;
      } else {
        reissuanceState := REISSUABLE;
      }
    }
  }

  ghost predicate TokensBlinded(issuances: map<InputKey, IssuanceRow>, a: string) {
    exists k :: k in issuances && issuances[k].asset == a && issuances[k].tokenSats.None?
  }

  /** Every surviving issuance of the asset shows that it created no reissuance token. */
  ghost predicate NoTokens(issuances: map<InputKey, IssuanceRow>, a: string) {
    forall k :: k in issuances && issuances[k].asset == a ==> issuances[k].tokenSats == Some(0)
  }

  lemma WordsDiffer()
    ensures VERIFIABLE != NOT_VERIFIABLE && UNKNOWN != FIXED && UNKNOWN != REISSUABLE && FIXED != REISSUABLE
  {
    assert |VERIFIABLE| == 19 && |NOT_VERIFIABLE| == 23;
    assert |UNKNOWN| == 46 && |FIXED| == 45 && |REISSUABLE| == 38;
  }

  /** Amounts of nought or more add up to nought exactly when each is nought. */
  lemma {:induction false} ZeroSum<K>(m: map<K, int>)
    requires forall k :: k in m ==> m[k] >= 0
    ensures SumValues(m) >= 0
    ensures SumValues(m) == 0 <==> forall k :: k in m ==> m[k] == 0
    decreases |m|
  {
    if m != map[] {
      var j :| j in m;
      SumValuesRemove(m, j);
      ZeroSum(m - {j});
      assert m == (m - {j})[j := m[j]];
    }
  }

  /**
   What the wording says of an indexed asset: a supply is called verifiable exactly when no surviving
   issuance is blinded, the reissuance state is unknown exactly when some token amount is blinded, and,
   where explicit amounts are never negative, the supply is called fixed exactly when no issuance made a token.
   */
  lemma WordingIsHonest(t: Tables, n: nat, a: string)
    requires WellFormed(t, n) && a in t.assets
    ensures var s := t.assets[a].totals;
            && (SupplyState(s.issuedSats) == VERIFIABLE <==> !Blinded(t.issuances, a))
            && (ReissuanceState(s.tokenSats) == UNKNOWN <==> TokensBlinded(t.issuances, a))
            && (CleanRows(t.issuances) ==> (ReissuanceState(s.tokenSats) == FIXED <==> NoTokens(t.issuances, a)))
  {
    WordsDiffer();
    SupplyIsHonest(t, n, a);
    TokenTotal(t, n, a);
    if CleanRows(t.issuances) && !TokensBlinded(t.issuances, a) {
      TokensAddUp(t.issuances, a);
    }
  }

  lemma TokensAddUp(issuances: map<InputKey, IssuanceRow>, a: string)
    requires CleanRows(issuances) && !TokensBlinded(issuances, a)
    ensures SumValues(TokenAmounts(issuances, a)) == 0 <==> NoTokens(issuances, a)
  {
    var m := TokenAmounts(issuances, a);
    ZeroSum(m);
    if SumValues(m) == 0 {
      forall k | k in issuances && issuances[k].asset == a
        ensures issuances[k].tokenSats == Some(0)
      {
        assert m[k] == 0;
      }
    }
  }

  lemma TokenTotal(t: Tables, n: nat, a: string)
    requires WellFormed(t, n) && a in t.assets
    ensures var s := t.assets[a].totals;
            s.tokenSats == if TokensBlinded(t.issuances, a) then None else Some(SumValues(TokenAmounts(t.issuances, a)))
  {
    if TokensBlinded(t.issuances, a) {
      var k :| k in t.issuances && t.issuances[k].asset == a && t.issuances[k].tokenSats.None?;
      assert k in BlindedTokens(t.issuances, a);
    } else {
      assert BlindedTokens(t.issuances, a) == {};
    }
  }
}
