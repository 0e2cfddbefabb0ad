/**
 Values shared by every module: optional values, the signed and unsigned 64-bit
 ranges of the explorer's integers, and sums over the values of a finite map.
 */
module Common {

  datatype Option<+T> = None | Some(value: T)

  const TWO_63: int := 0x8000_0000_0000_0000
  const TWO_64: int := 0x1_0000_0000_0000_0000

  predicate FitsInt64(x: int) {
    -TWO_63 <= x < TWO_63
  }

  /** Two's-complement wrap-around of a 64-bit signed addition. */
  function WrapInt64(x: int): (r: int)
    ensures FitsInt64(r)
    ensures FitsInt64(x) ==> r == x
    ensures (r - x) % TWO_64 == 0
  {
    if FitsInt64(x) then x else (x + TWO_63) % TWO_64 - TWO_63
  }

  function Min(a: int, b: int): int {
    if a < b then a else b
  }

  function OrZero(x: Option<int>): int {
    if x.Some? then x.value else 0
  }

  /** A SQL text column written through `nullable`: the empty string becomes NULL. */
  function Nullable(s: string): Option<string> {
    if s == "" then None else Some(s)
  }

  /** What SUM computes over one integer column, in whatever order the rows are visited. */
  ghost function SumValues<K>(m: map<K, int>): int {
    if m == map[] then 0
    else
      var k :| k in m;
      m[k] + SumValues(m - {k})
  }

  lemma {:induction false} SumValuesRemove<K>(m: map<K, int>, k: K)
    requires k in m
    ensures SumValues(m) == m[k] + SumValues(m - {k})
    decreases |m|
  {
    var j :| j in m && SumValues(m) == m[j] + SumValues(m - {j});
    if j != k {
      SumValuesRemove(m - {j}, k);
      SumValuesRemove(m - {k}, j);
      assert m - {j} - {k} == m - {k} - {j};
    }
  }

  lemma SumValuesAdd<K>(m: map<K, int>, k: K, x: int)
    requires k !in m
    ensures SumValues(m[k := x]) == SumValues(m) + x
  {
    SumValuesRemove(m[k := x], k);
    assert m[k := x] - {k} == m;
  }

  /** Dropping rows that hold no negative amount never raises a sum. */
  lemma {:induction false} SumValuesMonotone<K>(part: map<K, int>, all: map<K, int>)
    requires forall k :: k in part ==> k in all && part[k] == all[k]
    requires forall k :: k in all ==> all[k] >= 0
    ensures 0 <= SumValues(part) <= SumValues(all)
    decreases |all|
  {
    if all == map[] {
      assert part == map[];
    } else {
      var k :| k in all;
      SumValuesRemove(all, k);
      if k in part {
        SumValuesRemove(part, k);
        SumValuesMonotone(part - {k}, all - {k});
      } else {
        SumValuesMonotone(part, all - {k});
      }
    }
  }

  lemma {:induction false} SumValuesMinus<K>(m: map<K, int>, n: map<K, int>, d: map<K, int>)
    requires m.Keys == n.Keys == d.Keys && forall k :: k in d ==> d[k] == m[k] - n[k]
    ensures SumValues(d) == SumValues(m) - SumValues(n)
    decreases |d|
  {
    if d == map[] {
      assert m == map[] && n == map[];
    } else {
      var k :| k in d;
      SumValuesRemove(d, k);
      SumValuesRemove(m, k);
      SumValuesRemove(n, k);
      SumValuesMinus(m - {k}, n - {k}, d - {k});
    }
  }

  lemma {:induction false} SumValuesDropZeros<K>(part: map<K, int>, all: map<K, int>)
    requires forall k :: k in part ==> k in all && all[k] == part[k]
    requires forall k :: k in all && k !in part ==> all[k] == 0
    ensures SumValues(part) == SumValues(all)
    decreases |all|
  {
    if all == map[] {
      assert part == map[];
    } else {
      var k :| k in all;
      SumValuesRemove(all, k);
      if k in part {
        SumValuesRemove(part, k);
        SumValuesDropZeros(part - {k}, all - {k});
      } else {
        SumValuesDropZeros(part, all - {k});
      }
    }
  }

  lemma HasElement(s: set<int>)
    ensures s == {} || exists x: int :: x in s
  {
    if forall x: int :: x !in s {
      assert s == {};
    }
  }

  /** The greatest of a set of heights. */
  method Greatest(heights: set<int>) returns (top: Option<int>)
    ensures top.None? <==> heights == {}
    ensures top.Some? ==> top.value in heights && forall h :: h in heights ==> h <= top.value
  {
    top := None;
    var todo := heights;
    while todo != {}
      invariant todo <= heights
      invariant top.None? ==> todo == heights
      invariant top.Some? ==> top.value in heights && forall h :: h in heights && h !in todo ==> h <= top.value
      decreases todo
    {
      HasElement(todo);
      var h :| h in todo;
      if top.None? || top.value < h {
        top := Some(h);
      }
      todo := todo - {h};
    }
  }

  /** A string of one character. */
  function Repeat(c: char, n: nat): (s: string)
    ensures |s| == n && forall i :: 0 <= i < n ==> s[i] == c
  {
    seq(n, _ => c)
  }

  lemma RepeatsDiffer(c: char, d: char, n: nat)
    requires c != d && n > 0
    ensures Repeat(c, n) != Repeat(d, n)
  {
    assert Repeat(c, n)[0] == c && Repeat(d, n)[0] == d;
  }
}
