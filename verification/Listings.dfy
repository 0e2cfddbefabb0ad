/**
 What a query with ORDER BY, LIMIT and OFFSET returns, and what following the pages of such a
 query lists (makePage of explorer/queries.go). An order must decide every pair of selected rows;
 then the listing of the rows is unique.
 */
module Listings {
  import opened Common

  // ----- text order

  /** Byte order of text columns and of Go strings, on code points. */
  predicate TextBefore(a: string, b: string)
    decreases |a|
  {
    b != "" && (a == "" || a[0] < b[0] || (a[0] == b[0] && TextBefore(a[1..], b[1..])))
  }

  lemma {:induction false} TextDecides(a: string, b: string)
    ensures TextBefore(a, b) ==> !TextBefore(b, a)
    ensures TextBefore(a, b) || TextBefore(b, a) || a == b
    decreases |a|
  {
    if a != "" && b != "" && a[0] == b[0] {
      TextDecides(a[1..], b[1..]);
      assert a == [a[0]] + a[1..] && b == [b[0]] + b[1..];
    }
  }

  lemma {:induction false} TextChains(a: string, b: string, c: string)
    requires TextBefore(a, b) && TextBefore(b, c)
    ensures TextBefore(a, c)
    decreases |a|
  {
    if a != "" && a[0] == b[0] && b[0] == c[0] {
      TextChains(a[1..], b[1..], c[1..]);
    }
  }

  // ----- listings

  ghost predicate Decides<K(!new)>(less: (K, K) -> bool, s: set<K>) {
    forall a, b :: a in s && b in s ==> (less(a, b) ==> !less(b, a)) && (less(a, b) || less(b, a) || a == b)
  }

  ghost predicate Chains<K(!new)>(less: (K, K) -> bool, s: set<K>) {
    forall a, b, c :: a in s && b in s && c in s && less(a, b) && less(b, c) ==> less(a, c)
  }

  /** A strict total order of the rows of s. */
  ghost predicate Orders<K(!new)>(less: (K, K) -> bool, s: set<K>) {
    Decides(less, s) && Chains(less, s)
  }

  ghost predicate IsFirst<K(!new)>(k: K, s: set<K>, less: (K, K) -> bool) {
    k in s && forall j :: j in s && j != k ==> less(k, j)
  }

  lemma {:induction false} HasFirst<K(!new)>(s: set<K>, less: (K, K) -> bool)
    requires Orders(less, s) && s != {}
    ensures exists k :: IsFirst(k, s, less)
    decreases |s|
  {
    var x :| x in s;
    var rest := s - {x};
    if rest == {} {
      assert s == {x};
      assert IsFirst(x, s, less);
    } else {
      HasFirst(rest, less);
      var k :| IsFirst(k, rest, less);
      if less(k, x) {
        assert IsFirst(k, s, less);
      } else {
        assert IsFirst(x, s, less);
      }
    }
  }

  /** The rows of s, in order. */
  ghost function Listing<K(!new)>(s: set<K>, less: (K, K) -> bool): seq<K>
    requires Orders(less, s)
    decreases |s|
  {
    if s == {} then []
    else
      HasFirst(s, less);
      var k :| IsFirst(k, s, less);
      [k] + Listing(s - {k}, less)
  }

  lemma ListingSplits<K(!new)>(s: set<K>, less: (K, K) -> bool) returns (k: K)
    requires Orders(less, s) && s != {}
    ensures IsFirst(k, s, less) && Listing(s, less) == [k] + Listing(s - {k}, less)
  {
    k := Listing(s, less)[0];
  }

  ghost predicate Ordered<K(!new)>(rows: seq<K>, less: (K, K) -> bool) {
    forall i, j :: 0 <= i < j < |rows| ==> less(rows[i], rows[j])
  }

  /** The list holds the rows of s and no others. */
  ghost predicate Lists<K(!new)>(rows: seq<K>, s: set<K>) {
    forall k :: k in s <==> k in rows
  }

  lemma {:induction false} ListingLists<K(!new)>(s: set<K>, less: (K, K) -> bool)
    requires Orders(less, s)
    ensures Ordered(Listing(s, less), less) && Lists(Listing(s, less), s) && |Listing(s, less)| == |s|
    decreases |s|
  {
    if s != {} {
      var k := ListingSplits(s, less);
      var rest := Listing(s - {k}, less);
      ListingLists(s - {k}, less);
      forall j | 0 <= j < |rest|
        ensures less(k, rest[j])
      {
        assert rest[j] in rest;
      }
    }
  }

  lemma HasMember<K>(rows: seq<K>)
    ensures rows == [] || exists k :: k in rows
  {
    if rows != [] { assert rows[0] in rows; }
  }

  /** There is only one ordered list of given rows. */
  lemma {:induction false} ListingIsUnique<K(!new)>(s: set<K>, less: (K, K) -> bool, rows: seq<K>)
    requires Orders(less, s) && Ordered(rows, less) && Lists(rows, s)
    ensures rows == Listing(s, less)
    decreases |s|
  {
    if s == {} {
      HasMember(rows);
    } else {
      var k := ListingSplits(s, less);
      assert k in rows;
      FirstIsFirst(s, less, rows, k);
      RestLists(s, less, rows);
      ListingIsUnique(s - {k}, less, rows[1..]);
      assert rows == [k] + rows[1..];
    }
  }

  lemma FirstIsFirst<K(!new)>(s: set<K>, less: (K, K) -> bool, rows: seq<K>, k: K)
    requires Orders(less, s) && Ordered(rows, less) && Lists(rows, s) && rows != [] && IsFirst(k, s, less)
    ensures rows[0] == k
  {
    var i :| 0 <= i < |rows| && rows[i] == k;
    if i > 0 {
      assert rows[0] in s;
      assert less(rows[0], rows[i]);
    }
  }

  lemma RestLists<K(!new)>(s: set<K>, less: (K, K) -> bool, rows: seq<K>)
    requires Orders(less, s) && Ordered(rows, less) && Lists(rows, s) && rows != []
    ensures Ordered(rows[1..], less) && Lists(rows[1..], s - {rows[0]})
  {
    var rest := rows[1..];
    forall k
      ensures k in s - {rows[0]} <==> k in rest
    {
      if k in rest {
        var i :| 0 <= i < |rest| && rest[i] == k;
        assert less(rows[0], rows[i + 1]);
        assert k in rows;
      }
      if k in s && k != rows[0] {
        var i :| 0 <= i < |rows| && rows[i] == k;
        assert rest[i - 1] == k;
      }
    }
  }

  // ----- pages

  datatype Page = Page(limit: int, offset: int, total: int, nextOffset: Option<int>, nextCursor: Option<int>)

  /** makePage; the sum is a 64-bit sum. */
  function MakePage(limit: int, offset: int, total: int): Page {
    var next := WrapInt64(offset + limit);
    Page(limit, offset, total, if next < total then Some(next) else None, None)
  }

  /** LIMIT and OFFSET; a negative offset counts as zero. */
  function Slice<K>(rows: seq<K>, limit: nat, offset: int): seq<K> {
    var start := if offset < 0 then 0 else Min(offset, |rows|);
    rows[start..Min(start + limit, |rows|)]
  }

  lemma SliceOf<K>(rows: seq<K>, limit: nat, offset: int)
    ensures forall k :: k in Slice(rows, limit, offset) ==> k in rows
  {
  }

  function Sum(limits: seq<nat>): (n: nat)
    decreases |limits|
  {
    if limits == [] then 0 else limits[0] + Sum(limits[1..])
  }

  /** What a reader has seen: the rows so far, and whether the last page named no next one. */
  datatype Reading<K> = Reading(rows: seq<K>, finished: bool)

  /** Reading page after page from an offset, each with its own limit. */
  ghost function FollowOffsets<K>(rows: seq<K>, offset: int, limits: seq<nat>): Reading<K>
    decreases |limits|
  {
    if limits == [] then Reading([], false)
    else
      var page := MakePage(limits[0], offset, |rows|);
      var here := Slice(rows, limits[0], offset);
      if page.nextOffset.None? then Reading(here, true)
      else
        var later := FollowOffsets(rows, page.nextOffset.value, limits[1..]);
        Reading(here + later.rows, later.finished)
  }

  ghost predicate Usable(limits: seq<nat>, total: int) {
    forall i :: 0 <= i < |limits| ==> limits[i] >= 1 && total + limits[i] < TWO_63
  }

  /** Away from the 64-bit limit the next offset is the next row, if there is one. */
  lemma NextOffset(limit: int, offset: int, total: int)
    requires 0 <= offset <= total && 1 <= limit && total + limit < TWO_63
    ensures MakePage(limit, offset, total).nextOffset == if offset + limit < total then Some(offset + limit) else None
  {
  }

  lemma Splice<K>(rows: seq<K>, a: nat, b: nat, c: nat)
    requires a <= b <= c <= |rows|
    ensures rows[a..b] + rows[b..c] == rows[a..c]
  {
  }

  lemma SliceIs<K>(rows: seq<K>, limit: nat, offset: nat)
    requires offset <= |rows|
    ensures Slice(rows, limit, offset) == rows[offset..Min(offset + limit, |rows|)]
  {
  }

  /** One page of the walk, and the rest of it. */
  lemma FollowUnfolds<K>(rows: seq<K>, offset: nat, limits: seq<nat>, next: nat)
    requires limits != [] && offset <= |rows| && limits[0] >= 1 && |rows| + limits[0] < TWO_63
    requires next == offset + limits[0]
    ensures FollowOffsets(rows, offset, limits) ==
            if next < |rows| then
              var later := FollowOffsets(rows, next, limits[1..]);
              Reading(rows[offset..next] + later.rows, later.finished)
            else Reading(rows[offset..], true)
  {
    NextOffset(limits[0], offset, |rows|);
    SliceIs(rows, limits[0], offset);
  }

  lemma {:induction false} FollowFrom<K>(rows: seq<K>, offset: nat, limits: seq<nat>)
    requires offset <= |rows| && Usable(limits, |rows|)
    ensures var r := FollowOffsets(rows, offset, limits);
            && r.rows == rows[offset..Min(offset + Sum(limits), |rows|)]
            && (r.finished <==> limits != [] && offset + Sum(limits) >= |rows|)
    decreases |limits|
  {
    if limits != [] {
      var next := offset + limits[0];
      FollowUnfolds(rows, offset, limits, next);
      if next < |rows| {
        FollowFrom(rows, next, limits[1..]);
        Splice(rows, offset, next, Min(next + Sum(limits[1..]), |rows|));
      }
    }
  }

  /**
   Following NextOffset from 0 reads a prefix of the listing, row by row without gap or repetition,
   and stops exactly when the limits cover it.
   */
  lemma FollowingOffsetsListsAll<K>(rows: seq<K>, limits: seq<nat>)
    requires limits != [] && Usable(limits, |rows|)
    ensures var r := FollowOffsets(rows, 0, limits);
            && r.rows == rows[..Min(Sum(limits), |rows|)]
            && (r.finished <==> Sum(limits) >= |rows|)
            && (r.finished ==> r.rows == rows)
  {
    FollowFrom(rows, 0, limits);
    assert rows[..|rows|] == rows;
  }
}
