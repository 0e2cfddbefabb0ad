/**
 Votes of the monitored nodes and the states derived from them (explorer/telemetry.go).

 The winning tip is folded over a map whose iteration order is not specified: the method below
 takes the keys in any order, and the lemmas say that the order of keys and nodes cannot matter.
 */
module Telemetry {
  import opened Common
  import opened Listings

  datatype State = Offline | Error | Forked | Diverged | Syncing | Stale | Healthy

  datatype NodeStatus = NodeStatus(
    online: bool,
    state: State,
    healthState: State,
    blockHeight: int,
    bestBlockHash: string,
    hasForkTip: bool,
    latestBlockTime: int,
    chain: string)

  datatype Tip = Tip(height: int, hash: string)

  const NO_TIP: Tip := Tip(-1, "")

  function TipOf(n: NodeStatus): Tip {
    Tip(n.blockHeight, n.bestBlockHash)
  }

  predicate Voter(n: NodeStatus) {
    n.online && n.state != Error
  }

  // ----- counting

  function Count(nodes: seq<NodeStatus>, p: NodeStatus -> bool): (c: nat)
    ensures c <= |nodes|
    decreases |nodes|
  {
    if nodes == [] then 0 else Count(nodes[..|nodes| - 1], p) + if p(nodes[|nodes| - 1]) then 1 else 0
  }

  lemma CountNext(nodes: seq<NodeStatus>, p: NodeStatus -> bool, i: nat)
    requires i < |nodes|
    ensures Count(nodes[..i + 1], p) == Count(nodes[..i], p) + if p(nodes[i]) then 1 else 0
  {
    assert nodes[..i + 1][..i] == nodes[..i];
  }

  lemma {:induction false} CountWithout(nodes: seq<NodeStatus>, p: NodeStatus -> bool, i: nat)
    requires i < |nodes|
    ensures Count(nodes, p) == Count(nodes[..i] + nodes[i + 1..], p) + if p(nodes[i]) then 1 else 0
    decreases |nodes|
  {
    var front, rest := nodes[..|nodes| - 1], nodes[..i] + nodes[i + 1..];
    if i == |nodes| - 1 {
      assert rest == front;
    } else {
      CountWithout(front, p, i);
      assert rest[..|rest| - 1] == front[..i] + front[i + 1..];
    }
  }

  lemma RemoveAt(nodes: seq<NodeStatus>, i: nat)
    requires i < |nodes|
    ensures multiset(nodes[..i] + nodes[i + 1..]) == multiset(nodes) - multiset{nodes[i]}
  {
    assert nodes == nodes[..i] + [nodes[i]] + nodes[i + 1..];
  }

  /** A count does not depend on the order of the nodes. */
  lemma {:induction false} CountPermuted(a: seq<NodeStatus>, b: seq<NodeStatus>, p: NodeStatus -> bool)
    requires multiset(a) == multiset(b)
    ensures Count(a, p) == Count(b, p)
    decreases |a|
  {
    if a == [] {
      assert |multiset(b)| == 0;
    } else {
      var last := |a| - 1;
      assert a[last] in multiset(b);
      var i :| 0 <= i < |b| && b[i] == a[last];
      RemoveAt(a, last);
      RemoveAt(b, i);
      assert a[..last] + a[last + 1..] == a[..last];
      CountWithout(b, p, i);
      CountPermuted(a[..last], b[..i] + b[i + 1..], p);
    }
  }

  /** Disjoint cases of a property are counted within it. */
  lemma {:induction false} CountDisjoint(nodes: seq<NodeStatus>, p: NodeStatus -> bool, q: NodeStatus -> bool,
                                         all: NodeStatus -> bool)
    requires forall n :: (p(n) || q(n)) ==> all(n)
    requires forall n :: !(p(n) && q(n))
    ensures Count(nodes, p) + Count(nodes, q) <= Count(nodes, all)
    decreases |nodes|
  {
    if nodes != [] { CountDisjoint(nodes[..|nodes| - 1], p, q, all); }
  }

  lemma {:induction false} CountSome(nodes: seq<NodeStatus>, p: NodeStatus -> bool)
    ensures Count(nodes, p) > 0 <==> exists i :: 0 <= i < |nodes| && p(nodes[i])
    decreases |nodes|
  {
    if nodes != [] {
      var front := nodes[..|nodes| - 1];
      CountSome(front, p);
      if i :| 0 <= i < |nodes| && p(nodes[i]) {
        if i < |front| { assert p(front[i]); }
      }
    }
  }

  // ----- the canonical tip

  function VoteFor(k: Tip): NodeStatus -> bool {
    (n: NodeStatus) => Voter(n) && TipOf(n) == k
  }

  function IsVoter(): NodeStatus -> bool {
    (n: NodeStatus) => Voter(n)
  }

  function Votes(nodes: seq<NodeStatus>, k: Tip): nat {
    Count(nodes, VoteFor(k))
  }

  /** More votes, then the greater height, then the smaller hash. */
  predicate Beats(votes: int, k: Tip, votes': int, k': Tip) {
    votes > votes'
    || (votes == votes' && k.height > k'.height)
    || (votes == votes' && k.height == k'.height && TextBefore(k.hash, k'.hash))
  }

  lemma BeatsDecides(v: int, k: Tip, v': int, k': Tip)
    ensures Beats(v, k, v', k') ==> !Beats(v', k', v, k)
    ensures k != k' ==> Beats(v, k, v', k') || Beats(v', k', v, k)
  {
    TextDecides(k.hash, k'.hash);
  }

  lemma BeatsChains(v: int, k: Tip, v': int, k': Tip, v'': int, k'': Tip)
    requires Beats(v, k, v', k') && Beats(v', k', v'', k'')
    ensures Beats(v, k, v'', k'')
  {
    if TextBefore(k.hash, k'.hash) && TextBefore(k'.hash, k''.hash) {
      TextChains(k.hash, k'.hash, k''.hash);
    }
  }

  /** k has votes, and beats every other tip that has any. */
  ghost predicate Wins(nodes: seq<NodeStatus>, k: Tip) {
    Votes(nodes, k) > 0
    && forall j :: Votes(nodes, j) > 0 && j != k ==> Beats(Votes(nodes, k), k, Votes(nodes, j), j)
  }

  ghost predicate IsCanonical(nodes: seq<NodeStatus>, k: Tip) {
    if Count(nodes, IsVoter()) == 0 then k == NO_TIP else Wins(nodes, k)
  }

  /** The first loop: one count per tip. */
  method CountVotes(nodes: seq<NodeStatus>) returns (counts: map<Tip, int>)
    ensures forall k :: k in counts <==> Votes(nodes, k) > 0
    ensures forall k :: k in counts ==> counts[k] == Votes(nodes, k)
  {
    counts := map[];
    for i := 0 to |nodes|
      invariant forall k :: k in counts <==> Votes(nodes[..i], k) > 0
      invariant forall k :: k in counts ==> counts[k] == Votes(nodes[..i], k)
    {
      forall k: Tip
        ensures Votes(nodes[..i + 1], k) ==
                Votes(nodes[..i], k) + if Voter(nodes[i]) && TipOf(nodes[i]) == k then 1 else 0
      {
        CountNext(nodes, VoteFor(k), i);
      }
      if Voter(nodes[i]) {
        var k := TipOf(nodes[i]);
        counts := counts[k := (if k in counts then counts[k] else 0) + 1];
      }
    }
    assert nodes[..|nodes|] == nodes;
  }

  /** The second loop: the best entry, whatever order the map is iterated in. */
  method BestOf(counts: map<Tip, int>) returns (best: Tip)
    requires forall k :: k in counts ==> counts[k] > 0
    ensures counts == map[] ==> best == NO_TIP
    ensures counts != map[] ==>
              best in counts && forall k :: k in counts && k != best ==> Beats(counts[best], best, counts[k], k)
  {
    best := NO_TIP;
    var votes := -1;
    var todo := counts.Keys;
    while todo != {}
      invariant todo <= counts.Keys
      invariant todo == counts.Keys ==> best == NO_TIP && votes == -1
      invariant todo != counts.Keys ==> best in counts && best !in todo && votes == counts[best]
      invariant todo != counts.Keys ==>
                  forall k :: k in counts && k !in todo && k != best ==> Beats(votes, best, counts[k], k)
      decreases todo
    {
      var k :| k in todo;
      var c := counts[k];
      BeatsDecides(c, k, votes, best);
      if c > votes || (c == votes && k.height > best.height)
         || (c == votes && k.height == best.height && TextBefore(k.hash, best.hash))
      {
        forall j | j in counts && j !in todo && j != best
          ensures Beats(c, k, counts[j], j)
        {
          BeatsChains(c, k, votes, best, counts[j], j);
        }
        best, votes := k, c;
      }
      todo := todo - {k};
    }
  }

  /** canonical. */
  method Canonical(nodes: seq<NodeStatus>) returns (height: int, hash: string)
    ensures IsCanonical(nodes, Tip(height, hash))
  {
    var counts := CountVotes(nodes);
    VotersVote(nodes);
    var best := BestOf(counts);
    if counts == map[] {
      assert forall k :: k !in counts;
    }
    height, hash := best.height, best.hash;
  }

  /** Some tip has votes exactly when there is a voter. */
  lemma VotersVote(nodes: seq<NodeStatus>)
    ensures Count(nodes, IsVoter()) > 0 <==> exists k :: Votes(nodes, k) > 0
  {
    CountSome(nodes, IsVoter());
    if i :| 0 <= i < |nodes| && Voter(nodes[i]) {
      CountSome(nodes, VoteFor(TipOf(nodes[i])));
      assert Votes(nodes, TipOf(nodes[i])) > 0;
    }
    if k :| Votes(nodes, k) > 0 {
      CountSome(nodes, VoteFor(k));
    }
  }

  lemma CanonicalIsUnique(nodes: seq<NodeStatus>, a: Tip, b: Tip)
    requires IsCanonical(nodes, a) && IsCanonical(nodes, b)
    ensures a == b
  {
    if a != b {
      BeatsDecides(Votes(nodes, a), a, Votes(nodes, b), b);
    }
  }

  /** The canonical tip is the same for every order of the nodes and every iteration order of the map. */
  lemma CanonicalIsOrderIndependent(nodes: seq<NodeStatus>, permuted: seq<NodeStatus>, a: Tip, b: Tip)
    requires multiset(nodes) == multiset(permuted)
    requires IsCanonical(nodes, a) && IsCanonical(permuted, b)
    ensures a == b
  {
    CountPermuted(nodes, permuted, IsVoter());
    forall k: Tip
      ensures Votes(nodes, k) == Votes(permuted, k)
    {
      CountPermuted(nodes, permuted, VoteFor(k));
    }
    CanonicalIsUnique(nodes, a, b);
  }

  /** A tip that more than half of the voters report is canonical. */
  lemma MajorityWins(nodes: seq<NodeStatus>, k: Tip)
    requires 2 * Votes(nodes, k) > Count(nodes, IsVoter())
    ensures IsCanonical(nodes, k)
  {
    forall j | Votes(nodes, j) > 0 && j != k
      ensures Beats(Votes(nodes, k), k, Votes(nodes, j), j)
    {
      CountDisjoint(nodes, VoteFor(k), VoteFor(j), IsVoter());
    }
    VotersVote(nodes);
  }

  // ----- node states

  const SECOND: int := 1_000_000_000

  /** time.Time.Sub saturates at the ends of the 64-bit range. */
  function Saturate(d: int): int {
    if d < -TWO_63 then -TWO_63 else if d >= TWO_63 then TWO_63 - 1 else d
  }

  predicate IsStale(latestBlockTime: int, now: int, stale: int) {
    latestBlockTime > 0 && Saturate(now - latestBlockTime * SECOND) > stale
  }

  /** The state classify gives an online node that answered. */
  function StateOf(n: NodeStatus, tip: Tip, now: int, stale: int): State {
    if n.hasForkTip then Forked
    else if n.blockHeight < tip.height then Syncing
    else if TipOf(n) != tip then Diverged
    else if IsStale(n.latestBlockTime, now, stale) then Stale
    else Healthy
  }

  function Classified(n: NodeStatus, tip: Tip, now: int, stale: int): NodeStatus {
    if Voter(n) then
      var s := StateOf(n, tip, now, stale);
      n.(state := s, healthState := s)
    else n
  }

  /** classify, on one element of the slice; times and thresholds in nanoseconds. */
  method Classify(nodes: array<NodeStatus>, i: nat, height: int, hash: string, now: int, stale: int)
    requires i < nodes.Length
    modifies nodes
    ensures nodes[i] == Classified(old(nodes[i]), Tip(height, hash), now, stale)
    ensures forall j :: 0 <= j < nodes.Length && j != i ==> nodes[j] == old(nodes[j])
  {
    var n := nodes[i];
    if !n.online {
      return;
    }
    if n.state == Error {
      return;
    }
    var state;
    if n.hasForkTip {
      state := Forked;
    } else if n.blockHeight == height && n.bestBlockHash != hash {
      state := Diverged;
    } else if n.blockHeight < height {
      state := Syncing;
    } else if n.blockHeight > height {
      state := Diverged;
    } else if n.bestBlockHash == hash && n.latestBlockTime > 0 && Saturate(now - n.latestBlockTime * SECOND) > stale {
      state := Stale;
    } else {
      state := Healthy;
    }
    nodes[i] := n.(state := state, healthState := state);
  }

  function ClassifiedAll(nodes: seq<NodeStatus>, tip: Tip, now: int, stale: int): (after: seq<NodeStatus>)
    ensures |after| == |nodes|
  {
    seq(|nodes|, i requires 0 <= i < |nodes| => Classified(nodes[i], tip, now, stale))
  }

  // ----- aggregate

  datatype Summary = Summary(
    total: int,
    online: int,
    offline: int,
    synchronized: int,
    catchingUp: int,
    divergent: int,
    tip: Tip,
    chain: string,
    latestBlockTime: int,
    latestBlockAge: int)

  function IsOnline(): NodeStatus -> bool {
    (n: NodeStatus) => n.online
  }

  function Holds(tip: Tip): NodeStatus -> bool {
    (n: NodeStatus) => n.online && TipOf(n) == tip
  }

  function IsCatchingUp(): NodeStatus -> bool {
    (n: NodeStatus) => n.state == Syncing
  }

  function IsDivergent(): NodeStatus -> bool {
    (n: NodeStatus) => n.state == Diverged || n.state == Forked
  }

  /** The chain named by the first online node that names one. */
  function ChainOf(nodes: seq<NodeStatus>): string
    decreases |nodes|
  {
    if nodes == [] then ""
    else
      var earlier, last := ChainOf(nodes[..|nodes| - 1]), nodes[|nodes| - 1];
      if earlier == "" && last.online then last.chain else earlier
  }

  /** The time the last node on the canonical hash gives for its block. */
  function TimeOf(nodes: seq<NodeStatus>, hash: string): int
    decreases |nodes|
  {
    if nodes == [] then 0
    else
      var last := nodes[|nodes| - 1];
      if last.bestBlockHash == hash && last.latestBlockTime > 0 then last.latestBlockTime
      else TimeOf(nodes[..|nodes| - 1], hash)
  }

  /** The summary of the nodes of a slice, once they are classified. */
  function Summarized(after: seq<NodeStatus>, tip: Tip, seconds: int): Summary {
    var time := TimeOf(after, tip.hash);
    Summary(
      |after|,
      Count(after, IsOnline()),
      |after| - Count(after, IsOnline()),
      Count(after, Holds(tip)),
      Count(after, IsCatchingUp()),
      Count(after, IsDivergent()),
      tip,
      ChainOf(after),
      time,
      if time <= 0 || seconds < time then 0 else seconds - time)
  }

  /** What one classified node adds to the summary. */
  predicate Tallied(s: Summary, t: Summary, n: NodeStatus, tip: Tip) {
    && t.online == s.online + (if n.online then 1 else 0)
    && t.offline == s.offline + (if n.online then 0 else 1)
    && t.synchronized == s.synchronized + (if n.online && TipOf(n) == tip then 1 else 0)
    && t.catchingUp == s.catchingUp + (if n.state == Syncing then 1 else 0)
    && t.divergent == s.divergent + (if n.state == Diverged || n.state == Forked then 1 else 0)
    && t.chain == (if s.chain == "" && n.online then n.chain else s.chain)
    && t.latestBlockTime == (if n.bestBlockHash == tip.hash && n.latestBlockTime > 0 then n.latestBlockTime
                             else s.latestBlockTime)
  }

  lemma SummaryNext(after: seq<NodeStatus>, tip: Tip, i: nat)
    requires i < |after|
    ensures Tallied(Summarized(after[..i], tip, 0), Summarized(after[..i + 1], tip, 0), after[i], tip)
  {
    assert after[..i + 1][..i] == after[..i];
  }

  method Tally(s: Summary, n: NodeStatus, height: int, hash: string) returns (t: Summary)
    ensures Tallied(s, t, n, Tip(height, hash))
    ensures t.total == s.total && t.tip == s.tip && t.latestBlockAge == s.latestBlockAge
  {
    t := s;
    if n.online {
      t := t.(online := t.online + 1);
      if t.chain == "" {
        t := t.(chain := n.chain);
      }
    } else {
      t := t.(offline := t.offline + 1);
    }
    if n.bestBlockHash == hash && n.blockHeight == height && n.online {
      t := t.(synchronized := t.synchronized + 1);
    }
    if n.state == Syncing {
      t := t.(catchingUp := t.catchingUp + 1);
    }
    if n.state == Diverged || n.state == Forked {
      t := t.(divergent := t.divergent + 1);
    }
    if n.bestBlockHash == hash && n.latestBlockTime > 0 {
      t := t.(latestBlockTime := n.latestBlockTime);
    }
  }

  /** The counters of a running summary are those of the nodes seen so far. */
  ghost predicate CountsUp(s: Summary, seen: seq<NodeStatus>, total: int, tip: Tip) {
    s == Summarized(seen, tip, 0).(total := total, latestBlockAge := 0)
  }

  lemma CountsUpNext(s: Summary, t: Summary, after: seq<NodeStatus>, i: nat, tip: Tip)
    requires i < |after| && CountsUp(s, after[..i], |after|, tip)
    requires Tallied(s, t, after[i], tip)
    requires t.total == s.total && t.tip == s.tip && t.latestBlockAge == s.latestBlockAge
    ensures CountsUp(t, after[..i + 1], |after|, tip)
  {
    SummaryNext(after, tip, i);
  }

  /** aggregate: the vote, then one pass that classifies and counts. */
  method Aggregate(nodes: array<NodeStatus>, now: int, stale: int) returns (s: Summary)
    modifies nodes
    ensures IsCanonical(old(nodes[..]), s.tip)
    ensures nodes[..] == ClassifiedAll(old(nodes[..]), s.tip, now, stale)
    ensures s == Summarized(nodes[..], s.tip, now / SECOND)
  {
    var height, hash := Canonical(nodes[..]);
    var tip := Tip(height, hash);
    ghost var was, after := nodes[..], ClassifiedAll(nodes[..], tip, now, stale);
    s := Summary(nodes.Length, 0, 0, 0, 0, 0, tip, "", 0, 0);
    for i := 0 to nodes.Length
      invariant forall j :: 0 <= j < i ==> nodes[j] == after[j]
      invariant forall j :: i <= j < nodes.Length ==> nodes[j] == was[j]
      invariant CountsUp(s, after[..i], |after|, tip)
    {
      Classify(nodes, i, height, hash, now, stale);
      var t := Tally(s, nodes[i], height, hash);
      CountsUpNext(s, t, after, i, tip);
      s := t;
    }
    assert nodes[..] == after && after[..nodes.Length] == after;
    if s.latestBlockTime > 0 {
      s := s.(latestBlockAge := now / SECOND - s.latestBlockTime);
      if s.latestBlockAge < 0 {
        s := s.(latestBlockAge := 0);
      }
    }
  }

  // ----- what the states mean

  /**
   Whatever the previous states: an online node that answered is healthy or stale exactly when it
   reports the canonical tip and no fork, and a node that is offline or failed keeps its state.
   */
  lemma HealthyMeansCanonical(nodes: seq<NodeStatus>, tip: Tip, now: int, stale: int, i: nat)
    requires i < |nodes|
    ensures var n, m := nodes[i], ClassifiedAll(nodes, tip, now, stale)[i];
            && TipOf(m) == TipOf(n) && m.online == n.online
            && (Voter(n) ==> (m.state == Healthy || m.state == Stale <==> TipOf(n) == tip && !n.hasForkTip))
            && (Voter(n) ==> m.healthState == m.state && m.state != Error && m.state != Offline)
            && (!Voter(n) ==> m == n)
  {
    assert ClassifiedAll(nodes, tip, now, stale)[i] == Classified(nodes[i], tip, now, stale);
  }

  /**
   The five states of an online node that answered, in its own fields and those of the canonical tip: a fork tip
   comes first, then a height below, then another tip, and among nodes on the tip the age of their latest block.
   */
  lemma StatesSayWhereNodesStand(nodes: seq<NodeStatus>, tip: Tip, now: int, stale: int, i: nat)
    requires i < |nodes| && nodes[i].online && nodes[i].state != Error
    ensures var n, s := nodes[i], ClassifiedAll(nodes, tip, now, stale)[i].state;
            var onTip := n.blockHeight == tip.height && n.bestBlockHash == tip.hash;
            && (s == Forked <==> n.hasForkTip)
            && (s == Syncing <==> !n.hasForkTip && n.blockHeight < tip.height)
            && (s == Diverged <==> !n.hasForkTip && n.blockHeight >= tip.height && !onTip)
            && (s == Stale <==> !n.hasForkTip && onTip && AgedBeyond(n.latestBlockTime, now, stale))
            && (s == Healthy <==> !n.hasForkTip && onTip && !AgedBeyond(n.latestBlockTime, now, stale))
  {
    assert ClassifiedAll(nodes, tip, now, stale)[i] == Classified(nodes[i], tip, now, stale);
    AgeSaturates(nodes[i].latestBlockTime, now, stale);
  }

  /**
   A block time in seconds, if there is one, lies more than `stale` nanoseconds before now; the difference is a
   64-bit duration that stops at the ends of its range.
   */
  ghost predicate AgedBeyond(seconds: int, now: int, stale: int) {
    var age := now - seconds * 1_000_000_000;
    && seconds > 0
    && ((age > stale && stale < 0x7fff_ffff_ffff_ffff) || stale < -0x8000_0000_0000_0000)
  }

  lemma AgeSaturates(seconds: int, now: int, stale: int)
    ensures IsStale(seconds, now, stale) <==> AgedBeyond(seconds, now, stale)
  {
  }

  /** Counting after the pass is counting what the pass makes of the nodes before it. */
  lemma {:induction false} CountClassified(nodes: seq<NodeStatus>, tip: Tip, now: int, stale: int,
                                           p: NodeStatus -> bool, q: NodeStatus -> bool)
    requires forall n :: q(n) <==> p(Classified(n, tip, now, stale))
    ensures Count(ClassifiedAll(nodes, tip, now, stale), p) == Count(nodes, q)
    decreases |nodes|
  {
    if nodes != [] {
      var front := nodes[..|nodes| - 1];
      CountClassified(front, tip, now, stale, p, q);
      var after := ClassifiedAll(nodes, tip, now, stale);
      assert after[..|after| - 1] == ClassifiedAll(front, tip, now, stale);
    }
  }

  /** Aggregating twice elects the same tip: the pass never changes who votes for what. */
  lemma ClassifyingKeepsTheVote(nodes: seq<NodeStatus>, tip: Tip, now: int, stale: int, k: Tip)
    ensures IsCanonical(ClassifiedAll(nodes, tip, now, stale), k) <==> IsCanonical(nodes, k)
  {
    CountClassified(nodes, tip, now, stale, IsVoter(), IsVoter());
    forall j: Tip
      ensures Votes(ClassifiedAll(nodes, tip, now, stale), j) == Votes(nodes, j)
    {
      CountClassified(nodes, tip, now, stale, VoteFor(j), VoteFor(j));
    }
  }

  /** The counters of the summary do not depend on the order of the nodes. */
  lemma CountersAreOrderIndependent(nodes: seq<NodeStatus>, permuted: seq<NodeStatus>, tip: Tip, now: int, stale: int,
                                    p: NodeStatus -> bool)
    requires multiset(nodes) == multiset(permuted)
    ensures Count(ClassifiedAll(nodes, tip, now, stale), p) == Count(ClassifiedAll(permuted, tip, now, stale), p)
  {
    var q := (n: NodeStatus) => p(Classified(n, tip, now, stale));
    CountClassified(nodes, tip, now, stale, p, q);
    CountClassified(permuted, tip, now, stale, p, q);
    CountPermuted(nodes, permuted, q);
  }

  // ----- the synchronized counter

  /** Nodes that failed but still carry a tip. */
  function FailedOn(tip: Tip): NodeStatus -> bool {
    (n: NodeStatus) => n.online && n.state == Error && TipOf(n) == tip
  }

  lemma {:induction false} CountSplit(nodes: seq<NodeStatus>, p: NodeStatus -> bool, q: NodeStatus -> bool,
                                      all: NodeStatus -> bool)
    requires forall n :: all(n) <==> p(n) || q(n)
    requires forall n :: !(p(n) && q(n))
    ensures Count(nodes, all) == Count(nodes, p) + Count(nodes, q)
    decreases |nodes|
  {
    if nodes != [] { CountSplit(nodes[..|nodes| - 1], p, q, all); }
  }

  /**
   The synchronized counter is the number of votes for the tip plus the failed nodes that carry it, so it
   is the number of votes exactly when no failed node carries the tip.
   */
  lemma SynchronizedCounts(nodes: seq<NodeStatus>, tip: Tip, now: int, stale: int, seconds: int)
    ensures var s := Summarized(ClassifiedAll(nodes, tip, now, stale), tip, seconds).synchronized;
            && s == Votes(nodes, tip) + Count(nodes, FailedOn(tip))
            && (s == Votes(nodes, tip) <==> forall i :: 0 <= i < |nodes| ==> !FailedOn(tip)(nodes[i]))
  {
    CountClassified(nodes, tip, now, stale, Holds(tip), Holds(tip));
    CountSplit(nodes, VoteFor(tip), FailedOn(tip), Holds(tip));
    CountSome(nodes, FailedOn(tip));
  }

  /** A node whose answer could not be decoded. */
  const FAILED: NodeStatus := NodeStatus(true, Error, Error, -1, "", false, 0, "")

  /** With nobody to vote, a node that failed before it was decoded is counted as synchronized. */
  lemma FailedNodeCountsAsSynchronized(now: int, stale: int)
    ensures IsCanonical([FAILED], NO_TIP)
    ensures Summarized(ClassifiedAll([FAILED], NO_TIP, now, stale), NO_TIP, now / SECOND).synchronized == 1
  {
    SynchronizedCounts([FAILED], NO_TIP, now, stale, now / SECOND);
    assert [FAILED][..0] == [];
    assert Count([], IsVoter()) == 0 && Count([FAILED], IsVoter()) == 0;
    assert Count([], VoteFor(NO_TIP)) == 0 && Count([FAILED], VoteFor(NO_TIP)) == 0;
    assert Count([], FailedOn(NO_TIP)) == 0 && Count([FAILED], FailedOn(NO_TIP)) == 1;
  }
}
