/**
 The summary of explorer/telemetry.go in the fields of the nodes alone: every counter is the size of a set of
 nodes, and the canonical tip is the first under votes, height and hash.
 */
module NetworkSummary {
  import opened Common
  import opened Listings
  import opened Telemetry

  // ----- counters are sizes

  ghost function Places(nodes: seq<NodeStatus>, p: NodeStatus -> bool): set<nat> {
    set i: nat | i < |nodes| && p(nodes[i])
  }

  lemma {:induction false} CountIsSize(nodes: seq<NodeStatus>, p: NodeStatus -> bool)
    ensures Count(nodes, p) == |Places(nodes, p)|
    decreases |nodes|
  {
    if nodes == [] {
      assert Places(nodes, p) == {};
    } else {
      var last := |nodes| - 1;
      CountIsSize(nodes[..last], p);
      if p(nodes[last]) {
        assert Places(nodes, p) == Places(nodes[..last], p) + {last};
      } else {
        assert Places(nodes, p) == Places(nodes[..last], p);
      }
    }
  }

  /** A node whose state the pass decides. */
  ghost predicate Answered(n: NodeStatus) {
    n.online && n.state != Error
  }

  lemma SizeAfterPass(nodes: seq<NodeStatus>, tip: Tip, now: int, stale: int, p: NodeStatus -> bool,
                      q: NodeStatus -> bool)
    requires forall n :: q(n) <==> p(Classified(n, tip, now, stale))
    ensures Count(ClassifiedAll(nodes, tip, now, stale), p) == |Places(nodes, q)|
  {
    CountClassified(nodes, tip, now, stale, p, q);
    CountIsSize(nodes, q);
  }

  lemma OnlineSize(nodes: seq<NodeStatus>, tip: Tip, now: int, stale: int)
    ensures Count(ClassifiedAll(nodes, tip, now, stale), IsOnline()) == |set i: nat | i < |nodes| && nodes[i].online|
  {
    SizeAfterPass(nodes, tip, now, stale, IsOnline(), IsOnline());
    assert Places(nodes, IsOnline()) == set i: nat | i < |nodes| && nodes[i].online;
  }

  ghost function Everyone(): NodeStatus -> bool {
    (n: NodeStatus) => true
  }

  lemma {:induction false} CountEveryone(nodes: seq<NodeStatus>)
    ensures Count(nodes, Everyone()) == |nodes|
    decreases |nodes|
  {
    if nodes != [] { CountEveryone(nodes[..|nodes| - 1]); }
  }

  /** Who is not online is offline. */
  lemma OfflineSize(nodes: seq<NodeStatus>)
    ensures |set i: nat | i < |nodes| && nodes[i].online| + |set i: nat | i < |nodes| && !nodes[i].online| == |nodes|
  {
    var on, off := set i: nat | i < |nodes| && nodes[i].online, set i: nat | i < |nodes| && !nodes[i].online;
    CountEveryone(nodes);
    CountIsSize(nodes, Everyone());
    assert on + off == Places(nodes, Everyone());
    assert on !! off;
  }

  lemma OnTipSize(nodes: seq<NodeStatus>, tip: Tip, now: int, stale: int)
    ensures Count(ClassifiedAll(nodes, tip, now, stale), Holds(tip))
            == |set i: nat | i < |nodes| && nodes[i].online && OnTip(nodes[i], tip)|
  {
    SizeAfterPass(nodes, tip, now, stale, Holds(tip), Holds(tip));
    assert Places(nodes, Holds(tip)) == set i: nat | i < |nodes| && nodes[i].online && OnTip(nodes[i], tip);
  }

  lemma BehindSize(nodes: seq<NodeStatus>, tip: Tip, now: int, stale: int)
    ensures Count(ClassifiedAll(nodes, tip, now, stale), IsCatchingUp())
            == |set i: nat | i < |nodes| && Behind(nodes[i], tip)|
  {
    var behind := (n: NodeStatus) => Behind(n, tip);
    SizeAfterPass(nodes, tip, now, stale, IsCatchingUp(), behind);
    assert Places(nodes, behind) == set i: nat | i < |nodes| && Behind(nodes[i], tip);
  }

  lemma ApartSize(nodes: seq<NodeStatus>, tip: Tip, now: int, stale: int)
    ensures Count(ClassifiedAll(nodes, tip, now, stale), IsDivergent())
            == |set i: nat | i < |nodes| && Apart(nodes[i], tip)|
  {
    var apart := (n: NodeStatus) => Apart(n, tip);
    SizeAfterPass(nodes, tip, now, stale, IsDivergent(), apart);
    assert Places(nodes, apart) == set i: nat | i < |nodes| && Apart(nodes[i], tip);
  }

  /**
   The counters of the summary of any nodes: how many are online, how many of these report the canonical tip,
   how many fall behind it, and how many stand on another tip or a fork. A node that is offline or failed counts
   by the state it came with.
   */
  lemma CountersAre(nodes: seq<NodeStatus>, tip: Tip, now: int, stale: int, seconds: int)
    ensures var s := Summarized(ClassifiedAll(nodes, tip, now, stale), tip, seconds);
            && s.total == |nodes|
            && s.online == |set i: nat | i < |nodes| && nodes[i].online|
            && s.offline == |set i: nat | i < |nodes| && !nodes[i].online|
            && s.synchronized == |set i: nat | i < |nodes| && nodes[i].online && OnTip(nodes[i], tip)|
            && s.catchingUp == |set i: nat | i < |nodes| && Behind(nodes[i], tip)|
            && s.divergent == |set i: nat | i < |nodes| && Apart(nodes[i], tip)|
  {
    OnlineSize(nodes, tip, now, stale);
    OfflineSize(nodes);
    OnTipSize(nodes, tip, now, stale);
    BehindSize(nodes, tip, now, stale);
    ApartSize(nodes, tip, now, stale);
  }

  ghost predicate OnTip(n: NodeStatus, tip: Tip) {
    n.blockHeight == tip.height && n.bestBlockHash == tip.hash
  }

  ghost predicate Behind(n: NodeStatus, tip: Tip) {
    if Answered(n) then !n.hasForkTip && n.blockHeight < tip.height else n.state == Syncing
  }

  ghost predicate Apart(n: NodeStatus, tip: Tip) {
    if Answered(n) then n.hasForkTip || (n.blockHeight >= tip.height && !OnTip(n, tip))
    else n.state == Diverged || n.state == Forked
  }

  // ----- the tip

  /** How many nodes that answered report exactly this tip. */
  ghost function Reports(nodes: seq<NodeStatus>, height: int, hash: string): nat {
    |set i: nat | i < |nodes| && Answered(nodes[i]) && nodes[i].blockHeight == height && nodes[i].bestBlockHash == hash|
  }

  lemma ReportsAreVotes(nodes: seq<NodeStatus>, height: int, hash: string)
    ensures Votes(nodes, Tip(height, hash)) == Reports(nodes, height, hash)
  {
    CountIsSize(nodes, VoteFor(Tip(height, hash)));
    assert Places(nodes, VoteFor(Tip(height, hash))) ==
           set i: nat | i < |nodes| && Answered(nodes[i])
             && nodes[i].blockHeight == height && nodes[i].bestBlockHash == hash;
  }

  /** a comes before b: a proper start of it, or smaller at the first place where they differ. */
  ghost predicate Earlier(a: string, b: string) {
    exists n: nat :: n <= |a| && n < |b| && a[..n] == b[..n] && (n == |a| || a[n] < b[n])
  }

  lemma {:induction false} EarlierIs(a: string, b: string)
    ensures TextBefore(a, b) <==> Earlier(a, b)
    decreases |a|
  {
    if a == "" {
      assert b != "" ==> a[..0] == b[..0];
    } else if b != "" && a[0] == b[0] {
      EarlierIs(a[1..], b[1..]);
      if Earlier(a[1..], b[1..]) {
        var n: nat :| n <= |a[1..]| && n < |b[1..]| && a[1..][..n] == b[1..][..n]
                      && (n == |a[1..]| || a[1..][n] < b[1..][n]);
        assert a[..n + 1] == [a[0]] + a[1..][..n] && b[..n + 1] == [b[0]] + b[1..][..n];
      }
      if Earlier(a, b) {
        var n: nat :| n <= |a| && n < |b| && a[..n] == b[..n] && (n == |a| || a[n] < b[n]);
        assert n > 0;
        assert a[1..][..n - 1] == a[..n][1..] && b[1..][..n - 1] == b[..n][1..];
      }
    } else if b != "" {
      if a[0] < b[0] { assert a[..0] == b[..0]; }
      forall n: nat | 0 < n <= |a| && n < |b|
        ensures a[..n] != b[..n]
      {
        assert a[..n][0] == a[0] && b[..n][0] == b[0];
      }
    }
  }

  /**
   Which tip is canonical: one that is reported, with no other reported more often, none higher reported as often,
   and none of its height reported as often with an earlier hash; and the empty tip when no node answered.
   */
  lemma CanonicalIs(nodes: seq<NodeStatus>, tip: Tip)
    ensures IsCanonical(nodes, tip) <==>
            if forall i :: 0 <= i < |nodes| ==> !Answered(nodes[i]) then tip == Tip(-1, "")
            else
              && Reports(nodes, tip.height, tip.hash) > 0
              && forall height, hash :: !Outdoes(nodes, height, hash, tip)
  {
    CountSome(nodes, IsVoter());
    ReportsAreVotes(nodes, tip.height, tip.hash);
    if Votes(nodes, tip) > 0 {
      forall k: Tip
        ensures Outdoes(nodes, k.height, k.hash, tip) <==> !Yields(nodes, k, tip)
      {
        OutdoesIs(nodes, k, tip);
      }
      assert Wins(nodes, tip) <==> forall k: Tip :: Yields(nodes, k, tip);
      assert forall height, hash :: Outdoes(nodes, height, hash, tip) <==> !Yields(nodes, Tip(height, hash), tip);
    }
  }

  ghost predicate Yields(nodes: seq<NodeStatus>, k: Tip, tip: Tip) {
    Votes(nodes, k) > 0 && k != tip ==> Beats(Votes(nodes, tip), tip, Votes(nodes, k), k)
  }

  lemma OutdoesIs(nodes: seq<NodeStatus>, k: Tip, tip: Tip)
    requires Votes(nodes, tip) > 0
    ensures Outdoes(nodes, k.height, k.hash, tip) <==> !Yields(nodes, k, tip)
  {
    ReportsAreVotes(nodes, k.height, k.hash);
    ReportsAreVotes(nodes, tip.height, tip.hash);
    EarlierIs(k.hash, tip.hash);
    TextDecides(k.hash, tip.hash);
  }

  /** The other tip is reported more often, or as often and higher, or as often at that height with an earlier hash. */
  ghost predicate Outdoes(nodes: seq<NodeStatus>, height: int, hash: string, tip: Tip) {
    var theirs, ours := Reports(nodes, height, hash), Reports(nodes, tip.height, tip.hash);
    || theirs > ours
    || (theirs == ours && height > tip.height)
    || (theirs == ours && height == tip.height && Earlier(hash, tip.hash))
  }

  // ----- chain and block time

  /** The chain of the summary is that of the first online node that names one. */
  lemma {:induction false} ChainIsFirstNamed(nodes: seq<NodeStatus>, i: nat)
    requires i < |nodes| && nodes[i].online && nodes[i].chain != ""
    requires forall j :: 0 <= j < i ==> !nodes[j].online || nodes[j].chain == ""
    ensures ChainOf(nodes) == nodes[i].chain
    decreases |nodes|
  {
    var front := nodes[..|nodes| - 1];
    if i < |front| {
      ChainIsFirstNamed(front, i);
    } else {
      NoChainNamed(front);
    }
  }

  lemma {:induction false} NoChainNamed(nodes: seq<NodeStatus>)
    requires forall j :: 0 <= j < |nodes| ==> !nodes[j].online || nodes[j].chain == ""
    ensures ChainOf(nodes) == ""
    decreases |nodes|
  {
    if nodes != [] { NoChainNamed(nodes[..|nodes| - 1]); }
  }

  /** The latest block time is that of the last node which reports the canonical hash with a time. */
  lemma {:induction false} TimeIsLastGiven(nodes: seq<NodeStatus>, hash: string, i: nat)
    requires i < |nodes| && nodes[i].bestBlockHash == hash && nodes[i].latestBlockTime > 0
    requires forall j :: i < j < |nodes| ==> nodes[j].bestBlockHash != hash || nodes[j].latestBlockTime <= 0
    ensures TimeOf(nodes, hash) == nodes[i].latestBlockTime
    decreases |nodes|
  {
    var last := |nodes| - 1;
    if i < last { TimeIsLastGiven(nodes[..last], hash, i); }
  }

  lemma {:induction false} NoTimeGiven(nodes: seq<NodeStatus>, hash: string)
    requires forall j :: 0 <= j < |nodes| ==> nodes[j].bestBlockHash != hash || nodes[j].latestBlockTime <= 0
    ensures TimeOf(nodes, hash) == 0
    decreases |nodes|
  {
    if nodes != [] { NoTimeGiven(nodes[..|nodes| - 1], hash); }
  }

  /** The age of the latest block is its distance from now, and nothing for a time that is missing or ahead. */
  lemma AgeIsDistance(nodes: seq<NodeStatus>, tip: Tip, seconds: int)
    ensures var s := Summarized(nodes, tip, seconds);
            && s.latestBlockAge >= 0
            && (0 < s.latestBlockTime <= seconds ==> s.latestBlockAge + s.latestBlockTime == seconds)
            && (s.latestBlockTime <= 0 || s.latestBlockTime > seconds ==> s.latestBlockAge == 0)
  {
  }
}
