/** Opportunistic grafting without a sorted list: who is grafted, and when, told from the scores alone. */
module Opportunistic {
  import opened Peers
  import opened PeerSelection
  import opened Router

  /** The peers that score below x. */
  function Below(env: Env, peers: set<Peer>, x: real): set<Peer> { set p | p in peers && env.score(p) < x }

  function Above(env: Env, peers: set<Peer>, x: real): set<Peer> { set p | p in peers && env.score(p) > x }

  /** How many of an ascending list score below x. */
  function LowEnd(env: Env, list: seq<Peer>, x: real): (j: nat)
    ensures j <= |list|
  {
    if list == [] then 0
    else if env.score(list[|list| - 1]) < x then |list|
    else LowEnd(env, list[..|list| - 1], x)
  }

  lemma {:induction false} LowEndSplits(env: Env, list: seq<Peer>, x: real)
    requires Ascending(env, list)
    ensures forall i :: 0 <= i < |list| ==> (env.score(list[i]) < x <==> i < LowEnd(env, list, x))
  {
    if list != [] && env.score(list[|list| - 1]) >= x {
      LowEndSplits(env, list[..|list| - 1], x);
    }
  }

  /** The number of peers below x is where the ascending list crosses x. */
  lemma BelowIsLowEnd(env: Env, peers: set<Peer>, sorted: seq<Peer>, x: real)
    requires Lists(peers, sorted) && Ascending(env, sorted)
    ensures |Below(env, peers, x)| == LowEnd(env, sorted, x)
  {
    var j := LowEnd(env, sorted, x);
    LowEndSplits(env, sorted, x);
    DistinctSize(sorted[..j]);
    forall p ensures p in Below(env, peers, x) <==> p in Elements(sorted[..j]) {
      if p in Below(env, peers, x) {
        assert p in Elements(sorted);
        var i :| 0 <= i < |sorted| && sorted[i] == p;
        assert sorted[..j][i] == p;
      }
      if p in Elements(sorted[..j]) {
        var i :| 0 <= i < j && sorted[..j][i] == p;
        assert sorted[i] in Elements(sorted);
      }
    }
    assert Below(env, peers, x) == Elements(sorted[..j]);
  }

  /** The k-th of the ascending list scores below x exactly if more than k peers do. */
  lemma RankIff(env: Env, peers: set<Peer>, sorted: seq<Peer>, x: real, k: nat)
    requires Lists(peers, sorted) && Ascending(env, sorted) && k < |sorted|
    ensures env.score(sorted[k]) < x <==> |Below(env, peers, x)| > k
  {
    BelowIsLowEnd(env, peers, sorted, x);
    LowEndSplits(env, sorted, x);
  }

  lemma Smaller(a: set<Peer>, b: set<Peer>)
    requires a <= b
    ensures |a| <= |b|
  {
    assert b == a + (b - a);
  }

  /** The value used is a median: of n peers at most half score below it, and fewer than half above it. */
  lemma MedianIsMedian(env: Env, u: Upkeep, sorted: seq<Peer>)
    requires Lists(u.peers, sorted) && Ascending(env, sorted) && u.peers != {}
    ensures var v, n := MedianScore(env, u, sorted), |u.peers|;
      && |Below(env, u.peers, v)| <= n / 2 && |Above(env, u.peers, v)| <= n - 1 - n / 2
      && exists p :: p in u.peers && env.score(p) == v
  {
    var k := |u.peers| / 2;
    var v := env.score(sorted[k]);
    RankIff(env, u.peers, sorted, v, k);
    assert sorted[k] in Elements(sorted);
    AboveIsShort(env, u.peers, sorted, k);
  }

  lemma AboveIsShort(env: Env, peers: set<Peer>, sorted: seq<Peer>, k: nat)
    requires Lists(peers, sorted) && Ascending(env, sorted) && k < |sorted|
    ensures |Above(env, peers, env.score(sorted[k]))| <= |sorted| - 1 - k
  {
    var v := env.score(sorted[k]);
    var tail := sorted[k + 1..];
    DistinctSize(tail);
    forall p | p in Above(env, peers, v) ensures p in Elements(tail) {
      assert p in Elements(sorted);
      var i :| 0 <= i < |sorted| && sorted[i] == p;
      assert i > k && tail[i - k - 1] == p;
    }
    Smaller(Above(env, peers, v), Elements(tail));
  }

  /** Most of the mesh scores below the threshold. */
  predicate MostlyLow(env: Env, peers: set<Peer>) {
    |Below(env, peers, env.opportunisticThreshold)| > |peers| / 2
  }

  /** Who may be grafted and outscores most of the mesh. */
  function Outscoring(c: Params, env: Env, b: Bitmask, u: Upkeep): set<Peer> {
    set p | && p in Everyone(env.slices(b)) && p !in u.peers && p !in c.direct && p !in u.bo
            && |Below(env, u.peers, env.score(p))| > |u.peers| / 2
  }

  lemma ImprovingIsOutscoring(c: Params, env: Env, b: Bitmask, u: Upkeep, sorted: seq<Peer>)
    requires Lists(u.peers, sorted) && Ascending(env, sorted) && u.peers != {}
    ensures Improving(c, env, b, u, MedianScore(env, u, sorted)) == Outscoring(c, env, b, u)
  {
    forall p
      ensures env.score(p) > MedianScore(env, u, sorted) <==> |Below(env, u.peers, env.score(p))| > |u.peers| / 2
    {
      RankIff(env, u.peers, sorted, env.score(p), |u.peers| / 2);
    }
  }

  /** On its ticks, and only if most of a mesh of at least two peers scores below the threshold, as many as
      configured of those offered who outscore most of the mesh are grafted. */
  predicate Grafts(c: Params, env: Env, b: Bitmask, u: Upkeep, ticks: nat, better: set<Peer>)
    requires c.opportunisticTicks > 0
  {
    if ticks % c.opportunisticTicks == 0 && |u.peers| > 1 && MostlyLow(env, u.peers)
    then Selection(Offered(env.slices(b), Outscoring(c, env, b, u)), c.opportunisticPeers, better)
    else better == {}
  }

  lemma BetterIsGrafts(c: Params, env: Env, b: Bitmask, u: Upkeep, ticks: nat, sorted: seq<Peer>, better: set<Peer>)
    requires c.opportunisticTicks > 0 && BetterChoice(c, env, b, u, ticks, sorted, better)
    ensures Grafts(c, env, b, u, ticks, better)
  {
    if ticks % c.opportunisticTicks == 0 && |u.peers| > 1 {
      ImprovingIsOutscoring(c, env, b, u, sorted);
      RankIff(env, u.peers, sorted, env.opportunisticThreshold, |u.peers| / 2);
    }
  }

  /** So everybody grafted outscores most of the mesh; nobody is unless most of it is below the threshold; and
      somebody is if it is and somebody who outscores most of it is offered. */
  lemma GraftsBetter(c: Params, env: Env, b: Bitmask, u: Upkeep, ticks: nat, sorted: seq<Peer>, better: set<Peer>)
    requires c.opportunisticTicks > 0 && c.opportunisticPeers > 0
    requires BetterChoice(c, env, b, u, ticks, sorted, better)
    ensures forall p :: p in better ==>
              |Below(env, u.peers, env.score(p))| > |u.peers| / 2 && p !in u.peers && p !in c.direct && p !in u.bo
    ensures better != {} <==>
              && ticks % c.opportunisticTicks == 0 && |u.peers| > 1 && MostlyLow(env, u.peers)
              && Offered(env.slices(b), Outscoring(c, env, b, u)) != {}
    ensures |better| <= c.opportunisticPeers
  {
    BetterIsGrafts(c, env, b, u, ticks, sorted, better);
    assert Offered(env.slices(b), Outscoring(c, env, b, u)) <= Outscoring(c, env, b, u);
  }
}
