/** What every run of the router keeps, and what a heartbeat leaves behind. */
module RouterSafety {
  import opened Peers
  import opened PeerSelection
  import opened Router
  import MeshTrim

  // ---------------------------------------------------------------------------------
  // Backoffs only move forward
  // ---------------------------------------------------------------------------------

  ghost predicate Extends(bo: Backoffs, bo': Backoffs) {
    forall p :: p in bo ==> p in bo' && bo'[p] >= bo[p]
  }

  lemma DelayedFacts(bo: Backoffs, ps: set<Peer>, expire: Time)
    requires expire > 0
    ensures Extends(bo, Delayed(bo, ps, expire))
    ensures forall p :: p in ps ==> p in Delayed(bo, ps, expire) && Delayed(bo, ps, expire)[p] >= expire
    ensures forall p :: p !in ps ==> (p in Delayed(bo, ps, expire) <==> p in bo)
    ensures forall p :: p in Delayed(bo, ps, expire) && p !in bo ==> Delayed(bo, ps, expire)[p] == expire
  {
    forall p | p in ps ensures p in Delayed(bo, ps, expire) {
      if p !in bo { assert p in (set q | q in ps && ExpiryOf(bo, q) < expire); }
    }
  }

  // ---------------------------------------------------------------------------------
  // The maintenance of one mesh
  // ---------------------------------------------------------------------------------

  /** From u to v: what was grafted and pruned is exactly what changed; whoever was grafted is neither
      direct nor backed off; whoever was pruned is backed off. */
  ghost predicate Sound(c: Params, env: Env, u: Upkeep, v: Upkeep) {
    && v.grafted == v.peers - u.peers
    && v.pruned == u.peers - v.peers
    && (forall p :: p in v.grafted ==> p !in c.direct && p !in v.bo)
    && Extends(u.bo, v.bo)
    && (forall p :: p in v.pruned ==> p in v.bo && v.bo[p] >= env.now + c.pruneBackoff)
    && (forall p :: p in v.bo && p !in u.bo ==> v.bo[p] >= env.now + c.pruneBackoff)
  }

  ghost predicate NoNegative(env: Env, v: Upkeep) { forall p :: p in v.peers ==> env.score(p) >= 0.0 }

  lemma GraftIsSound(c: Params, env: Env, u: Upkeep, v: Upkeep, ps: set<Peer>)
    requires Sound(c, env, u, v) && NoNegative(env, v)
    requires MayGraft(c, env, v, ps)
    ensures Sound(c, env, u, GraftAll(v, ps)) && NoNegative(env, GraftAll(v, ps))
  {
    assert v.pruned !! ps;
    var w := GraftAll(v, ps);
    assert w.grafted == w.peers - u.peers;
    assert w.pruned == u.peers - w.peers;
  }

  lemma PruneIsSound(c: Params, env: Env, u: Upkeep, v: Upkeep, ps: set<Peer>)
    requires Sound(c, env, u, v) && v.grafted == {} && ps <= v.peers && env.now + c.pruneBackoff > 0
    ensures Sound(c, env, u, PruneAll(c, env, v, ps)) && PruneAll(c, env, v, ps).grafted == {}
  {
    DelayedFacts(v.bo, ps, env.now + c.pruneBackoff);
    var w := PruneAll(c, env, v, ps);
    assert v.peers <= u.peers by { forall p | p in v.peers ensures p in u.peers { assert p !in v.grafted; } }
    assert w.grafted == w.peers - u.peers;
    assert w.pruned == u.peers - w.peers;
    forall p | p in w.pruned ensures p in w.bo && w.bo[p] >= env.now + c.pruneBackoff {
      if p !in ps { assert p in v.pruned && p in v.bo; }
    }
    forall p | p in w.bo && p !in u.bo ensures w.bo[p] >= env.now + c.pruneBackoff {
      if p in v.bo { assert w.bo[p] >= v.bo[p]; }
    }
  }

  lemma DropIsSound(c: Params, env: Env, u: Upkeep)
    requires u.grafted == {} == u.pruned && env.now + c.pruneBackoff > 0
    ensures Sound(c, env, u, DropNegative(c, env, u)) && NoNegative(env, DropNegative(c, env, u))
    ensures DropNegative(c, env, u).grafted == {}
  {
    PruneIsSound(c, env, u, u, Negative(env, u.peers));
  }

  /** A mesh that was filled up is not trimmed in the same heartbeat. */
  lemma FilledIsNotTrimmed(c: Params, env: Env, b: Bitmask, u: Upkeep, more: set<Peer>)
    requires Sane(c) && FillChoice(c, env, b, u, more) && |GraftAll(u, more).peers| > c.dhi
    ensures more == {}
  {
    if |u.peers| < c.dlo {
      UnionSize(u.peers, more);
      assert false;
    }
  }

  lemma UnionSize(a: set<Peer>, b: set<Peer>)
    ensures |a + b| <= |a| + |b|
  {
    assert |a + b| == |a - b| + |b - a| + |a * b|;
    assert |a| == |a - b| + |a * b|;
    assert |b| == |b - a| + |a * b|;
  }

  lemma FilledIsSound(c: Params, env: Env, b: Bitmask, u: Upkeep, ch: Choice)
    requires Sane(c) && u.grafted == {} == u.pruned && env.now > 0
    requires FillChoice(c, env, b, DropNegative(c, env, u), ch.more)
    ensures Sound(c, env, u, Filled(c, env, u, ch)) && NoNegative(env, Filled(c, env, u, ch))
    ensures |Filled(c, env, u, ch).peers| > c.dhi ==> Filled(c, env, u, ch).grafted == {}
  {
    DropIsSound(c, env, u);
    var u1 := DropNegative(c, env, u);
    SelectedAreAcceptable(c, env, b, u1, ch.more);
    GraftIsSound(c, env, u, u1, ch.more);
    if |Filled(c, env, u, ch).peers| > c.dhi { FilledIsNotTrimmed(c, env, b, u1, ch.more); }
  }

  ghost predicate MayGraft(c: Params, env: Env, v: Upkeep, ps: set<Peer>) {
    forall p :: p in ps ==> p !in v.peers && p !in c.direct && p !in v.bo && env.score(p) >= 0.0
  }

  lemma SelectedAreAcceptable(c: Params, env: Env, b: Bitmask, v: Upkeep, ps: set<Peer>)
    requires FillChoice(c, env, b, v, ps) || OutChoice(c, env, b, v, ps)
    ensures MayGraft(c, env, v, ps)
  {
  }

  lemma BetterAreAcceptable(c: Params, env: Env, b: Bitmask, v: Upkeep, ticks: nat, sorted: seq<Peer>, ps: set<Peer>)
    requires c.opportunisticTicks > 0 && BetterChoice(c, env, b, v, ticks, sorted, ps) && NoNegative(env, v)
    ensures MayGraft(c, env, v, ps)
  {
    if ps != {} {
      var m := sorted[|v.peers| / 2];
      assert m in Elements(sorted);
      assert env.score(m) >= 0.0;
    }
  }

  lemma TrimmedIsSound(c: Params, env: Env, b: Bitmask, u: Upkeep, ch: Choice)
    requires Sane(c) && u.grafted == {} == u.pruned && env.now > 0
    requires FillChoice(c, env, b, DropNegative(c, env, u), ch.more)
    ensures Sound(c, env, u, Trimmed(c, env, u, ch)) && NoNegative(env, Trimmed(c, env, u, ch))
  {
    FilledIsSound(c, env, b, u, ch);
    var u2 := Filled(c, env, u, ch);
    if |u2.peers| > c.dhi {
      PruneIsSound(c, env, u, u2, u2.peers - Survivors(c, env, ch.list));
    }
  }

  /** Mesh maintenance: exact bookkeeping, no direct and no backed-off peer grafted, everyone pruned is
      backed off, and no peer with a negative score is left. */
  lemma MaintainedIsSound(c: Params, env: Env, b: Bitmask, ticks: nat, u: Upkeep, ch: Choice)
    requires Sane(c) && u.grafted == {} == u.pruned && env.now > 0 && ValidChoice(c, env, b, ticks, u, ch)
    ensures Sound(c, env, u, Maintained(c, env, u, ch)) && NoNegative(env, Maintained(c, env, u, ch))
  {
    TrimmedIsSound(c, env, b, u, ch);
    var u3 := Trimmed(c, env, u, ch);
    SelectedAreAcceptable(c, env, b, u3, ch.outs);
    GraftIsSound(c, env, u, u3, ch.outs);
    var u4 := GraftAll(u3, ch.outs);
    BetterAreAcceptable(c, env, b, u4, ticks, ch.sorted, ch.better);
    GraftIsSound(c, env, u, u4, ch.better);
  }

  lemma SurvivorCount(c: Params, env: Env, list: seq<Peer>)
    requires c.d <= |list| && Distinct(list)
    ensures |Survivors(c, env, list)| == c.d && Survivors(c, env, list) <= Elements(list)
  {
    var bubbled := MeshTrim.Bubbled(list, c.d, c.dout, env.outbound);
    MeshTrim.TrimPermutes(list, c.d, c.dout, env.outbound);
    DistinctPermutes(list, bubbled);
    var kept := MeshTrim.Kept(list, c.d, c.dout, env.outbound);
    assert kept == bubbled[..c.d];
    DistinctSize(kept);
    forall p | p in kept ensures p in Elements(list) {
      assert p in multiset(bubbled);
    }
  }

  lemma DistinctPermutes(s: seq<Peer>, t: seq<Peer>)
    requires multiset(s) == multiset(t) && Distinct(s)
    ensures Distinct(t)
  {
    if i, j :| 0 <= i < j < |t| && t[i] == t[j] {
      assert t == t[..i] + [t[i]] + t[i + 1..j] + [t[j]] + t[j + 1..];
      assert multiset(t)[t[i]] >= 2;
      CountDistinct(s, t[i]);
    }
  }

  lemma {:induction false} CountDistinct(s: seq<Peer>, p: Peer)
    requires Distinct(s)
    ensures multiset(s)[p] <= 1
  {
    if s != [] {
      CountDistinct(s[..|s| - 1], p);
      assert s == s[..|s| - 1] + [s[|s| - 1]];
      if p == s[|s| - 1] { assert p !in s[..|s| - 1]; }
    }
  }

  lemma TrimmedSize(c: Params, env: Env, b: Bitmask, u: Upkeep, ch: Choice)
    requires Sane(c)
    requires FillChoice(c, env, b, DropNegative(c, env, u), ch.more)
    requires TrimChoice(c, env, Filled(c, env, u, ch), ch.list)
    ensures |Trimmed(c, env, u, ch).peers| <= c.dhi
    ensures |Filled(c, env, u, ch).peers| > c.dhi ==> |Trimmed(c, env, u, ch).peers| == c.d
  {
    var u2 := Filled(c, env, u, ch);
    if |u2.peers| > c.dhi {
      SurvivorCount(c, env, ch.list);
      assert u2.peers - (u2.peers - Survivors(c, env, ch.list)) == Survivors(c, env, ch.list);
    }
  }

  /** A heartbeat bounds the mesh: at most dhi peers, and the few that were then grafted for the outbound
      quota and opportunistically. It reaches dlo peers unless it grafted all there were. */
  lemma MaintainedSize(c: Params, env: Env, b: Bitmask, ticks: nat, u: Upkeep, ch: Choice)
    requires Sane(c) && ValidChoice(c, env, b, ticks, u, ch)
    ensures |Maintained(c, env, u, ch).peers| <= c.dhi + c.dout + c.opportunisticPeers
    ensures var u1 := DropNegative(c, env, u);
      |Maintained(c, env, u, ch).peers| >= c.dlo || ch.more == Graftable(c, env, b, u1.peers, u1.bo)
  {
    var u3 := Trimmed(c, env, u, ch);
    TrimmedSize(c, env, b, u, ch);
    TrimmedReaches(c, env, b, ticks, u, ch);
    UnionSize(u3.peers, ch.outs);
    UnionSize(u3.peers + ch.outs, ch.better);
    SubsetSize(u3.peers, u3.peers + ch.outs + ch.better);
  }

  lemma TrimmedReaches(c: Params, env: Env, b: Bitmask, ticks: nat, u: Upkeep, ch: Choice)
    requires Sane(c) && ValidChoice(c, env, b, ticks, u, ch)
    ensures var u1 := DropNegative(c, env, u);
      |Trimmed(c, env, u, ch).peers| >= c.dlo || ch.more == Graftable(c, env, b, u1.peers, u1.bo)
  {
    TrimmedSize(c, env, b, u, ch);
    var u1, u2 := DropNegative(c, env, u), Filled(c, env, u, ch);
    if |u1.peers| < c.dlo && ch.more != Graftable(c, env, b, u1.peers, u1.bo) {
      assert u1.peers !! ch.more;
      assert |u1.peers + ch.more| == |u1.peers| + |ch.more|;
    } else if |u1.peers| >= c.dlo {
      SubsetSize(u1.peers, u2.peers);
    }
  }

  lemma SubsetSize(a: set<Peer>, b: set<Peer>)
    requires a <= b
    ensures |a| <= |b|
  {
    assert b == a + (b - a);
    assert |b| == |a| + |b - a|;
  }

  /** A mesh of at least dlo peers ends with dout outbound ones, unless all there were are in it. */
  lemma MaintainedOutbound(c: Params, env: Env, b: Bitmask, ticks: nat, u: Upkeep, ch: Choice)
    requires Sane(c) && ValidChoice(c, env, b, ticks, u, ch)
    ensures var u3 := Trimmed(c, env, u, ch);
      |u3.peers| >= c.dlo ==>
        || |Maintained(c, env, u, ch).peers * env.outbound| >= c.dout
        || ch.outs == Offered(env.slices(b), Acceptable(c, env, b, u3.peers, u3.bo) * env.outbound)
  {
    var u3 := Trimmed(c, env, u, ch);
    var have := u3.peers * env.outbound;
    var all := Maintained(c, env, u, ch).peers * env.outbound;
    SubsetSize(have, all);
    if |u3.peers| >= c.dlo && |have| < c.dout {
      var offered := Offered(env.slices(b), Acceptable(c, env, b, u3.peers, u3.bo) * env.outbound);
      if ch.outs != offered {
        assert have !! ch.outs;
        assert |have + ch.outs| == |have| + |ch.outs|;
        SubsetSize(have + ch.outs, all);
      }
    }
  }

  /** Trimming keeps the dscore best peers when there is room for them beside the outbound quota; whoever
      goes scores no better than any of them. */
  lemma TrimKeepsBest(c: Params, env: Env, u: Upkeep, list: seq<Peer>, p: Peer)
    requires Sane(c) && c.dscore + c.dout <= c.d && |u.peers| > c.dhi && TrimChoice(c, env, u, list)
    requires p in u.peers && p !in TrimExcess(c, env, u, list).peers
    ensures forall i :: 0 <= i < c.dscore ==>
              list[i] in TrimExcess(c, env, u, list).peers && env.score(list[i]) >= env.score(p)
  {
    MeshTrim.BestSurvive(list, c.dscore, c.d, c.dout, env.outbound);
    forall i | 0 <= i < c.dscore ensures list[i] in TrimExcess(c, env, u, list).peers {
      assert list[i] in MeshTrim.Kept(list, c.d, c.dout, env.outbound);
      assert list[i] in Elements(list);
    }
    assert p in Elements(list);
    var k :| 0 <= k < |list| && list[k] == p;
    assert k >= c.dscore;
  }

  /** The upkeep of one mesh, whatever was chosen. */
  lemma UpkeptIsSound(c: Params, env: Env, b: Bitmask, ticks: nat, peers: set<Peer>, bo: Backoffs,
                      peers': set<Peer>, bo': Backoffs)
    requires Sane(c) && env.now > 0 && Upkept(c, env, b, ticks, peers, bo, peers', bo')
    ensures forall p :: p in peers' ==> env.score(p) >= 0.0
    ensures forall p :: p in peers' - peers ==> p !in c.direct && p !in bo
    ensures forall p :: p in peers - peers' ==> p in bo' && bo'[p] >= env.now + c.pruneBackoff
    ensures Extends(bo, bo')
    ensures forall p :: p in bo' && p !in bo ==> bo'[p] >= env.now + c.pruneBackoff
    ensures |peers'| <= c.dhi + c.dout + c.opportunisticPeers
  {
    var u := Upkeep(peers, bo, {}, {});
    var ch :| ValidChoice(c, env, b, ticks, u, ch)
           && Maintained(c, env, u, ch).peers == peers' && Maintained(c, env, u, ch).bo == bo';
    MaintainedIsSound(c, env, b, ticks, u, ch);
    MaintainedSize(c, env, b, ticks, u, ch);
  }
}
