/** The router object, whose event loop carries out the steps. */
module RouterNode {
  import opened Peers
  import opened PeerSelection
  import opened Router
  import opened MeshUpkeep

  class BlossomSubRouter {
    const params: Params
    var mesh: map<Bitmask, set<Peer>>
    var fanout: map<Bitmask, set<Peer>>
    var lastpub: map<Bitmask, Time>
    var backoff: map<Bitmask, Backoffs>
    var heartbeatTicks: nat

    ghost function View(): State
      reads this
    {
      State(mesh, fanout, lastpub, backoff, heartbeatTicks)
    }

    constructor (params: Params)
      ensures this.params == params && View() == Init
    {
      this.params := params;
      mesh, fanout, lastpub, backoff, heartbeatTicks := map[], map[], map[], map[], 0;
    }

    method AddBackoff(p: Peer, b: Bitmask, expire: Time)
      modifies this`backoff
      ensures View() == WithBackoff(old(View()), b, {p}, expire)
    {
      var bo: Backoffs := if b in backoff then backoff[b] else map[];
      DelayOne(bo, p, expire);
      if (if p in bo then bo[p] else 0) < expire { bo := bo[p := expire]; }
      backoff := backoff[b := bo];
    }

    /** Handles one GRAFT and says whether to answer with a PRUNE. */
    method HandleGraft(env: Env, p: Peer, b: Bitmask) returns (prune: bool)
      modifies this
      ensures View() == OnGraft(params, env, old(View()), p, b)
      ensures prune <==> env.passes(p, b) && b in old(mesh) && p !in mesh[b]
    {
      prune := false;
      if !env.passes(p, b) { return; }
      if b !in mesh { return; }
      if p in mesh[b] { return; }
      if p in params.direct { return true; }
      if b in backoff && p in backoff[b] && env.now < backoff[b][p] {
        AddBackoff(p, b, env.now + params.pruneBackoff);
        return true;
      }
      if env.score(p) < 0.0 {
        AddBackoff(p, b, env.now + params.pruneBackoff);
        return true;
      }
      if |mesh[b]| >= params.dhi && p !in env.outbound {
        AddBackoff(p, b, env.now + params.pruneBackoff);
        return true;
      }
      mesh := mesh[b := mesh[b] + {p}];
    }

    method HandlePrune(env: Env, p: Peer, b: Bitmask, asked: Time)
      modifies this
      ensures View() == OnPrune(params, env, old(View()), p, b, asked)
    {
      if b !in mesh { return; }
      mesh := mesh[b := mesh[b] - {p}];
      if asked > 0 {
        AddBackoff(p, b, env.now + asked);
      } else {
        AddBackoff(p, b, env.now + params.pruneBackoff);
      }
    }

    method Join(env: Env, b: Bitmask) returns (chosen: set<Peer>)
      modifies this
      ensures JoinChoice(params, env, old(View()), b, chosen) && View() == OnJoin(env, old(View()), b, chosen)
    {
      chosen := {};
      if b in mesh { return; }
      var bo: Backoffs := if b in backoff then backoff[b] else map[];
      if b in fanout {
        var gmap := DropUnfit(env, fanout[b], bo);
        assert gmap == Promoted(env, View(), b);
        gmap, chosen := FillMesh(params, env, b, gmap, bo);
        mesh := mesh[b := gmap];
        fanout := fanout - {b};
        lastpub := lastpub - {b};
      } else {
        assert Promoted(env, View(), b) == {};
        var peers := GetPeers(env.slices(b), params.d, Acceptable(params, env, b, {}, bo));
        chosen := Elements(peers);
        mesh := mesh[b := Elements(peers)];
      }
    }

    method Leave(env: Env, b: Bitmask)
      modifies this
      ensures View() == OnLeave(params, env, old(View()), b)
    {
      if b !in mesh { return; }
      var gmap := mesh[b];
      mesh := mesh - {b};
      BackoffEach(gmap, b, env.now + params.unsubscribeBackoff);
    }

    method BackoffEach(ps: set<Peer>, b: Bitmask, expire: Time)
      modifies this`backoff
      ensures View() == WithBackoff(old(View()), b, ps, expire)
    {
      var rest := ps;
      ghost var done: set<Peer> := {};
      while rest != {}
        invariant done !! rest && done + rest == ps
        invariant View() == WithBackoff(old(View()), b, done, expire)
        decreases rest
      {
        var p :| p in rest;
        BackoffOneMore(old(View()), b, done, p, expire);
        AddBackoff(p, b, expire);
        rest, done := rest - {p}, done + {p};
      }
      assert done == ps;
    }

    /** The fanout side of publishing to one slice of a bitmask. */
    method Publish(env: Env, b: Bitmask) returns (chosen: set<Peer>)
      modifies this
      ensures PublishChoice(params, env, old(View()), b, chosen) && View() == OnPublish(env, old(View()), b, chosen)
    {
      chosen := {};
      if env.members(b).Unknown? { return; }
      if b in mesh { return; }
      if b !in fanout || |fanout[b]| == 0 {
        var peers := GetPeers(env.slices(b), params.d, Worthy(params, env, b, {}));
        chosen := Elements(peers);
        if |peers| > 0 {
          assert peers[0] in chosen;
          fanout := fanout[b := Elements(peers)];
        } else {
          assert chosen == {};
        }
      }
      lastpub := lastpub[b := env.now];
    }

    method RemovePeer(p: Peer)
      modifies this
      ensures View() == OnRemovePeer(old(View()), p)
      ensures mesh.Keys == old(mesh.Keys) && fanout.Keys == old(fanout.Keys)
      ensures forall b :: b in mesh ==> mesh[b] == old(mesh[b]) - {p}
      ensures forall b :: b in fanout ==> fanout[b] == old(fanout[b]) - {p}
      ensures lastpub == old(lastpub) && backoff == old(backoff) && heartbeatTicks == old(heartbeatTicks)
    {
      mesh := DeleteFromAll(mesh, p);
      fanout := DeleteFromAll(fanout, p);
    }

    /** Drops the backoffs that expired long enough ago. */
    method ClearBackoff(env: Env)
      modifies this`backoff
      ensures backoff == Router.ClearBackoff(params, env.now, heartbeatTicks, old(backoff))
    {
      if heartbeatTicks % 15 != 0 { return; }
      var was := backoff;
      var rest := backoff.Keys;
      while rest != {}
        invariant rest <= was.Keys
        invariant forall b :: b in rest ==> b in backoff && backoff[b] == was[b]
        invariant forall b :: b !in was ==> b !in backoff
        invariant forall b :: b in was && b !in rest ==>
                    if b in backoff then backoff[b] == Cleared(params, was[b], env.now) != map[]
                    else Cleared(params, was[b], env.now) == map[]
        decreases rest
      {
        var b :| b in rest;
        var left := DropStale(params, was[b], env.now);
        if |left| == 0 {
          backoff := backoff - {b};
        } else {
          backoff := backoff[b := left];
        }
        rest := rest - {b};
      }
    }

    method ExpireFanout(env: Env)
      modifies this`fanout, this`lastpub
      ensures lastpub == (map b | b in old(lastpub) && !Idle(params, env.now, old(lastpub), b) :: old(lastpub)[b])
      ensures fanout == (map b | b in old(fanout) && !Idle(params, env.now, old(lastpub), b) :: old(fanout)[b])
    {
      var rest := lastpub.Keys;
      ghost var s := View();
      while rest != {}
        invariant rest <= lastpub.Keys <= s.lastpub.Keys && fanout.Keys <= s.fanout.Keys
        invariant forall b :: b in lastpub ==> lastpub[b] == s.lastpub[b]
        invariant forall b :: b in fanout ==> fanout[b] == s.fanout[b]
        invariant forall b :: b in s.lastpub && b !in rest ==> (b in lastpub <==> !Idle(params, env.now, s.lastpub, b))
        invariant forall b :: b in s.fanout && b !in rest ==> (b in fanout <==> !Idle(params, env.now, s.lastpub, b))
        invariant forall b :: b in s.fanout && b in rest ==> b in fanout
        decreases rest
      {
        var b :| b in rest;
        if lastpub[b] + params.fanoutTTL < env.now {
          fanout := fanout - {b};
          lastpub := lastpub - {b};
        }
        rest := rest - {b};
      }
    }

    method MaintainFanout(env: Env)
      modifies this`fanout
      ensures fanout.Keys == old(fanout.Keys)
      ensures forall b :: b in fanout ==> FanoutUpkept(params, env, b, old(fanout)[b], fanout[b])
    {
      var rest := fanout.Keys;
      while rest != {}
        invariant rest <= old(fanout).Keys == fanout.Keys
        invariant forall b :: b in rest ==> fanout[b] == old(fanout)[b]
        invariant forall b :: b in fanout && b !in rest ==> FanoutUpkept(params, env, b, old(fanout)[b], fanout[b])
        decreases rest
      {
        var b :| b in rest;
        var peers := UpkeepFanout(params, env, b, fanout[b]);
        fanout := fanout[b := peers];
        rest := rest - {b};
      }
    }

    /** The overlay side of a heartbeat. */
    method Heartbeat(env: Env)
      requires Sane(params)
      modifies this
      ensures Heartbeats(params, env, old(View()), View())
    {
      heartbeatTicks := heartbeatTicks + 1;
      ClearBackoff(env);
      mesh, backoff := MaintainMeshes(params, env, heartbeatTicks, mesh, backoff);
      ExpireFanout(env);
      MaintainFanout(env);
    }
  }

  /** A relation between the mesh and backoffs of a bitmask before and after. */
  type Relation = (Bitmask, set<Peer>, Backoffs, set<Peer>, Backoffs) -> bool

  /** The maintenance of a mesh ensures r. */
  ghost predicate Ensured(c: Params, env: Env, ticks: nat, r: Relation)
    requires Sane(c)
  {
    forall b, peers, bo, peers', bo' ::
      Upkept(c, env, b, ticks, peers, bo, peers', bo') ==> r(b, peers, bo, peers', bo')
  }

  method MaintainOne(c: Params, env: Env, ticks: nat, b: Bitmask, peers: set<Peer>, bo: Backoffs, ghost r: Relation)
    returns (peers': set<Peer>, bo': Backoffs)
    requires Sane(c) && Ensured(c, env, ticks, r)
    ensures r(b, peers, bo, peers', bo')
  {
    var v := Maintain(c, env, b, ticks, peers, bo);
    peers', bo' := v.peers, v.bo;
  }

  method MaintainMeshes(c: Params, env: Env, ticks: nat, mesh: map<Bitmask, set<Peer>>, backoff: map<Bitmask, Backoffs>)
    returns (mesh': map<Bitmask, set<Peer>>, backoff': map<Bitmask, Backoffs>)
    requires Sane(c)
    ensures MeshesUpkept(c, env, ticks, mesh, backoff, mesh', backoff')
  {
    mesh', backoff' := MaintainEach(c, env, ticks, mesh, backoff,
      (b, peers, bo, peers', bo') => Upkept(c, env, b, ticks, peers, bo, peers', bo'));
  }

  /** Maintains every mesh, in any order; r is any relation that the maintenance of one ensures. */
  method MaintainEach(c: Params, env: Env, ticks: nat, mesh: map<Bitmask, set<Peer>>, backoff: map<Bitmask, Backoffs>,
                        ghost r: Relation)
    returns (mesh': map<Bitmask, set<Peer>>, backoff': map<Bitmask, Backoffs>)
    requires Sane(c) && Ensured(c, env, ticks, r)
    ensures mesh'.Keys == mesh.Keys
    ensures forall b :: b in mesh ==> r(b, mesh[b], BackoffsIn(backoff, b), mesh'[b], BackoffsIn(backoff', b))
    ensures forall b :: b !in mesh ==> BackoffsIn(backoff', b) == BackoffsIn(backoff, b)
  {
    mesh', backoff' := mesh, backoff;
    var rest := mesh.Keys;
    ghost var done: set<Bitmask> := {};
    while rest != {}
      invariant done !! rest && done + rest == mesh.Keys == mesh'.Keys
      invariant forall b :: b in rest ==> mesh'[b] == mesh[b]
      invariant forall b :: b !in done ==> BackoffsIn(backoff', b) == BackoffsIn(backoff, b)
      invariant forall b :: b in done ==> r(b, mesh[b], BackoffsIn(backoff, b), mesh'[b], BackoffsIn(backoff', b))
      decreases rest
    {
      var k :| k in rest;
      var peers, bo := MaintainOne(c, env, ticks, k, mesh'[k], BackoffsIn(backoff', k), r);
      mesh' := mesh'[k := peers];
      backoff' := backoff'[k := bo];
      rest, done := rest - {k}, done + {k};
    }
  }

  /** Keeps the fanout peers that are still worth it and fills up. */
  method UpkeepFanout(c: Params, env: Env, b: Bitmask, peers: set<Peer>) returns (kept: set<Peer>)
    ensures FanoutUpkept(c, env, b, peers, kept)
  {
    kept := peers;
    var rest := peers;
    while rest != {}
      invariant rest <= kept <= peers
      invariant forall p :: p in peers && p !in rest ==>
                  (p in kept <==> p in MembersOf(env, b) && env.score(p) >= env.publishThreshold)
      decreases rest
    {
      var p :| p in rest;
      if p !in MembersOf(env, b) || env.score(p) < env.publishThreshold { kept := kept - {p}; }
      rest := rest - {p};
    }
    assert kept == FanoutKept(env, b, peers);
    if |kept| < c.d {
      var more := GetPeers(env.slices(b), c.d - |kept|, Worthy(c, env, b, kept));
      kept := AddEach(kept, more);
      assert FanoutChoice(c, env, b, FanoutKept(env, b, peers), Elements(more));
    } else {
      assert FanoutChoice(c, env, b, FanoutKept(env, b, peers), {}) && kept == FanoutKept(env, b, peers) + {};
    }
  }

  lemma BackoffOneMore(s: State, b: Bitmask, ps: set<Peer>, p: Peer, expire: Time)
    ensures WithBackoff(WithBackoff(s, b, ps, expire), b, {p}, expire) == WithBackoff(s, b, ps + {p}, expire)
  {
    DelayOneMore(BackoffsOf(s, b), ps, p, expire);
    if ps == {} { assert ps + {p} == {p}; }
  }

  /** The fanout peers that may go into the mesh. */
  method DropUnfit(env: Env, peers: set<Peer>, bo: Backoffs) returns (kept: set<Peer>)
    ensures kept == set p | p in peers && env.score(p) >= 0.0 && p !in bo
  {
    kept := peers;
    var rest := peers;
    while rest != {}
      invariant rest <= kept <= peers
      invariant forall p :: p in peers && p !in rest ==> (p in kept <==> env.score(p) >= 0.0 && p !in bo)
      decreases rest
    {
      var p :| p in rest;
      if env.score(p) < 0.0 || p in bo { kept := kept - {p}; }
      rest := rest - {p};
    }
  }

  /** Fills the mesh of a bitmask that was published to before it is joined. */
  method FillMesh(c: Params, env: Env, b: Bitmask, kept: set<Peer>, bo: Backoffs)
    returns (gmap: set<Peer>, chosen: set<Peer>)
    ensures if |kept| < c.d then Selection(Graftable(c, env, b, kept, bo), c.d - |kept|, chosen) else chosen == {}
    ensures gmap == kept + chosen
  {
    gmap, chosen := kept, {};
    if |kept| < c.d {
      var more := GetPeers(env.slices(b), c.d - |kept|, Acceptable(c, env, b, kept, bo));
      chosen := Elements(more);
      gmap := AddEach(kept, more);
    }
  }

  method AddEach(peers: set<Peer>, more: seq<Peer>) returns (all: set<Peer>)
    ensures all == peers + Elements(more)
  {
    all := peers;
    for i := 0 to |more|
      invariant all == peers + Elements(more[..i])
    {
      all := all + {more[i]};
      assert Elements(more[..i + 1]) == Elements(more[..i]) + {more[i]};
    }
    assert more[..|more|] == more;
  }

  method DeleteFromAll(m: map<Bitmask, set<Peer>>, p: Peer) returns (r: map<Bitmask, set<Peer>>)
    ensures r == Without(m, p)
  {
    r := m;
    var rest := m.Keys;
    while rest != {}
      invariant rest <= m.Keys == r.Keys
      invariant forall b :: b in m ==> r[b] == if b in rest then m[b] else m[b] - {p}
      decreases rest
    {
      var b :| b in rest;
      r := r[b := r[b] - {p}];
      rest := rest - {b};
    }
  }

  method DropStale(c: Params, bo: Backoffs, now: Time) returns (left: Backoffs)
    ensures left == Cleared(c, bo, now)
  {
    left := bo;
    var rest := bo.Keys;
    while rest != {}
      invariant rest <= left.Keys <= bo.Keys
      invariant forall p :: p in left ==> left[p] == bo[p]
      invariant forall p :: p in bo && p !in rest ==> (p in left <==> !Stale(c, bo[p], now))
      decreases rest
    {
      var p :| p in rest;
      if bo[p] + c.clearSlack < now { left := left - {p}; }
      rest := rest - {p};
    }
  }
}
