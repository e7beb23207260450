/** What each step of the router does, told without its own definitions. */
module RouterEffects {
  import opened Peers
  import opened PeerSelection
  import opened Router
  import opened RouterSafety
  import opened RouterRuns

  // ---------------------------------------------------------------------------------
  // Backoffs, to the moment
  // ---------------------------------------------------------------------------------

  function Later(a: Time, b: Time): Time { if a >= b then a else b }

  /** A backoff is the later of what it was and what was added; nobody else's changes. */
  lemma DelayedExactly(bo: Backoffs, ps: set<Peer>, expire: Time, p: Peer)
    requires expire > 0
    ensures var bo' := Delayed(bo, ps, expire);
      && (p in bo' <==> p in bo || p in ps)
      && (p in bo' ==> bo'[p] == if p in ps then (if p in bo then Later(bo[p], expire) else expire) else bo[p])
  {
    DelayedFacts(bo, ps, expire);
  }

  /** Who is put off in b, and until when. */
  ghost predicate PutOff(s: State, t: State, b: Bitmask, ps: set<Peer>, expire: Time) {
    forall p, k ::
      var bo, bo' := BackoffsOf(s, k), BackoffsOf(t, k);
      if k == b && p in ps then p in bo' && bo'[p] == if p in bo then Later(bo[p], expire) else expire
      else (p in bo' <==> p in bo) && (p in bo' ==> bo'[p] == bo[p])
  }

  lemma WithBackoffPutsOff(s: State, b: Bitmask, ps: set<Peer>, expire: Time)
    requires expire > 0
    ensures PutOff(s, WithBackoff(s, b, ps, expire), b, ps, expire)
  {
    forall p { DelayedExactly(BackoffsOf(s, b), ps, expire, p); }
  }

  /** A PRUNE takes the peer out of that mesh alone, and puts it off for the time that it asked for, or else for
      ours; if we are not in the mesh it does nothing. */
  lemma PruneDoes(c: Params, env: Env, s: State, p: Peer, b: Bitmask, asked: Time)
    requires Sane(c) && env.now > 0
    ensures var t := OnPrune(c, env, s, p, b, asked);
      && (b !in s.mesh ==> t == s)
      && (b in s.mesh ==>
            && t.mesh == s.mesh[b := s.mesh[b] - {p}]
            && (asked > 0 ==> PutOff(s, t, b, {p}, env.now + asked))
            && (asked <= 0 ==> PutOff(s, t, b, {p}, env.now + c.pruneBackoff)))
      && t.fanout == s.fanout && t.lastpub == s.lastpub
  {
    if b in s.mesh {
      var u := s.(mesh := s.mesh[b := s.mesh[b] - {p}]);
      WithBackoffPutsOff(u, b, {p}, env.now + if asked > 0 then asked else c.pruneBackoff);
      SameBackoffs(s, u, OnPrune(c, env, s, p, b, asked), b, {p},
                   env.now + if asked > 0 then asked else c.pruneBackoff);
    }
  }

  lemma SameBackoffs(s: State, u: State, t: State, b: Bitmask, ps: set<Peer>, expire: Time)
    requires u.backoff == s.backoff && PutOff(u, t, b, ps, expire)
    ensures PutOff(s, t, b, ps, expire)
  {
    forall k ensures BackoffsOf(s, k) == BackoffsOf(u, k) {
    }
  }

  /** Leaving closes the mesh and puts everybody in it off for the unsubscribe interval. */
  lemma LeaveDoes(c: Params, env: Env, s: State, b: Bitmask)
    requires Sane(c) && env.now > 0
    ensures var t := OnLeave(c, env, s, b);
      && t.mesh == s.mesh - {b} && t.fanout == s.fanout && t.lastpub == s.lastpub
      && PutOff(s, t, b, PeersOf(s.mesh, b), env.now + c.unsubscribeBackoff)
  {
    if b in s.mesh {
      var u := s.(mesh := s.mesh - {b});
      WithBackoffPutsOff(u, b, s.mesh[b], env.now + c.unsubscribeBackoff);
      SameBackoffs(s, u, OnLeave(c, env, s, b), b, s.mesh[b], env.now + c.unsubscribeBackoff);
    } else {
      assert s.mesh - {b} == s.mesh;
    }
  }

  // ---------------------------------------------------------------------------------
  // GRAFT
  // ---------------------------------------------------------------------------------

  /** Exactly when a GRAFT ends with the peer in the mesh: a backoff that is over does not count, though it may
      still be noted, and neither does a full mesh for an outbound peer. */
  lemma GraftAdmittedIff(c: Params, env: Env, s: State, p: Peer, b: Bitmask)
    ensures var t := OnGraft(c, env, s, p, b);
      p in PeersOf(t.mesh, b) <==>
        || p in PeersOf(s.mesh, b)
        || (&& b in s.mesh && env.passes(p, b) && p !in c.direct && env.score(p) >= 0.0
            && (p in BackoffsOf(s, b) ==> BackoffsOf(s, b)[p] <= env.now)
            && (|s.mesh[b]| < c.dhi || p in env.outbound))
  {
  }

  /** Nobody else and no other mesh is affected; and whoever is refused, unless direct, is put off. */
  lemma GraftDoes(c: Params, env: Env, s: State, p: Peer, b: Bitmask)
    requires Sane(c) && env.now > 0
    ensures var t := OnGraft(c, env, s, p, b);
      && (forall q, k :: q != p || k != b ==> (q in PeersOf(t.mesh, k) <==> q in PeersOf(s.mesh, k)))
      && t.mesh.Keys == s.mesh.Keys && t.fanout == s.fanout && t.lastpub == s.lastpub
      && (if b in s.mesh && env.passes(p, b) && p !in c.direct && p !in PeersOf(t.mesh, b)
          then PutOff(s, t, b, {p}, env.now + c.pruneBackoff) else t.backoff == s.backoff)
  {
    if Refuses(c, env, s, p, b) { WithBackoffPutsOff(s, b, {p}, env.now + c.pruneBackoff); }
  }

  // ---------------------------------------------------------------------------------
  // Who may be chosen
  // ---------------------------------------------------------------------------------

  lemma OfferedOneSlice(peers: set<Peer>, passing: set<Peer>)
    ensures Offered([Known(peers)], passing) == peers * passing
  {
    var slices := [Known(peers)];
    assert slices[1..] == [] && Narrow([], passing, peers * passing) == peers * passing;
  }

  /** For a bitmask of one bit the peers that can be grafted are exactly those subscribed who are not in the mesh,
      not direct, not backed off and not below zero; those that can be published to are exactly those subscribed
      who are not chosen yet, not direct and reach the threshold. */
  lemma ChoosableExactly(c: Params, env: Env, b: Bitmask, members: set<Peer>, peers: set<Peer>, bo: Backoffs, p: Peer)
    requires env.slices(b) == [Known(members)]
    ensures p in Graftable(c, env, b, peers, bo)
       <==> p in members && p !in peers && p !in c.direct && p !in bo && env.score(p) >= 0.0
    ensures p in Publishable(c, env, b, peers)
       <==> p in members && p !in peers && p !in c.direct && env.score(p) >= env.publishThreshold
  {
    OfferedOneSlice(members, Acceptable(c, env, b, peers, bo));
    OfferedOneSlice(members, Worthy(c, env, b, peers));
    assert [Known(members)][1..] == [] && Everyone([Known(members)]) == members;
  }

  // ---------------------------------------------------------------------------------
  // Joining
  // ---------------------------------------------------------------------------------

  /** Of the fanout, exactly those enter the new mesh who do not score below zero and are not backed off; the
      fanout and its time go; and other bitmasks are not affected. */
  lemma JoinDoes(c: Params, env: Env, s: State, b: Bitmask, chosen: set<Peer>)
    requires Sane(c) && Inv(c, s) && JoinChoice(c, env, s, b, chosen)
    ensures var t := OnJoin(env, s, b, chosen);
      && (b in s.mesh ==> t == s)
      && (b !in s.mesh ==>
            && t.mesh.Keys == s.mesh.Keys + {b} && t.fanout == s.fanout - {b} && b !in t.fanout
            && (b in s.fanout ==> b !in t.lastpub)
            && (forall p :: p in PeersOf(s.fanout, b) ==>
                  (p in t.mesh[b] <==> env.score(p) >= 0.0 && p !in BackoffsOf(s, b))))
      && (forall k :: k != b ==> PeersOf(t.mesh, k) == PeersOf(s.mesh, k))
      && t.backoff == s.backoff
  {
    if b !in s.mesh {
      JoinersAreFree(c, env, s, b, chosen);
      if b !in s.fanout { assert s.fanout - {b} == s.fanout; }
    }
  }

  // ---------------------------------------------------------------------------------
  // Publishing, and how long a fanout lives
  // ---------------------------------------------------------------------------------

  /** Publishing outside of a mesh to a known slice notes the time, and makes a fanout if there is none. */
  lemma PublishDoes(c: Params, env: Env, s: State, b: Bitmask, chosen: set<Peer>)
    requires PublishChoice(c, env, s, b, chosen)
    ensures var t := OnPublish(env, s, b, chosen);
      && (env.members(b).Unknown? || b in s.mesh ==> t == s)
      && (env.members(b).Known? && b !in s.mesh ==>
            && b in t.lastpub && t.lastpub[b] == env.now
            && (PeersOf(s.fanout, b) != {} ==> t.fanout == s.fanout)
            && (PeersOf(s.fanout, b) == {} ==>
                  PeersOf(t.fanout, b) == chosen && (Publishable(c, env, b, {}) != {} ==> b in t.fanout || c.d == 0)))
      && (forall k :: k != b ==> PeersOf(t.fanout, k) == PeersOf(s.fanout, k))
      && t.mesh == s.mesh && t.backoff == s.backoff
  {
  }

  /** b has a fanout that was published to at x or later. */
  predicate FanoutSince(s: State, b: Bitmask, x: Time) {
    b !in s.mesh && b in s.fanout && b in s.lastpub && s.lastpub[b] >= x
  }

  lemma FanoutSinceStep(c: Params, s: State, e: Event, b: Bitmask, x: Time)
    requires Sane(c) && Enabled(c, s, e) && FanoutSince(s, b, x)
    requires x <= e.env.now <= x + c.fanoutTTL && !(e.Join? && e.b == b)
    ensures FanoutSince(Step(c, s, e), b, x)
  {
    match e
    case Heartbeat(env, t) => assert b in t.fanout;
    case _ =>
  }

  /** A fanout survives every run until its time to live after the last publication is over, unless the bitmask
      is joined. */
  lemma {:induction false} FanoutSurvives(c: Params, s: State, events: seq<Event>, t: State, b: Bitmask, x: Time)
    requires Sane(c) && Runs(c, s, events, t) && FanoutSince(s, b, x)
    requires forall i :: 0 <= i < |events| ==>
               x <= events[i].env.now <= x + c.fanoutTTL && !(events[i].Join? && events[i].b == b)
    ensures FanoutSince(t, b, x)
    decreases |events|
  {
    if events != [] {
      FanoutSinceStep(c, s, events[0], b, x);
      FanoutSurvives(c, Step(c, s, events[0]), events[1..], t, b, x);
    }
  }

  /** p is still subscribed to b and reaches the threshold. */
  predicate StillFit(env: Env, b: Bitmask, p: Peer) {
    env.members(b).Known? && p in env.members(b).peers && env.score(p) >= env.publishThreshold
  }

  lemma FanoutUpkeptDoes(c: Params, env: Env, b: Bitmask, peers: set<Peer>, peers': set<Peer>)
    requires FanoutUpkept(c, env, b, peers, peers')
    ensures forall p :: p in peers && StillFit(env, b, p) ==> p in peers'
    ensures forall p :: p in peers' ==> env.score(p) >= env.publishThreshold
    ensures |peers'| <= Later(c.d, |peers|)
    ensures |peers'| >= c.d || Publishable(c, env, b, FanoutKept(env, b, peers)) <= peers'
  {
    var kept := FanoutKept(env, b, peers);
    var more :| FanoutChoice(c, env, b, kept, more) && peers' == kept + more;
    UnionSize(kept, more);
    SubsetSize(kept, peers);
    if |peers'| < c.d {
      SubsetSize(kept, peers');
      MoreIsAll(c, env, b, kept, more);
    }
  }

  lemma MoreIsAll(c: Params, env: Env, b: Bitmask, kept: set<Peer>, more: set<Peer>)
    requires |kept| < c.d && FanoutChoice(c, env, b, kept, more) && |kept + more| < c.d
    ensures more == Publishable(c, env, b, kept)
  {
    assert kept !! more;
    assert |kept + more| == |kept| + |more|;
  }

  /** A heartbeat drops a fanout exactly if its time to live is over. One that stays keeps the peers that are still
      subscribed and reach the threshold, gets others that reach it, and does not grow past D. */
  lemma HeartbeatFanouts(c: Params, env: Env, s: State, t: State, b: Bitmask)
    requires Sane(c) && Inv(c, s) && Heartbeats(c, env, s, t) && b in s.fanout
    ensures b in t.fanout <==> s.lastpub[b] + c.fanoutTTL >= env.now
    ensures b in t.fanout ==>
      && (forall p :: p in s.fanout[b] && StillFit(env, b, p) ==> p in t.fanout[b])
      && (forall p :: p in t.fanout[b] ==> env.score(p) >= env.publishThreshold)
      && |t.fanout[b]| <= Later(c.d, |s.fanout[b]|)
  {
    FanoutsDo(c, env, s.lastpub, s.fanout, t.fanout, b);
  }

  lemma FanoutsDo(c: Params, env: Env, lastpub: map<Bitmask, Time>, fanout: map<Bitmask, set<Peer>>,
                  fanout': map<Bitmask, set<Peer>>, b: Bitmask)
    requires FanoutsUpkept(c, env, lastpub, fanout, fanout') && b in fanout && b in lastpub
    ensures b in fanout' <==> lastpub[b] + c.fanoutTTL >= env.now
    ensures b in fanout' ==>
      && (forall p :: p in fanout[b] && StillFit(env, b, p) ==> p in fanout'[b])
      && (forall p :: p in fanout'[b] ==> env.score(p) >= env.publishThreshold)
      && |fanout'[b]| <= Later(c.d, |fanout[b]|)
  {
    if b in fanout' { FanoutUpkeptDoes(c, env, b, fanout[b], fanout'[b]); }
  }

  // ---------------------------------------------------------------------------------
  // Meshes in a heartbeat
  // ---------------------------------------------------------------------------------

  function NotNegative(env: Env, peers: set<Peer>): set<Peer> { set p | p in peers && env.score(p) >= 0.0 }

  /** Filling up goes to exactly D, or takes everybody there is; a mesh of at least Dlo is not filled. */
  lemma FilledExactly(c: Params, env: Env, b: Bitmask, u: Upkeep, ch: Choice)
    requires Sane(c) && FillChoice(c, env, b, DropNegative(c, env, u), ch.more)
    ensures var u1 := DropNegative(c, env, u);
      && u1.peers == NotNegative(env, u.peers)
      && (|u1.peers| >= c.dlo ==> Filled(c, env, u, ch).peers == u1.peers)
      && (|u1.peers| < c.dlo ==>
            |Filled(c, env, u, ch).peers| == c.d
            || (Filled(c, env, u, ch).peers == u1.peers + Graftable(c, env, b, u1.peers, u1.bo)
                && |Filled(c, env, u, ch).peers| < c.d))
  {
    var u1 := DropNegative(c, env, u);
    if |u1.peers| < c.dlo {
      var all := Graftable(c, env, b, u1.peers, u1.bo);
      assert all !! u1.peers && ch.more <= all;
      assert |u1.peers + ch.more| == |u1.peers| + |ch.more|;
    }
  }

  /** A heartbeat takes nobody out of a mesh who does not score below zero, unless the others who do not are more
      than Dhi together with them. */
  lemma HeartbeatKeeps(c: Params, env: Env, s: State, t: State, b: Bitmask, p: Peer)
    requires Sane(c) && Heartbeats(c, env, s, t) && b in s.mesh
    requires p in s.mesh[b] && env.score(p) >= 0.0 && |NotNegative(env, s.mesh[b])| <= c.dhi
    ensures b in t.mesh && p in t.mesh[b]
  {
    var cleared := BackoffsIn(ClearBackoff(c, env.now, t.ticks, s.backoff), b);
    assert Upkept(c, env, b, t.ticks, s.mesh[b], cleared, t.mesh[b], BackoffsOf(t, b));
    UpkeptKeeps(c, env, b, t.ticks, s.mesh[b], cleared, t.mesh[b], BackoffsOf(t, b), p);
  }

  lemma UpkeptKeeps(c: Params, env: Env, b: Bitmask, ticks: nat, peers: set<Peer>, bo: Backoffs,
                    peers': set<Peer>, bo': Backoffs, p: Peer)
    requires Sane(c) && Upkept(c, env, b, ticks, peers, bo, peers', bo')
    requires p in peers && env.score(p) >= 0.0 && |NotNegative(env, peers)| <= c.dhi
    ensures p in peers'
  {
    var u := Upkeep(peers, bo, {}, {});
    var ch :| ValidChoice(c, env, b, ticks, u, ch)
           && Maintained(c, env, u, ch).peers == peers' && Maintained(c, env, u, ch).bo == bo';
    FilledExactly(c, env, b, u, ch);
    assert p in NotNegative(env, peers) && p in Filled(c, env, u, ch).peers;
  }

  /** Backoffs are cleared on every 15th heartbeat only. */
  lemma HeartbeatRemembers(c: Params, env: Env, s: State, t: State, b: Bitmask, p: Peer)
    requires Sane(c) && Heartbeats(c, env, s, t) && env.now > 0 && p in BackoffsOf(s, b)
    requires t.ticks % 15 != 0 || BackoffsOf(s, b)[p] + c.clearSlack >= env.now
    ensures p in BackoffsOf(t, b) && BackoffsOf(t, b)[p] >= BackoffsOf(s, b)[p] && t.ticks == s.ticks + 1
  {
    HeartbeatSafe(c, env, s, t, b);
    ClearedFacts(c, env, s, b, p);
    if t.ticks % 15 != 0 { assert ClearedOf(c, env, s, b) == BackoffsOf(s, b); }
  }
}
