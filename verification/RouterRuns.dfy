/** The router as a state machine: every run, whatever arrives and whatever is chosen at random. */
module RouterRuns {
  import opened Peers
  import opened PeerSelection
  import opened Router
  import opened RouterSafety

  datatype Event =
    | Graft(env: Env, p: Peer, b: Bitmask)
    | Prune(env: Env, p: Peer, b: Bitmask, asked: Time)
    | Join(env: Env, b: Bitmask, chosen: set<Peer>)
    | Leave(env: Env, b: Bitmask)
    | Publish(env: Env, b: Bitmask, chosen: set<Peer>)
    | RemovePeer(env: Env, p: Peer)
    | Heartbeat(env: Env, next: State)

  ghost predicate Enabled(c: Params, s: State, e: Event)
    requires Sane(c)
  {
    && e.env.now > 0
    && match e
       case Join(env, b, chosen) => JoinChoice(c, env, s, b, chosen)
       case Publish(env, b, chosen) => PublishChoice(c, env, s, b, chosen)
       case Heartbeat(env, next) => Heartbeats(c, env, s, next)
       case _ => true
  }

  ghost function Step(c: Params, s: State, e: Event): State
    requires Sane(c) && Enabled(c, s, e)
  {
    match e
    case Graft(env, p, b) => OnGraft(c, env, s, p, b)
    case Prune(env, p, b, asked) => OnPrune(c, env, s, p, b, asked)
    case Join(env, b, chosen) => OnJoin(env, s, b, chosen)
    case Leave(env, b) => OnLeave(c, env, s, b)
    case Publish(env, b, chosen) => OnPublish(env, s, b, chosen)
    case RemovePeer(_, p) => OnRemovePeer(s, p)
    case Heartbeat(_, next) => next
  }

  /** s reaches t by the events, in order. */
  ghost predicate Runs(c: Params, s: State, events: seq<Event>, t: State)
    requires Sane(c)
    decreases |events|
  {
    if events == [] then s == t
    else Enabled(c, s, events[0]) && Runs(c, Step(c, s, events[0]), events[1..], t)
  }

  // ---------------------------------------------------------------------------------
  // The invariant
  // ---------------------------------------------------------------------------------

  ghost predicate NoDirect(c: Params, m: map<Bitmask, set<Peer>>) {
    forall b :: b in m ==> m[b] !! c.direct
  }

  /** Direct peers are in no mesh and no fanout; a bitmask has a mesh or a fanout, not both; and every
      fanout has a time of last publication, so that it can expire. */
  ghost predicate Inv(c: Params, s: State) {
    && NoDirect(c, s.mesh) && NoDirect(c, s.fanout)
    && s.mesh.Keys !! s.fanout.Keys
    && s.fanout.Keys <= s.lastpub.Keys
  }

  lemma JoinInv(c: Params, env: Env, s: State, b: Bitmask, chosen: set<Peer>)
    requires Inv(c, s) && JoinChoice(c, env, s, b, chosen)
    ensures Inv(c, OnJoin(env, s, b, chosen))
  {
    assert Promoted(env, s, b) <= PeersOf(s.fanout, b);
  }

  lemma PublishInv(c: Params, env: Env, s: State, b: Bitmask, chosen: set<Peer>)
    requires Inv(c, s) && PublishChoice(c, env, s, b, chosen)
    ensures Inv(c, OnPublish(env, s, b, chosen))
  {
  }

  lemma HeartbeatInv(c: Params, env: Env, s: State, t: State)
    requires Sane(c) && Inv(c, s) && Heartbeats(c, env, s, t) && env.now > 0
    ensures Inv(c, t)
  {
    forall b | b in t.mesh ensures t.mesh[b] !! c.direct {
      HeartbeatSafe(c, env, s, t, b);
      assert s.mesh[b] !! c.direct;
    }
    forall b | b in t.fanout ensures t.fanout[b] !! c.direct {
      HeartbeatFanout(c, env, s, t, b);
      assert s.fanout[b] !! c.direct;
    }
  }

  lemma HeartbeatFanout(c: Params, env: Env, s: State, t: State, b: Bitmask)
    requires Sane(c) && Heartbeats(c, env, s, t) && b in t.fanout
    ensures b in s.fanout && forall p :: p in t.fanout[b] ==> env.score(p) >= env.publishThreshold
    ensures forall p :: p in t.fanout[b] - s.fanout[b] ==> p !in c.direct
  {
    assert FanoutUpkept(c, env, b, s.fanout[b], t.fanout[b]);
    var more :| FanoutChoice(c, env, b, FanoutKept(env, b, s.fanout[b]), more)
             && t.fanout[b] == FanoutKept(env, b, s.fanout[b]) + more;
  }

  lemma StepInv(c: Params, s: State, e: Event)
    requires Sane(c) && Inv(c, s) && Enabled(c, s, e)
    ensures Inv(c, Step(c, s, e))
  {
    match e
    case Join(env, b, chosen) => JoinInv(c, env, s, b, chosen);
    case Publish(env, b, chosen) => PublishInv(c, env, s, b, chosen);
    case Heartbeat(env, next) => HeartbeatInv(c, env, s, next);
    case _ => {}
  }

  lemma {:induction false} RunInv(c: Params, s: State, events: seq<Event>, t: State)
    requires Sane(c) && Inv(c, s) && Runs(c, s, events, t)
    ensures Inv(c, t)
    decreases |events|
  {
    if events != [] {
      StepInv(c, s, events[0]);
      RunInv(c, Step(c, s, events[0]), events[1..], t);
    }
  }

  // ---------------------------------------------------------------------------------
  // Backoffs are obeyed
  // ---------------------------------------------------------------------------------

  /** One bitmask: nobody enters the mesh while their backoff runs, and a backoff is extended or kept
      until it expired long enough ago. */
  ghost predicate SafeAt(c: Params, env: Env, peers: set<Peer>, bo: Backoffs, peers': set<Peer>, bo': Backoffs) {
    && (forall p :: p in peers' && p !in peers ==> !BackedOff(bo, p, env.now) && env.score(p) >= 0.0)
    && (forall p :: p in bo && !Stale(c, bo[p], env.now) ==> p in bo' && bo'[p] >= bo[p])
  }

  ghost predicate SafeFor(c: Params, env: Env, s: State, t: State, b: Bitmask) {
    SafeAt(c, env, PeersOf(s.mesh, b), BackoffsOf(s, b), PeersOf(t.mesh, b), BackoffsOf(t, b))
  }

  ghost predicate Safe(c: Params, env: Env, s: State, t: State) { forall b :: SafeFor(c, env, s, t, b) }

  lemma ClearedFacts(c: Params, env: Env, s: State, b: Bitmask, p: Peer)
    ensures p in ClearedOf(c, env, s, b) ==> p in BackoffsOf(s, b) && ClearedOf(c, env, s, b)[p] == BackoffsOf(s, b)[p]
    ensures p in BackoffsOf(s, b) && p !in ClearedOf(c, env, s, b) ==> Stale(c, BackoffsOf(s, b)[p], env.now)
  {
    if b in s.backoff && p in s.backoff[b] && !Stale(c, s.backoff[b][p], env.now) {
      assert p in Cleared(c, s.backoff[b], env.now);
    }
  }

  /** What the upkeep of all meshes does to one bitmask. */
  lemma MeshesUpkeptSafely(c: Params, env: Env, ticks: nat,
                           mesh: map<Bitmask, set<Peer>>, backoff: map<Bitmask, Backoffs>,
                           mesh': map<Bitmask, set<Peer>>, backoff': map<Bitmask, Backoffs>, b: Bitmask)
    requires Sane(c) && env.now > 0 && MeshesUpkept(c, env, ticks, mesh, backoff, mesh', backoff')
    ensures Extends(BackoffsIn(backoff, b), BackoffsIn(backoff', b))
    ensures forall p :: p in BackoffsIn(backoff', b) && p !in BackoffsIn(backoff, b) ==>
              BackoffsIn(backoff', b)[p] >= env.now + c.pruneBackoff
    ensures forall p :: p in PeersOf(mesh', b) - PeersOf(mesh, b) ==> p !in c.direct && p !in BackoffsIn(backoff, b)
    ensures forall p :: p in PeersOf(mesh, b) - PeersOf(mesh', b) ==>
              p in BackoffsIn(backoff', b) && BackoffsIn(backoff', b)[p] >= env.now + c.pruneBackoff
    ensures |PeersOf(mesh', b)| <= c.dhi + c.dout + c.opportunisticPeers
    ensures forall p :: p in PeersOf(mesh', b) ==> env.score(p) >= 0.0
  {
    if b in mesh {
      UpkeptIsSound(c, env, b, ticks, mesh[b], BackoffsIn(backoff, b), mesh'[b], BackoffsIn(backoff', b));
    }
  }

  /** What a heartbeat does to one bitmask. */
  lemma HeartbeatSafe(c: Params, env: Env, s: State, t: State, b: Bitmask)
    requires Sane(c) && Heartbeats(c, env, s, t) && env.now > 0
    ensures Extends(ClearedOf(c, env, s, b), BackoffsOf(t, b))
    ensures forall p :: p in BackoffsOf(t, b) && p !in ClearedOf(c, env, s, b) ==>
              BackoffsOf(t, b)[p] >= env.now + c.pruneBackoff
    ensures var joined := PeersOf(t.mesh, b) - PeersOf(s.mesh, b);
      forall p :: p in joined ==> p !in c.direct && p !in ClearedOf(c, env, s, b)
    ensures var left := PeersOf(s.mesh, b) - PeersOf(t.mesh, b);
      forall p :: p in left ==> KeptOut(t, b, p, env.now + c.pruneBackoff)
    ensures b in t.mesh ==> |t.mesh[b]| <= c.dhi + c.dout + c.opportunisticPeers
    ensures b in t.mesh ==> forall p :: p in t.mesh[b] ==> env.score(p) >= 0.0
  {
    var cleared := ClearBackoff(c, env.now, t.ticks, s.backoff);
    MeshesUpkeptSafely(c, env, t.ticks, s.mesh, cleared, t.mesh, t.backoff, b);
  }

  lemma HeartbeatSafeAt(c: Params, env: Env, s: State, peers: set<Peer>, b: Bitmask, peers': set<Peer>, bo': Backoffs)
    requires Sane(c) && Extends(ClearedOf(c, env, s, b), bo')
    requires forall p :: p in peers' - peers ==> p !in ClearedOf(c, env, s, b)
    requires forall p :: p in peers' ==> env.score(p) >= 0.0
    ensures SafeAt(c, env, peers, BackoffsOf(s, b), peers', bo')
  {
    var bo := BackoffsOf(s, b);
    forall p | p in peers' && p !in peers ensures !BackedOff(bo, p, env.now) {
      ClearedFacts(c, env, s, b, p);
    }
    forall p | p in bo && !Stale(c, bo[p], env.now) ensures p in bo' && bo'[p] >= bo[p] {
      ClearedFacts(c, env, s, b, p);
    }
  }

  lemma HeartbeatStepSafe(c: Params, env: Env, s: State, t: State, b: Bitmask)
    requires Sane(c) && Heartbeats(c, env, s, t) && env.now > 0
    ensures SafeFor(c, env, s, t, b)
  {
    HeartbeatSafe(c, env, s, t, b);
    HeartbeatSafeAt(c, env, s, PeersOf(s.mesh, b), b, PeersOf(t.mesh, b), BackoffsOf(t, b));
  }

  /** p is backed off from b until x at least. */
  predicate KeptOut(s: State, b: Bitmask, p: Peer, x: Time) { p in BackoffsOf(s, b) && BackoffsOf(s, b)[p] >= x }

  lemma BackoffAt(s: State, b: Bitmask, ps: set<Peer>, expire: Time, k: Bitmask)
    ensures WithBackoff(s, b, ps, expire).mesh == s.mesh
    ensures BackoffsOf(WithBackoff(s, b, ps, expire), k)
         == if k == b && ps != {} then Delayed(BackoffsOf(s, b), ps, expire) else BackoffsOf(s, k)
  {
  }

  /** Adding backoffs and taking peers out of a mesh is safe. */
  lemma DelayIsSafe(c: Params, env: Env, peers: set<Peer>, bo: Backoffs, peers': set<Peer>, ps: set<Peer>, expire: Time)
    requires expire > 0 && peers' <= peers
    ensures SafeAt(c, env, peers, bo, peers', Delayed(bo, ps, expire))
  {
    DelayedFacts(bo, ps, expire);
  }

  lemma GraftSafe(c: Params, env: Env, s: State, p: Peer, b: Bitmask, k: Bitmask)
    requires Sane(c) && env.now > 0
    ensures SafeFor(c, env, s, OnGraft(c, env, s, p, b), k)
    ensures PeersOf(s.mesh, k) <= PeersOf(OnGraft(c, env, s, p, b).mesh, k)
  {
    if Refuses(c, env, s, p, b) {
      BackoffAt(s, b, {p}, env.now + c.pruneBackoff, k);
      DelayIsSafe(c, env, PeersOf(s.mesh, b), BackoffsOf(s, b), PeersOf(s.mesh, b), {p}, env.now + c.pruneBackoff);
    }
  }

  /** A GRAFT for a mesh of ours that passes the filter ends with the peer in it, refused as direct, or refused
      with a backoff that runs for the whole interval from now; and only an outbound peer can take the mesh past dhi. */
  lemma GraftIsSettled(c: Params, env: Env, s: State, p: Peer, b: Bitmask)
    requires Sane(c) && env.now > 0 && b in s.mesh && env.passes(p, b)
    ensures var t := OnGraft(c, env, s, p, b);
      && (p in t.mesh[b] || p in c.direct || KeptOut(t, b, p, env.now + c.pruneBackoff))
      && (|t.mesh[b]| <= c.dhi || |t.mesh[b]| == |s.mesh[b]| || p in env.outbound)
  {
    if Refuses(c, env, s, p, b) {
      BackoffAt(s, b, {p}, env.now + c.pruneBackoff, b);
      DelayedFacts(BackoffsOf(s, b), {p}, env.now + c.pruneBackoff);
    }
  }

  function PruneInterval(c: Params, asked: Time): Time { if asked > 0 then asked else c.pruneBackoff }

  lemma PruneAt(c: Params, env: Env, s: State, p: Peer, b: Bitmask, asked: Time, k: Bitmask)
    ensures var t := OnPrune(c, env, s, p, b, asked);
      && PeersOf(t.mesh, k) == (if k == b then PeersOf(s.mesh, b) - {p} else PeersOf(s.mesh, k))
      && BackoffsOf(t, k) == if k == b && b in s.mesh
                             then Delayed(BackoffsOf(s, b), {p}, env.now + PruneInterval(c, asked))
                             else BackoffsOf(s, k)
  {
    if b in s.mesh {
      BackoffAt(s.(mesh := s.mesh[b := s.mesh[b] - {p}]), b, {p}, env.now + PruneInterval(c, asked), k);
    }
  }

  lemma PruneSafe(c: Params, env: Env, s: State, p: Peer, b: Bitmask, asked: Time, k: Bitmask)
    requires Sane(c) && env.now > 0
    ensures SafeFor(c, env, s, OnPrune(c, env, s, p, b, asked), k)
    ensures var t := OnPrune(c, env, s, p, b, asked);
      forall q :: q in PeersOf(s.mesh, k) - PeersOf(t.mesh, k) ==> KeptOut(t, k, q, env.now + PruneInterval(c, asked))
  {
    PruneAt(c, env, s, p, b, asked, k);
    DelayIsSafe(c, env, PeersOf(s.mesh, b), BackoffsOf(s, b), PeersOf(s.mesh, b) - {p}, {p},
                env.now + PruneInterval(c, asked));
    DelayedFacts(BackoffsOf(s, b), {p}, env.now + PruneInterval(c, asked));
  }

  lemma LeaveAt(c: Params, env: Env, s: State, b: Bitmask, k: Bitmask)
    ensures var t := OnLeave(c, env, s, b);
      && PeersOf(t.mesh, k) == (if k == b then {} else PeersOf(s.mesh, k))
      && BackoffsOf(t, k) == if k == b && PeersOf(s.mesh, b) != {}
                             then Delayed(BackoffsOf(s, b), s.mesh[b], env.now + c.unsubscribeBackoff)
                             else BackoffsOf(s, k)
  {
    if b in s.mesh {
      var rest := s.mesh - {b};
      assert k in rest <==> k in s.mesh && k != b;
      BackoffAt(s.(mesh := rest), b, s.mesh[b], env.now + c.unsubscribeBackoff, k);
    }
  }

  lemma LeaveSafe(c: Params, env: Env, s: State, b: Bitmask, k: Bitmask)
    requires Sane(c) && env.now > 0
    ensures SafeFor(c, env, s, OnLeave(c, env, s, b), k)
    ensures var t := OnLeave(c, env, s, b);
      forall q :: q in PeersOf(s.mesh, k) - PeersOf(t.mesh, k) ==> KeptOut(t, k, q, env.now + c.unsubscribeBackoff)
  {
    LeaveAt(c, env, s, b, k);
    var peers, bo, expire := PeersOf(s.mesh, b), BackoffsOf(s, b), env.now + c.unsubscribeBackoff;
    DelayIsSafe(c, env, peers, bo, {}, peers, expire);
    DelayedFacts(bo, peers, expire);
  }

  lemma JoinAt(env: Env, s: State, b: Bitmask, chosen: set<Peer>, k: Bitmask)
    ensures var t := OnJoin(env, s, b, chosen);
      && PeersOf(t.mesh, k) == (if k == b && b !in s.mesh then Promoted(env, s, b) + chosen else PeersOf(s.mesh, k))
      && t.backoff == s.backoff
  {
    if b !in s.fanout { assert Promoted(env, s, b) == {}; }
  }

  lemma JoinSafe(c: Params, env: Env, s: State, b: Bitmask, chosen: set<Peer>, k: Bitmask)
    requires JoinChoice(c, env, s, b, chosen)
    ensures SafeFor(c, env, s, OnJoin(env, s, b, chosen), k)
    ensures PeersOf(s.mesh, k) <= PeersOf(OnJoin(env, s, b, chosen).mesh, k)
  {
    JoinAt(env, s, b, chosen, k);
    assert BackoffsOf(OnJoin(env, s, b, chosen), k) == BackoffsOf(s, k);
    if b !in s.mesh { JoinersAreFree(c, env, s, b, chosen); }
  }

  lemma JoinersAreFree(c: Params, env: Env, s: State, b: Bitmask, chosen: set<Peer>)
    requires JoinChoice(c, env, s, b, chosen) && b !in s.mesh
    ensures forall p :: p in Promoted(env, s, b) + chosen ==> p !in BackoffsOf(s, b) && env.score(p) >= 0.0
  {
  }

  lemma StepSafeFor(c: Params, s: State, e: Event, k: Bitmask)
    requires Sane(c) && Enabled(c, s, e)
    ensures SafeFor(c, e.env, s, Step(c, s, e), k)
  {
    match e
    case Graft(env, p, b) => GraftSafe(c, env, s, p, b, k);
    case Prune(env, p, b, asked) => PruneSafe(c, env, s, p, b, asked, k);
    case Join(env, b, chosen) => JoinSafe(c, env, s, b, chosen, k);
    case Leave(env, b) => LeaveSafe(c, env, s, b, k);
    case Publish(_, _, _) =>
    case RemovePeer(_, _) =>
    case Heartbeat(env, next) => HeartbeatStepSafe(c, env, s, next, k);
  }

  lemma StepSafe(c: Params, s: State, e: Event)
    requires Sane(c) && Enabled(c, s, e)
    ensures Safe(c, e.env, s, Step(c, s, e))
  {
    forall k ensures SafeFor(c, e.env, s, Step(c, s, e), k) {
      StepSafeFor(c, s, e, k);
    }
  }

  /** Along every run from the start: the invariant holds in every state, and every further step lets in
      only peers that are not backed off and keeps the running backoffs. */
  lemma RouterIsSafe(c: Params, events: seq<Event>, s: State, e: Event)
    requires Sane(c) && Runs(c, Init, events, s) && Enabled(c, s, e)
    ensures Inv(c, s) && Inv(c, Step(c, s, e))
    ensures Safe(c, e.env, s, Step(c, s, e))
  {
    RunInv(c, Init, events, s);
    StepInv(c, s, e);
    StepSafe(c, s, e);
  }

  lemma StaysOutStep(c: Params, env: Env, s: State, t: State, b: Bitmask, p: Peer, x: Time)
    requires c.clearSlack >= 0 && Safe(c, env, s, t) && env.now < x
    requires p !in PeersOf(s.mesh, b) && KeptOut(s, b, p, x)
    ensures p !in PeersOf(t.mesh, b) && KeptOut(t, b, p, x)
  {
    assert SafeFor(c, env, s, t, b);
  }

  /** A peer with a backoff until x stays out of the mesh in every run that does not reach x. */
  lemma {:induction false} StaysOut(c: Params, s: State, events: seq<Event>, t: State, b: Bitmask, p: Peer, x: Time)
    requires Sane(c) && Runs(c, s, events, t)
    requires p !in PeersOf(s.mesh, b) && KeptOut(s, b, p, x)
    requires forall i :: 0 <= i < |events| ==> events[i].env.now < x
    ensures p !in PeersOf(t.mesh, b) && KeptOut(t, b, p, x)
    decreases |events|
  {
    if events != [] {
      var e, u := events[0], Step(c, s, events[0]);
      StepSafe(c, s, e);
      StaysOutStep(c, e.env, s, u, b, p, x);
      StaysOut(c, u, events[1..], t, b, p, x);
    }
  }

  /** How long a step that removes a peer from a mesh keeps it out. */
  function Interval(c: Params, e: Event): Time {
    match e
    case Prune(_, _, _, asked) => PruneInterval(c, asked)
    case Leave(_, _) => c.unsubscribeBackoff
    case _ => c.pruneBackoff
  }

  lemma RemovedIsBackedOff(c: Params, s: State, e: Event, b: Bitmask, p: Peer)
    requires Sane(c) && Enabled(c, s, e) && !e.RemovePeer?
    requires p in PeersOf(s.mesh, b) && p !in PeersOf(Step(c, s, e).mesh, b)
    ensures KeptOut(Step(c, s, e), b, p, e.env.now + Interval(c, e))
  {
    assert p in PeersOf(s.mesh, b) - PeersOf(Step(c, s, e).mesh, b);
    match e
    case Prune(env, q, k, asked) => PruneSafe(c, env, s, q, k, asked, b);
    case Leave(env, k) => LeaveSafe(c, env, s, k, b);
    case Heartbeat(env, next) => HeartbeatSafe(c, env, s, next, b);
    case Graft(env, q, k) => GraftSafe(c, env, s, q, k, b);
    case Join(env, k, chosen) => JoinSafe(c, env, s, k, chosen, b);
    case Publish(_, _, _) =>
  }

  /** Whoever is pruned, by us or by themselves, or is left behind when we leave, is not in the mesh again
      before the backoff ran out, whatever happens in between. */
  lemma RemovedStaysOut(c: Params, s: State, e: Event, events: seq<Event>, t: State, b: Bitmask, p: Peer)
    requires Sane(c) && Enabled(c, s, e) && !e.RemovePeer? && Runs(c, Step(c, s, e), events, t)
    requires p in PeersOf(s.mesh, b) && p !in PeersOf(Step(c, s, e).mesh, b)
    requires forall i :: 0 <= i < |events| ==> events[i].env.now < e.env.now + Interval(c, e)
    ensures p !in PeersOf(t.mesh, b)
  {
    RemovedIsBackedOff(c, s, e, b, p);
    StaysOut(c, Step(c, s, e), events, t, b, p, e.env.now + Interval(c, e));
  }

  /** A disconnection leaves no backoff: the peer can be back with its next GRAFT. */
  lemma DisconnectedMayReturn(c: Params, env: Env, s: State, b: Bitmask, p: Peer)
    requires Sane(c) && Inv(c, s) && env.now > 0
    requires b in s.mesh && p in s.mesh[b] && p !in BackoffsOf(s, b) && |s.mesh[b]| <= c.dhi && env.score(p) >= 0.0
    requires env.passes(p, b)
    ensures var t := OnRemovePeer(s, p);
      var u := OnGraft(c, env, t, p, b);
      && Runs(c, s, [RemovePeer(env, p), Graft(env, p, b)], u)
      && p !in PeersOf(t.mesh, b) && p in PeersOf(u.mesh, b)
  {
    var t := OnRemovePeer(s, p);
    var events := [RemovePeer(env, p), Graft(env, p, b)];
    assert t.mesh[b] == s.mesh[b] - {p} && |t.mesh[b]| == |s.mesh[b]| - 1;
    assert Admits(c, env, t, p, b);
    assert events[1..] == [Graft(env, p, b)];
    assert events[1..][1..] == [];
    assert Runs(c, t, events[1..], OnGraft(c, env, t, p, b));
  }

  /** A disconnection takes the peer out of every mesh and fanout, and changes nothing else. */
  lemma RemovedEverywhere(s: State, p: Peer, b: Bitmask)
    ensures var t := OnRemovePeer(s, p);
      && (forall q :: q in PeersOf(t.mesh, b) <==> q in PeersOf(s.mesh, b) && q != p)
      && (forall q :: q in PeersOf(t.fanout, b) <==> q in PeersOf(s.fanout, b) && q != p)
      && t.mesh.Keys == s.mesh.Keys && t.fanout.Keys == s.fanout.Keys
      && t.backoff == s.backoff && t.lastpub == s.lastpub && t.ticks == s.ticks
  {
  }

  /** The steps that can let p into the mesh of b. */
  predicate LetsIn(e: Event, p: Peer, b: Bitmask) {
    match e
    case Graft(_, q, k) => q == p && k == b
    case Join(_, k, _) => k == b
    case Heartbeat(_, _) => true
    case _ => false
  }

  lemma EntersOnlyIfLetIn(c: Params, s: State, e: Event, p: Peer, b: Bitmask)
    requires Sane(c) && Enabled(c, s, e) && p !in PeersOf(s.mesh, b) && p in PeersOf(Step(c, s, e).mesh, b)
    ensures LetsIn(e, p, b) && !BackedOff(BackoffsOf(s, b), p, e.env.now) && e.env.score(p) >= 0.0
  {
    StepSafeFor(c, s, e, b);
    match e
    case Prune(env, q, k, asked) => PruneAt(c, env, s, q, k, asked, b);
    case Leave(env, k) => LeaveAt(c, env, s, k, b);
    case Join(env, k, chosen) => JoinAt(env, s, k, chosen, b);
    case RemovePeer(_, q) => RemovedEverywhere(s, q, b);
    case _ =>
  }

  /** Some step of the run lets p into the mesh of b: p is out before it, and may enter. */
  ghost predicate LetInDuring(c: Params, s: State, events: seq<Event>, p: Peer, b: Bitmask)
    requires Sane(c)
    decreases |events|
  {
    events != [] && Enabled(c, s, events[0]) &&
      var e, t := events[0], Step(c, s, events[0]);
      || (&& p !in PeersOf(s.mesh, b) && p in PeersOf(t.mesh, b)
          && LetsIn(e, p, b) && !BackedOff(BackoffsOf(s, b), p, e.env.now) && e.env.score(p) >= 0.0)
      || LetInDuring(c, t, events[1..], p, b)
  }

  lemma {:induction false} InOnlyIfLetIn(c: Params, s: State, events: seq<Event>, t: State, p: Peer, b: Bitmask)
    requires Sane(c) && Runs(c, s, events, t) && p !in PeersOf(s.mesh, b) && p in PeersOf(t.mesh, b)
    ensures LetInDuring(c, s, events, p, b)
    decreases |events|
  {
    if events != [] {
      var u := Step(c, s, events[0]);
      if p in PeersOf(u.mesh, b) {
        EntersOnlyIfLetIn(c, s, events[0], p, b);
      } else {
        InOnlyIfLetIn(c, u, events[1..], t, p, b);
      }
    }
  }

  /** A disconnected peer is in no mesh until a later GRAFT of its own, a Join or a heartbeat lets it in. */
  lemma DisconnectedUntilLetIn(c: Params, s: State, env: Env, p: Peer, events: seq<Event>, t: State, b: Bitmask)
    requires Sane(c) && env.now > 0 && Runs(c, Step(c, s, RemovePeer(env, p)), events, t)
    ensures p in PeersOf(t.mesh, b) ==> LetInDuring(c, Step(c, s, RemovePeer(env, p)), events, p, b)
  {
    RemovedEverywhere(s, p, b);
    if p in PeersOf(t.mesh, b) { InOnlyIfLetIn(c, Step(c, s, RemovePeer(env, p)), events, t, p, b); }
  }

  /** Every 15th heartbeat leaves no backoff behind that has been over for longer than the slack. */
  lemma HeartbeatForgets(c: Params, env: Env, s: State, t: State, b: Bitmask, p: Peer)
    requires Sane(c) && Heartbeats(c, env, s, t) && env.now > 0 && t.ticks % 15 == 0 && p in BackoffsOf(t, b)
    ensures !Stale(c, BackoffsOf(t, b)[p], env.now)
  {
    HeartbeatSafe(c, env, s, t, b);
    if p in ClearedOf(c, env, s, b) {
      assert BackoffsOf(t, b)[p] >= ClearedOf(c, env, s, b)[p];
      assert p in Cleared(c, BackoffsOf(s, b), env.now);
    }
  }

  /** Joining: the fit part of the fanout is in the new mesh, which has at least D peers unless all that
      were offered are in it; everybody in it may be; and the fanout is gone. */
  lemma JoinFills(c: Params, env: Env, s: State, b: Bitmask, chosen: set<Peer>)
    requires Sane(c) && Inv(c, s) && JoinChoice(c, env, s, b, chosen) && b !in s.mesh
    ensures var t := OnJoin(env, s, b, chosen);
      && b in t.mesh && b !in t.fanout && Promoted(env, s, b) <= t.mesh[b]
      && (forall p :: p in t.mesh[b] ==> p !in c.direct && p !in BackoffsOf(s, b) && env.score(p) >= 0.0)
      && (|t.mesh[b]| >= c.d
          || t.mesh[b] == Promoted(env, s, b) + Graftable(c, env, b, Promoted(env, s, b), BackoffsOf(s, b)))
      && (|Promoted(env, s, b)| < c.d ==> |t.mesh[b]| <= c.d)
  {
    JoinAt(env, s, b, chosen, b);
    JoinersAreFree(c, env, s, b, chosen);
    var kept := Promoted(env, s, b);
    assert kept <= PeersOf(s.fanout, b);
    assert kept !! chosen;
    assert |kept + chosen| == |kept| + |chosen|;
  }

  /** What a heartbeat leaves: no mesh peer scores below zero, every mesh is bounded, and no fanout is
      left that was not published to for its time to live. */
  lemma HeartbeatLeaves(c: Params, events: seq<Event>, s: State, env: Env, t: State, b: Bitmask)
    requires Sane(c) && Runs(c, Init, events, s) && Heartbeats(c, env, s, t) && env.now > 0
    ensures b in t.mesh ==>
      && (forall p :: p in t.mesh[b] ==> env.score(p) >= 0.0)
      && |t.mesh[b]| <= c.dhi + c.dout + c.opportunisticPeers
    ensures b in t.fanout ==>
      && b in t.lastpub && t.lastpub[b] + c.fanoutTTL >= env.now
      && (forall p :: p in t.fanout[b] ==> env.score(p) >= env.publishThreshold)
  {
    RunInv(c, Init, events, s);
    HeartbeatSafe(c, env, s, t, b);
    if b in t.fanout { HeartbeatFanout(c, env, s, t, b); }
  }
}
