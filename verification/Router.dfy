/** The BlossomSub router's overlay state: meshes, fanouts, prune backoffs, and the steps of the
    event loop that change them. */
module Router {
  import opened Peers
  import opened PeerSelection
  import MeshTrim

  type Time = int
  type Backoffs = map<Peer, Time>

  /** clearSlack is twice the default heartbeat interval. */
  datatype Params = Params(d: nat, dlo: nat, dhi: nat, dscore: nat, dout: nat,
                           pruneBackoff: Time, unsubscribeBackoff: Time, fanoutTTL: Time, clearSlack: Time,
                           opportunisticTicks: nat, opportunisticPeers: nat, direct: set<Peer>)

  predicate Sane(c: Params) {
    && c.dout <= c.d && c.dlo <= c.d <= c.dhi && c.opportunisticPeers > 0 && c.opportunisticTicks > 0
    && c.pruneBackoff >= 0 && c.unsubscribeBackoff >= 0 && c.clearSlack >= 0
  }

  /** What a step sees of the rest of the node: the clock, the peer scores, the peers of each slice of
      a bitmask that speak the mesh protocol and pass the peer filter, the peers subscribed to a bitmask if
      it is known, the peer filter, and which connections are outbound. A time of 0 is before any clock
      reading. */
  datatype Env = Env(now: Time, score: Peer -> real, slices: Bitmask -> seq<Slice>, members: Bitmask -> Slice,
                     passes: (Peer, Bitmask) -> bool, outbound: set<Peer>,
                     publishThreshold: real, opportunisticThreshold: real)

  function MembersOf(env: Env, b: Bitmask): set<Peer> { if env.members(b).Known? then env.members(b).peers else {} }

  datatype State = State(mesh: map<Bitmask, set<Peer>>, fanout: map<Bitmask, set<Peer>>,
                         lastpub: map<Bitmask, Time>, backoff: map<Bitmask, Backoffs>, ticks: nat)

  const Init := State(map[], map[], map[], map[], 0)

  // ---------------------------------------------------------------------------------
  // Backoffs and peer selection
  // ---------------------------------------------------------------------------------

  function BackoffsIn(m: map<Bitmask, Backoffs>, b: Bitmask): Backoffs { if b in m then m[b] else map[] }

  function BackoffsOf(s: State, b: Bitmask): Backoffs { BackoffsIn(s.backoff, b) }

  function ExpiryOf(bo: Backoffs, p: Peer): Time { if p in bo then bo[p] else 0 }

  /** doAddBackoff for several peers: an expiry only moves forward. */
  function Delayed(bo: Backoffs, ps: set<Peer>, expire: Time): Backoffs {
    map p | p in bo.Keys + (set q | q in ps && ExpiryOf(bo, q) < expire)
      :: if p in ps && ExpiryOf(bo, p) < expire then expire else bo[p]
  }

  function WithBackoff(s: State, b: Bitmask, ps: set<Peer>, expire: Time): State {
    if ps == {} then s else s.(backoff := s.backoff[b := Delayed(BackoffsOf(s, b), ps, expire)])
  }

  function PeersOf(m: map<Bitmask, set<Peer>>, b: Bitmask): set<Peer> { if b in m then m[b] else {} }

  /** The peers that may be grafted: not in the mesh, not direct, not backed off, score not negative. */
  function Acceptable(c: Params, env: Env, b: Bitmask, peers: set<Peer>, bo: Backoffs): set<Peer> {
    set p | p in Everyone(env.slices(b)) && p !in peers && p !in c.direct && p !in bo && env.score(p) >= 0.0
  }

  function Graftable(c: Params, env: Env, b: Bitmask, peers: set<Peer>, bo: Backoffs): set<Peer> {
    Offered(env.slices(b), Acceptable(c, env, b, peers, bo))
  }

  // ---------------------------------------------------------------------------------
  // GRAFT and PRUNE from a peer
  // ---------------------------------------------------------------------------------

  predicate BackedOff(bo: Backoffs, p: Peer, now: Time) { p in bo && now < bo[p] }

  /** A GRAFT that is considered: the peer passes the filter, and we have the mesh without the peer. */
  predicate Considers(env: Env, s: State, p: Peer, b: Bitmask) {
    env.passes(p, b) && b in s.mesh && p !in s.mesh[b]
  }

  /** A GRAFT is admitted. */
  predicate Admits(c: Params, env: Env, s: State, p: Peer, b: Bitmask) {
    && Considers(env, s, p, b) && p !in c.direct
    && !BackedOff(BackoffsOf(s, b), p, env.now)
    && env.score(p) >= 0.0
    && (|s.mesh[b]| < c.dhi || p in env.outbound)
  }

  /** A GRAFT that is refused with a fresh backoff. */
  predicate Refuses(c: Params, env: Env, s: State, p: Peer, b: Bitmask) {
    Considers(env, s, p, b) && p !in c.direct && !Admits(c, env, s, p, b)
  }

  function OnGraft(c: Params, env: Env, s: State, p: Peer, b: Bitmask): State {
    if Admits(c, env, s, p, b) then s.(mesh := s.mesh[b := s.mesh[b] + {p}])
    else if Refuses(c, env, s, p, b) then WithBackoff(s, b, {p}, env.now + c.pruneBackoff)
    else s
  }

  /** The peer may name its own backoff; otherwise ours applies. */
  function OnPrune(c: Params, env: Env, s: State, p: Peer, b: Bitmask, asked: Time): State {
    if b !in s.mesh then s else
    var t := s.(mesh := s.mesh[b := s.mesh[b] - {p}]);
    WithBackoff(t, b, {p}, env.now + (if asked > 0 then asked else c.pruneBackoff))
  }

  // ---------------------------------------------------------------------------------
  // Joining, leaving, publishing, losing a peer
  // ---------------------------------------------------------------------------------

  /** The fanout peers that may enter the mesh. */
  function Promoted(env: Env, s: State, b: Bitmask): set<Peer> {
    set p | p in PeersOf(s.fanout, b) && env.score(p) >= 0.0 && p !in BackoffsOf(s, b)
  }

  predicate JoinChoice(c: Params, env: Env, s: State, b: Bitmask, chosen: set<Peer>) {
    var kept := Promoted(env, s, b);
    b !in s.mesh ==>
      if |kept| < c.d || b !in s.fanout
      then Selection(Graftable(c, env, b, kept, BackoffsOf(s, b)), c.d - |kept|, chosen)
      else chosen == {}
  }

  function OnJoin(env: Env, s: State, b: Bitmask, chosen: set<Peer>): State {
    if b in s.mesh then s
    else if b in s.fanout then
      s.(mesh := s.mesh[b := Promoted(env, s, b) + chosen], fanout := s.fanout - {b}, lastpub := s.lastpub - {b})
    else s.(mesh := s.mesh[b := chosen])
  }

  function OnLeave(c: Params, env: Env, s: State, b: Bitmask): State {
    if b !in s.mesh then s else
    WithBackoff(s.(mesh := s.mesh - {b}), b, s.mesh[b], env.now + c.unsubscribeBackoff)
  }

  function Worthy(c: Params, env: Env, b: Bitmask, peers: set<Peer>): set<Peer> {
    set p | p in Everyone(env.slices(b)) && p !in peers && p !in c.direct && env.score(p) >= env.publishThreshold
  }

  function Publishable(c: Params, env: Env, b: Bitmask, peers: set<Peer>): set<Peer> {
    Offered(env.slices(b), Worthy(c, env, b, peers))
  }

  predicate PublishChoice(c: Params, env: Env, s: State, b: Bitmask, chosen: set<Peer>) {
    env.members(b).Known? && b !in s.mesh && PeersOf(s.fanout, b) == {} ==>
      Selection(Publishable(c, env, b, {}), c.d, chosen)
  }

  /** Publishing to one slice of a message's bitmask, outside of flood publishing; nothing for a slice that
      nobody is known to subscribe to. */
  function OnPublish(env: Env, s: State, b: Bitmask, chosen: set<Peer>): State {
    if env.members(b).Unknown? || b in s.mesh then s else
    var t := s.(lastpub := s.lastpub[b := env.now]);
    if PeersOf(s.fanout, b) == {} && chosen != {} then t.(fanout := s.fanout[b := chosen]) else t
  }

  function Without(m: map<Bitmask, set<Peer>>, p: Peer): map<Bitmask, set<Peer>> {
    map b | b in m :: m[b] - {p}
  }

  function OnRemovePeer(s: State, p: Peer): State {
    s.(mesh := Without(s.mesh, p), fanout := Without(s.fanout, p))
  }

  // ---------------------------------------------------------------------------------
  // The heartbeat
  // ---------------------------------------------------------------------------------

  predicate Stale(c: Params, expire: Time, now: Time) { expire + c.clearSlack < now }

  function Cleared(c: Params, bo: Backoffs, now: Time): Backoffs {
    map p | p in bo && !Stale(c, bo[p], now) :: bo[p]
  }

  /** Every 15th heartbeat drops the backoffs that expired long enough ago. */
  function ClearBackoff(c: Params, now: Time, ticks: nat, backoff: map<Bitmask, Backoffs>): map<Bitmask, Backoffs> {
    if ticks % 15 != 0 then backoff else
    map b | b in backoff && Cleared(c, backoff[b], now) != map[] :: Cleared(c, backoff[b], now)
  }

  function ClearedOf(c: Params, env: Env, s: State, b: Bitmask): Backoffs {
    BackoffsIn(ClearBackoff(c, env.now, s.ticks + 1, s.backoff), b)
  }

  /** The random choices of mesh maintenance for one bitmask. `list` is the mesh as a list, the dscore
      best first; `sorted` is the mesh by ascending score. */
  datatype Choice = Choice(more: set<Peer>, list: seq<Peer>, outs: set<Peer>, sorted: seq<Peer>, better: set<Peer>)

  /** A mesh in maintenance, with what was grafted and pruned so far in this heartbeat. */
  datatype Upkeep = Upkeep(peers: set<Peer>, bo: Backoffs, grafted: set<Peer>, pruned: set<Peer>)

  function PruneAll(c: Params, env: Env, u: Upkeep, ps: set<Peer>): Upkeep {
    Upkeep(u.peers - ps, Delayed(u.bo, ps, env.now + c.pruneBackoff), u.grafted, u.pruned + ps)
  }

  function GraftAll(u: Upkeep, ps: set<Peer>): Upkeep {
    u.(peers := u.peers + ps, grafted := u.grafted + ps)
  }

  function Negative(env: Env, peers: set<Peer>): set<Peer> { set p | p in peers && env.score(p) < 0.0 }

  function DropNegative(c: Params, env: Env, u: Upkeep): Upkeep { PruneAll(c, env, u, Negative(env, u.peers)) }

  predicate FillChoice(c: Params, env: Env, b: Bitmask, u: Upkeep, more: set<Peer>) {
    if |u.peers| < c.dlo then Selection(Graftable(c, env, b, u.peers, u.bo), c.d - |u.peers|, more) else more == {}
  }

  predicate Lists(peers: set<Peer>, list: seq<Peer>) {
    |list| == |peers| && Distinct(list) && Elements(list) == peers
  }

  /** The first n are the best-scoring ones, in order. */
  predicate BestFirst(env: Env, list: seq<Peer>, n: nat) {
    forall i, j :: 0 <= i < j < |list| && i < n ==> env.score(list[i]) >= env.score(list[j])
  }

  predicate Ascending(env: Env, list: seq<Peer>) {
    forall i, j :: 0 <= i < j < |list| ==> env.score(list[i]) <= env.score(list[j])
  }

  predicate TrimChoice(c: Params, env: Env, u: Upkeep, list: seq<Peer>) {
    |u.peers| > c.dhi ==> Lists(u.peers, list) && BestFirst(env, list, c.dscore)
  }

  /** With sane parameters a list to trim is never shorter than d. */
  function Survivors(c: Params, env: Env, list: seq<Peer>): set<Peer> {
    Elements(if c.d <= |list| then MeshTrim.Kept(list, c.d, c.dout, env.outbound) else list)
  }

  function TrimExcess(c: Params, env: Env, u: Upkeep, list: seq<Peer>): Upkeep {
    if |u.peers| > c.dhi then PruneAll(c, env, u, u.peers - Survivors(c, env, list)) else u
  }

  predicate OutChoice(c: Params, env: Env, b: Bitmask, u: Upkeep, outs: set<Peer>) {
    var have := |u.peers * env.outbound|;
    if |u.peers| >= c.dlo && have < c.dout
    then Selection(Offered(env.slices(b), Acceptable(c, env, b, u.peers, u.bo) * env.outbound), c.dout - have, outs)
    else outs == {}
  }

  function MedianScore(env: Env, u: Upkeep, sorted: seq<Peer>): real
    requires |u.peers| / 2 < |sorted|
  {
    env.score(sorted[|u.peers| / 2])
  }

  function Improving(c: Params, env: Env, b: Bitmask, u: Upkeep, median: real): set<Peer> {
    set p | p in Everyone(env.slices(b)) && p !in u.peers && p !in c.direct && p !in u.bo && env.score(p) > median
  }

  predicate BetterChoice(c: Params, env: Env, b: Bitmask, u: Upkeep, ticks: nat, sorted: seq<Peer>, better: set<Peer>)
    requires c.opportunisticTicks > 0
  {
    if ticks % c.opportunisticTicks == 0 && |u.peers| > 1 then
      && Lists(u.peers, sorted) && Ascending(env, sorted)
      && var median := MedianScore(env, u, sorted);
         if median < env.opportunisticThreshold
         then Selection(Offered(env.slices(b), Improving(c, env, b, u, median)), c.opportunisticPeers, better)
         else better == {}
    else better == {}
  }

  /** The mesh of one bitmask after each stage of its maintenance. */
  function Filled(c: Params, env: Env, u: Upkeep, ch: Choice): Upkeep { GraftAll(DropNegative(c, env, u), ch.more) }

  function Trimmed(c: Params, env: Env, u: Upkeep, ch: Choice): Upkeep {
    TrimExcess(c, env, Filled(c, env, u, ch), ch.list)
  }

  predicate ValidChoice(c: Params, env: Env, b: Bitmask, ticks: nat, u: Upkeep, ch: Choice)
    requires Sane(c)
  {
    && FillChoice(c, env, b, DropNegative(c, env, u), ch.more)
    && TrimChoice(c, env, Filled(c, env, u, ch), ch.list)
    && OutChoice(c, env, b, Trimmed(c, env, u, ch), ch.outs)
    && BetterChoice(c, env, b, GraftAll(Trimmed(c, env, u, ch), ch.outs), ticks, ch.sorted, ch.better)
  }

  function Maintained(c: Params, env: Env, u: Upkeep, ch: Choice): Upkeep {
    GraftAll(GraftAll(Trimmed(c, env, u, ch), ch.outs), ch.better)
  }

  /** The mesh and the backoffs of b can become these in a heartbeat. */
  ghost predicate Upkept(c: Params, env: Env, b: Bitmask, ticks: nat, peers: set<Peer>, bo: Backoffs,
                         peers': set<Peer>, bo': Backoffs)
    requires Sane(c)
  {
    var u := Upkeep(peers, bo, {}, {});
    exists ch :: ValidChoice(c, env, b, ticks, u, ch)
              && Maintained(c, env, u, ch).peers == peers' && Maintained(c, env, u, ch).bo == bo'
  }

  /** Every bitmask has its own mesh and backoffs. */
  ghost predicate MeshesUpkept(c: Params, env: Env, ticks: nat,
                               mesh: map<Bitmask, set<Peer>>, backoff: map<Bitmask, Backoffs>,
                               mesh': map<Bitmask, set<Peer>>, backoff': map<Bitmask, Backoffs>)
    requires Sane(c)
  {
    && mesh'.Keys == mesh.Keys
    && (forall b :: b in mesh ==>
          Upkept(c, env, b, ticks, mesh[b], BackoffsIn(backoff, b), mesh'[b], BackoffsIn(backoff', b)))
    && (forall b :: b !in mesh ==> BackoffsIn(backoff', b) == BackoffsIn(backoff, b))
  }

  predicate Idle(c: Params, now: Time, lastpub: map<Bitmask, Time>, b: Bitmask) {
    b in lastpub && lastpub[b] + c.fanoutTTL < now
  }

  function FanoutKept(env: Env, b: Bitmask, peers: set<Peer>): set<Peer> {
    set p | p in peers && p in MembersOf(env, b) && env.score(p) >= env.publishThreshold
  }

  predicate FanoutChoice(c: Params, env: Env, b: Bitmask, kept: set<Peer>, more: set<Peer>) {
    if |kept| < c.d then Selection(Publishable(c, env, b, kept), c.d - |kept|, more) else more == {}
  }

  ghost predicate FanoutUpkept(c: Params, env: Env, b: Bitmask, peers: set<Peer>, peers': set<Peer>) {
    exists more ::
      FanoutChoice(c, env, b, FanoutKept(env, b, peers), more) && peers' == FanoutKept(env, b, peers) + more
  }

  /** Fanouts that were not published to for their time to live go; the others are kept up. */
  ghost predicate FanoutsUpkept(c: Params, env: Env, lastpub: map<Bitmask, Time>, fanout: map<Bitmask, set<Peer>>,
                                fanout': map<Bitmask, set<Peer>>)
  {
    && (forall b :: b in fanout' <==> b in fanout && !Idle(c, env.now, lastpub, b))
    && (forall b :: b in fanout' ==> FanoutUpkept(c, env, b, fanout[b], fanout'[b]))
  }

  /** A heartbeat can take s to t. */
  ghost predicate Heartbeats(c: Params, env: Env, s: State, t: State)
    requires Sane(c)
  {
    && t.ticks == s.ticks + 1
    && MeshesUpkept(c, env, t.ticks, s.mesh, ClearBackoff(c, env.now, t.ticks, s.backoff), t.mesh, t.backoff)
    && t.lastpub == (map b | b in s.lastpub && !Idle(c, env.now, s.lastpub, b) :: s.lastpub[b])
    && FanoutsUpkept(c, env, s.lastpub, s.fanout, t.fanout)
  }
}
