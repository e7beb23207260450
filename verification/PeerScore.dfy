/** The peer score: what it sums up, and what disconnecting does to it. */
module PeerScore {
  import opened Peers

  type Time = int

  datatype Ip = Ip(text: string)

  datatype BitmaskParams = BitmaskParams(
    weight: real, timeInMeshWeight: real, timeInMeshQuantum: int, timeInMeshCap: real,
    firstWeight: real, firstCap: real, firstDecay: real,
    meshWeight: real, meshCap: real, meshThreshold: real, meshDecay: real, meshActivation: Time,
    failureWeight: real, failureDecay: real, invalidWeight: real, invalidDecay: real)

  datatype Params = Params(
    bitmasks: map<Bitmask, BitmaskParams>, bitmaskCap: real, appWeight: real,
    ipWeight: real, ipThreshold: int, whitelist: set<Ip>,
    penaltyWeight: real, penaltyThreshold: real, penaltyDecay: real, decayToZero: real, retain: Time)

  /** What the validation of the parameters of a bitmask demands, as far as the score depends on it. */
  predicate ValidBitmask(bp: BitmaskParams) {
    && bp.weight >= 0.0
    && bp.timeInMeshQuantum != 0 && bp.timeInMeshWeight >= 0.0
    && (bp.timeInMeshWeight != 0.0 ==> bp.timeInMeshQuantum > 0 && bp.timeInMeshCap > 0.0)
    && bp.firstWeight >= 0.0
    && (bp.firstWeight != 0.0 ==> bp.firstCap > 0.0 && 0.0 < bp.firstDecay < 1.0)
    && (bp.meshWeight != 0.0 ==> bp.meshCap > 0.0 && 0.0 < bp.meshDecay < 1.0)
    && bp.meshWeight <= 0.0 && bp.failureWeight <= 0.0 && bp.invalidWeight <= 0.0
  }

  predicate ValidParams(ps: Params) {
    && (forall b :: b in ps.bitmasks ==> ValidBitmask(ps.bitmasks[b]))
    && ps.bitmaskCap >= 0.0 && ps.ipWeight <= 0.0 && ps.penaltyWeight <= 0.0 && ps.penaltyThreshold >= 0.0
    && 0.0 < ps.decayToZero < 1.0
  }

  datatype BitmaskStats = BitmaskStats(inMesh: bool, graftTime: Time, meshTime: Time, first: real, mesh: real,
                                       active: bool, failure: real, invalid: real)

  const NoStats := BitmaskStats(false, 0, 0, 0.0, 0.0, false, 0.0, 0.0)

  datatype PeerStats = PeerStats(connected: bool, expire: Time, bitmasks: map<Bitmask, BitmaskStats>, ips: seq<Ip>,
                                 penalty: real)

  datatype State = State(stats: map<Peer, PeerStats>, peerIPs: map<Ip, set<Peer>>)

  // ---------------------------------------------------------------------------------
  // The score
  // ---------------------------------------------------------------------------------

  function Abs(a: int): nat { if a >= 0 then a else -a }

  /** Division that rounds toward zero: how often b can be taken away. */
  function Quotient(a: int, b: int): real
    requires b != 0
    decreases Abs(a)
  {
    if Abs(a) < Abs(b) then 0.0
    else Quotient(if a >= 0 then a - Abs(b) else a + Abs(b), b) + if (a >= 0) == (b > 0) then 1.0 else -1.0
  }

  function Least(a: real, b: real): real { if a <= b then a else b }

  function Square(a: real): real { a * a }

  /** P1: the time in the mesh. */
  function TimeInMesh(bp: BitmaskParams, ts: BitmaskStats): real {
    if ts.inMesh && bp.timeInMeshQuantum != 0
    then Least(Quotient(ts.meshTime, bp.timeInMeshQuantum), bp.timeInMeshCap) else 0.0
  }

  /** How far the deliveries in the mesh fall short, squared. */
  function Deficit(bp: BitmaskParams, ts: BitmaskStats): real {
    if ts.active && ts.mesh < bp.meshThreshold then Square(bp.meshThreshold - ts.mesh) else 0.0
  }

  function BitmaskScore(bp: BitmaskParams, ts: BitmaskStats): real {
    TimeInMesh(bp, ts) * bp.timeInMeshWeight + ts.first * bp.firstWeight + Deficit(bp, ts) * bp.meshWeight
    + ts.failure * bp.failureWeight + Square(ts.invalid) * bp.invalidWeight
  }

  function Weighed(bp: BitmaskParams, ts: BitmaskStats): real { BitmaskScore(bp, ts) * bp.weight }

  /** What one bitmask adds; bitmasks without parameters are not scored. */
  function Part(ps: Params, m: map<Bitmask, BitmaskStats>, b: Bitmask): real {
    if b in m && b in ps.bitmasks then Weighed(ps.bitmasks[b], m[b]) else 0.0
  }

  ghost function Total(ps: Params, m: map<Bitmask, BitmaskStats>, bs: set<Bitmask>): real {
    if bs == {} then 0.0 else
    var b :| b in bs;
    Part(ps, m, b) + Total(ps, m, bs - {b})
  }

  function Capped(cap: real, total: real): real { if cap > 0.0 && total > cap then cap else total }

  function At(index: map<Ip, set<Peer>>, ip: Ip): set<Peer> { if ip in index then index[ip] else {} }

  function PeersAt(s: State, ip: Ip): set<Peer> { At(s.peerIPs, ip) }

  /** P6: the squared surplus of peers at each of the addresses. */
  function Colocation(ps: Params, s: State, ips: seq<Ip>): real {
    if ips == [] then 0.0
    else
      var ip := ips[|ips| - 1];
      var surplus := |PeersAt(s, ip)| - ps.ipThreshold;
      Colocation(ps, s, ips[..|ips| - 1]) + if ip !in ps.whitelist && surplus > 0 then Square(surplus as real) else 0.0
  }

  /** P7: the squared excess of the behaviour penalty. */
  function Excess(ps: Params, penalty: real): real {
    if penalty > ps.penaltyThreshold then Square(penalty - ps.penaltyThreshold) else 0.0
  }

  function Sum(ps: Params, total: real, app: real, colocation: real, penalty: real): real {
    Capped(ps.bitmaskCap, total) + app * ps.appWeight + colocation * ps.ipWeight
    + Excess(ps, penalty) * ps.penaltyWeight
  }

  ghost function BitmaskTotal(ps: Params, st: PeerStats): real { Total(ps, st.bitmasks, st.bitmasks.Keys) }

  ghost function Score(ps: Params, s: State, p: Peer, app: real): real {
    if p !in s.stats then 0.0
    else Sum(ps, BitmaskTotal(ps, s.stats[p]), app, Colocation(ps, s, s.stats[p].ips), s.stats[p].penalty)
  }

  /** Only the capped totals decide between two scores that differ in the total. */
  lemma SumCompares(ps: Params, total: real, total': real, app: real, colocation: real, penalty: real)
    ensures Sum(ps, total', app, colocation, penalty) > Sum(ps, total, app, colocation, penalty)
        <==> total' > total && !(ps.bitmaskCap > 0.0 && total >= ps.bitmaskCap)
    ensures Sum(ps, total', app, colocation, penalty) < Sum(ps, total, app, colocation, penalty)
        <==> total' < total && !(ps.bitmaskCap > 0.0 && total' >= ps.bitmaskCap)
  {
  }

  /** The total does not depend on the order of summation. */
  lemma {:induction false} TotalWithout(ps: Params, m: map<Bitmask, BitmaskStats>, bs: set<Bitmask>, b: Bitmask)
    requires b in bs
    ensures Total(ps, m, bs) == Part(ps, m, b) + Total(ps, m, bs - {b})
    decreases |bs|
  {
    var c :| c in bs && Total(ps, m, bs) == Part(ps, m, c) + Total(ps, m, bs - {c});
    if c != b {
      TotalWithout(ps, m, bs - {c}, b);
      TotalWithout(ps, m, bs - {b}, c);
      assert bs - {c} - {b} == bs - {b} - {c};
    }
  }

  // ---------------------------------------------------------------------------------
  // Disconnecting
  // ---------------------------------------------------------------------------------

  /** The counters of a bitmask after the peer disconnected and its score is retained. */
  function Retired(bp: BitmaskParams, ts: BitmaskStats): BitmaskStats {
    ts.(first := 0.0, inMesh := false,
        failure := ts.failure + if ts.inMesh then Deficit(bp, ts) else 0.0)
  }

  function RetiredAll(ps: Params, m: map<Bitmask, BitmaskStats>): map<Bitmask, BitmaskStats>
    requires m.Keys <= ps.bitmasks.Keys
  {
    map b | b in m :: Retired(ps.bitmasks[b], m[b])
  }

  /** Forgets p at each of the addresses; an address without peers goes. */
  function WithoutIPs(index: map<Ip, set<Peer>>, p: Peer, ips: set<Ip>): map<Ip, set<Peer>> {
    map ip | ip in index && !(ip in ips && index[ip] - {p} == {}) :: if ip in ips then index[ip] - {p} else index[ip]
  }

  /** Bitmasks are counted for only if they are scored. */
  ghost predicate KeysScored(ps: Params, s: State) {
    forall p :: p in s.stats ==> s.stats[p].bitmasks.Keys <= ps.bitmasks.Keys
  }

  ghost function Disconnected(ps: Params, s: State, p: Peer, app: real, now: Time): State
    requires KeysScored(ps, s)
  {
    if p !in s.stats then s
    else if Score(ps, s, p, app) > 0.0 then State(s.stats - {p}, WithoutIPs(s.peerIPs, p, AllOf(s.stats[p].ips)))
    else s.(stats := s.stats[p := s.stats[p].(bitmasks := RetiredAll(ps, s.stats[p].bitmasks), connected := false,
                                               expire := now + ps.retain)])
  }

  /** Counters that only validated parameters and the engine's own updates make. */
  predicate Sound(ts: BitmaskStats) { ts.first >= 0.0 && ts.meshTime >= 0 }

  ghost predicate AllSound(m: map<Bitmask, BitmaskStats>) { forall b :: b in m ==> Sound(m[b]) }

  lemma Product(a: real, b: real)
    ensures a >= 0.0 && b >= 0.0 ==> a * b >= 0.0
    ensures a >= 0.0 && b <= 0.0 ==> a * b <= 0.0
  {
  }

  lemma SquareIsPositive(a: real)
    ensures Square(a) >= 0.0
  {
  }

  lemma {:induction false} QuotientIsPositive(a: nat, b: nat)
    requires b > 0
    ensures Quotient(a, b) >= 0.0
  {
    if a >= b { QuotientIsPositive(a - b, b); }
  }

  lemma TimeInMeshIsPositive(bp: BitmaskParams, ts: BitmaskStats)
    requires ValidBitmask(bp) && Sound(ts)
    ensures TimeInMesh(bp, ts) * bp.timeInMeshWeight >= 0.0
  {
    if bp.timeInMeshWeight != 0.0 {
      QuotientIsPositive(ts.meshTime, bp.timeInMeshQuantum);
      assert TimeInMesh(bp, ts) >= 0.0;
      Product(TimeInMesh(bp, ts), bp.timeInMeshWeight);
    }
  }

  /** What one bitmask's score loses when its counters are retired: the time in the mesh, the first
      deliveries, and the deficit that becomes a sticky penalty. */
  function Stake(bp: BitmaskParams, ts: BitmaskStats): real {
    TimeInMesh(bp, ts) * bp.timeInMeshWeight + ts.first * bp.firstWeight
    - (if ts.inMesh then Deficit(bp, ts) else 0.0) * bp.failureWeight
  }

  lemma RetiredScoresExactly(bp: BitmaskParams, ts: BitmaskStats)
    ensures BitmaskScore(bp, Retired(bp, ts)) == BitmaskScore(bp, ts) - Stake(bp, ts)
  {
    var r := Retired(bp, ts);
    var extra := if ts.inMesh then Deficit(bp, ts) else 0.0;
    assert r.failure * bp.failureWeight == ts.failure * bp.failureWeight + extra * bp.failureWeight;
    assert Deficit(bp, r) == Deficit(bp, ts) && TimeInMesh(bp, r) == 0.0;
  }

  lemma StakeIsPositive(bp: BitmaskParams, ts: BitmaskStats)
    requires ValidBitmask(bp) && Sound(ts)
    ensures Stake(bp, ts) >= 0.0
  {
    TimeInMeshIsPositive(bp, ts);
    Product(ts.first, bp.firstWeight);
    SquareIsPositive(bp.meshThreshold - ts.mesh);
    Product(Deficit(bp, ts), bp.failureWeight);
  }

  /** With validated parameters the retained counters of a bitmask score no more than before. */
  lemma RetiredScoresNoMore(bp: BitmaskParams, ts: BitmaskStats)
    requires ValidBitmask(bp) && Sound(ts)
    ensures BitmaskScore(bp, Retired(bp, ts)) <= BitmaskScore(bp, ts)
  {
    RetiredScoresExactly(bp, ts);
    StakeIsPositive(bp, ts);
  }

  function StakePart(ps: Params, m: map<Bitmask, BitmaskStats>, b: Bitmask): real {
    if b in m && b in ps.bitmasks then Stake(ps.bitmasks[b], m[b]) * ps.bitmasks[b].weight else 0.0
  }

  /** What a peer's bitmask scores lose together. */
  ghost function AtStake(ps: Params, m: map<Bitmask, BitmaskStats>, bs: set<Bitmask>): real {
    if bs == {} then 0.0 else
    var b :| b in bs;
    StakePart(ps, m, b) + AtStake(ps, m, bs - {b})
  }

  lemma RetiredPart(ps: Params, m: map<Bitmask, BitmaskStats>, b: Bitmask)
    requires m.Keys <= ps.bitmasks.Keys
    ensures Part(ps, RetiredAll(ps, m), b) == Part(ps, m, b) - StakePart(ps, m, b)
  {
    if b in m {
      var bp, ts := ps.bitmasks[b], m[b];
      RetiredScoresExactly(bp, ts);
      assert (BitmaskScore(bp, ts) - Stake(bp, ts)) * bp.weight
          == BitmaskScore(bp, ts) * bp.weight - Stake(bp, ts) * bp.weight;
    }
  }

  lemma {:induction false} RetiredSum(ps: Params, m: map<Bitmask, BitmaskStats>, bs: set<Bitmask>)
    requires m.Keys <= ps.bitmasks.Keys
    ensures Total(ps, RetiredAll(ps, m), bs) == Total(ps, m, bs) - AtStake(ps, m, bs)
    decreases |bs|
  {
    if bs != {} {
      var b :| b in bs && AtStake(ps, m, bs) == StakePart(ps, m, b) + AtStake(ps, m, bs - {b});
      TotalWithout(ps, m, bs, b);
      TotalWithout(ps, RetiredAll(ps, m), bs, b);
      RetiredPart(ps, m, b);
      RetiredSum(ps, m, bs - {b});
    }
  }

  lemma StakePartIsPositive(ps: Params, m: map<Bitmask, BitmaskStats>, b: Bitmask)
    requires ValidParams(ps) && AllSound(m)
    ensures StakePart(ps, m, b) >= 0.0
  {
    if b in m && b in ps.bitmasks {
      var bp, ts := ps.bitmasks[b], m[b];
      assert ValidBitmask(bp) && Sound(ts);
      StakeIsPositive(bp, ts);
      var stake := Stake(bp, ts);
      Product(stake, bp.weight);
    }
  }

  lemma {:induction false} NothingNegativeAtStake(ps: Params, m: map<Bitmask, BitmaskStats>, bs: set<Bitmask>)
    requires ValidParams(ps) && AllSound(m)
    ensures AtStake(ps, m, bs) >= 0.0
    decreases |bs|
  {
    if bs != {} {
      var b :| b in bs && AtStake(ps, m, bs) == StakePart(ps, m, b) + AtStake(ps, m, bs - {b});
      NothingNegativeAtStake(ps, m, bs - {b});
      StakePartIsPositive(ps, m, b);
    }
  }

  /** What p's bitmask scores lose together by a disconnection. */
  ghost function StakeOf(ps: Params, s: State, p: Peer): real
    requires p in s.stats
  {
    AtStake(ps, s.stats[p].bitmasks, s.stats[p].bitmasks.Keys)
  }

  /** The bitmask scores reach the cap, if there is one. */
  predicate AtCap(ps: Params, total: real) { ps.bitmaskCap > 0.0 && total >= ps.bitmaskCap }

  lemma RetainedTotal(ps: Params, s: State, p: Peer, app: real, now: Time)
    requires KeysScored(ps, s) && p in s.stats && Score(ps, s, p, app) <= 0.0
    ensures var d := Disconnected(ps, s, p, app, now);
      && p in d.stats && d.peerIPs == s.peerIPs
      && d.stats[p].ips == s.stats[p].ips && d.stats[p].penalty == s.stats[p].penalty
      && BitmaskTotal(ps, d.stats[p]) == BitmaskTotal(ps, s.stats[p]) - StakeOf(ps, s, p)
  {
    var m := s.stats[p].bitmasks;
    assert RetiredAll(ps, m).Keys == m.Keys;
    RetiredSum(ps, m, m.Keys);
  }

  /** Whatever the parameters and counters: disconnecting raises a score if and only if the score is retained,
      what is at stake is negative, and the bitmask scores were not at their cap. */
  lemma DisconnectingPaysIff(ps: Params, s: State, p: Peer, app: real, now: Time)
    requires KeysScored(ps, s)
    ensures Score(ps, Disconnected(ps, s, p, app, now), p, app) > Score(ps, s, p, app)
        <==> && p in s.stats && Score(ps, s, p, app) <= 0.0
             && StakeOf(ps, s, p) < 0.0 && !AtCap(ps, BitmaskTotal(ps, s.stats[p]))
  {
    if p in s.stats {
      var d := Disconnected(ps, s, p, app, now);
      if Score(ps, s, p, app) > 0.0 {
        assert p !in d.stats;
      } else {
        RetainedTotal(ps, s, p, app, now);
        SameColocation(ps, s, d, s.stats[p].ips);
        SumCompares(ps, BitmaskTotal(ps, s.stats[p]), BitmaskTotal(ps, d.stats[p]), app,
                    Colocation(ps, s, s.stats[p].ips), s.stats[p].penalty);
      }
    }
  }

  /** Disconnecting never pays: with validated parameters and counters that are not negative a peer's score
      afterwards is at most what it was, whether its counters are dropped or retained. */
  lemma DisconnectingNeverPays(ps: Params, s: State, p: Peer, app: real, now: Time)
    requires ValidParams(ps) && KeysScored(ps, s) && (p in s.stats ==> AllSound(s.stats[p].bitmasks))
    ensures Score(ps, Disconnected(ps, s, p, app, now), p, app) <= Score(ps, s, p, app)
  {
    DisconnectingPaysIff(ps, s, p, app, now);
    if p in s.stats { NothingNegativeAtStake(ps, s.stats[p].bitmasks, s.stats[p].bitmasks.Keys); }
  }

  lemma {:induction false} SameColocation(ps: Params, s: State, t: State, ips: seq<Ip>)
    requires forall ip :: ip in ips ==> PeersAt(s, ip) == PeersAt(t, ip)
    ensures Colocation(ps, s, ips) == Colocation(ps, t, ips)
  {
    if ips != [] { SameColocation(ps, s, t, ips[..|ips| - 1]); }
  }

  // ---------------------------------------------------------------------------------
  // Connecting again
  // ---------------------------------------------------------------------------------

  function WithIPs(index: map<Ip, set<Peer>>, p: Peer, ips: set<Ip>): map<Ip, set<Peer>> {
    map ip | ip in index.Keys + ips :: if ip in ips then At(index, ip) + {p} else index[ip]
  }

  function AllOf(ips: seq<Ip>): set<Ip> { set ip | ip in ips }

  function IpsOf(s: State, p: Peer): set<Ip> { if p in s.stats then AllOf(s.stats[p].ips) else {} }

  function Connected(s: State, p: Peer, ips: seq<Ip>): State {
    var st := if p in s.stats then s.stats[p] else PeerStats(true, 0, map[], [], 0.0);
    State(s.stats[p := st.(connected := true, ips := ips)],
          WithoutIPs(WithIPs(s.peerIPs, p, AllOf(ips) - IpsOf(s, p)), p, IpsOf(s, p) - AllOf(ips)))
  }

  /** The index by address shows who is where, and has no empty entry. */
  predicate Located(s: State, p: Peer, ip: Ip) { p in PeersAt(s, ip) <==> ip in IpsOf(s, p) }

  ghost predicate IpsAgree(s: State) {
    (forall p, ip :: Located(s, p, ip)) && (forall ip :: ip in s.peerIPs ==> s.peerIPs[ip] != {})
  }

  lemma PeersAtAfter(index: map<Ip, set<Peer>>, p: Peer, more: set<Ip>, less: set<Ip>, ip: Ip)
    ensures var t := State(map[], WithoutIPs(WithIPs(index, p, more), p, less));
      PeersAt(t, ip)
      == PeersAt(State(map[], index), ip) + (if ip in more then {p} else {}) - if ip in less then {p} else {}
  {
  }

  lemma ConnectedAgrees(s: State, p: Peer, ips: seq<Ip>)
    requires IpsAgree(s)
    ensures IpsAgree(Connected(s, p, ips))
  {
    var t := Connected(s, p, ips);
    forall q, ip ensures Located(t, q, ip) {
      assert Located(s, q, ip);
      PeersAtAfter(s.peerIPs, p, AllOf(ips) - IpsOf(s, p), IpsOf(s, p) - AllOf(ips), ip);
    }
  }

  lemma DroppedAgrees(s: State, p: Peer)
    requires IpsAgree(s) && p in s.stats
    ensures IpsAgree(State(s.stats - {p}, WithoutIPs(s.peerIPs, p, AllOf(s.stats[p].ips))))
  {
    var t := State(s.stats - {p}, WithoutIPs(s.peerIPs, p, AllOf(s.stats[p].ips)));
    forall q, ip ensures Located(t, q, ip) {
      assert Located(s, q, ip) && Located(s, p, ip);
    }
  }

  /** What a peer's own conduct adds to its score. */
  function Conduct(ps: Params, total: real, penalty: real): real {
    Capped(ps.bitmaskCap, total) + Excess(ps, penalty) * ps.penaltyWeight
  }

  ghost function Earned(ps: Params, s: State, p: Peer): real
    requires p in s.stats
  {
    Conduct(ps, BitmaskTotal(ps, s.stats[p]), s.stats[p].penalty)
  }

  lemma ForgottenCompares(ps: Params, total: real, app: real, colocation: real, penalty: real)
    requires ValidParams(ps)
    ensures Sum(ps, 0.0, app, colocation, 0.0) > Sum(ps, total, app, colocation, penalty)
        <==> Conduct(ps, total, penalty) < 0.0
    ensures Sum(ps, 0.0, app, colocation, 0.0) < Sum(ps, total, app, colocation, penalty)
        <==> Conduct(ps, total, penalty) > 0.0
  {
    assert Excess(ps, 0.0) == 0.0;
  }

  lemma DroppedAndBack(s: State, p: Peer, ip: Ip)
    requires IpsAgree(s) && p in s.stats && ip in s.stats[p].ips
    ensures var ips := s.stats[p].ips;
      PeersAt(Connected(State(s.stats - {p}, WithoutIPs(s.peerIPs, p, AllOf(ips))), p, ips), ip) == PeersAt(s, ip)
  {
    var ips := s.stats[p].ips;
    var d := State(s.stats - {p}, WithoutIPs(s.peerIPs, p, AllOf(ips)));
    assert Located(s, p, ip) && ip in AllOf(ips) && IpsOf(d, p) == {};
    PeersAtAfter(d.peerIPs, p, AllOf(ips) - IpsOf(d, p), IpsOf(d, p) - AllOf(ips), ip);
    assert PeersAt(d, ip) == PeersAt(s, ip) - {p};
  }

  lemma ConnectedAnyway(s: State, t: State, p: Peer, ip: Ip)
    requires p in s.stats && p in t.stats && s.peerIPs == t.peerIPs && s.stats[p].ips == t.stats[p].ips
    ensures PeersAt(Connected(t, p, s.stats[p].ips), ip) == PeersAt(s, ip)
  {
    PeersAtAfter(t.peerIPs, p, AllOf(s.stats[p].ips) - IpsOf(t, p), IpsOf(t, p) - AllOf(s.stats[p].ips), ip);
  }

  /** Dropped, a peer that comes back from the same addresses starts afresh. */
  lemma DroppedStartsAfresh(ps: Params, s: State, p: Peer, app: real)
    requires IpsAgree(s) && p in s.stats
    ensures var ips := s.stats[p].ips;
      Score(ps, Connected(State(s.stats - {p}, WithoutIPs(s.peerIPs, p, AllOf(ips))), p, ips), p, app)
        == Sum(ps, 0.0, app, Colocation(ps, s, ips), 0.0)
  {
    var ips := s.stats[p].ips;
    var t := Connected(State(s.stats - {p}, WithoutIPs(s.peerIPs, p, AllOf(ips))), p, ips);
    forall ip | ip in ips ensures PeersAt(s, ip) == PeersAt(t, ip) { DroppedAndBack(s, p, ip); }
    SameColocation(ps, s, t, ips);
    assert t.stats[p] == PeerStats(true, 0, map[], ips, 0.0);
    assert BitmaskTotal(ps, t.stats[p]) == 0.0;
  }

  /** Retained, a peer that comes back from the same addresses has its retired counters. */
  lemma RetainedComesBack(ps: Params, s: State, d: State, p: Peer, app: real)
    requires p in s.stats && p in d.stats && s.peerIPs == d.peerIPs
    requires s.stats[p].ips == d.stats[p].ips && s.stats[p].penalty == d.stats[p].penalty
    ensures Score(ps, Connected(d, p, s.stats[p].ips), p, app)
         == Sum(ps, BitmaskTotal(ps, d.stats[p]), app, Colocation(ps, s, s.stats[p].ips), s.stats[p].penalty)
  {
    var ips := s.stats[p].ips;
    var t := Connected(d, p, ips);
    forall ip | ip in ips ensures PeersAt(s, ip) == PeersAt(t, ip) { ConnectedAnyway(s, d, p, ip); }
    SameColocation(ps, s, t, ips);
    assert t.stats[p].bitmasks == d.stats[p].bitmasks;
  }

  /** The score after disconnecting and coming back from the same addresses. */
  ghost function ScoreBack(ps: Params, s: State, p: Peer, app: real, now: Time): real
    requires KeysScored(ps, s) && p in s.stats
  {
    Score(ps, Connected(Disconnected(ps, s, p, app, now), p, s.stats[p].ips), p, app)
  }

  lemma BackCompares(ps: Params, s: State, p: Peer, app: real, now: Time)
    requires ValidParams(ps) && KeysScored(ps, s) && IpsAgree(s) && p in s.stats
    ensures var before, total := Score(ps, s, p, app), BitmaskTotal(ps, s.stats[p]);
      && (ScoreBack(ps, s, p, app, now) > before <==>
            if before > 0.0 then Earned(ps, s, p) < 0.0 else StakeOf(ps, s, p) < 0.0 && !AtCap(ps, total))
      && (ScoreBack(ps, s, p, app, now) < before <==>
            if before > 0.0 then Earned(ps, s, p) > 0.0
            else StakeOf(ps, s, p) > 0.0 && !AtCap(ps, total - StakeOf(ps, s, p)))
  {
    var total, colocation := BitmaskTotal(ps, s.stats[p]), Colocation(ps, s, s.stats[p].ips);
    if Score(ps, s, p, app) > 0.0 {
      DroppedStartsAfresh(ps, s, p, app);
      ForgottenCompares(ps, total, app, colocation, s.stats[p].penalty);
    } else {
      var d := Disconnected(ps, s, p, app, now);
      RetainedTotal(ps, s, p, app, now);
      RetainedComesBack(ps, s, d, p, app);
      SumCompares(ps, total, total - StakeOf(ps, s, p), app, colocation, s.stats[p].penalty);
    }
  }

  /** Disconnecting and coming back from the same addresses raises a score if and only if the score is positive
      in spite of what the peer did, for then its counters are forgotten, or it is retained with something
      negative at stake below the cap. */
  lemma ReconnectingPaysIff(ps: Params, s: State, p: Peer, app: real, now: Time)
    requires ValidParams(ps) && KeysScored(ps, s) && IpsAgree(s) && p in s.stats
    ensures ScoreBack(ps, s, p, app, now) > Score(ps, s, p, app)
        <==> if Score(ps, s, p, app) > 0.0 then Earned(ps, s, p) < 0.0
             else StakeOf(ps, s, p) < 0.0 && !AtCap(ps, BitmaskTotal(ps, s.stats[p]))
    ensures AllSound(s.stats[p].bitmasks) && Score(ps, s, p, app) <= 0.0 ==>
              ScoreBack(ps, s, p, app, now) <= Score(ps, s, p, app)
  {
    BackCompares(ps, s, p, app, now);
    if AllSound(s.stats[p].bitmasks) { NothingNegativeAtStake(ps, s.stats[p].bitmasks, s.stats[p].bitmasks.Keys); }
  }

  /** It loses score by that if and only if the score is positive and the peer had earned something, or the score
      is retained, something is at stake and the bitmask scores without it are below the cap. */
  lemma ReconnectingLosesIff(ps: Params, s: State, p: Peer, app: real, now: Time)
    requires ValidParams(ps) && KeysScored(ps, s) && IpsAgree(s) && p in s.stats
    ensures ScoreBack(ps, s, p, app, now) < Score(ps, s, p, app)
        <==> if Score(ps, s, p, app) > 0.0 then Earned(ps, s, p) > 0.0
             else StakeOf(ps, s, p) > 0.0 && !AtCap(ps, BitmaskTotal(ps, s.stats[p]) - StakeOf(ps, s, p))
  {
    BackCompares(ps, s, p, app, now);
  }

  /** A peer in good standing with the application can shed its penalties. */
  lemma ReconnectingCanPay(p: Peer)
    ensures var ps := Params(map[], 0.0, 1.0, 0.0, 1, {}, -1.0, 0.0, 0.5, 0.1, 0);
      var s := State(map[p := PeerStats(true, 0, map[], [], 3.0)], map[]);
      KeysScored(ps, s) && ScoreBack(ps, s, p, 10.0, 1) > Score(ps, s, p, 10.0)
  {
    var ps := Params(map[], 0.0, 1.0, 0.0, 1, {}, -1.0, 0.0, 0.5, 0.1, 0);
    var s := State(map[p := PeerStats(true, 0, map[], [], 3.0)], map[]);
    assert BitmaskTotal(ps, s.stats[p]) == 0.0 && Colocation(ps, s, []) == 0.0 && Excess(ps, 3.0) == 9.0;
    forall q, ip ensures Located(s, q, ip) {
    }
    ReconnectingPaysIff(ps, s, p, 10.0, 1);
  }

  /** Parameters that reward first deliveries and nothing else. */
  const FirstOnly := BitmaskParams(1.0, 0.0, 1, 1.0, 1.0, 10.0, 0.5, 0.0, 1.0, 1.0, 0.5, 1, 0.0, 0.5, 0.0, 0.5)

  function FirstOnlyParams(b: Bitmask): Params {
    Params(map[b := FirstOnly], 0.0, 1.0, 0.0, 1, {}, 0.0, 0.0, 0.5, 0.1, 0)
  }

  /** A state in which p has made `first` first deliveries. */
  function Deliverer(p: Peer, b: Bitmask, first: real): State {
    State(map[p := PeerStats(true, 0, map[b := NoStats.(first := first)], [], 0.0)], map[])
  }

  /** A state in which p has just come. */
  function Newcomer(p: Peer): State { State(map[p := PeerStats(true, 0, map[], [], 0.0)], map[]) }

  lemma DelivererScores(p: Peer, b: Bitmask, first: real, app: real)
    ensures var ps, s := FirstOnlyParams(b), Deliverer(p, b, first);
      && ValidParams(ps) && KeysScored(ps, s) && IpsAgree(s)
      && BitmaskTotal(ps, s.stats[p]) == first && StakeOf(ps, s, p) == first
      && Score(ps, s, p, app) == first + app && Earned(ps, s, p) == first
  {
    var ps, s := FirstOnlyParams(b), Deliverer(p, b, first);
    var m := s.stats[p].bitmasks;
    assert m.Keys == {b};
    TotalWithout(ps, m, {b}, b);
    assert Part(ps, m, b) == first && StakePart(ps, m, b) == first;
    assert Total(ps, m, {b} - {b}) == 0.0 && AtStake(ps, m, {b}) == StakePart(ps, m, b) + AtStake(ps, m, {b} - {b});
    forall q, ip ensures Located(s, q, ip) {
    }
    assert Colocation(ps, s, []) == 0.0;
  }

  ghost predicate Loses(ps: Params, s: State, p: Peer, app: real, now: Time) {
    KeysScored(ps, s) && p in s.stats && ScoreBack(ps, s, p, app, now) < Score(ps, s, p, app)
  }

  /** A peer whose whole score is five first deliveries loses by getting disconnected; and one whose
      score is retained loses what it had delivered. */
  lemma ReconnectingCanLose(p: Peer, b: Bitmask)
    ensures Loses(FirstOnlyParams(b), Deliverer(p, b, 5.0), p, 0.0, 1)
    ensures Score(FirstOnlyParams(b), Deliverer(p, b, 5.0), p, 0.0) == 5.0
    ensures Loses(FirstOnlyParams(b), Deliverer(p, b, 5.0), p, -10.0, 1)
    ensures Score(FirstOnlyParams(b), Deliverer(p, b, 5.0), p, -10.0) == -5.0
  {
    var ps, s := FirstOnlyParams(b), Deliverer(p, b, 5.0);
    DelivererScores(p, b, 5.0, 0.0);
    DelivererScores(p, b, 5.0, -10.0);
    ReconnectingLosesIff(ps, s, p, 0.0, 1);
    ReconnectingLosesIff(ps, s, p, -10.0, 1);
  }
}
