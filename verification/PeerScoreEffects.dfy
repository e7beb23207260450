/** How each counter moves the score, to the point. */
module PeerScoreEffects {
  import opened Peers
  import opened PeerScore
  import R = PeerScoreRuns

  // ---------------------------------------------------------------------------------
  // One bitmask
  // ---------------------------------------------------------------------------------

  lemma Distributes(x: real, d: real, w: real)
    ensures (x + d) * w == x * w + d * w
  {
  }

  lemma SquareGrows(a: real, b: real)
    requires 0.0 <= a <= b
    ensures Square(a) <= Square(b)
  {
    assert a * a <= a * b;
    assert a * b <= b * b;
  }

  lemma NothingScoresNothing(bp: BitmaskParams)
    ensures BitmaskScore(bp, NoStats) == 0.0
  {
  }

  lemma FirstMoves(bp: BitmaskParams, ts: BitmaskStats, x: real)
    ensures BitmaskScore(bp, ts.(first := x)) == BitmaskScore(bp, ts) + (x - ts.first) * bp.firstWeight
  {
    Distributes(ts.first, x - ts.first, bp.firstWeight);
  }

  lemma FailureMoves(bp: BitmaskParams, ts: BitmaskStats, x: real)
    ensures BitmaskScore(bp, ts.(failure := x)) == BitmaskScore(bp, ts) + (x - ts.failure) * bp.failureWeight
  {
    Distributes(ts.failure, x - ts.failure, bp.failureWeight);
  }

  lemma SquareOneMore(x: real, w: real)
    ensures Square(x + 1.0) * w == Square(x) * w + (2.0 * x + 1.0) * w
  {
    assert Square(x + 1.0) == Square(x) + (2.0 * x + 1.0);
    Distributes(Square(x), 2.0 * x + 1.0, w);
  }

  /** One more invalid message costs the more, the more there were. */
  lemma InvalidMoves(bp: BitmaskParams, ts: BitmaskStats)
    ensures BitmaskScore(bp, ts.(invalid := ts.invalid + 1.0))
         == BitmaskScore(bp, ts) + (2.0 * ts.invalid + 1.0) * bp.invalidWeight
  {
    SquareOneMore(ts.invalid, bp.invalidWeight);
  }

  /** By how much the deliveries in an active mesh fall short. */
  function Shortfall(bp: BitmaskParams, ts: BitmaskStats): real {
    if !ts.active || ts.mesh >= bp.meshThreshold then 0.0 else bp.meshThreshold - ts.mesh
  }

  /** Deliveries in the mesh count by the square of the shortfall, and only while there is one. */
  lemma MeshMoves(bp: BitmaskParams, ts: BitmaskStats, x: real, active: bool)
    ensures var ts' := ts.(mesh := x, active := active);
      BitmaskScore(bp, ts')
        == BitmaskScore(bp, ts) + (Square(Shortfall(bp, ts')) - Square(Shortfall(bp, ts))) * bp.meshWeight
  {
    var ts' := ts.(mesh := x, active := active);
    var a, b := Square(Shortfall(bp, ts)), Square(Shortfall(bp, ts'));
    assert Deficit(bp, ts) == a && Deficit(bp, ts') == b;
    Distributes(a, b - a, bp.meshWeight);
  }

  lemma {:induction false} WholeQuanta(k: nat, q: nat, r: nat)
    requires r < q
    ensures k * q >= 0 && Quotient(k * q + r, q) == k as real
  {
    if k > 0 {
      WholeQuanta(k - 1, q, r);
      assert k * q == (k - 1) * q + q;
    }
  }

  /** In the mesh every whole quantum of time earns the weight, up to the cap; outside of it time earns nothing. */
  lemma TimeMoves(bp: BitmaskParams, ts: BitmaskStats, k: nat, r: nat)
    requires bp.timeInMeshQuantum > 0 && r < bp.timeInMeshQuantum
    ensures var t := k * bp.timeInMeshQuantum + r;
      BitmaskScore(bp, ts.(inMesh := true, meshTime := t))
        == BitmaskScore(bp, ts.(inMesh := false)) + Least(k as real, bp.timeInMeshCap) * bp.timeInMeshWeight
  {
    WholeQuanta(k, bp.timeInMeshQuantum, r);
  }

  // ---------------------------------------------------------------------------------
  // One peer
  // ---------------------------------------------------------------------------------

  lemma {:induction false} TotalSame(ps: Params, m: map<Bitmask, BitmaskStats>, m': map<Bitmask, BitmaskStats>,
                                     bs: set<Bitmask>)
    requires forall b :: b in bs ==> Part(ps, m, b) == Part(ps, m', b)
    ensures Total(ps, m, bs) == Total(ps, m', bs)
    decreases |bs|
  {
    if bs != {} {
      var b :| b in bs && Total(ps, m, bs) == Part(ps, m, b) + Total(ps, m, bs - {b});
      TotalWithout(ps, m', bs, b);
      TotalSame(ps, m, m', bs - {b});
    }
  }

  lemma TotalMovesOld(ps: Params, m: map<Bitmask, BitmaskStats>, b: Bitmask, ts: BitmaskStats)
    requires b in m
    ensures Total(ps, m[b := ts], m.Keys) == Total(ps, m, m.Keys) - Part(ps, m, b) + Part(ps, m[b := ts], b)
  {
    TotalWithout(ps, m[b := ts], m.Keys, b);
    TotalWithout(ps, m, m.Keys, b);
    TotalSame(ps, m, m[b := ts], m.Keys - {b});
  }

  lemma TotalMovesNew(ps: Params, m: map<Bitmask, BitmaskStats>, b: Bitmask, ts: BitmaskStats)
    requires b !in m
    ensures Total(ps, m[b := ts], m.Keys + {b}) == Total(ps, m, m.Keys) + Part(ps, m[b := ts], b)
  {
    TotalWithout(ps, m[b := ts], m.Keys + {b}, b);
    assert m.Keys + {b} - {b} == m.Keys;
    TotalSame(ps, m, m[b := ts], m.Keys);
  }

  lemma Scaled(x': real, x: real, d: real, w: real)
    requires x' == x + d
    ensures x' * w == x * w + d * w
  {
  }

  lemma WeighedMoves(bp: BitmaskParams, ts: BitmaskStats, ts': BitmaskStats, d: real)
    requires BitmaskScore(bp, ts') == BitmaskScore(bp, ts) + d
    ensures Weighed(bp, ts') == Weighed(bp, ts) + d * bp.weight
  {
    hide BitmaskScore;
    Scaled(BitmaskScore(bp, ts'), BitmaskScore(bp, ts), d, bp.weight);
  }

  lemma WeighedNothing(bp: BitmaskParams)
    ensures Weighed(bp, NoStats) == 0.0
  {
    NothingScoresNothing(bp);
  }

  lemma TotalByOld(ps: Params, m: map<Bitmask, BitmaskStats>, b: Bitmask, ts: BitmaskStats, g: real)
    requires b in ps.bitmasks && b in m && Weighed(ps.bitmasks[b], ts) == Weighed(ps.bitmasks[b], m[b]) + g
    ensures var m' := m[b := ts]; Total(ps, m', m'.Keys) == Total(ps, m, m.Keys) + g
  {
    TotalMovesOld(ps, m, b, ts);
    assert m[b := ts].Keys == m.Keys;
  }

  lemma TotalByNew(ps: Params, m: map<Bitmask, BitmaskStats>, b: Bitmask, ts: BitmaskStats, g: real)
    requires b in ps.bitmasks && b !in m && Weighed(ps.bitmasks[b], ts) == g
    ensures var m' := m[b := ts]; Total(ps, m', m'.Keys) == Total(ps, m, m.Keys) + g
  {
    TotalMovesNew(ps, m, b, ts);
    assert m[b := ts].Keys == m.Keys + {b};
  }

  /** New counters for one bitmask change the total by what they change that bitmask's score, times its weight. */
  lemma TotalMoves(ps: Params, m: map<Bitmask, BitmaskStats>, b: Bitmask, ts: BitmaskStats, d: real)
    requires b in ps.bitmasks
    requires BitmaskScore(ps.bitmasks[b], ts) == BitmaskScore(ps.bitmasks[b], if b in m then m[b] else NoStats) + d
    ensures var m' := m[b := ts]; Total(ps, m', m'.Keys) == Total(ps, m, m.Keys) + d * ps.bitmasks[b].weight
  {
    hide *;
    var bp := ps.bitmasks[b];
    var g := d * bp.weight;
    if b in m {
      WeighedMoves(bp, m[b], ts, d);
      TotalByOld(ps, m, b, ts, g);
    } else {
      WeighedMoves(bp, NoStats, ts, d);
      WeighedNothing(bp);
      TotalByNew(ps, m, b, ts, g);
    }
  }

  /** What a peer has counted for a bitmask: nothing, if there are no counters yet. */
  function StatsIn(s: State, p: Peer, b: Bitmask): BitmaskStats
    requires p in s.stats
  {
    R.StatsOf(s.stats[p], b)
  }

  /** t is s but for the counters of p for b, which changed its bitmask's score by d. */
  ghost predicate Moved(ps: Params, s: State, t: State, p: Peer, b: Bitmask, d: real) {
    && p in s.stats && p in t.stats && b in ps.bitmasks
    && BitmaskTotal(ps, t.stats[p]) == BitmaskTotal(ps, s.stats[p]) + d * ps.bitmasks[b].weight
    && (forall app :: ByTotals(ps, s, t, p, app))
    && (forall q, app :: q != p ==> Score(ps, t, q, app) == Score(ps, s, q, app))
  }

  /** Two scores of p differ by their capped totals. */
  ghost predicate ByTotals(ps: Params, s: State, t: State, p: Peer, app: real)
    requires p in s.stats && p in t.stats
  {
    Score(ps, t, p, app) - Score(ps, s, p, app)
      == Capped(ps.bitmaskCap, BitmaskTotal(ps, t.stats[p])) - Capped(ps.bitmaskCap, BitmaskTotal(ps, s.stats[p]))
  }

  /** Only counters of bitmasks differ. */
  ghost predicate SameButCounters(s: State, t: State) {
    && s.peerIPs == t.peerIPs && s.stats.Keys == t.stats.Keys
    && forall q :: q in s.stats ==> s.stats[q].ips == t.stats[q].ips && s.stats[q].penalty == t.stats[q].penalty
  }

  lemma DifferByTotals(ps: Params, s: State, t: State, q: Peer, app: real)
    requires SameButCounters(s, t) && q in s.stats
    ensures ByTotals(ps, s, t, q, app)
  {
    SameColocation(ps, s, t, s.stats[q].ips);
  }

  lemma SameScore(ps: Params, s: State, t: State, q: Peer, app: real)
    requires SameButCounters(s, t) && (q in s.stats ==> s.stats[q] == t.stats[q])
    ensures Score(ps, t, q, app) == Score(ps, s, q, app)
  {
    if q in s.stats { SameColocation(ps, s, t, s.stats[q].ips); }
  }

  lemma TouchedMoves(e: R.Engine, p: Peer, b: Bitmask, ts: BitmaskStats, d: real)
    requires R.Safe(e) && R.Counted(e, p, b)
    requires BitmaskScore(e.ps.bitmasks[b], ts) == BitmaskScore(e.ps.bitmasks[b], StatsIn(e.s, p, b)) + d
    ensures Moved(e.ps, e.s, R.Touched(e.ps, e.s, p, b, ts), p, b, d)
  {
    hide BitmaskScore, Total;
    TotalMoves(e.ps, e.s.stats[p].bitmasks, b, ts, d);
    MovedBy(e, p, b, ts, d);
  }

  lemma MovedBy(e: R.Engine, p: Peer, b: Bitmask, ts: BitmaskStats, d: real)
    requires R.Safe(e) && R.Counted(e, p, b)
    requires var m := e.s.stats[p].bitmasks;
      var m' := m[b := ts];
      Total(e.ps, m', m'.Keys) == Total(e.ps, m, m.Keys) + d * e.ps.bitmasks[b].weight
    ensures Moved(e.ps, e.s, R.Touched(e.ps, e.s, p, b, ts), p, b, d)
  {
    var t := R.Touched(e.ps, e.s, p, b, ts);
    assert SameButCounters(e.s, t);
    forall app ensures ByTotals(e.ps, e.s, t, p, app) { DifferByTotals(e.ps, e.s, t, p, app); }
    forall q, app | q != p ensures Score(e.ps, t, q, app) == Score(e.ps, e.s, q, app) {
      SameScore(e.ps, e.s, t, q, app);
    }
  }

  /** A change that is not positive never raises the score; it lowers it exactly if it counts and the total after it
      is below the cap. */
  lemma MovedDown(ps: Params, s: State, t: State, p: Peer, b: Bitmask, d: real, app: real)
    requires Moved(ps, s, t, p, b, d) && d <= 0.0 && ps.bitmasks[b].weight >= 0.0
    ensures Score(ps, t, p, app) <= Score(ps, s, p, app)
    ensures Score(ps, t, p, app) < Score(ps, s, p, app)
       <==> d != 0.0 && ps.bitmasks[b].weight != 0.0 && !AtCap(ps, BitmaskTotal(ps, t.stats[p]))
  {
    var w := ps.bitmasks[b].weight;
    SignOfProduct(d, w);
    assert ByTotals(ps, s, t, p, app);
  }

  lemma SignOfProduct(d: real, w: real)
    requires d <= 0.0 && w >= 0.0
    ensures d * w <= 0.0 && (d * w < 0.0 <==> d != 0.0 && w != 0.0)
  {
    if d < 0.0 && w > 0.0 { assert d * w < 0.0; }
  }

  /** A change that is not negative never lowers the score. */
  lemma MovedUp(ps: Params, s: State, t: State, p: Peer, b: Bitmask, d: real, app: real)
    requires Moved(ps, s, t, p, b, d) && d >= 0.0 && ps.bitmasks[b].weight >= 0.0
    ensures Score(ps, t, p, app) >= Score(ps, s, p, app)
    ensures Score(ps, t, p, app) > Score(ps, s, p, app)
       <==> d != 0.0 && ps.bitmasks[b].weight != 0.0 && !AtCap(ps, BitmaskTotal(ps, s.stats[p]))
  {
    var w := ps.bitmasks[b].weight;
    SignOfProduct(-d, w);
    assert (-d) * w == -(d * w);
    assert ByTotals(ps, s, t, p, app);
  }

  // ---------------------------------------------------------------------------------
  // The events
  // ---------------------------------------------------------------------------------

  /** An invalid message lowers the score of its sender, and by how much. */
  lemma InvalidDeliveryCosts(e: R.Engine, p: Peer, b: Bitmask, now: Time, app: real)
    requires R.Safe(e) && ValidParams(e.ps) && R.Counted(e, p, b) && StatsIn(e.s, p, b).invalid >= 0.0
    ensures var f, bp, n := R.Step(e, R.InvalidDelivery(p, b), now), e.ps.bitmasks[b], StatsIn(e.s, p, b).invalid;
      && f.ps == e.ps && Moved(e.ps, e.s, f.s, p, b, (2.0 * n + 1.0) * bp.invalidWeight)
      && Score(f.ps, f.s, p, app) <= Score(e.ps, e.s, p, app)
      && (Score(f.ps, f.s, p, app) < Score(e.ps, e.s, p, app)
          <==> bp.invalidWeight != 0.0 && bp.weight != 0.0 && !AtCap(e.ps, BitmaskTotal(e.ps, f.s.stats[p])))
  {
    hide BitmaskScore, Total;
    var ts, bp := StatsIn(e.s, p, b), e.ps.bitmasks[b];
    var f, d := R.Step(e, R.InvalidDelivery(p, b), now), (2.0 * ts.invalid + 1.0) * bp.invalidWeight;
    InvalidMoves(bp, ts);
    TouchedMoves(e, p, b, ts.(invalid := ts.invalid + 1.0), d);
    assert ValidBitmask(bp);
    SignOfProduct(bp.invalidWeight, 2.0 * ts.invalid + 1.0);
    MovedDown(e.ps, e.s, f.s, p, b, d, app);
  }

  /** On every run of the engine, whatever came before. */
  lemma InvalidNeverPays(ps: Params, events: seq<(R.Event, Time)>, e: R.Engine, t: Time, p: Peer, b: Bitmask,
                         now: Time, app: real)
    requires R.GoodParams(ps, false) && R.Reaches(ps, events, e, t, false)
    ensures R.Safe(e)
    ensures Score(e.ps, R.Step(e, R.InvalidDelivery(p, b), now).s, p, app) <= Score(e.ps, e.s, p, app)
  {
    R.FreshInv(ps, 0, false);
    R.RunInv(R.Fresh(ps), events, 0, e, t, false);
    R.InvIsSafe(e, t, false);
    if R.Counted(e, p, b) {
      R.StatsOfGood(e, p, b, t, false);
      InvalidDeliveryCosts(e, p, b, now, app);
    }
  }

  /** What one more delivery in the mesh does to the shortfall's square; it counts only in the mesh. */
  function MeshGain(bp: BitmaskParams, ts: BitmaskStats): real {
    if !ts.inMesh then 0.0
    else Square(Shortfall(bp, ts.(mesh := Least(ts.mesh + 1.0, bp.meshCap)))) - Square(Shortfall(bp, ts))
  }

  /** What a first delivery changes. */
  function FirstGain(bp: BitmaskParams, ts: BitmaskStats): real {
    (Least(ts.first + 1.0, bp.firstCap) - ts.first) * bp.firstWeight + MeshGain(bp, ts) * bp.meshWeight
  }

  lemma FirstScores(bp: BitmaskParams, ts: BitmaskStats)
    ensures BitmaskScore(bp, R.DeliveredFirst(bp, ts)) == BitmaskScore(bp, ts) + FirstGain(bp, ts)
  {
    var t1 := ts.(first := Least(ts.first + 1.0, bp.firstCap));
    assert MeshGain(bp, t1) == MeshGain(bp, ts);
    assert R.DeliveredFirst(bp, ts) == R.DeliveredAgain(bp, t1, true);
    var up, gain := (t1.first - ts.first) * bp.firstWeight, MeshGain(bp, ts) * bp.meshWeight;
    assert FirstGain(bp, ts) == up + gain;
    FirstThenMesh(bp, ts, t1.first, R.DeliveredAgain(bp, t1, true), up, gain);
  }

  lemma FirstThenMesh(bp: BitmaskParams, ts: BitmaskStats, x: real, t2: BitmaskStats, up: real, gain: real)
    requires up == (x - ts.first) * bp.firstWeight && t2 == R.DeliveredAgain(bp, ts.(first := x), true)
    requires gain == MeshGain(bp, ts.(first := x)) * bp.meshWeight
    ensures BitmaskScore(bp, t2) == BitmaskScore(bp, ts) + (up + gain)
  {
    FirstMoves(bp, ts, x);
    AgainScores(bp, ts.(first := x), true);
  }

  lemma AgainScores(bp: BitmaskParams, ts: BitmaskStats, inWindow: bool)
    ensures BitmaskScore(bp, R.DeliveredAgain(bp, ts, inWindow))
         == BitmaskScore(bp, ts) + if inWindow then MeshGain(bp, ts) * bp.meshWeight else 0.0
  {
    var x := Least(ts.mesh + 1.0, bp.meshCap);
    if ts.inMesh && inWindow {
      MeshMoves(bp, ts, x, ts.active);
      assert ts.(mesh := x, active := ts.active) == ts.(mesh := x);
    }
  }

  /** A first delivery counts up to its cap, and in the mesh as a delivery there as well. */
  lemma FirstDeliveryEarns(e: R.Engine, p: Peer, b: Bitmask, now: Time)
    requires R.Safe(e) && R.Counted(e, p, b)
    ensures var f := R.Step(e, R.FirstDelivery(p, b), now);
      f.ps == e.ps && Moved(e.ps, e.s, f.s, p, b, FirstGain(e.ps.bitmasks[b], StatsIn(e.s, p, b)))
  {
    hide BitmaskScore, Total;
    var ts, bp := StatsIn(e.s, p, b), e.ps.bitmasks[b];
    FirstScores(bp, ts);
    TouchedMoves(e, p, b, R.DeliveredFirst(bp, ts), FirstGain(bp, ts));
  }

  /** It lowers the score exactly if it lowers what the bitmask scores: a counter that is above its cap drops to
      it, and no cap on the sum hides that. */
  lemma FirstDeliveryCostsIff(e: R.Engine, p: Peer, b: Bitmask, now: Time, app: real)
    requires R.Safe(e) && ValidParams(e.ps) && R.Counted(e, p, b)
    ensures var f, bp := R.Step(e, R.FirstDelivery(p, b), now), e.ps.bitmasks[b];
      p in f.s.stats &&
        (Score(e.ps, f.s, p, app) < Score(e.ps, e.s, p, app)
         <==> && FirstGain(bp, StatsIn(e.s, p, b)) < 0.0 && bp.weight != 0.0
              && !AtCap(e.ps, BitmaskTotal(e.ps, f.s.stats[p])))
  {
    hide BitmaskScore, Total;
    var bp, f := e.ps.bitmasks[b], R.Step(e, R.FirstDelivery(p, b), now);
    var d := FirstGain(bp, StatsIn(e.s, p, b));
    FirstDeliveryEarns(e, p, b, now);
    assert ValidBitmask(bp);
    if d <= 0.0 {
      MovedDown(e.ps, e.s, f.s, p, b, d, app);
    } else {
      MovedUp(e.ps, e.s, f.s, p, b, d, app);
    }
  }

  const Swelling := FirstOnly.(firstWeight := 0.0, firstDecay := 20.0)

  function SwellingParams(b: Bitmask): Params { FirstOnlyParams(b).(bitmasks := map[b := Swelling]) }

  lemma Swells(p: Peer, b: Bitmask)
    requires R.Safe(R.Engine(SwellingParams(b), Deliverer(p, b, 1.0)))
    ensures R.Step(R.Engine(SwellingParams(b), Deliverer(p, b, 1.0)), R.Refresh, 1)
         == R.Engine(SwellingParams(b), Deliverer(p, b, 20.0))
  {
    var ps, ts := SwellingParams(b), NoStats.(first := 1.0);
    assert R.DecayedStats(ps, Swelling, ts, 1) == NoStats.(first := 20.0);
    var st := Deliverer(p, b, 1.0).stats[p];
    assert R.DecayedPeer(ps, st, 1).bitmasks == map[b := NoStats.(first := 20.0)];
    assert R.Refreshed(ps, Deliverer(p, b, 1.0), 1).stats == Deliverer(p, b, 20.0).stats;
  }

  function Swollen(p: Peer, b: Bitmask): seq<(R.Event, Time)> {
    [(R.Connect(p, []), 1), (R.FirstDelivery(p, b), 1), (R.Refresh, 1), (R.SetParams(b, FirstOnly), 1)]
  }

  lemma FirstArrives(p: Peer, b: Bitmask)
    ensures R.Safe(R.Fresh(SwellingParams(b))) && R.Safe(R.Engine(SwellingParams(b), Newcomer(p)))
    ensures R.Step(R.Fresh(SwellingParams(b)), R.Connect(p, []), 1) == R.Engine(SwellingParams(b), Newcomer(p))
    ensures R.Step(R.Engine(SwellingParams(b), Newcomer(p)), R.FirstDelivery(p, b), 1)
         == R.Engine(SwellingParams(b), Deliverer(p, b, 1.0))
  {
    assert R.DeliveredFirst(Swelling, NoStats) == NoStats.(first := 1.0);
  }

  lemma GetsWeight(p: Peer, b: Bitmask)
    requires R.Safe(R.Engine(SwellingParams(b), Deliverer(p, b, 20.0)))
    ensures R.Step(R.Engine(SwellingParams(b), Deliverer(p, b, 20.0)), R.SetParams(b, FirstOnly), 1)
         == R.Engine(FirstOnlyParams(b), Deliverer(p, b, 20.0))
  {
    assert SwellingParams(b).bitmasks[b := FirstOnly] == map[b := FirstOnly];
  }

  lemma RunsNoMore(e: R.Engine)
    requires R.Inv(e, 1, true)
    ensures R.Runs(e, [], 1, e, 1, true)
  {
  }

  lemma RunsOneMore(e: R.Engine, event: R.Event, t: Time, rest: seq<(R.Event, Time)>, f: R.Engine)
    requires R.Inv(e, t, true) && t <= 1 && R.Allowed(event, true) && R.Safe(e)
    requires R.Inv(R.Step(e, event, 1), 1, true) && R.Runs(R.Step(e, event, 1), rest, 1, f, 1, true)
    ensures R.Runs(e, [(event, 1)] + rest, t, f, 1, true)
  {
    assert ([(event, 1)] + rest)[1..] == rest;
  }

  lemma SwellingIsGood(b: Bitmask)
    ensures R.GoodParams(SwellingParams(b), true) && R.GoodBitmask(FirstOnly, true)
  {
  }

  lemma SwollenRun(p: Peer, b: Bitmask)
    ensures R.GoodParams(SwellingParams(b), true)
    ensures R.Reaches(SwellingParams(b), Swollen(p, b), R.Engine(FirstOnlyParams(b), Deliverer(p, b, 20.0)), 1, true)
  {
    hide R.Inv, R.Step, R.Safe, R.Runs, R.GoodParams, R.GoodBitmask, Deliverer, Newcomer, FirstOnlyParams;
    var ps := SwellingParams(b);
    var w, r, d := [(R.SetParams(b, FirstOnly), 1)], [(R.Refresh, 1)], [(R.FirstDelivery(p, b), 1)];
    var e0, e1 := R.Fresh(ps), R.Engine(ps, Newcomer(p));
    var e2, e3 := R.Engine(ps, Deliverer(p, b, 1.0)), R.Engine(ps, Deliverer(p, b, 20.0));
    var e4 := R.Engine(FirstOnlyParams(b), Deliverer(p, b, 20.0));
    SwellingIsGood(b);
    R.FreshInv(ps, 0, true);
    FirstArrives(p, b);
    R.StepInv(e0, R.Connect(p, []), 0, 1, true);
    R.StepInv(e1, R.FirstDelivery(p, b), 1, 1, true);
    R.InvIsSafe(e2, 1, true);
    Swells(p, b);
    R.StepInv(e2, R.Refresh, 1, 1, true);
    R.InvIsSafe(e3, 1, true);
    GetsWeight(p, b);
    R.StepInv(e3, R.SetParams(b, FirstOnly), 1, 1, true);
    RunsNoMore(e4);
    RunsOneMore(e3, R.SetParams(b, FirstOnly), 1, [], e4);
    RunsOneMore(e2, R.Refresh, 1, w + [], e4);
    RunsOneMore(e1, R.FirstDelivery(p, b), 1, r + (w + []), e4);
    RunsOneMore(e0, R.Connect(p, []), 0, d + (r + (w + [])), e4);
    assert [(R.Connect(p, []), 1)] + (d + (r + (w + []))) == Swollen(p, b);
  }

  /** A run that leads there: decay that raises a counter without weight takes it above its cap, and parameters
      that give it a weight leave it there; the next first delivery costs half of the score. */
  lemma FirstDeliveryCanCost(p: Peer, b: Bitmask)
    ensures var e := R.Engine(FirstOnlyParams(b), Deliverer(p, b, 20.0));
      && R.GoodParams(SwellingParams(b), true) && R.Reaches(SwellingParams(b), Swollen(p, b), e, 1, true) && R.Safe(e)
      && Score(e.ps, e.s, p, 0.0) == 20.0 && Score(e.ps, R.Step(e, R.FirstDelivery(p, b), 1).s, p, 0.0) == 10.0
  {
    var e := R.Engine(FirstOnlyParams(b), Deliverer(p, b, 20.0));
    SwollenRun(p, b);
    DelivererScores(p, b, 20.0, 0.0);
    DelivererScores(p, b, 10.0, 0.0);
    assert R.DeliveredFirst(FirstOnly, NoStats.(first := 20.0)) == NoStats.(first := 10.0);
    var m := e.s.stats[p].bitmasks;
    assert m[b := NoStats.(first := 10.0)] == map[b := NoStats.(first := 10.0)];
    assert R.Step(e, R.FirstDelivery(p, b), 1).s.stats == Deliverer(p, b, 10.0).stats;
  }

  /** So it never lowers the score, if the counters are not above their caps. */
  lemma FirstDeliveryNeverCosts(e: R.Engine, p: Peer, b: Bitmask, now: Time, app: real)
    requires R.Safe(e) && ValidParams(e.ps) && R.Counted(e, p, b)
    requires var bp, ts := e.ps.bitmasks[b], StatsIn(e.s, p, b); ts.first <= bp.firstCap && ts.mesh <= bp.meshCap
    ensures Score(e.ps, R.Step(e, R.FirstDelivery(p, b), now).s, p, app) >= Score(e.ps, e.s, p, app)
  {
    var ts, bp := StatsIn(e.s, p, b), e.ps.bitmasks[b];
    FirstDeliveryEarns(e, p, b, now);
    assert ValidBitmask(bp);
    FirstGainIsGood(bp, ts);
    MovedUp(e.ps, e.s, R.Step(e, R.FirstDelivery(p, b), now).s, p, b, FirstGain(bp, ts), app);
  }

  lemma FirstGainIsGood(bp: BitmaskParams, ts: BitmaskStats)
    requires ValidBitmask(bp) && ts.first <= bp.firstCap && ts.mesh <= bp.meshCap
    ensures FirstGain(bp, ts) >= 0.0
  {
    var up := Least(ts.first + 1.0, bp.firstCap) - ts.first;
    MeshGainIsGood(bp, ts);
    Product(up, bp.firstWeight);
    SignOfProduct(bp.meshWeight, -MeshGain(bp, ts));
    var g := MeshGain(bp, ts);
    assert bp.meshWeight * (-g) == -(g * bp.meshWeight);
  }

  lemma MeshGainIsGood(bp: BitmaskParams, ts: BitmaskStats)
    requires ts.mesh <= bp.meshCap
    ensures MeshGain(bp, ts) <= 0.0
  {
    var ts' := ts.(mesh := Least(ts.mesh + 1.0, bp.meshCap));
    SquareGrows(Shortfall(bp, ts'), Shortfall(bp, ts));
  }

  /** A repeated delivery counts in the mesh only, and only within the window. */
  lemma DuplicateDeliveryEarns(e: R.Engine, p: Peer, b: Bitmask, inWindow: bool, now: Time)
    requires R.Safe(e) && R.Counted(e, p, b)
    ensures var f, bp, ts := R.Step(e, R.DuplicateDelivery(p, b, inWindow), now), e.ps.bitmasks[b], StatsIn(e.s, p, b);
      f.ps == e.ps && Moved(e.ps, e.s, f.s, p, b, if inWindow then MeshGain(bp, ts) * bp.meshWeight else 0.0)
  {
    hide BitmaskScore, Total;
    var ts, bp := StatsIn(e.s, p, b), e.ps.bitmasks[b];
    AgainScores(bp, ts, inWindow);
    var d := if inWindow then MeshGain(bp, ts) * bp.meshWeight else 0.0;
    TouchedMoves(e, p, b, R.DeliveredAgain(bp, ts, inWindow), d);
  }

  /** What the time in the mesh earns now. */
  function TimePart(bp: BitmaskParams, ts: BitmaskStats): real { TimeInMesh(bp, ts) * bp.timeInMeshWeight }

  lemma LeavesMesh(bp: BitmaskParams, ts: BitmaskStats)
    ensures BitmaskScore(bp, ts.(inMesh := false)) == BitmaskScore(bp, ts) - TimePart(bp, ts)
  {
  }

  /** What a prune changes: it ends what the time in the mesh earned, and the shortfall stays as a penalty. */
  function PruneLoss(bp: BitmaskParams, ts: BitmaskStats): real {
    Square(Shortfall(bp, ts)) * bp.failureWeight - TimePart(bp, ts)
  }

  lemma PruneScores(bp: BitmaskParams, ts: BitmaskStats)
    ensures BitmaskScore(bp, R.Pruned(bp, ts)) == BitmaskScore(bp, ts) + PruneLoss(bp, ts)
  {
    var short := Square(Shortfall(bp, ts));
    assert Deficit(bp, ts) == short;
    var t1 := ts.(failure := ts.failure + short);
    FailureMoves(bp, ts, t1.failure);
    assert t1.failure - ts.failure == short;
    LeavesMesh(bp, t1);
    assert R.Pruned(bp, ts) == t1.(inMesh := false);
  }

  lemma PruneCosts(e: R.Engine, p: Peer, b: Bitmask, now: Time)
    requires R.Safe(e) && R.Counted(e, p, b)
    ensures var f := R.Step(e, R.Prune(p, b), now);
      f.ps == e.ps && Moved(e.ps, e.s, f.s, p, b, PruneLoss(e.ps.bitmasks[b], StatsIn(e.s, p, b)))
  {
    var ts, bp := StatsIn(e.s, p, b), e.ps.bitmasks[b];
    PruneScores(bp, ts);
    TouchedMoves(e, p, b, R.Pruned(bp, ts), PruneLoss(bp, ts));
  }

  /** What a graft changes: the time in the mesh starts over, and the shortfall does not count until the mesh is
      active. */
  function GraftChange(bp: BitmaskParams, ts: BitmaskStats): real {
    Least(0.0, bp.timeInMeshCap) * bp.timeInMeshWeight - TimePart(bp, ts) - Square(Shortfall(bp, ts)) * bp.meshWeight
  }

  lemma GraftScores(bp: BitmaskParams, ts: BitmaskStats, now: Time)
    requires bp.timeInMeshQuantum > 0
    ensures BitmaskScore(bp, R.Grafted(ts, now)) == BitmaskScore(bp, ts) + GraftChange(bp, ts)
  {
    var off := ts.(active := false);
    MeshMoves(bp, ts, ts.mesh, false);
    assert off == ts.(mesh := ts.mesh, active := false);
    Distributes(0.0, -Square(Shortfall(bp, ts)), bp.meshWeight);
    LeavesMesh(bp, off);
    assert TimePart(bp, off) == TimePart(bp, ts);
    GraftedScores(bp, off, now);
    assert R.Grafted(ts, now) == R.Grafted(off, now);
  }

  lemma GraftStartsOver(e: R.Engine, p: Peer, b: Bitmask, now: Time)
    requires R.Safe(e) && R.Counted(e, p, b) && e.ps.bitmasks[b].timeInMeshQuantum > 0
    ensures var f := R.Step(e, R.Graft(p, b), now);
      && f.ps == e.ps && StatsIn(f.s, p, b).inMesh && StatsIn(f.s, p, b).graftTime == now
      && Moved(e.ps, e.s, f.s, p, b, GraftChange(e.ps.bitmasks[b], StatsIn(e.s, p, b)))
  {
    var ts, bp := StatsIn(e.s, p, b), e.ps.bitmasks[b];
    GraftScores(bp, ts, now);
    TouchedMoves(e, p, b, R.Grafted(ts, now), GraftChange(bp, ts));
  }

  lemma GraftedScores(bp: BitmaskParams, ts: BitmaskStats, now: Time)
    requires bp.timeInMeshQuantum > 0 && !ts.active
    ensures BitmaskScore(bp, R.Grafted(ts, now))
         == BitmaskScore(bp, ts.(inMesh := false)) + Least(0.0, bp.timeInMeshCap) * bp.timeInMeshWeight
  {
    var g := R.Grafted(ts, now);
    TimeMoves(bp, g, 0, 0);
    assert g.(inMesh := true, meshTime := 0) == g;
    assert BitmaskScore(bp, g.(inMesh := false)) == BitmaskScore(bp, ts.(inMesh := false));
  }

  // ---------------------------------------------------------------------------------
  // Penalties and addresses
  // ---------------------------------------------------------------------------------

  /** The behaviour penalty counts by the square of what exceeds the threshold. */
  function Over(ps: Params, penalty: real): real {
    if penalty <= ps.penaltyThreshold then 0.0 else penalty - ps.penaltyThreshold
  }

  lemma PenaliseCosts(e: R.Engine, p: Peer, count: nat, now: Time, app: real)
    requires R.Safe(e) && ValidParams(e.ps) && p in e.s.stats
    ensures var f, x := R.Step(e, R.Penalise(p, count), now), e.s.stats[p].penalty;
      && f.ps == e.ps
      && Score(e.ps, f.s, p, app) == Score(e.ps, e.s, p, app)
           + (Square(Over(e.ps, x + count as real)) - Square(Over(e.ps, x))) * e.ps.penaltyWeight
      && Score(e.ps, f.s, p, app) <= Score(e.ps, e.s, p, app)
  {
    hide BitmaskScore, Total;
    var f, x := R.Step(e, R.Penalise(p, count), now), e.s.stats[p].penalty;
    var a, b := Over(e.ps, x), Over(e.ps, x + count as real);
    SameColocation(e.ps, e.s, f.s, e.s.stats[p].ips);
    SquareGrows(a, b);
    SumPenalty(e.ps, BitmaskTotal(e.ps, e.s.stats[p]), app, Colocation(e.ps, e.s, e.s.stats[p].ips),
               x, x + count as real);
    OverScores(Square(a), Square(b), e.ps.penaltyWeight);
  }

  lemma SumPenalty(ps: Params, total: real, app: real, colocation: real, x: real, y: real)
    ensures Sum(ps, total, app, colocation, y)
         == Sum(ps, total, app, colocation, x) + (Square(Over(ps, y)) - Square(Over(ps, x))) * ps.penaltyWeight
  {
    assert Excess(ps, x) == Square(Over(ps, x)) && Excess(ps, y) == Square(Over(ps, y));
    OverScores(Square(Over(ps, x)), Square(Over(ps, y)), ps.penaltyWeight);
  }

  lemma SumColocation(ps: Params, total: real, app: real, x: real, c: real, penalty: real)
    ensures Sum(ps, total, app, x + c, penalty) == Sum(ps, total, app, x, penalty) + c * ps.ipWeight
  {
    Distributes(x, c, ps.ipWeight);
  }

  lemma OverScores(a: real, b: real, w: real)
    ensures b * w == a * w + (b - a) * w
    ensures a <= b && w <= 0.0 ==> (b - a) * w <= 0.0
  {
    Distributes(a, b - a, w);
    if a <= b && w <= 0.0 { SignOfProduct(w, b - a); }
  }

  /** What one more peer at an address adds there: nothing up to the threshold or on the whitelist. */
  function Crowding(ps: Params, n: nat, ip: Ip): real {
    if ip in ps.whitelist || n < ps.ipThreshold then 0.0 else 2.0 * (n - ps.ipThreshold) as real + 1.0
  }

  /** That much for each connection from the address. */
  function Crowdings(ps: Params, n: nat, ip: Ip, ips: seq<Ip>): (r: real)
    ensures r >= 0.0
  {
    if ips == [] then 0.0
    else Crowdings(ps, n, ip, ips[..|ips| - 1]) + if ips[|ips| - 1] == ip then Crowding(ps, n, ip) else 0.0
  }

  function Joined(s: State, ip: Ip, q: Peer): State { s.(peerIPs := s.peerIPs[ip := PeersAt(s, ip) + {q}]) }

  /** What n peers at an address count. */
  function Crowd(ps: Params, n: nat, ip: Ip): real {
    if ip !in ps.whitelist && n - ps.ipThreshold > 0 then Square((n - ps.ipThreshold) as real) else 0.0
  }

  lemma CrowdGrows(ps: Params, n: nat, ip: Ip)
    ensures Crowd(ps, n + 1, ip) == Crowd(ps, n, ip) + Crowding(ps, n, ip)
  {
    if n >= ps.ipThreshold {
      var k := n - ps.ipThreshold;
      SquareOneMore(k as real, 1.0);
      assert (k + 1) as real == k as real + 1.0;
    }
  }

  lemma ColocationSnoc(ps: Params, s: State, ips: seq<Ip>)
    requires ips != []
    ensures Colocation(ps, s, ips)
         == Colocation(ps, s, ips[..|ips| - 1]) + Crowd(ps, |PeersAt(s, ips[|ips| - 1])|, ips[|ips| - 1])
  {
  }

  /** One more peer at an address moves the colocation of everybody there. */
  lemma {:induction false} ColocationMoves(ps: Params, s: State, ip: Ip, q: Peer, ips: seq<Ip>)
    requires q !in PeersAt(s, ip)
    ensures Colocation(ps, Joined(s, ip, q), ips)
         == Colocation(ps, s, ips) + Crowdings(ps, |PeersAt(s, ip)|, ip, ips)
  {
    if ips != [] {
      var t, last := Joined(s, ip, q), ips[|ips| - 1];
      ColocationMoves(ps, s, ip, q, ips[..|ips| - 1]);
      ColocationSnoc(ps, s, ips);
      ColocationSnoc(ps, t, ips);
      CrowdGrows(ps, |PeersAt(s, ip)|, ip);
      assert if last == ip then |PeersAt(t, last)| == |PeersAt(s, last)| + 1 else PeersAt(t, last) == PeersAt(s, last);
    }
  }

  /** So it never raises a score. */
  lemma CrowdingCosts(ps: Params, s: State, ip: Ip, q: Peer, p: Peer, app: real)
    requires ValidParams(ps) && q !in PeersAt(s, ip) && p in s.stats
    ensures var c := Crowdings(ps, |PeersAt(s, ip)|, ip, s.stats[p].ips);
      Score(ps, Joined(s, ip, q), p, app) == Score(ps, s, p, app) + c * ps.ipWeight <= Score(ps, s, p, app)
  {
    hide BitmaskScore, Total;
    var c, before := Crowdings(ps, |PeersAt(s, ip)|, ip, s.stats[p].ips), Colocation(ps, s, s.stats[p].ips);
    ColocationMoves(ps, s, ip, q, s.stats[p].ips);
    SumColocation(ps, BitmaskTotal(ps, s.stats[p]), app, before, c, s.stats[p].penalty);
    ScoreIs(ps, s, p, app);
    ScoreIs(ps, Joined(s, ip, q), p, app);
    Product(c, ps.ipWeight);
  }

  lemma ScoreIs(ps: Params, s: State, p: Peer, app: real)
    requires p in s.stats
    ensures Score(ps, s, p, app)
         == Sum(ps, BitmaskTotal(ps, s.stats[p]), app, Colocation(ps, s, s.stats[p].ips), s.stats[p].penalty)
  {
  }

  // ---------------------------------------------------------------------------------
  // Decay and lapse
  // ---------------------------------------------------------------------------------

  /** A counter that decays shrinks, and is cut off to zero when it is small. */
  lemma DecayShrinks(x: real, decay: real, zero: real)
    requires x >= 0.0 && 0.0 < decay < 1.0 && zero > 0.0
    ensures 0.0 <= R.Decayed(x, decay, zero) <= x
    ensures R.Decayed(x, decay, zero) == x <==> x == 0.0
    ensures R.Decayed(x, decay, zero) == 0.0 || R.Decayed(x, decay, zero) >= zero
  {
    if x > 0.0 { assert x * decay < x * 1.0; }
  }

  /** A refresh forgets a peer exactly if it is not connected and its time has run out; others it keeps. */
  lemma RefreshKeepsIff(ps: Params, s: State, now: Time, p: Peer)
    ensures p in R.Refreshed(ps, s, now).stats <==> p in s.stats && (s.stats[p].connected || s.stats[p].expire >= now)
    ensures p in R.Refreshed(ps, s, now).stats && !s.stats[p].connected ==>
              R.Refreshed(ps, s, now).stats[p] == s.stats[p]
  {
  }

  /** So a score that is not positive is retained for the configured time after a disconnection, and no longer. */
  lemma RetainedFor(ps: Params, s: State, p: Peer, app: real, t: Time, now: Time)
    requires KeysScored(ps, s) && p in s.stats && Score(ps, s, p, app) <= 0.0
    ensures p in R.Refreshed(ps, Disconnected(ps, s, p, app, t), now).stats <==> now <= t + ps.retain
  {
    RefreshKeepsIff(ps, Disconnected(ps, s, p, app, t), now, p);
  }
}
