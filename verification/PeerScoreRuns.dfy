/** Runs of the score engine: what every event keeps. */
module PeerScoreRuns {
  import opened Peers
  import opened PeerScore

  datatype Engine = Engine(ps: Params, s: State)

  datatype Event =
    | Connect(p: Peer, ips: seq<Ip>)
    | Disconnect(p: Peer, app: real)
    | Graft(p: Peer, b: Bitmask)
    | Prune(p: Peer, b: Bitmask)
    | FirstDelivery(p: Peer, b: Bitmask)
    | DuplicateDelivery(p: Peer, b: Bitmask, inWindow: bool)
    | InvalidDelivery(p: Peer, b: Bitmask)
    | Penalise(p: Peer, count: nat)
    | Refresh
    | SetParams(b: Bitmask, bp: BitmaskParams)

  function StatsOf(st: PeerStats, b: Bitmask): BitmaskStats { if b in st.bitmasks then st.bitmasks[b] else NoStats }

  /** getBitmaskStats and an update of what it found: counters are made only for a scored bitmask. */
  function Touched(ps: Params, s: State, p: Peer, b: Bitmask, ts: BitmaskStats): State {
    if p in s.stats && (b in s.stats[p].bitmasks || b in ps.bitmasks)
    then s.(stats := s.stats[p := s.stats[p].(bitmasks := s.stats[p].bitmasks[b := ts])])
    else s
  }

  function Grafted(ts: BitmaskStats, now: Time): BitmaskStats {
    ts.(inMesh := true, graftTime := now, meshTime := 0, active := false)
  }

  function Pruned(bp: BitmaskParams, ts: BitmaskStats): BitmaskStats {
    ts.(failure := ts.failure + Deficit(bp, ts), inMesh := false)
  }

  function OneMore(bp: BitmaskParams, ts: BitmaskStats): BitmaskStats {
    ts.(mesh := Least(ts.mesh + 1.0, bp.meshCap))
  }

  function DeliveredFirst(bp: BitmaskParams, ts: BitmaskStats): BitmaskStats {
    var t := ts.(first := Least(ts.first + 1.0, bp.firstCap));
    if ts.inMesh then OneMore(bp, t) else t
  }

  function DeliveredAgain(bp: BitmaskParams, ts: BitmaskStats, inWindow: bool): BitmaskStats {
    if ts.inMesh && inWindow then OneMore(bp, ts) else ts
  }

  function Decayed(x: real, decay: real, zero: real): real { if x * decay < zero then 0.0 else x * decay }

  function DecayedStats(ps: Params, bp: BitmaskParams, ts: BitmaskStats, now: Time): BitmaskStats {
    var t := if ts.inMesh then now - ts.graftTime else ts.meshTime;
    BitmaskStats(ts.inMesh, ts.graftTime, t, Decayed(ts.first, bp.firstDecay, ps.decayToZero),
                 Decayed(ts.mesh, bp.meshDecay, ps.decayToZero),
                 ts.active || (ts.inMesh && t > bp.meshActivation),
                 Decayed(ts.failure, bp.failureDecay, ps.decayToZero),
                 Decayed(ts.invalid, bp.invalidDecay, ps.decayToZero))
  }

  function DecayedPeer(ps: Params, st: PeerStats, now: Time): PeerStats {
    if !st.connected then st
    else st.(bitmasks := map b | b in st.bitmasks ::
                           if b in ps.bitmasks then DecayedStats(ps, ps.bitmasks[b], st.bitmasks[b], now)
                           else st.bitmasks[b],
             penalty := Decayed(st.penalty, ps.penaltyDecay, ps.decayToZero))
  }

  predicate Lapsed(st: PeerStats, now: Time) { !st.connected && st.expire < now }

  /** Retained counters lapse; those of connected peers decay. */
  function Refreshed(ps: Params, s: State, now: Time): State {
    State(map p | p in s.stats && !Lapsed(s.stats[p], now) :: DecayedPeer(ps, s.stats[p], now),
          map ip | ip in s.peerIPs && StayAt(s, ip, now) != {} :: StayAt(s, ip, now))
  }

  function StayAt(s: State, ip: Ip, now: Time): set<Peer> {
    set p | p in PeersAt(s, ip) && !(p in s.stats && Lapsed(s.stats[p], now) && ip in s.stats[p].ips)
  }

  /** New parameters for a bitmask lower the counters to the new caps. */
  function Recapped(s: State, b: Bitmask, bp: BitmaskParams): State {
    s.(stats := map p | p in s.stats ::
                  if b in s.stats[p].bitmasks
                  then s.stats[p].(bitmasks := s.stats[p].bitmasks[b := Lowered(s.stats[p].bitmasks[b], bp)])
                  else s.stats[p])
  }

  function Lowered(ts: BitmaskStats, bp: BitmaskParams): BitmaskStats {
    ts.(first := Least(ts.first, bp.firstCap), mesh := Least(ts.mesh, bp.meshCap))
  }

  predicate LowersCaps(before: BitmaskParams, bp: BitmaskParams) {
    bp.firstCap < before.firstCap || bp.meshCap < before.meshCap
  }

  function OnSetParams(e: Engine, b: Bitmask, bp: BitmaskParams): Engine {
    Engine(e.ps.(bitmasks := e.ps.bitmasks[b := bp]),
           if b in e.ps.bitmasks && LowersCaps(e.ps.bitmasks[b], bp) then Recapped(e.s, b, bp) else e.s)
  }

  /** No peer has counters for a bitmask without parameters, so that none are looked up that are missing. */
  ghost predicate Safe(e: Engine) { KeysScored(e.ps, e.s) }

  /** getBitmaskStats finds or makes counters. */
  predicate Counted(e: Engine, p: Peer, b: Bitmask) {
    p in e.s.stats && (b in e.s.stats[p].bitmasks || b in e.ps.bitmasks)
  }

  ghost function StatsStep(e: Engine, event: Event, now: Time): State
    requires Safe(e)
  {
    match event
    case Graft(p, b) =>
      if Counted(e, p, b) then Touched(e.ps, e.s, p, b, Grafted(StatsOf(e.s.stats[p], b), now)) else e.s
    case Prune(p, b) =>
      if Counted(e, p, b) then Touched(e.ps, e.s, p, b, Pruned(e.ps.bitmasks[b], StatsOf(e.s.stats[p], b))) else e.s
    case FirstDelivery(p, b) =>
      if Counted(e, p, b) then Touched(e.ps, e.s, p, b, DeliveredFirst(e.ps.bitmasks[b], StatsOf(e.s.stats[p], b)))
      else e.s
    case DuplicateDelivery(p, b, inWindow) =>
      if Counted(e, p, b)
      then Touched(e.ps, e.s, p, b, DeliveredAgain(e.ps.bitmasks[b], StatsOf(e.s.stats[p], b), inWindow)) else e.s
    case InvalidDelivery(p, b) =>
      if Counted(e, p, b)
      then Touched(e.ps, e.s, p, b, var ts := StatsOf(e.s.stats[p], b); ts.(invalid := ts.invalid + 1.0)) else e.s
    case Penalise(p, count) =>
      if p in e.s.stats
      then e.s.(stats := e.s.stats[p := e.s.stats[p].(penalty := e.s.stats[p].penalty + count as real)]) else e.s
    case Connect(p, ips) => Connected(e.s, p, ips)
    case Disconnect(p, app) => Disconnected(e.ps, e.s, p, app, now)
    case Refresh => Refreshed(e.ps, e.s, now)
    case SetParams(b, bp) => OnSetParams(e, b, bp).s
  }

  ghost function Step(e: Engine, event: Event, now: Time): Engine
    requires Safe(e)
  {
    Engine(if event.SetParams? then OnSetParams(e, event.b, event.bp).ps else e.ps, StatsStep(e, event, now))
  }

  // ---------------------------------------------------------------------------------
  // The invariant
  // ---------------------------------------------------------------------------------

  predicate Good(ts: BitmaskStats, now: Time, caps: bool) {
    ts.meshTime >= 0 && ts.graftTime <= now && ts.invalid >= 0.0 && ts.failure >= 0.0 && (caps ==> ts.first >= 0.0)
  }

  ghost predicate GoodPeer(ps: Params, st: PeerStats, now: Time, caps: bool) {
    st.bitmasks.Keys <= ps.bitmasks.Keys && forall b :: b in st.bitmasks ==> Good(st.bitmasks[b], now, caps)
  }

  /** Validated parameters. Validation lets a cap on first deliveries be negative where their weight is zero;
      `caps` says that no cap is. */
  predicate GoodParams(ps: Params, caps: bool) {
    ValidParams(ps) && (caps ==> forall b :: b in ps.bitmasks ==> ps.bitmasks[b].firstCap >= 0.0)
  }

  ghost predicate Inv(e: Engine, now: Time, caps: bool) {
    && GoodParams(e.ps, caps) && now >= 0
    && (forall p :: p in e.s.stats ==> GoodPeer(e.ps, e.s.stats[p], now, caps))
    && IpsAgree(e.s)
  }

  /** The engine before anybody is connected. */
  function Fresh(ps: Params): Engine { Engine(ps, State(map[], map[])) }

  lemma FreshInv(ps: Params, now: Time, caps: bool)
    requires GoodParams(ps, caps) && now >= 0
    ensures Inv(Fresh(ps), now, caps)
  {
    forall p, ip ensures Located(Fresh(ps).s, p, ip) {
    }
  }

  lemma InvIsSafe(e: Engine, now: Time, caps: bool)
    requires Inv(e, now, caps)
    ensures Safe(e)
  {
    forall p | p in e.s.stats ensures e.s.stats[p].bitmasks.Keys <= e.ps.bitmasks.Keys {
      assert GoodPeer(e.ps, e.s.stats[p], now, caps);
    }
  }

  lemma TouchedInv(e: Engine, p: Peer, b: Bitmask, ts: BitmaskStats, t: Time, now: Time, caps: bool)
    requires Inv(e, t, caps) && t <= now && Good(ts, now, caps)
    ensures Inv(Engine(e.ps, Touched(e.ps, e.s, p, b, ts)), now, caps)
  {
    var s := Touched(e.ps, e.s, p, b, ts);
    forall q | q in s.stats ensures GoodPeer(e.ps, s.stats[q], now, caps) {
      assert GoodPeer(e.ps, e.s.stats[q], t, caps);
    }
    SameIPs(e.s, s);
  }

  /** Only the counters changed. */
  lemma SameIPs(s: State, t: State)
    requires IpsAgree(s) && s.peerIPs == t.peerIPs && s.stats.Keys == t.stats.Keys
    requires forall p :: p in s.stats ==> s.stats[p].ips == t.stats[p].ips
    ensures IpsAgree(t)
  {
    forall p, ip ensures Located(t, p, ip) { assert Located(s, p, ip); }
  }

  lemma ConnectInv(e: Engine, p: Peer, ips: seq<Ip>, t: Time, now: Time, caps: bool)
    requires Inv(e, t, caps) && t <= now
    ensures Inv(Engine(e.ps, Connected(e.s, p, ips)), now, caps)
  {
    ConnectedAgrees(e.s, p, ips);
    var s := Connected(e.s, p, ips);
    forall q | q in s.stats ensures GoodPeer(e.ps, s.stats[q], now, caps) {
      if q in e.s.stats { assert GoodPeer(e.ps, e.s.stats[q], t, caps); }
    }
  }

  lemma DisconnectInv(e: Engine, p: Peer, app: real, t: Time, now: Time, caps: bool)
    requires Inv(e, t, caps) && t <= now && Safe(e)
    ensures Inv(Engine(e.ps, Disconnected(e.ps, e.s, p, app, now)), now, caps)
  {
    hide BitmaskScore, Total;
    var s := Disconnected(e.ps, e.s, p, app, now);
    forall q | q in s.stats ensures GoodPeer(e.ps, s.stats[q], now, caps) {
      assert GoodPeer(e.ps, e.s.stats[q], t, caps);
    }
    if p in e.s.stats && Score(e.ps, e.s, p, app) > 0.0 {
      DroppedAgrees(e.s, p);
    } else {
      SameIPs(e.s, s);
    }
  }

  lemma DecayedIsPositive(x: real, decay: real, zero: real)
    requires zero > 0.0
    ensures Decayed(x, decay, zero) >= 0.0
  {
  }

  lemma RefreshInv(e: Engine, t: Time, now: Time, caps: bool)
    requires Inv(e, t, caps) && t <= now
    ensures Inv(Engine(e.ps, Refreshed(e.ps, e.s, now)), now, caps)
  {
    var s := Refreshed(e.ps, e.s, now);
    forall p | p in s.stats ensures GoodPeer(e.ps, s.stats[p], now, caps) {
      assert GoodPeer(e.ps, e.s.stats[p], t, caps);
      RefreshedPeer(e.ps, e.s.stats[p], t, now, caps);
    }
    forall p, ip ensures Located(s, p, ip) {
      assert Located(e.s, p, ip);
      assert PeersAt(s, ip) == StayAt(e.s, ip, now);
    }
  }

  lemma RefreshedPeer(ps: Params, st: PeerStats, t: Time, now: Time, caps: bool)
    requires GoodParams(ps, caps) && GoodPeer(ps, st, t, caps) && t <= now
    ensures GoodPeer(ps, DecayedPeer(ps, st, now), now, caps) && DecayedPeer(ps, st, now).ips == st.ips
  {
    forall b | b in st.bitmasks ensures Good(DecayedStats(ps, ps.bitmasks[b], st.bitmasks[b], now), now, caps) {
      DecayedIsPositive(st.bitmasks[b].first, ps.bitmasks[b].firstDecay, ps.decayToZero);
      DecayedIsPositive(st.bitmasks[b].invalid, ps.bitmasks[b].invalidDecay, ps.decayToZero);
      DecayedIsPositive(st.bitmasks[b].failure, ps.bitmasks[b].failureDecay, ps.decayToZero);
    }
  }

  lemma SetParamsInv(e: Engine, b: Bitmask, bp: BitmaskParams, t: Time, now: Time, caps: bool)
    requires Inv(e, t, caps) && t <= now && GoodBitmask(bp, caps)
    ensures Inv(OnSetParams(e, b, bp), now, caps)
  {
    var f := OnSetParams(e, b, bp);
    forall p | p in f.s.stats ensures GoodPeer(f.ps, f.s.stats[p], now, caps) {
      assert GoodPeer(e.ps, e.s.stats[p], t, caps);
    }
    SameIPs(e.s, f.s);
  }

  predicate GoodBitmask(bp: BitmaskParams, caps: bool) { ValidBitmask(bp) && (caps ==> bp.firstCap >= 0.0) }

  predicate Allowed(event: Event, caps: bool) { event.SetParams? ==> GoodBitmask(event.bp, caps) }

  lemma StatsOfGood(e: Engine, p: Peer, b: Bitmask, t: Time, caps: bool)
    requires Inv(e, t, caps) && p in e.s.stats
    ensures Good(StatsOf(e.s.stats[p], b), t, caps)
  {
    assert GoodPeer(e.ps, e.s.stats[p], t, caps);
  }

  lemma StepInv(e: Engine, event: Event, t: Time, now: Time, caps: bool)
    requires Inv(e, t, caps) && t <= now && Safe(e) && Allowed(event, caps)
    ensures Inv(Step(e, event, now), now, caps)
  {
    match event {
      case Connect(p, ips) => ConnectInv(e, p, ips, t, now, caps);
      case Disconnect(p, app) => DisconnectInv(e, p, app, t, now, caps);
      case Refresh => RefreshInv(e, t, now, caps);
      case SetParams(b, bp) => SetParamsInv(e, b, bp, t, now, caps);
      case Penalise(p, count) => PenaliseInv(e, p, count, t, now, caps);
      case Graft(p, b) => GraftInv(e, p, b, t, now, caps);
      case Prune(p, b) => PruneInv(e, p, b, t, now, caps);
      case FirstDelivery(p, b) => FirstInv(e, p, b, t, now, caps);
      case DuplicateDelivery(p, b, inWindow) => DuplicateInv(e, p, b, inWindow, t, now, caps);
      case InvalidDelivery(p, b) => InvalidInv(e, p, b, t, now, caps);
    }
  }

  lemma PenaliseInv(e: Engine, p: Peer, count: nat, t: Time, now: Time, caps: bool)
    requires Inv(e, t, caps) && t <= now && Safe(e)
    ensures Inv(Step(e, Penalise(p, count), now), now, caps)
  {
    var s := StatsStep(e, Penalise(p, count), now);
    forall q | q in s.stats ensures GoodPeer(e.ps, s.stats[q], now, caps) {
      assert GoodPeer(e.ps, e.s.stats[q], t, caps);
    }
    SameIPs(e.s, s);
  }

  lemma LaterInv(e: Engine, t: Time, now: Time, caps: bool)
    requires Inv(e, t, caps) && t <= now
    ensures Inv(e, now, caps)
  {
    forall q | q in e.s.stats ensures GoodPeer(e.ps, e.s.stats[q], now, caps) {
      assert GoodPeer(e.ps, e.s.stats[q], t, caps);
    }
  }

  lemma GraftInv(e: Engine, p: Peer, b: Bitmask, t: Time, now: Time, caps: bool)
    requires Inv(e, t, caps) && t <= now && Safe(e)
    ensures Inv(Step(e, Graft(p, b), now), now, caps)
  {
    LaterInv(e, t, now, caps);
    if Counted(e, p, b) {
      StatsOfGood(e, p, b, t, caps);
      TouchedInv(e, p, b, Grafted(StatsOf(e.s.stats[p], b), now), t, now, caps);
    }
  }

  lemma PruneInv(e: Engine, p: Peer, b: Bitmask, t: Time, now: Time, caps: bool)
    requires Inv(e, t, caps) && t <= now && Safe(e)
    ensures Inv(Step(e, Prune(p, b), now), now, caps)
  {
    LaterInv(e, t, now, caps);
    if Counted(e, p, b) {
      StatsOfGood(e, p, b, t, caps);
      TouchedInv(e, p, b, Pruned(e.ps.bitmasks[b], StatsOf(e.s.stats[p], b)), t, now, caps);
    }
  }

  lemma FirstInv(e: Engine, p: Peer, b: Bitmask, t: Time, now: Time, caps: bool)
    requires Inv(e, t, caps) && t <= now && Safe(e)
    ensures Inv(Step(e, FirstDelivery(p, b), now), now, caps)
  {
    LaterInv(e, t, now, caps);
    if Counted(e, p, b) {
      StatsOfGood(e, p, b, t, caps);
      TouchedInv(e, p, b, DeliveredFirst(e.ps.bitmasks[b], StatsOf(e.s.stats[p], b)), t, now, caps);
    }
  }

  lemma DuplicateInv(e: Engine, p: Peer, b: Bitmask, inWindow: bool, t: Time, now: Time, caps: bool)
    requires Inv(e, t, caps) && t <= now && Safe(e)
    ensures Inv(Step(e, DuplicateDelivery(p, b, inWindow), now), now, caps)
  {
    LaterInv(e, t, now, caps);
    if Counted(e, p, b) {
      StatsOfGood(e, p, b, t, caps);
      TouchedInv(e, p, b, DeliveredAgain(e.ps.bitmasks[b], StatsOf(e.s.stats[p], b), inWindow), t, now, caps);
    }
  }

  lemma InvalidInv(e: Engine, p: Peer, b: Bitmask, t: Time, now: Time, caps: bool)
    requires Inv(e, t, caps) && t <= now && Safe(e)
    ensures Inv(Step(e, InvalidDelivery(p, b), now), now, caps)
  {
    LaterInv(e, t, now, caps);
    if Counted(e, p, b) {
      StatsOfGood(e, p, b, t, caps);
      var ts := StatsOf(e.s.stats[p], b);
      TouchedInv(e, p, b, ts.(invalid := ts.invalid + 1.0), t, now, caps);
    }
  }

  /** From e at time t the events lead to f at time now. */
  ghost predicate Runs(e: Engine, events: seq<(Event, Time)>, t: Time, f: Engine, now: Time, caps: bool)
    requires Inv(e, t, caps)
    decreases |events|
  {
    if events == [] then e == f && t == now
    else
      var (event, at) := events[0];
      Allowed(event, caps) && t <= at &&
        (InvIsSafe(e, t, caps);
         StepInv(e, event, t, at, caps);
         Runs(Step(e, event, at), events[1..], at, f, now, caps))
  }

  lemma {:induction false} RunInv(e: Engine, events: seq<(Event, Time)>, t: Time, f: Engine, now: Time, caps: bool)
    requires Inv(e, t, caps) && Runs(e, events, t, f, now, caps)
    ensures Inv(f, now, caps)
    decreases |events|
  {
    if events != [] {
      var (event, at) := events[0];
      InvIsSafe(e, t, caps);
      StepInv(e, event, t, at, caps);
      RunInv(Step(e, event, at), events[1..], at, f, now, caps);
    }
  }

  /** From the start, with parameters ps, the events lead to f at time now. */
  ghost predicate Reaches(ps: Params, events: seq<(Event, Time)>, f: Engine, now: Time, caps: bool)
    requires GoodParams(ps, caps)
  {
    FreshInv(ps, 0, caps);
    Runs(Fresh(ps), events, 0, f, now, caps)
  }

  /** On every run of the engine from its start, with validated parameters: counters exist only for scored
      bitmasks, so no threshold or cap is looked up that is not there, and the index by address agrees with the
      peers' addresses. If no cap on first deliveries is ever negative, disconnecting never pays. */
  lemma EngineIsSafe(ps: Params, events: seq<(Event, Time)>, f: Engine, now: Time, caps: bool)
    requires GoodParams(ps, caps) && Reaches(ps, events, f, now, caps)
    ensures Safe(f) && IpsAgree(f.s)
    ensures caps ==> forall p, app, later ::
              Score(f.ps, Disconnected(f.ps, f.s, p, app, later), p, app) <= Score(f.ps, f.s, p, app)
  {
    FreshInv(ps, 0, caps);
    RunInv(Fresh(ps), events, 0, f, now, caps);
    InvIsSafe(f, now, caps);
    if caps {
      forall p, app, later
        ensures Score(f.ps, Disconnected(f.ps, f.s, p, app, later), p, app) <= Score(f.ps, f.s, p, app)
      {
        if p in f.s.stats { assert GoodPeer(f.ps, f.s.stats[p], now, caps); }
        DisconnectingNeverPays(f.ps, f.s, p, app, later);
      }
    }
  }

  /** Parameters that do not weigh first deliveries and have a negative cap on them, which validation accepts. */
  const Unweighed := FirstOnly.(firstWeight := 0.0, firstCap := -5.0)

  function UnweighedParams(b: Bitmask): Params { FirstOnlyParams(b).(bitmasks := map[b := Unweighed]) }

  /** A delivery that is counted under such a cap, and is weighed later, makes disconnecting pay. */
  lemma NegativeCapCanPay(p: Peer, b: Bitmask)
    ensures var events := [(Connect(p, []), 1), (FirstDelivery(p, b), 1), (SetParams(b, FirstOnly), 1)];
      && GoodParams(UnweighedParams(b), false)
      && Reaches(UnweighedParams(b), events, Engine(FirstOnlyParams(b), Deliverer(p, b, -5.0)), 1, false)
      && KeysScored(FirstOnlyParams(b), Deliverer(p, b, -5.0))
      && Score(FirstOnlyParams(b), Disconnected(FirstOnlyParams(b), Deliverer(p, b, -5.0), p, 0.0, 1), p, 0.0)
         > Score(FirstOnlyParams(b), Deliverer(p, b, -5.0), p, 0.0)
  {
    NegativeCapRun(p, b);
    DelivererScores(p, b, -5.0, 0.0);
    DisconnectingPaysIff(FirstOnlyParams(b), Deliverer(p, b, -5.0), p, 0.0, 1);
  }

  lemma NegativeCapRun(p: Peer, b: Bitmask)
    ensures var events := [(Connect(p, []), 1), (FirstDelivery(p, b), 1), (SetParams(b, FirstOnly), 1)];
      && GoodParams(UnweighedParams(b), false)
      && Reaches(UnweighedParams(b), events, Engine(FirstOnlyParams(b), Deliverer(p, b, -5.0)), 1, false)
  {
    var ps := UnweighedParams(b);
    var e0 := Fresh(ps);
    assert ValidParams(ps);
    FreshInv(ps, 0, false);
    InvIsSafe(e0, 0, false);
    var c, d, w := (Connect(p, []), 1), (FirstDelivery(p, b), 1), (SetParams(b, FirstOnly), 1);
    var e1 := Engine(ps, State(map[p := PeerStats(true, 0, map[], [], 0.0)], map[]));
    assert Step(e0, c.0, 1) == e1;
    StepInv(e0, c.0, 0, 1, false);
    InvIsSafe(e1, 1, false);
    var e2 := Engine(ps, Deliverer(p, b, -5.0));
    assert Step(e1, d.0, 1) == e2;
    StepInv(e1, d.0, 1, 1, false);
    InvIsSafe(e2, 1, false);
    var e3 := Engine(FirstOnlyParams(b), Deliverer(p, b, -5.0));
    assert Step(e2, w.0, 1) == e3;
    StepInv(e2, w.0, 1, 1, false);
    assert Runs(e3, [], 1, e3, 1, false);
    assert [w][1..] == [] && Runs(e2, [w], 1, e3, 1, false);
    assert [d, w][1..] == [w] && Runs(e1, [d, w], 1, e3, 1, false);
    assert [c, d, w][1..] == [d, w];
  }
}
