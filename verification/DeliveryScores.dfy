/** Delivery records and scores together: the credits that the records give drive the counters. */
module DeliveryScores {
  import opened Peers
  import opened PeerScore
  import R = PeerScoreRuns
  import D = Deliveries

  /** A trace about a message with bitmask b, with the credits it gives; or any other event of the engine.
      `inWindow` says whether a repeat came within the delivery window. */
  datatype Event =
    | Trace(e: D.Event, b: Bitmask, credits: seq<D.Credit>, inWindow: bool)
    | Meanwhile(event: R.Event, at: Time)

  datatype Log = Start | Then(before: Log, event: Event)

  function Now(event: Event): Time { if event.Trace? then event.e.now else event.at }

  function Clock(log: Log): Time { if log.Start? then 0 else Now(log.event) }

  /** What the delivery records see. */
  function Traces(log: Log): D.Log {
    if log.Start? then D.Start
    else if log.event.Trace? then D.Then(Traces(log.before), log.event.e)
    else Traces(log.before)
  }

  /** The event that a credit is for the counters. */
  function EventFor(c: D.Credit, b: Bitmask, inWindow: bool): R.Event {
    match c
    case First(p) => R.FirstDelivery(p, b)
    case Duplicate(p) => R.DuplicateDelivery(p, b, inWindow)
    case Bad(p) => R.InvalidDelivery(p, b)
  }

  predicate IsDelivery(event: R.Event) {
    event.FirstDelivery? || event.DuplicateDelivery? || event.InvalidDelivery?
  }

  /** Delivery credits come from the records and from nowhere else, parameters are validated, and the clock does
      not run backwards. */
  ghost predicate Legal(ttl: Time, log: Log) {
    log.Then? ==>
      && Legal(ttl, log.before) && Clock(log.before) <= Now(log.event)
      && match log.event
         case Trace(e, _, credits, inWindow) =>
           D.Gives(D.After(Traces(log.before), ttl), ttl, e, credits) && (e.Deliver? ==> inWindow)
         case Meanwhile(event, _) => R.Allowed(event, false) && !event.FirstDelivery? && !event.DuplicateDelivery?
  }

  ghost function Credited(
    e: R.Engine, credits: seq<D.Credit>, b: Bitmask, inWindow: bool, t: Time, now: Time): (e': R.Engine)
    requires R.Inv(e, t, false) && t <= now
    ensures R.Inv(e', now, false)
    decreases |credits|
  {
    R.LaterInv(e, t, now, false);
    if credits == [] then e
    else
      var mid := Credited(e, credits[..|credits| - 1], b, inWindow, t, now);
      var event := EventFor(credits[|credits| - 1], b, inWindow);
      R.InvIsSafe(mid, now, false);
      R.StepInv(mid, event, now, now, false);
      R.Step(mid, event, now)
  }

  /** The engine after a run that began with parameters ps and nobody connected. */
  ghost function After(ps: Params, ttl: Time, log: Log): (e: R.Engine)
    requires R.GoodParams(ps, false) && Legal(ttl, log)
    ensures R.Inv(e, Clock(log), false)
  {
    if log.Start? then
      R.FreshInv(ps, 0, false);
      R.Fresh(ps)
    else
      var e := After(ps, ttl, log.before);
      match log.event
      case Trace(trace, b, credits, inWindow) =>
        Credited(e, credits, b, inWindow, Clock(log.before), trace.now)
      case Meanwhile(event, at) =>
        R.InvIsSafe(e, Clock(log.before), false);
        R.StepInv(e, event, Clock(log.before), at, false);
        R.Step(e, event, at)
  }

  // ---------------------------------------------------------------------------------
  // A counter rises only by credits
  // ---------------------------------------------------------------------------------

  datatype Counter = FirstDeliveries | MeshDeliveries

  function ValueIn(ts: BitmaskStats, k: Counter): real { if k.FirstDeliveries? then ts.first else ts.mesh }

  /** The counter of p for b; one that is not there counts as zero. */
  function ValueOf(s: State, k: Counter, p: Peer, b: Bitmask): real {
    if p in s.stats && b in s.stats[p].bitmasks then ValueIn(s.stats[p].bitmasks[b], k) else 0.0
  }

  function DecayOf(bp: BitmaskParams, k: Counter): real { if k.FirstDeliveries? then bp.firstDecay else bp.meshDecay }

  function WeightOf(bp: BitmaskParams, k: Counter): real {
    if k.FirstDeliveries? then bp.firstWeight else bp.meshWeight
  }

  /** Decay does not make the counter larger. */
  predicate Decays(bp: BitmaskParams, k: Counter) { 0.0 <= DecayOf(bp, k) <= 1.0 }

  /** Validation sees to that for every counter that has a weight. */
  lemma WeighedDecays(bp: BitmaskParams, k: Counter)
    requires ValidBitmask(bp) && WeightOf(bp, k) != 0.0
    ensures Decays(bp, k)
  {
  }

  predicate DecaysIn(ps: Params, k: Counter, b: Bitmask) { b in ps.bitmasks ==> Decays(ps.bitmasks[b], k) }

  predicate Raises(event: R.Event, k: Counter, p: Peer, b: Bitmask) {
    match event
    case FirstDelivery(q, c) => q == p && c == b
    case DuplicateDelivery(q, c, _) => k.MeshDeliveries? && q == p && c == b
    case _ => false
  }

  lemma DecayedIsLess(x: real, decay: real, zero: real, n: nat)
    requires zero > 0.0 && 0.0 <= decay <= 1.0 && x <= n as real
    ensures R.Decayed(x, decay, zero) <= n as real
  {
    if x >= 0.0 {
      assert x * decay <= x * 1.0;
    } else {
      assert x * decay <= 0.0 * decay;
    }
  }

  lemma RefreshBounded(e: R.Engine, now: Time, k: Counter, p: Peer, b: Bitmask, n: nat)
    requires R.Safe(e) && e.ps.decayToZero > 0.0 && DecaysIn(e.ps, k, b) && ValueOf(e.s, k, p, b) <= n as real
    ensures ValueOf(R.Refreshed(e.ps, e.s, now), k, p, b) <= n as real
  {
    if p in e.s.stats && b in e.s.stats[p].bitmasks {
      assert b in e.ps.bitmasks;
      DecayedIsLess(ValueOf(e.s, k, p, b), DecayOf(e.ps.bitmasks[b], k), e.ps.decayToZero, n);
    }
  }

  lemma SetParamsBounded(e: R.Engine, c: Bitmask, bp: BitmaskParams, k: Counter, p: Peer, b: Bitmask)
    ensures ValueOf(R.OnSetParams(e, c, bp).s, k, p, b) <= ValueOf(e.s, k, p, b)
  {
  }

  lemma DisconnectBounded(e: R.Engine, q: Peer, app: real, now: Time, k: Counter, p: Peer, b: Bitmask, n: nat)
    requires R.Safe(e) && ValueOf(e.s, k, p, b) <= n as real
    ensures ValueOf(Disconnected(e.ps, e.s, q, app, now), k, p, b) <= n as real
  {
  }

  lemma TouchedBounded(ps: Params, s: State, q: Peer, c: Bitmask, ts: BitmaskStats, k: Counter, p: Peer, b: Bitmask)
    ensures ValueOf(R.Touched(ps, s, q, c, ts), k, p, b) == ValueOf(s, k, p, b)
         || (q == p && c == b && ValueOf(R.Touched(ps, s, q, c, ts), k, p, b) == ValueIn(ts, k))
  {
  }

  /** Every event leaves a counter within its bound, which a delivery raises by one. */
  lemma StepBounded(e: R.Engine, event: R.Event, now: Time, k: Counter, p: Peer, b: Bitmask, n: nat)
    requires R.Safe(e) && e.ps.decayToZero > 0.0 && DecaysIn(e.ps, k, b) && ValueOf(e.s, k, p, b) <= n as real
    ensures ValueOf(R.Step(e, event, now).s, k, p, b) <= (n + D.One(Raises(event, k, p, b))) as real
  {
    match event {
      case Refresh => RefreshBounded(e, now, k, p, b, n);
      case SetParams(c, bp) => SetParamsBounded(e, c, bp, k, p, b);
      case Disconnect(q, app) => DisconnectBounded(e, q, app, now, k, p, b, n);
      case Connect(_, _) =>
      case Penalise(_, _) =>
      case _ => CountBounded(e, event, now, k, p, b, n);
    }
  }

  lemma CountBounded(e: R.Engine, event: R.Event, now: Time, k: Counter, p: Peer, b: Bitmask, n: nat)
    requires R.Safe(e) && ValueOf(e.s, k, p, b) <= n as real && (IsDelivery(event) || event.Graft? || event.Prune?)
    ensures ValueOf(R.Step(e, event, now).s, k, p, b) <= (n + D.One(Raises(event, k, p, b))) as real
  {
    if R.Counted(e, event.p, event.b) {
      var ts := R.StatsOf(e.s.stats[event.p], event.b);
      match event {
        case Graft(q, c) => TouchedBounded(e.ps, e.s, q, c, R.Grafted(ts, now), k, p, b);
        case Prune(q, c) => TouchedBounded(e.ps, e.s, q, c, R.Pruned(e.ps.bitmasks[c], ts), k, p, b);
        case FirstDelivery(q, c) => TouchedBounded(e.ps, e.s, q, c, R.DeliveredFirst(e.ps.bitmasks[c], ts), k, p, b);
        case DuplicateDelivery(q, c, w) =>
          TouchedBounded(e.ps, e.s, q, c, R.DeliveredAgain(e.ps.bitmasks[c], ts, w), k, p, b);
        case InvalidDelivery(q, c) =>
          TouchedBounded(e.ps, e.s, q, c, ts.(invalid := ts.invalid + 1.0), k, p, b);
      }
    }
  }

  // ---------------------------------------------------------------------------------
  // Counting credits
  // ---------------------------------------------------------------------------------

  /** How many of the credits raise the counter. */
  function Raising(credits: seq<D.Credit>, inWindow: bool, c: Bitmask, k: Counter, p: Peer, b: Bitmask): nat {
    if credits == [] then 0
    else Raising(credits[..|credits| - 1], inWindow, c, k, p, b)
         + D.One(Raises(EventFor(credits[|credits| - 1], c, inWindow), k, p, b))
  }

  lemma {:induction false} CreditedBounded(
    e: R.Engine, credits: seq<D.Credit>, c: Bitmask, inWindow: bool, t: Time, now: Time,
    k: Counter, p: Peer, b: Bitmask, n: nat)
    requires R.Inv(e, t, false) && t <= now && DecaysIn(e.ps, k, b) && ValueOf(e.s, k, p, b) <= n as real
    ensures Credited(e, credits, c, inWindow, t, now).ps == e.ps
    ensures ValueOf(Credited(e, credits, c, inWindow, t, now).s, k, p, b)
         <= (n + Raising(credits, inWindow, c, k, p, b)) as real
    decreases |credits|
  {
    if credits != [] {
      var init := credits[..|credits| - 1];
      CreditedBounded(e, init, c, inWindow, t, now, k, p, b, n);
      var mid := Credited(e, init, c, inWindow, t, now);
      R.InvIsSafe(mid, now, false);
      StepBounded(mid, EventFor(credits[|credits| - 1], c, inWindow), now, k, p, b,
                  n + Raising(init, inWindow, c, k, p, b));
    }
  }

  predicate Delivers(event: Event, p: Peer, b: Bitmask) {
    event.Trace? && event.e.Deliver? && event.e.from == p && event.b == b
  }

  /** How often p was the first to deliver a message with bitmask b. */
  function Firsts(log: Log, p: Peer, b: Bitmask): nat {
    if log.Start? then 0 else Firsts(log.before, p, b) + D.One(Delivers(log.event, p, b))
  }

  /** The duplicate credits of p in one event. */
  function Again(ttl: Time, log: Log, p: Peer): nat
    requires log.Then?
  {
    D.One(log.event.Trace? && D.Duplicates(D.After(Traces(log.before), ttl), log.event.e, p))
  }

  lemma {:induction false} Occurrences(
    credits: seq<D.Credit>, inWindow: bool, c: Bitmask, k: Counter, p: Peer, b: Bitmask)
    requires D.NoneTwice(credits)
    ensures Raising(credits, inWindow, c, k, p, b)
         <= D.One(D.First(p) in credits && c == b) + D.One(k.MeshDeliveries? && D.Duplicate(p) in credits)
  {
    if credits != [] {
      var init, last := credits[..|credits| - 1], credits[|credits| - 1];
      Occurrences(init, inWindow, c, k, p, b);
      assert credits == init + [last];
      assert last !in init;
    }
  }

  lemma {:induction false} BadRaisesNothing(
    credits: seq<D.Credit>, inWindow: bool, c: Bitmask, k: Counter, p: Peer, b: Bitmask)
    requires forall x :: x in credits ==> x.Bad?
    ensures Raising(credits, inWindow, c, k, p, b) == 0
  {
    if credits != [] {
      assert credits[|credits| - 1].Bad?;
      BadRaisesNothing(credits[..|credits| - 1], inWindow, c, k, p, b);
    }
  }

  /** The credits of one trace raise a counter once for a first delivery, and once for a duplicate. */
  lemma TraceRaises(ttl: Time, log: Log, k: Counter, p: Peer, b: Bitmask)
    requires log.Then? && log.event.Trace? && Legal(ttl, log)
    ensures Raising(log.event.credits, log.event.inWindow, log.event.b, k, p, b)
         <= D.One(Delivers(log.event, p, b)) + if k.MeshDeliveries? then Again(ttl, log, p) else 0
  {
    var e, credits := log.event.e, log.event.credits;
    GivesOnce(D.After(Traces(log.before), ttl), ttl, e, credits, p);
    if e.Reject? {
      BadRaisesNothing(credits, log.event.inWindow, log.event.b, k, p, b);
    } else {
      Occurrences(credits, log.event.inWindow, log.event.b, k, p, b);
    }
  }

  lemma GivesOnce(d: D.Deliveries, ttl: Time, e: D.Event, credits: seq<D.Credit>, p: Peer)
    requires D.Gives(d, ttl, e, credits)
    ensures D.First(p) in credits <==> e.Deliver? && e.from == p
    ensures D.Duplicate(p) in credits <==> D.Duplicates(d, e, p)
    ensures if e.Reject? then forall c :: c in credits ==> c.Bad? else D.NoneTwice(credits)
  {
  }

  /** Along the run, decay of that counter for b only lowers it. */
  predicate DecaysAlong(ps: Params, log: Log, k: Counter, b: Bitmask) {
    match log
    case Start => DecaysIn(ps, k, b)
    case Then(before, event) =>
      DecaysAlong(ps, before, k, b) &&
        (event.Meanwhile? && event.event.SetParams? && event.event.b == b ==> Decays(event.event.bp, k))
  }

  function AgainAll(ttl: Time, log: Log, p: Peer): nat {
    if log.Start? then 0 else AgainAll(ttl, log.before, p) + Again(ttl, log, p)
  }

  function Bound(ttl: Time, log: Log, k: Counter, p: Peer, b: Bitmask): nat {
    Firsts(log, p, b) + if k.MeshDeliveries? then AgainAll(ttl, log, p) else 0
  }

  lemma {:induction false} CounterIsBounded(ps: Params, ttl: Time, log: Log, k: Counter, p: Peer, b: Bitmask)
    requires R.GoodParams(ps, false) && Legal(ttl, log) && DecaysAlong(ps, log, k, b)
    ensures DecaysIn(After(ps, ttl, log).ps, k, b)
    ensures ValueOf(After(ps, ttl, log).s, k, p, b) <= Bound(ttl, log, k, p, b) as real
  {
    if log.Then? {
      CounterIsBounded(ps, ttl, log.before, k, p, b);
      var e, n := After(ps, ttl, log.before), Bound(ttl, log.before, k, p, b);
      match log.event
      case Trace(trace, c, credits, inWindow) =>
        CreditedBounded(e, credits, c, inWindow, Clock(log.before), trace.now, k, p, b, n);
        TraceRaises(ttl, log, k, p, b);
      case Meanwhile(event, at) =>
        R.InvIsSafe(e, Clock(log.before), false);
        StepBounded(e, event, at, k, p, b, n);
    }
  }

  lemma {:induction false} AgainIsDuplicates(ttl: Time, log: Log, p: Peer)
    ensures AgainAll(ttl, log, p) == D.AllDuplicates(Traces(log), ttl, p)
  {
    if log.Then? { AgainIsDuplicates(ttl, log.before, p); }
  }

  /** On every run of the records and the engine together: the first-delivery counter of a peer for a bitmask is
      at most the number of messages it was the first to deliver there; and its mesh-delivery counter exceeds that
      by at most the number of records made, however often it repeats messages. */
  lemma DeliveryCountersAreBounded(ps: Params, ttl: Time, log: Log, p: Peer, b: Bitmask)
    requires R.GoodParams(ps, false) && Legal(ttl, log)
    ensures DecaysAlong(ps, log, FirstDeliveries, b) ==>
              ValueOf(After(ps, ttl, log).s, FirstDeliveries, p, b) <= Firsts(log, p, b) as real
    ensures DecaysAlong(ps, log, MeshDeliveries, b) ==>
              ValueOf(After(ps, ttl, log).s, MeshDeliveries, p, b)
              <= (Firsts(log, p, b) + D.Lives(Traces(log), ttl)) as real
  {
    if DecaysAlong(ps, log, FirstDeliveries, b) { CounterIsBounded(ps, ttl, log, FirstDeliveries, p, b); }
    if DecaysAlong(ps, log, MeshDeliveries, b) {
      CounterIsBounded(ps, ttl, log, MeshDeliveries, p, b);
      AgainIsDuplicates(ttl, log, p);
      D.DuplicatesAtMostLives(Traces(log), ttl, p);
    }
  }

  /** Along the run, the counter has a weight for b. */
  predicate WeighedAlong(ps: Params, log: Log, k: Counter, b: Bitmask) {
    match log
    case Start => b in ps.bitmasks ==> WeightOf(ps.bitmasks[b], k) != 0.0
    case Then(before, event) =>
      WeighedAlong(ps, before, k, b) &&
        (event.Meanwhile? && event.event.SetParams? && event.event.b == b ==> WeightOf(event.event.bp, k) != 0.0)
  }

  /** So validation makes the bounds hold of every counter that counts. */
  lemma {:induction false} WeighedDecaysAlong(ps: Params, ttl: Time, log: Log, k: Counter, b: Bitmask)
    requires R.GoodParams(ps, false) && Legal(ttl, log) && WeighedAlong(ps, log, k, b)
    ensures DecaysAlong(ps, log, k, b)
  {
    match log
    case Start => if b in ps.bitmasks { WeighedDecays(ps.bitmasks[b], k); }
    case Then(before, event) =>
      WeighedDecaysAlong(ps, ttl, before, k, b);
      if event.Meanwhile? && event.event.SetParams? && event.event.b == b { WeighedDecays(event.event.bp, k); }
  }

  // ---------------------------------------------------------------------------------
  // And it does rise by them
  // ---------------------------------------------------------------------------------

  function CountersOf(e: R.Engine, p: Peer, b: Bitmask): BitmaskStats
    requires R.Counted(e, p, b)
  {
    R.StatsOf(e.s.stats[p], b)
  }

  /** How often a credit is given. */
  function Given(credits: seq<D.Credit>, c: D.Credit): nat {
    if credits == [] then 0 else Given(credits[..|credits| - 1], c) + D.One(credits[|credits| - 1] == c)
  }

  /** What n first deliveries make of a counter. */
  function Capped(x: real, n: nat, cap: real): real {
    if n == 0 then x else Least(Capped(x, n - 1, cap) + 1.0, cap)
  }

  lemma CreditCounts(e: R.Engine, c: D.Credit, b: Bitmask, inWindow: bool, now: Time, p: Peer)
    requires R.Safe(e) && R.Counted(e, p, b)
    ensures var f := R.Step(e, EventFor(c, b, inWindow), now);
      && f.ps == e.ps && R.Counted(f, p, b)
      && CountersOf(f, p, b).first
         == Capped(CountersOf(e, p, b).first, D.One(c == D.First(p)), e.ps.bitmasks[b].firstCap)
      && CountersOf(f, p, b).invalid == CountersOf(e, p, b).invalid + D.One(c == D.Bad(p)) as real
  {
  }

  lemma {:induction false} CreditsCount(
    e: R.Engine, credits: seq<D.Credit>, b: Bitmask, inWindow: bool, t: Time, now: Time, p: Peer)
    requires R.Inv(e, t, false) && t <= now && R.Safe(e) && R.Counted(e, p, b)
    ensures var f := Credited(e, credits, b, inWindow, t, now);
      && f.ps == e.ps && R.Counted(f, p, b)
      && CountersOf(f, p, b).first
         == Capped(CountersOf(e, p, b).first, Given(credits, D.First(p)), e.ps.bitmasks[b].firstCap)
      && CountersOf(f, p, b).invalid == CountersOf(e, p, b).invalid + Given(credits, D.Bad(p)) as real
    decreases |credits|
  {
    hide R.Inv, R.Safe, R.Step;
    if credits != [] {
      var init, last := credits[..|credits| - 1], credits[|credits| - 1];
      CreditsCount(e, init, b, inWindow, t, now, p);
      var mid := Credited(e, init, b, inWindow, t, now);
      R.InvIsSafe(mid, now, false);
      CreditCounts(mid, last, b, inWindow, now, p);
    }
  }

  lemma {:induction false} GivenOnce(credits: seq<D.Credit>, c: D.Credit)
    requires D.NoneTwice(credits)
    ensures Given(credits, c) == D.One(c in credits)
  {
    if credits != [] {
      var init, last := credits[..|credits| - 1], credits[|credits| - 1];
      GivenOnce(init, c);
      assert credits == init + [last];
    }
  }

  lemma {:induction false} GivenNever(credits: seq<D.Credit>, c: D.Credit)
    requires c !in credits
    ensures Given(credits, c) == 0
  {
    if credits != [] { GivenNever(credits[..|credits| - 1], c); }
  }

  lemma {:induction false} GivenFirst(credits: seq<D.Credit>, c: D.Credit)
    requires credits != []
    ensures Given(credits, c) == D.One(credits[0] == c) + Given(credits[1..], c)
  {
    var n := |credits| - 1;
    if n > 0 {
      GivenFirst(credits[..n], c);
      assert credits[..n][1..] == credits[1..][..n - 1];
    }
  }

  /** How often an event blames p: a rejected message blames its sender, and everybody who had sent it again;
      sending a message again that was found invalid blames the sender, unless it is known to have sent it. */
  function Blamed(d: D.Deliveries, e: D.Event, p: Peer): nat {
    match e
    case Reject(id, from, reason, _) =>
      if reason != D.IsInvalid || !D.Unsettled(d, id) then 0
      else D.One(from == p) + D.One(p in D.SentAgain(d, id))
    case Repeat(id, from, _) =>
      D.One(from == p && id in d.records && d.records[id].status == D.Invalid && p !in D.SentAgain(d, id))
    case _ => 0
  }

  lemma GivenAre(d: D.Deliveries, ttl: Time, e: D.Event, credits: seq<D.Credit>, p: Peer)
    requires D.Gives(d, ttl, e, credits)
    ensures Given(credits, D.First(p)) == D.One(e.Deliver? && e.from == p)
    ensures Given(credits, D.Bad(p)) == Blamed(d, e, p)
  {
    GivesOnce(d, ttl, e, credits, p);
    if e.Reject? {
      GivenNever(credits, D.First(p));
      if credits != [] {
        GivenFirst(credits, D.Bad(p));
        GivenOnce(credits[1..], D.Bad(p));
      }
    } else {
      GivenOnce(credits, D.First(p));
      GivenOnce(credits, D.Bad(p));
    }
  }

  /** On every run, a trace about bitmask b raises the first-delivery counter of a connected peer by one, up to
      the cap, exactly if that peer delivered the message, and its counter of invalid messages by as much as it
      is blamed. */
  lemma TraceCounts(ps: Params, ttl: Time, log: Log, p: Peer)
    requires R.GoodParams(ps, false) && Legal(ttl, log) && log.Then? && log.event.Trace?
    requires R.Counted(After(ps, ttl, log.before), p, log.event.b)
    ensures var e, f, b := After(ps, ttl, log.before), After(ps, ttl, log), log.event.b;
      && R.Counted(f, p, b) && b in e.ps.bitmasks
      && CountersOf(f, p, b).first
         == (if Delivers(log.event, p, b) then Least(CountersOf(e, p, b).first + 1.0, e.ps.bitmasks[b].firstCap)
             else CountersOf(e, p, b).first)
      && CountersOf(f, p, b).invalid
         == CountersOf(e, p, b).invalid + Blamed(D.After(Traces(log.before), ttl), log.event.e, p) as real
  {
    hide R.Inv, R.Step, D.Gives;
    var e, x := After(ps, ttl, log.before), log.event;
    R.InvIsSafe(e, Clock(log.before), false);
    CreditsCount(e, x.credits, x.b, x.inWindow, Clock(log.before), x.e.now, p);
    GivenAre(D.After(Traces(log.before), ttl), ttl, x.e, x.credits, p);
  }

  // A counter without weight can decay upwards

  const Upwards := FirstOnly.(firstWeight := 0.0, firstDecay := 2.0)

  function UpwardsParams(b: Bitmask): Params { FirstOnlyParams(b).(bitmasks := map[b := Upwards]) }

  function Arrival(p: Peer): Log { Then(Start, Meanwhile(R.Connect(p, []), 1)) }

  function OneDelivery(id: MsgId, p: Peer, b: Bitmask): Log {
    Then(Arrival(p), Trace(D.Deliver(id, p, 1), b, [D.First(p)], true))
  }

  function Decayed(id: MsgId, p: Peer, b: Bitmask): Log { Then(OneDelivery(id, p, b), Meanwhile(R.Refresh, 1)) }

  lemma DecayedIsLegal(id: MsgId, p: Peer, b: Bitmask)
    ensures Legal(10, Arrival(p)) && Legal(10, OneDelivery(id, p, b)) && Legal(10, Decayed(id, p, b))
    ensures Firsts(Decayed(id, p, b), p, b) == 1
  {
    assert Legal(10, Start) && Firsts(Arrival(p), p, b) == 0;
    assert Legal(10, Arrival(p)) && Traces(Arrival(p)) == D.Start;
    assert D.Gives(D.None, 10, D.Deliver(id, p, 1), [D.First(p)]);
    assert Legal(10, OneDelivery(id, p, b)) && Firsts(OneDelivery(id, p, b), p, b) == 1;
  }

  lemma UpwardsIsGood(b: Bitmask)
    ensures R.GoodParams(UpwardsParams(b), false)
  {
  }

  lemma ArrivalIs(ps: Params, p: Peer)
    requires R.GoodParams(ps, false) && Legal(10, Arrival(p))
    ensures After(ps, 10, Arrival(p)) == R.Engine(ps, Newcomer(p))
  {
    assert Legal(10, Start) && After(ps, 10, Start) == R.Fresh(ps);
    assert Connected(State(map[], map[]), p, []) == Newcomer(p);
  }

  lemma CreditedOnce(e: R.Engine, c: D.Credit, b: Bitmask, now: Time)
    requires R.Inv(e, now, false) && R.Safe(e)
    ensures Credited(e, [c], b, true, now, now) == R.Step(e, EventFor(c, b, true), now)
  {
    assert [c][..0] == [] && Credited(e, [], b, true, now, now) == e;
  }

  lemma NewcomerDelivers(p: Peer, b: Bitmask)
    requires R.Safe(R.Engine(UpwardsParams(b), Newcomer(p)))
    ensures R.Step(R.Engine(UpwardsParams(b), Newcomer(p)), R.FirstDelivery(p, b), 1)
         == R.Engine(UpwardsParams(b), Deliverer(p, b, 1.0))
  {
    var ts := R.DeliveredFirst(Upwards, NoStats);
    assert ts == NoStats.(first := 1.0);
  }

  lemma OneDeliveryIs(id: MsgId, p: Peer, b: Bitmask)
    requires R.GoodParams(UpwardsParams(b), false) && Legal(10, OneDelivery(id, p, b))
    ensures After(UpwardsParams(b), 10, OneDelivery(id, p, b)) == R.Engine(UpwardsParams(b), Deliverer(p, b, 1.0))
  {
    var ps := UpwardsParams(b);
    ArrivalIs(ps, p);
    var e := After(ps, 10, Arrival(p));
    R.InvIsSafe(e, 1, false);
    CreditedOnce(e, D.First(p), b, 1);
    NewcomerDelivers(p, b);
  }

  /** Validation does not look at the decay of a counter without weight: one delivery can count as two. */
  lemma UnweighedCanGrow(id: MsgId, p: Peer, b: Bitmask)
    ensures R.GoodParams(UpwardsParams(b), false) && Legal(10, Decayed(id, p, b))
    ensures Firsts(Decayed(id, p, b), p, b) == 1
    ensures ValueOf(After(UpwardsParams(b), 10, Decayed(id, p, b)).s, FirstDeliveries, p, b) == 2.0
  {
    var ps, s := UpwardsParams(b), Deliverer(p, b, 1.0);
    UpwardsIsGood(b);
    DecayedIsLegal(id, p, b);
    OneDeliveryIs(id, p, b);
    assert R.DecayedStats(ps, Upwards, s.stats[p].bitmasks[b], 1).first == 2.0;
    assert ValueOf(R.Refreshed(ps, s, 1), FirstDeliveries, p, b) == 2.0;
  }
}
