/** The accounting of optimistic provide: ADD_PROVIDER RPCs report on one channel, the caller waits
    for some of them, and the rest is collected by goroutines that hold a lease on a job pool. */
module OptimisticProvide {

  type Peer = int

  datatype RpcState = Scheduled | Success | Failure

  /** returnThreshold is also the capacity of the done channel. */
  datatype Config = Config(returnThreshold: nat, poolSize: nat)

  /** Where the calling goroutine is: still issuing RPCs, waiting for the threshold, handing out
      the remaining completions, or returned. */
  datatype Phase = Issuing | Counting | Leasing | Finished

  datatype State = State(
    peerStates: map<Peer, RpcState>,
    running: set<Peer>,      // RPCs that have not returned
    sending: set<Peer>,      // RPCs that returned and are about to report on doneChan
    queued: nat,             // reports buffered in doneChan
    received: nat,           // reports taken from doneChan so far
    done: nat,               // putProvDone
    phase: Phase,
    rpcCount: nat,
    threshold: nat,
    left: nat,               // iterations of the leasing loop still to do
    mainHolds: bool,         // the caller took a report and has not counted it yet
    waiting: nat,            // collectors that hold a lease and wait for a report
    releasing: nat,          // collectors that took a report and still hold their lease
    counting: nat,           // collectors that gave the lease back and have not counted yet
    ours: nat,               // our leases in the job pool
    others: nat,             // leases of other provides
    taken: nat,              // leases we ever took
    returned: nat,           // leases we ever gave back
    closing: nat,            // goroutines whose count told them to close doneChan
    closed: bool,
    fault: bool)             // a send on, a receive from or a second close of the closed channel

  datatype Event =
    | Issue(p: Peer)             // a provider record is to be stored with p
    | Begin                      // the caller enters waitForRPCs
    | Finish(p: Peer, ok: bool)  // an RPC returns
    | Send(p: Peer)              // its goroutine reports on doneChan
    | MainReceive                // the caller takes a report
    | MainCount                  // the caller counts it
    | Lease                      // the caller takes a lease and starts a collector
    | Return                     // the caller returns
    | Collect                    // a collector takes a report
    | Release                    // a collector gives its lease back
    | Count                      // a collector counts its report
    | Close                      // doneChan is closed
    | OtherLease | OtherRelease  // another provide uses the job pool

  function Init(others: nat): State {
    State(map[], {}, {}, 0, 0, 0, Issuing, 0, 0, 0, false, 0, 0, 0, 0, others, 0, 0, 0, false, false)
  }

  predicate Enabled(c: Config, s: State, e: Event) {
    match e
    case Issue(p) => s.phase == Issuing && p !in s.peerStates
    case Begin => s.phase == Issuing
    case Finish(p, _) => p in s.running
    case Send(p) => p in s.sending && (s.closed || s.queued < c.returnThreshold)
    case MainReceive =>
      (s.phase == Counting || (s.phase == Leasing && s.left > 0)) && !s.mainHolds && (s.queued > 0 || s.closed)
    case MainCount => s.mainHolds
    case Lease => s.phase == Leasing && s.left > 0 && !s.mainHolds && s.ours + s.others < c.poolSize
    case Return => s.phase == Leasing && s.left == 0 && !s.mainHolds
    case Collect => s.waiting > 0 && (s.queued > 0 || s.closed)
    case Release => s.releasing > 0 && s.ours + s.others > 0
    case Count => s.counting > 0
    case Close => s.closing > 0
    case OtherLease => s.ours + s.others < c.poolSize
    case OtherRelease => s.others > 0
  }

  function Min(a: nat, b: nat): nat { if a <= b then a else b }

  /** Taking a report; from the closed channel this would yield a value nobody sent. */
  function Take(s: State): State
    requires s.queued > 0 || s.closed
  {
    if s.queued > 0 then s.(queued := s.queued - 1, received := s.received + 1) else s.(fault := true)
  }

  /** One atomic step of one of the goroutines. */
  function Step(c: Config, s: State, e: Event): State
    requires Enabled(c, s, e)
  {
    match e
    case Issue(p) => s.(peerStates := s.peerStates[p := Scheduled], running := s.running + {p})
    case Begin =>
      s.(phase := Counting, rpcCount := |s.peerStates|, threshold := Min(c.returnThreshold, |s.peerStates|))
    case Finish(p, ok) =>
      s.(running := s.running - {p}, sending := s.sending + {p},
         peerStates := s.peerStates[p := if ok then Success else Failure])
    case Send(p) => if s.closed then s.(fault := true) else s.(sending := s.sending - {p}, queued := s.queued + 1)
    case MainReceive =>
      var t := Take(s).(mainHolds := true);
      if s.phase == Leasing then t.(left := s.left - 1) else t
    case MainCount =>
      var t := s.(mainHolds := false, done := s.done + 1);
      if s.phase == Counting then
        if s.done + 1 == s.threshold
        then t.(phase := Leasing, left := if s.rpcCount >= s.done + 1 then s.rpcCount - (s.done + 1) else 0) else t
      else if s.done + 1 == s.rpcCount then t.(closing := s.closing + 1) else t
    case Lease => s.(ours := s.ours + 1, taken := s.taken + 1, waiting := s.waiting + 1, left := s.left - 1)
    case Return => s.(phase := Finished)
    case Collect => Take(s).(waiting := s.waiting - 1, releasing := s.releasing + 1)
    case Release =>
      var t := s.(releasing := s.releasing - 1, counting := s.counting + 1, returned := s.returned + 1);
      if s.ours > 0 then t.(ours := s.ours - 1) else t.(others := s.others - 1)
    case Count =>
      var t := s.(counting := s.counting - 1, done := s.done + 1);
      if s.done + 1 == s.rpcCount then t.(closing := s.closing + 1) else t
    case Close => if s.closed then s.(fault := true) else s.(closed := true, closing := s.closing - 1)
    case OtherLease => s.(others := s.others + 1)
    case OtherRelease => s.(others := s.others - 1)
  }

  predicate Runs(c: Config, s: State, events: seq<Event>, s': State)
    decreases events
  {
    if events == [] then s == s'
    else Enabled(c, s, events[0]) && Runs(c, Step(c, s, events[0]), events[1..], s')
  }

  // ---------------------------------------------------------------------------------
  // What every step keeps
  // ---------------------------------------------------------------------------------

  function Held(s: State): nat { if s.mainHolds then 1 else 0 }

  /** Every RPC is running, reporting, queued or received, and only once. */
  ghost predicate Conserved(s: State) {
    && s.running !! s.sending
    && s.running <= s.peerStates.Keys && s.sending <= s.peerStates.Keys
    && |s.running| + |s.sending| + s.queued + s.received == |s.peerStates|
    && s.received == s.done + Held(s) + s.releasing + s.counting
    && forall p :: p in s.peerStates ==> (s.peerStates[p] == Scheduled <==> p in s.running)
  }

  predicate LeasesMatch(s: State) {
    s.ours == s.waiting + s.releasing && s.taken == s.returned + s.ours
  }

  /** What the caller's progress implies for everyone else. */
  predicate PhaseInv(c: Config, s: State) {
    match s.phase
    case Issuing => s.done == 0 && !s.mainHolds && s.waiting == 0 && s.releasing == 0 && s.counting == 0
    case Counting => (s.done < s.threshold || s.rpcCount == 0) && s.waiting == 0 && s.releasing == 0 && s.counting == 0
    case Leasing => s.left + s.waiting + s.received == s.rpcCount && 1 <= s.threshold <= s.done
    case Finished => s.waiting + s.received == s.rpcCount && 1 <= s.threshold <= s.done && !s.mainHolds
  }

  predicate Started(c: Config, s: State) {
    s.phase != Issuing ==> s.rpcCount == |s.peerStates| && s.threshold == Min(c.returnThreshold, s.rpcCount)
  }

  /** The channel is closed once, by whoever counts the last completion. */
  predicate CloseInv(s: State) {
    s.closing + (if s.closed then 1 else 0)
      == if s.phase != Issuing && s.done == s.rpcCount && s.threshold < s.rpcCount then 1 else 0
  }

  ghost predicate Inv(c: Config, s: State) {
    !s.fault && Conserved(s) && LeasesMatch(s) && PhaseInv(c, s) && Started(c, s) && CloseInv(s)
  }

  /** Nothing is left to happen: every report was received and counted and every lease is back. */
  predicate Settled(s: State) {
    s.phase == Finished && s.running == {} && s.sending == {} && s.queued == 0
    && s.waiting == 0 && s.releasing == 0 && s.counting == 0 && s.closing == 0
  }

  lemma CardPlus(a: set<Peer>, p: Peer)
    requires p !in a
    ensures |a + {p}| == |a| + 1
  {
  }

  lemma CardMinus(a: set<Peer>, p: Peer)
    requires p in a
    ensures |a - {p}| == |a| - 1
  {
    CardPlus(a - {p}, p);
    assert a == (a - {p}) + {p};
  }

  /** Once the last completion has been counted there is nothing left to send or to take. */
  lemma LastCounted(c: Config, s: State)
    requires Inv(c, s) && s.phase != Issuing && (s.closing > 0 || s.closed)
    ensures s.received == s.rpcCount == s.done && s.sending == {} && s.running == {} && s.queued == 0
    ensures !s.mainHolds && s.waiting == 0 && s.releasing == 0 && s.counting == 0
    ensures s.phase == Leasing ==> s.left == 0
  {
  }

  lemma IssueInv(c: Config, s: State, e: Event)
    requires c.returnThreshold >= 1 && Inv(c, s) && Enabled(c, s, e) && (e.Issue? || e.Begin?)
    ensures Inv(c, Step(c, s, e))
  {
    if e.Issue? {
      CardPlus(s.running, e.p);
      assert s.peerStates[e.p := Scheduled].Keys == s.peerStates.Keys + {e.p};
      CardPlus(s.peerStates.Keys, e.p);
    }
  }

  lemma FinishInv(c: Config, s: State, e: Event)
    requires Inv(c, s) && Enabled(c, s, e) && e.Finish?
    ensures Inv(c, Step(c, s, e))
  {
    CardMinus(s.running, e.p);
    CardPlus(s.sending, e.p);
    assert Step(c, s, e).peerStates.Keys == s.peerStates.Keys;
  }

  lemma SendInv(c: Config, s: State, e: Event)
    requires Inv(c, s) && Enabled(c, s, e) && e.Send?
    ensures Inv(c, Step(c, s, e))
  {
    CardMinus(s.sending, e.p);
    if s.closed { LastCounted(c, s); }
  }

  lemma MainInv(c: Config, s: State, e: Event)
    requires Inv(c, s) && Enabled(c, s, e) && (e.MainReceive? || e.Lease? || e.Return?)
    ensures Inv(c, Step(c, s, e))
  {
    if s.closed && s.phase != Issuing { LastCounted(c, s); }
  }

  lemma MainCountInv(c: Config, s: State)
    requires Inv(c, s) && Enabled(c, s, MainCount)
    ensures Inv(c, Step(c, s, MainCount))
  {
    if (s.closed || s.closing > 0) && s.phase != Issuing { LastCounted(c, s); }
  }

  lemma CollectorInv(c: Config, s: State, e: Event)
    requires Inv(c, s) && Enabled(c, s, e) && (e.Collect? || e.Release?)
    ensures Inv(c, Step(c, s, e))
  {
    if s.closed && s.phase != Issuing { LastCounted(c, s); }
  }

  lemma CloserInv(c: Config, s: State, e: Event)
    requires Inv(c, s) && Enabled(c, s, e) && (e.Count? || e.Close?)
    ensures Inv(c, Step(c, s, e))
  {
    if (s.closed || s.closing > 0) && s.phase != Issuing { LastCounted(c, s); }
  }

  lemma StepInv(c: Config, s: State, e: Event)
    requires c.returnThreshold >= 1 && Inv(c, s) && Enabled(c, s, e)
    ensures Inv(c, Step(c, s, e))
  {
    match e
    case Issue(_) => IssueInv(c, s, e);
    case Begin => IssueInv(c, s, e);
    case Finish(_, _) => FinishInv(c, s, e);
    case Send(_) => SendInv(c, s, e);
    case MainReceive => MainInv(c, s, e);
    case MainCount => MainCountInv(c, s);
    case Lease => MainInv(c, s, e);
    case Return => MainInv(c, s, e);
    case Collect => CollectorInv(c, s, e);
    case Release => CollectorInv(c, s, e);
    case Count => CloserInv(c, s, e);
    case Close => CloserInv(c, s, e);
    case OtherLease =>
    case OtherRelease =>
  }

  lemma {:induction false} RunInv(c: Config, s: State, events: seq<Event>, s': State)
    requires c.returnThreshold >= 1 && Inv(c, s) && Runs(c, s, events, s')
    ensures Inv(c, s')
    decreases events
  {
    if events != [] {
      StepInv(c, s, events[0]);
      RunInv(c, Step(c, s, events[0]), events[1..], s');
    }
  }

  // ---------------------------------------------------------------------------------
  // Results over whole runs
  // ---------------------------------------------------------------------------------

  /** In every interleaving: nothing is sent on or taken from the closed channel and it is not closed
      twice; if it is closed then every completion was received and counted; leases taken and
      returned differ exactly by those still held; and no more completions are taken than there
      are RPCs. */
  lemma AccountingIsSafe(c: Config, others: nat, events: seq<Event>, s: State)
    requires c.returnThreshold >= 1 && Runs(c, Init(others), events, s)
    ensures !s.fault
    ensures s.received <= |s.peerStates|
    ensures s.closed ==> s.received == s.done == s.rpcCount && s.sending == {} && s.running == {} && s.queued == 0
    ensures s.taken == s.returned + s.waiting + s.releasing
  {
    assert Inv(c, Init(others));
    RunInv(c, Init(others), events, s);
    if s.closed && s.phase != Issuing { LastCounted(c, s); }
  }

  /** When everything has come to rest, exactly rpcCount completions were received and counted, each
      RPC has a final state, and each lease taken was returned. */
  lemma SettledAccounts(c: Config, others: nat, events: seq<Event>, s: State)
    requires c.returnThreshold >= 1 && Runs(c, Init(others), events, s) && Settled(s)
    ensures s.received == s.done == s.rpcCount == |s.peerStates|
    ensures s.taken == s.returned
    ensures forall p :: p in s.peerStates ==> s.peerStates[p] != Scheduled
    ensures s.closed <==> s.threshold < s.rpcCount
  {
    RunInv(c, Init(others), events, s);
  }

  /** How many completions have been counted. */
  function Counted(events: seq<Event>): nat {
    if events == [] then 0
    else (if events[0].MainCount? || events[0].Count? then 1 else 0) + Counted(events[1..])
  }

  lemma StepCounts(c: Config, s: State, e: Event)
    requires Enabled(c, s, e)
    ensures var t := Step(c, s, e);
      && t.done == s.done + (if e.MainCount? || e.Count? then 1 else 0)
      && (t.phase == Issuing <==> s.phase == Issuing && e != Begin)
  {
    match e {
      case Issue(_) =>
      case Begin =>
      case Finish(_, _) =>
      case Send(_) =>
      case MainReceive =>
      case MainCount =>
      case Lease =>
      case Return =>
      case Collect =>
      case Release =>
      case Count =>
      case Close =>
      case OtherLease =>
      case OtherRelease =>
    }
  }

  lemma {:induction false} DoneIsCounted(c: Config, s: State, events: seq<Event>, s': State)
    requires Runs(c, s, events, s')
    ensures s'.done == s.done + Counted(events)
    ensures s'.phase == Issuing <==> s.phase == Issuing && Begin !in events
    decreases events
  {
    if events != [] {
      hide Step, Enabled;
      StepCounts(c, s, events[0]);
      DoneIsCounted(c, Step(c, s, events[0]), events[1..], s');
      assert events == [events[0]] + events[1..];
    }
  }

  /** The caller goes on to hand out leases, and may return, exactly once it has begun to wait and as many
      completions were counted as the threshold asks for or, if there are fewer, as RPCs were issued.
      Without any RPC it never does. */
  lemma WaitsForThreshold(c: Config, others: nat, events: seq<Event>, s: State)
    requires c.returnThreshold >= 1 && Runs(c, Init(others), events, s)
    ensures s.phase == Leasing || s.phase == Finished
       <==> Begin in events && s.peerStates != map[]
            && (Counted(events) >= c.returnThreshold || Counted(events) >= |s.peerStates|)
    ensures s.phase == Counting ==> s.waiting == s.releasing == s.counting == 0 && s.taken == s.returned
  {
    DoneIsCounted(c, Init(others), events, s);
    RunInv(c, Init(others), events, s);
    assert s.peerStates == map[] <==> |s.peerStates| == 0;
  }

  predicate StateIs(s: State, p: Peer, r: RpcState) { p in s.peerStates && s.peerStates[p] == r }

  lemma StepOutcome(c: Config, s: State, e: Event, p: Peer)
    requires Conserved(s) && Enabled(c, s, e)
    ensures var t := Step(c, s, e);
      && (StateIs(t, p, Success) <==> StateIs(s, p, Success) || e == Finish(p, true))
      && (StateIs(t, p, Failure) <==> StateIs(s, p, Failure) || e == Finish(p, false))
  {
  }

  lemma {:induction false} OutcomeStays(c: Config, s: State, events: seq<Event>, s': State, p: Peer)
    requires c.returnThreshold >= 1 && Inv(c, s) && Runs(c, s, events, s')
    ensures StateIs(s', p, Success) <==> StateIs(s, p, Success) || Finish(p, true) in events
    ensures StateIs(s', p, Failure) <==> StateIs(s, p, Failure) || Finish(p, false) in events
    decreases events
  {
    if events != [] {
      hide Step, Enabled, Conserved;
      StepInv(c, s, events[0]);
      StepOutcome(c, s, events[0], p);
      OutcomeStays(c, Step(c, s, events[0]), events[1..], s', p);
      assert events == [events[0]] + events[1..];
    }
  }

  /** The state of each RPC is what it returned, whatever happens after it did. */
  lemma OutcomeIsReported(c: Config, others: nat, events: seq<Event>, s: State, p: Peer)
    requires c.returnThreshold >= 1 && Runs(c, Init(others), events, s)
    ensures StateIs(s, p, Success) <==> Finish(p, true) in events
    ensures StateIs(s, p, Failure) <==> Finish(p, false) in events
  {
    OutcomeStays(c, Init(others), events, s, p);
  }

  ghost function AnyOf(ps: set<Peer>): (p: Peer)
    requires ps != {}
    ensures p in ps
  {
    assert exists p :: p in ps by {
      if forall p :: p !in ps { assert false; }
    }
    var p :| p in ps; p
  }

  /** A step of our own that is possible now. */
  ghost function Progress(s: State): Event {
    if s.phase == Issuing then Begin
    else if s.mainHolds then MainCount
    else if s.releasing > 0 then Release
    else if s.counting > 0 then Count
    else if s.closing > 0 then Close
    else if s.queued > 0 then (if s.waiting > 0 then Collect else MainReceive)
    else if s.sending != {} then Send(AnyOf(s.sending))
    else if s.running != {} then Finish(AnyOf(s.running), true)
    else Return
  }

  lemma ProgressWithRpcs(c: Config, s: State)
    requires c.returnThreshold >= 1 && Inv(c, s) && s.phase != Issuing && s.rpcCount >= 1
    ensures Settled(s) || Enabled(c, s, Progress(s))
  {
  }

  lemma HangsWithoutRpcs(c: Config, s: State)
    requires Inv(c, s) && s.phase != Issuing && s.rpcCount == 0
    ensures !Settled(s) && forall e :: Ours(e) ==> !Enabled(c, s, e)
  {
    assert s.running == {} && s.sending == {};
  }

  /** Deadlock freedom holds exactly when at least one RPC was issued. With none, the caller waits
      for a completion that nobody will send. */
  lemma NeverStuckIff(c: Config, others: nat, events: seq<Event>, s: State)
    requires c.returnThreshold >= 1 && Runs(c, Init(others), events, s) && s.phase != Issuing
    ensures s.rpcCount >= 1 <==> Settled(s) || exists e :: Ours(e) && Enabled(c, s, e)
  {
    RunInv(c, Init(others), events, s);
    if s.rpcCount >= 1 {
      ProgressWithRpcs(c, s);
      assert Ours(Progress(s));
    } else {
      HangsWithoutRpcs(c, s);
    }
  }

  /** The run on which waiting begins before any RPC was issued ends in such a state. */
  lemma WaitsForever(c: Config, others: nat)
    requires c.returnThreshold >= 1
    ensures Enabled(c, Init(others), Begin)
    ensures var s := Step(c, Init(others), Begin);
      Runs(c, Init(others), [Begin], s) && !Settled(s) && forall e :: Ours(e) ==> !Enabled(c, s, e)
  {
    var s := Step(c, Init(others), Begin);
    assert [Begin][1..] == [];
    RunInv(c, Init(others), [Begin], s);
    HangsWithoutRpcs(c, s);
  }

  predicate Ours(e: Event) { !e.OtherLease? && !e.OtherRelease? && !e.Issue? }

  function PhaseRank(k: Phase): nat {
    match k case Issuing => 3 case Counting => 2 case Leasing => 1 case Finished => 0
  }

  /** A measure that each step of ours lowers. */
  function Measure(s: State): nat {
    8 * |s.running| + 7 * |s.sending| + 6 * s.queued + 2 * Held(s) + 3 * s.releasing + 2 * s.counting + s.closing
    + (if s.phase == Leasing then s.left else if s.phase == Finished then 0 else |s.peerStates|) + PhaseRank(s.phase)
  }

  lemma RpcLowersMeasure(c: Config, s: State, e: Event)
    requires Inv(c, s) && Enabled(c, s, e) && (e.Finish? || e.Send?)
    ensures Measure(Step(c, s, e)) < Measure(s)
  {
    if e.Finish? {
      CardMinus(s.running, e.p);
      CardPlus(s.sending, e.p);
      assert Step(c, s, e).peerStates.Keys == s.peerStates.Keys;
    } else {
      CardMinus(s.sending, e.p);
      if s.closed { LastCounted(c, s); }
    }
  }

  lemma MainLowersMeasure(c: Config, s: State, e: Event)
    requires Inv(c, s) && Enabled(c, s, e)
    requires e.Begin? || e.MainReceive? || e.MainCount? || e.Lease? || e.Return?
    ensures Measure(Step(c, s, e)) < Measure(s)
  {
    if s.closed && s.phase != Issuing { LastCounted(c, s); }
  }

  lemma CollectorLowersMeasure(c: Config, s: State, e: Event)
    requires Inv(c, s) && Enabled(c, s, e) && (e.Collect? || e.Release? || e.Count? || e.Close?)
    ensures Measure(Step(c, s, e)) < Measure(s)
  {
    if s.closed && s.phase != Issuing { LastCounted(c, s); }
  }

  lemma StepLowersMeasure(c: Config, s: State, e: Event)
    requires Inv(c, s) && Enabled(c, s, e) && Ours(e)
    ensures Measure(Step(c, s, e)) < Measure(s)
  {
    if e.Finish? || e.Send? {
      RpcLowersMeasure(c, s, e);
    } else if e.Begin? || e.MainReceive? || e.MainCount? || e.Lease? || e.Return? {
      MainLowersMeasure(c, s, e);
    } else {
      CollectorLowersMeasure(c, s, e);
    }
  }

  lemma OtherKeepsMeasure(c: Config, s: State, e: Event)
    requires Enabled(c, s, e) && (e.OtherLease? || e.OtherRelease?)
    ensures Measure(Step(c, s, e)) == Measure(s)
  {
  }

  function OurSteps(events: seq<Event>): nat {
    if events == [] then 0 else (if Ours(events[0]) then 1 else 0) + OurSteps(events[1..])
  }

  /** However other provides use the job pool, we take a bounded number of steps after the last RPC
      was issued; with NeverStuckIff, everything settles. */
  lemma {:induction false} OurStepsAreBounded(c: Config, s: State, events: seq<Event>, s': State)
    requires c.returnThreshold >= 1 && Inv(c, s) && Runs(c, s, events, s')
    requires forall i :: 0 <= i < |events| ==> !events[i].Issue?
    ensures OurSteps(events) + Measure(s') <= Measure(s)
    decreases events
  {
    if events != [] {
      var e := events[0];
      assert !e.Issue?;
      if Ours(e) { StepLowersMeasure(c, s, e); } else { OtherKeepsMeasure(c, s, e); }
      StepInv(c, s, e);
      OurStepsAreBounded(c, Step(c, s, e), events[1..], s');
    }
  }
}
