/** The validation pipeline: one verdict out of many, and one publication per message. */
module Validation {
  import opened Peers

  datatype Verdict = Accept | Ignore | Throttled | Reject

  function Rank(v: Verdict): nat {
    match v
    case Accept => 0
    case Ignore => 1
    case Throttled => 2
    case Reject => 3
  }

  /** The worse of two verdicts. */
  function Join(a: Verdict, b: Verdict): Verdict { if Rank(a) >= Rank(b) then a else b }

  function JoinAll(vs: seq<Verdict>): Verdict {
    if vs == [] then Accept else Join(JoinAll(vs[..|vs| - 1]), vs[|vs| - 1])
  }

  /** The verdict of all is the worst there is, whatever the order. */
  lemma {:induction false} JoinAllIsWorst(vs: seq<Verdict>)
    ensures forall v :: v in vs ==> Rank(v) <= Rank(JoinAll(vs))
    ensures JoinAll(vs) == Accept || JoinAll(vs) in vs
  {
    if vs != [] {
      JoinAllIsWorst(vs[..|vs| - 1]);
      assert vs == vs[..|vs| - 1] + [vs[|vs| - 1]];
    }
  }

  /** Rejecting goes before throttling, throttling before ignoring, and accepting takes all of them. */
  lemma JoinAllExactly(vs: seq<Verdict>)
    ensures JoinAll(vs) ==
      if Reject in vs then Reject else if Throttled in vs then Throttled else if Ignore in vs then Ignore else Accept
  {
    JoinAllIsWorst(vs);
  }

  lemma JoinAllPermutes(a: seq<Verdict>, b: seq<Verdict>)
    requires multiset(a) == multiset(b)
    ensures JoinAll(a) == JoinAll(b)
  {
    JoinAllIsWorst(a);
    JoinAllIsWorst(b);
    forall v ensures v in a <==> v in b { assert v in multiset(a) <==> v in multiset(b); }
  }

  // ---------------------------------------------------------------------------------
  // One message
  // ---------------------------------------------------------------------------------

  /** A validator: what it would say, and whether its own throttle is full. */
  datatype Validator = Validator(inlined: bool, verdict: Verdict, full: bool)

  predicate RunsInline(v: Validator, synchronous: bool) { v.inlined || synchronous }

  /** What a validator contributes: a throttled one cannot be asked. */
  function Effective(v: Validator, synchronous: bool, throttled: bool): Verdict {
    if RunsInline(v, synchronous) then v.verdict else if throttled || v.full then Throttled else v.verdict
  }

  function EffectiveAll(vals: seq<Validator>, synchronous: bool, throttled: bool): seq<Verdict> {
    seq(|vals|, i requires 0 <= i < |vals| => Effective(vals[i], synchronous, throttled))
  }

  function InlineOf(vals: seq<Validator>, synchronous: bool): seq<Validator> {
    if vals == [] then []
    else InlineOf(vals[..|vals| - 1], synchronous)
         + if RunsInline(vals[|vals| - 1], synchronous) then [vals[|vals| - 1]] else []
  }

  function AsyncOf(vals: seq<Validator>, synchronous: bool): seq<Validator> {
    if vals == [] then []
    else AsyncOf(vals[..|vals| - 1], synchronous)
         + if RunsInline(vals[|vals| - 1], synchronous) then [] else [vals[|vals| - 1]]
  }

  function Said(vals: seq<Validator>): seq<Verdict> { seq(|vals|, i requires 0 <= i < |vals| => vals[i].verdict) }

  function SaidAsync(vals: seq<Validator>, throttled: bool): seq<Verdict> {
    seq(|vals|, i requires 0 <= i < |vals| => if throttled || vals[i].full then Throttled else vals[i].verdict)
  }

  /** Validators themselves do not throttle. */
  predicate Proper(vals: seq<Validator>) { forall i :: 0 <= i < |vals| ==> vals[i].verdict != Throttled }

  lemma JoinSnoc(vs: seq<Verdict>, v: Verdict)
    ensures JoinAll(vs + [v]) == Join(JoinAll(vs), v)
  {
    assert (vs + [v])[..|vs|] == vs;
  }

  lemma JoinMoves(a: Verdict, b: Verdict, e: Verdict)
    ensures Join(Join(a, b), e) == Join(Join(a, e), b) == Join(a, Join(b, e))
  {
  }

  lemma EffectiveSnoc(vals: seq<Validator>, synchronous: bool, throttled: bool)
    requires vals != []
    ensures var e := Effective(vals[|vals| - 1], synchronous, throttled);
      JoinAll(EffectiveAll(vals, synchronous, throttled))
        == Join(JoinAll(EffectiveAll(vals[..|vals| - 1], synchronous, throttled)), e)
  {
    var before, e := vals[..|vals| - 1], Effective(vals[|vals| - 1], synchronous, throttled);
    assert EffectiveAll(vals, synchronous, throttled) == EffectiveAll(before, synchronous, throttled) + [e];
    JoinSnoc(EffectiveAll(before, synchronous, throttled), e);
  }

  lemma SaidSnoc(vals: seq<Validator>, v: Validator, throttled: bool)
    ensures JoinAll(Said(vals + [v])) == Join(JoinAll(Said(vals)), v.verdict)
    ensures JoinAll(SaidAsync(vals + [v], throttled))
         == Join(JoinAll(SaidAsync(vals, throttled)), if throttled || v.full then Throttled else v.verdict)
  {
    var e := if throttled || v.full then Throttled else v.verdict;
    assert Said(vals + [v]) == Said(vals) + [v.verdict];
    assert SaidAsync(vals + [v], throttled) == SaidAsync(vals, throttled) + [e];
    JoinSnoc(Said(vals), v.verdict);
    JoinSnoc(SaidAsync(vals, throttled), e);
  }

  lemma {:induction false} SplitJoins(vals: seq<Validator>, synchronous: bool, throttled: bool)
    ensures JoinAll(EffectiveAll(vals, synchronous, throttled))
         == Join(JoinAll(Said(InlineOf(vals, synchronous))), JoinAll(SaidAsync(AsyncOf(vals, synchronous), throttled)))
  {
    if vals != [] {
      var before, v := vals[..|vals| - 1], vals[|vals| - 1];
      SplitJoins(before, synchronous, throttled);
      EffectiveSnoc(vals, synchronous, throttled);
      var inline, async := InlineOf(before, synchronous), AsyncOf(before, synchronous);
      var e := Effective(v, synchronous, throttled);
      JoinMoves(JoinAll(Said(inline)), JoinAll(SaidAsync(async, throttled)), e);
      if RunsInline(v, synchronous) {
        SaidSnoc(inline, v, throttled);
        assert InlineOf(vals, synchronous) == inline + [v] && AsyncOf(vals, synchronous) == async + [] == async;
      } else {
        SaidSnoc(async, v, throttled);
        assert InlineOf(vals, synchronous) == inline + [] == inline && AsyncOf(vals, synchronous) == async + [v];
      }
    }
  }

  /** When nothing asynchronous is let in, all of it counts as throttled. */
  lemma AllThrottled(async: seq<Validator>)
    requires async != []
    ensures JoinAll(SaidAsync(async, true)) == Throttled
  {
    var vs := SaidAsync(async, true);
    JoinAllIsWorst(vs);
    assert vs[0] in vs;
  }

  /** The inline validators, one after the other, up to the first that rejects. */
  method RunInline(vals: seq<Validator>) returns (result: Verdict)
    requires Proper(vals)
    ensures result == JoinAll(Said(vals)) && result != Throttled
  {
    result := Accept;
    for i := 0 to |vals|
      invariant result == JoinAll(Said(vals[..i])) && (result == Accept || result == Ignore)
    {
      assert Said(vals[..i + 1])[..i] == Said(vals[..i]);
      match vals[i].verdict
      case Accept =>
      case Reject =>
        RejectIsWorst(Said(vals), i);
        return Reject;
      case Ignore => result := Ignore;
    }
    assert vals[..|vals|] == vals;
  }

  lemma RejectIsWorst(vs: seq<Verdict>, i: nat)
    requires i < |vs| && vs[i] == Reject
    ensures JoinAll(vs) == Reject
  {
    JoinAllIsWorst(vs);
    assert Rank(vs[i]) <= Rank(JoinAll(vs));
  }

  /** Collects the verdicts of the others in the order in which they come in, up to the first that rejects. */
  method CollectAsync(arrivals: seq<Verdict>) returns (result: Verdict)
    ensures result == JoinAll(arrivals)
  {
    result := Accept;
    for i := 0 to |arrivals|
      invariant result == JoinAll(arrivals[..i]) && result != Reject
    {
      assert arrivals[..i + 1][..i] == arrivals[..i];
      match arrivals[i]
      case Accept =>
      case Reject =>
        RejectIsWorst(arrivals, i);
        return Reject;
      case Ignore => if result != Throttled { result := Ignore; }
      case Throttled => result := Throttled;
    }
    assert arrivals[..|arrivals|] == arrivals;
  }

  method SplitValidators(vals: seq<Validator>, synchronous: bool)
    returns (inline: seq<Validator>, async: seq<Validator>)
    ensures inline == InlineOf(vals, synchronous) && async == AsyncOf(vals, synchronous)
  {
    inline, async := [], [];
    for i := 0 to |vals|
      invariant inline == InlineOf(vals[..i], synchronous) && async == AsyncOf(vals[..i], synchronous)
    {
      assert vals[..i + 1][..i] == vals[..i];
      if vals[i].inlined || synchronous {
        inline := inline + [vals[i]];
      } else {
        async := async + [vals[i]];
      }
    }
    assert vals[..|vals|] == vals;
  }

  lemma {:induction false} PartsAreProper(vals: seq<Validator>, synchronous: bool)
    requires Proper(vals)
    ensures Proper(InlineOf(vals, synchronous))
  {
    if vals != [] { PartsAreProper(vals[..|vals| - 1], synchronous); }
  }

  /** The asynchronous verdicts in some order. */
  method Arrive(vs: seq<Verdict>) returns (arrivals: seq<Verdict>)
    ensures multiset(arrivals) == multiset(vs)
  {
    arrivals := [];
    var rest := vs;
    while rest != []
      invariant multiset(arrivals) + multiset(rest) == multiset(vs)
      decreases |rest|
    {
      var k :| 0 <= k < |rest|;
      assert rest == rest[..k] + [rest[k]] + rest[k + 1..];
      arrivals := arrivals + [rest[k]];
      rest := rest[..k] + rest[k + 1..];
    }
  }

  /** The asynchronous validators; a single one is asked without collecting. */
  method RunAsync(async: seq<Validator>) returns (outcome: Verdict)
    requires async != []
    ensures outcome == JoinAll(SaidAsync(async, false))
  {
    if |async| == 1 {
      outcome := if async[0].full then Throttled else async[0].verdict;
      JoinSnoc([], outcome);
      assert SaidAsync(async, false) == [] + [outcome];
    } else {
      var arrivals := Arrive(SaidAsync(async, false));
      JoinAllPermutes(arrivals, SaidAsync(async, false));
      outcome := CollectAsync(arrivals);
    }
  }

  /** The fate of a message: for any split into inline and asynchronous validators, any order of arrival and
      any throttling it is the worst of what the validators say. */
  method Validate(vals: seq<Validator>, synchronous: bool, throttled: bool) returns (outcome: Verdict)
    requires Proper(vals)
    ensures outcome == JoinAll(EffectiveAll(vals, synchronous, throttled))
  {
    SplitJoins(vals, synchronous, throttled);
    PartsAreProper(vals, synchronous);
    var inline, async := SplitValidators(vals, synchronous);
    var result := RunInline(inline);
    if result == Reject { return Reject; }
    outcome := result;
    if |async| > 0 {
      if throttled {
        AllThrottled(async);
        return Throttled;
      }
      outcome := RunAsync(async);
      if outcome == Accept && result != Accept { outcome := result; }
    }
  }

  // ---------------------------------------------------------------------------------
  // The pipeline
  // ---------------------------------------------------------------------------------

  /** A message on its way: its validators, and whether there is room for it to be validated asynchronously. */
  datatype Job = Job(id: MsgId, vals: seq<Validator>, synchronous: bool, throttled: bool)

  datatype Stage = Inline | Async | Sending | Published | Dropped

  datatype Ticket = Ticket(job: Job, stage: Stage)

  /** Every message that was newly marked as seen has a ticket. */
  datatype Pipeline = Pipeline(seen: set<MsgId>, tickets: seq<Ticket>)

  const Idle := Pipeline({}, [])

  function InlineResult(j: Job): Verdict { JoinAll(Said(InlineOf(j.vals, j.synchronous))) }

  function AsyncResult(j: Job): Verdict { JoinAll(SaidAsync(AsyncOf(j.vals, j.synchronous), false)) }

  /** The next stage of a message, from the results of the loops over its validators. */
  function Next(j: Job, stage: Stage): Stage {
    match stage
    case Inline =>
      if InlineResult(j) == Reject then Dropped
      else if AsyncOf(j.vals, j.synchronous) != [] then if j.throttled then Dropped else Async
      else if InlineResult(j) == Accept then Sending
      else Dropped
    case Async => if AsyncResult(j) == Accept && InlineResult(j) == Accept then Sending else Dropped
    case Sending => Published
    case _ => stage
  }

  function Moved(t: Ticket): Ticket { t.(stage := Next(t.job, t.stage)) }

  datatype Event = Direct(job: Job) | Begin(job: Job) | Go(n: nat) | Forget(id: MsgId)

  /** Only a message without validators is not validated. */
  predicate Enabled(s: Pipeline, e: Event) {
    match e
    case Direct(job) => job.vals == []
    case Go(n) => n < |s.tickets|
    case _ => true
  }

  function Entered(s: Pipeline, job: Job, stage: Stage): Pipeline {
    if job.id in s.seen then s else Pipeline(s.seen + {job.id}, s.tickets + [Ticket(job, stage)])
  }

  function Step(s: Pipeline, e: Event): Pipeline
    requires Enabled(s, e)
  {
    match e
    case Direct(job) => Entered(s, job, Published)
    case Begin(job) => Entered(s, job, Inline)
    case Go(n) => s.(tickets := s.tickets[n := Moved(s.tickets[n])])
    case Forget(id) => s.(seen := s.seen - {id})
  }

  datatype Log = Start | Then(before: Log, e: Event)

  /** A step that is not possible is not taken. */
  function After(log: Log): Pipeline {
    if log.Start? then Idle
    else if Enabled(After(log.before), log.e) then Step(After(log.before), log.e)
    else After(log.before)
  }

  // Published exactly if accepted

  /** The worst of all verdicts, which Validate computes. */
  function Outcome(j: Job): Verdict { JoinAll(EffectiveAll(j.vals, j.synchronous, j.throttled)) }

  /** Every validator could be asked, and accepts. */
  predicate AcceptedByAll(j: Job) {
    forall i :: 0 <= i < |j.vals| ==>
      && j.vals[i].verdict == Accept
      && (j.vals[i].inlined || j.synchronous || !(j.throttled || j.vals[i].full))
  }

  lemma OutcomeAcceptsIff(j: Job)
    ensures Outcome(j) == Accept <==> AcceptedByAll(j)
  {
    var vs := EffectiveAll(j.vals, j.synchronous, j.throttled);
    JoinAllIsWorst(vs);
    if Outcome(j) == Accept {
      forall i | 0 <= i < |j.vals| ensures vs[i] == Accept {
        assert vs[i] in vs && Rank(vs[i]) <= Rank(Accept);
      }
      assert forall i :: 0 <= i < |j.vals| ==> vs[i] == Effective(j.vals[i], j.synchronous, j.throttled);
    } else {
      var i :| 0 <= i < |vs| && vs[i] == Outcome(j);
      assert vs[i] == Effective(j.vals[i], j.synchronous, j.throttled) != Accept;
    }
  }

  /** What a stage says about the verdicts. */
  predicate Rightly(t: Ticket) {
    match t.stage
    case Inline => true
    case Async => !t.job.throttled && AsyncOf(t.job.vals, t.job.synchronous) != []
    case Sending => Outcome(t.job) == Accept
    case Published => Outcome(t.job) == Accept
    case Dropped => Outcome(t.job) != Accept
  }

  lemma NextIsRight(t: Ticket)
    requires Rightly(t)
    ensures Rightly(Moved(t))
  {
    var j := t.job;
    var async := AsyncOf(j.vals, j.synchronous);
    SplitJoins(j.vals, j.synchronous, j.throttled);
    if async != [] && j.throttled { AllThrottled(async); }
    if async == [] { assert SaidAsync(async, j.throttled) == []; }
  }

  /** Along every run a message is sent on or published only if every one of its validators was asked and
      accepts it, and dropped only if one does not, or was throttled. */
  lemma {:induction false} PublishedIffAccepted(log: Log, n: nat)
    requires n < |After(log).tickets|
    ensures Rightly(After(log).tickets[n])
    ensures var t := After(log).tickets[n];
      && (t.stage == Sending || t.stage == Published ==> AcceptedByAll(t.job))
      && (t.stage == Dropped ==> !AcceptedByAll(t.job))
  {
    var s, t := After(log.before), After(log).tickets[n];
    if n < |s.tickets| {
      PublishedIffAccepted(log.before, n);
      NextIsRight(s.tickets[n]);
    } else {
      assert t.job.vals == [] ==> EffectiveAll(t.job.vals, t.job.synchronous, t.job.throttled) == [];
    }
    OutcomeAcceptsIff(t.job);
  }

  // At most one publication

  function One(b: bool): nat { if b then 1 else 0 }

  /** The step publishes a message with that id. */
  predicate Publishes(s: Pipeline, e: Event, id: MsgId) {
    match e
    case Direct(job) => job.vals == [] && job.id == id && id !in s.seen
    case Go(n) => n < |s.tickets| && s.tickets[n].stage == Sending && s.tickets[n].job.id == id
    case _ => false
  }

  function Publications(log: Log, id: MsgId): nat {
    if log.Start? then 0 else Publications(log.before, id) + One(Publishes(After(log.before), log.e, id))
  }

  /** How often the seen cache forgot id. */
  function Forgotten(log: Log, id: MsgId): nat {
    if log.Start? then 0 else Forgotten(log.before, id) + One(log.e == Forget(id))
  }

  predicate IsFor(t: Ticket, id: MsgId) { t.job.id == id }

  predicate IsOut(t: Ticket, id: MsgId) { t.job.id == id && t.stage == Published }

  /** The tickets for id. */
  function Marks(ts: seq<Ticket>, id: MsgId): nat {
    if ts == [] then 0 else Marks(ts[..|ts| - 1], id) + One(IsFor(ts[|ts| - 1], id))
  }

  function Out(ts: seq<Ticket>, id: MsgId): (n: nat)
    ensures n <= Marks(ts, id)
  {
    if ts == [] then 0 else Out(ts[..|ts| - 1], id) + One(IsOut(ts[|ts| - 1], id))
  }

  lemma CountsSnoc(ts: seq<Ticket>, t: Ticket, id: MsgId)
    ensures Marks(ts + [t], id) == Marks(ts, id) + One(IsFor(t, id))
    ensures Out(ts + [t], id) == Out(ts, id) + One(IsOut(t, id))
  {
    assert (ts + [t])[..|ts|] == ts;
  }

  lemma {:induction false} CountsUpdate(ts: seq<Ticket>, n: nat, t: Ticket, id: MsgId)
    requires n < |ts| && t.job == ts[n].job
    ensures Marks(ts[n := t], id) == Marks(ts, id)
    ensures Out(ts[n := t], id) + One(IsOut(ts[n], id)) == Out(ts, id) + One(IsOut(t, id))
  {
    var k := |ts| - 1;
    if n == k {
      assert ts[n := t][..k] == ts[..k];
    } else {
      CountsUpdate(ts[..k], n, t, id);
      assert ts[n := t][..k] == ts[..k][n := t];
    }
  }

  lemma EnteredCounts(s: Pipeline, job: Job, stage: Stage, id: MsgId)
    ensures var t := Entered(s, job, stage);
      && Out(t.tickets, id) == Out(s.tickets, id) + One(job.id !in s.seen && job.id == id && stage == Published)
      && Marks(t.tickets, id) + One(id in s.seen) == Marks(s.tickets, id) + One(id in t.seen)
  {
    CountsSnoc(s.tickets, Ticket(job, stage), id);
  }

  lemma MovedCounts(ts: seq<Ticket>, n: nat, id: MsgId)
    requires n < |ts|
    ensures Marks(ts[n := Moved(ts[n])], id) == Marks(ts, id)
    ensures Out(ts[n := Moved(ts[n])], id) == Out(ts, id) + One(ts[n].stage == Sending && ts[n].job.id == id)
  {
    CountsUpdate(ts, n, Moved(ts[n]), id);
  }

  lemma StepCounts(s: Pipeline, e: Event, id: MsgId)
    requires Enabled(s, e)
    ensures Out(Step(s, e).tickets, id) == Out(s.tickets, id) + One(Publishes(s, e, id))
    ensures Marks(Step(s, e).tickets, id) + One(id in s.seen)
         <= Marks(s.tickets, id) + One(e == Forget(id)) + One(id in Step(s, e).seen)
  {
    match e
    case Direct(job) => EnteredCounts(s, job, Published, id);
    case Begin(job) => EnteredCounts(s, job, Inline, id);
    case Go(n) => MovedCounts(s.tickets, n, id);
    case Forget(_) =>
  }

  /** Along every run, by whichever of the three ways a message goes, it is published at most as often as it
      was newly marked as seen: so at most once more than it was forgotten. */
  lemma {:induction false} PublishedAtMostOnce(log: Log, id: MsgId)
    ensures Publications(log, id) == Out(After(log).tickets, id)
    ensures Marks(After(log).tickets, id) <= Forgotten(log, id) + One(id in After(log).seen)
    ensures Publications(log, id) <= Forgotten(log, id) + 1
  {
    if log.Then? {
      PublishedAtMostOnce(log.before, id);
      if Enabled(After(log.before), log.e) { StepCounts(After(log.before), log.e, id); }
    }
  }
}
