/** The score engine's delivery records: a map of records and a list of them by expiry. */
module Deliveries {
  import opened Peers

  type Time = int

  datatype Status = Unknown | Valid | Invalid | Ignored | Throttled

  /** Who forwarded the message; released once it no longer matters. */
  datatype Forwarders = Released | Tracked(peers: set<Peer>)

  datatype Record = Record(status: Status, who: Forwarders, firstSeen: Time, validated: Time)

  datatype Entry = Entry(id: MsgId, expire: Time)

  datatype Deliveries = Deliveries(entries: seq<Entry>, records: map<MsgId, Record>)

  const None := Deliveries([], map[])

  /** What a trace makes the engine do to a peer's counters. */
  datatype Credit = First(p: Peer) | Duplicate(p: Peer) | Bad(p: Peer)

  function Appended(d: Deliveries, ttl: Time, id: MsgId, now: Time): Deliveries {
    if id in d.records then d
    else Deliveries(d.entries + [Entry(id, now + ttl)], d.records[id := Record(Unknown, Tracked({}), now, 0)])
  }

  /** The number of entries at the front that have expired. */
  function ExpiredCount(es: seq<Entry>, now: Time): (n: nat)
    ensures n <= |es|
  {
    if es == [] || now <= es[0].expire then 0 else 1 + ExpiredCount(es[1..], now)
  }

  function Ids(es: seq<Entry>): set<MsgId> { set e | e in es :: e.id }

  function Collected(d: Deliveries, now: Time): Deliveries {
    var n := ExpiredCount(d.entries, now);
    Deliveries(d.entries[n..], d.records - Ids(d.entries[..n]))
  }

  /** The first delivery trace settles a record. */
  function Delivered(d: Deliveries, id: MsgId, now: Time): Deliveries
    requires id in d.records
  {
    if d.records[id].status != Unknown then d
    else d.(records := d.records[id := d.records[id].(status := Valid, validated := now)])
  }

  datatype Reason = IsInvalid | IsThrottled | IsIgnored

  function StatusFor(reason: Reason): Status {
    match reason
    case IsInvalid => Invalid
    case IsThrottled => Throttled
    case IsIgnored => Ignored
  }

  function Rejected(d: Deliveries, id: MsgId, reason: Reason): Deliveries
    requires id in d.records
  {
    if d.records[id].status != Unknown then d
    else d.(records := d.records[id := d.records[id].(status := StatusFor(reason), who := Released)])
  }

  function SentBy(r: Record): set<Peer> { if r.who.Tracked? then r.who.peers else {} }

  function Duplicated(d: Deliveries, id: MsgId, p: Peer): Deliveries
    requires id in d.records
  {
    var r := d.records[id];
    if p in SentBy(r) || (r.status != Unknown && r.status != Valid) then d
    else d.(records := d.records[id := r.(who := Tracked(SentBy(r) + {p}))])
  }

  datatype Event =
    | Validate(id: MsgId, now: Time)
    | Deliver(id: MsgId, from: Peer, now: Time)
    | Reject(id: MsgId, from: Peer, reason: Reason, now: Time)
    | Repeat(id: MsgId, from: Peer, now: Time)
    | Collect(now: Time)

  function Step(d: Deliveries, ttl: Time, e: Event): Deliveries {
    match e
    case Validate(id, now) => Appended(d, ttl, id, now)
    case Deliver(id, _, now) => Delivered(Appended(d, ttl, id, now), id, now)
    case Reject(id, _, reason, now) => Rejected(Appended(d, ttl, id, now), id, reason)
    case Repeat(id, from, now) => Duplicated(Appended(d, ttl, id, now), id, from)
    case Collect(now) => Collected(d, now)
  }

  /** p gets a duplicate credit for id. */
  predicate CreditsDuplicate(d: Deliveries, e: Event, id: MsgId, p: Peer) {
    match e
    case Deliver(i, from, _) =>
      i == id && id in d.records && d.records[id].status == Unknown && p in SentBy(d.records[id]) && p != from
    case Repeat(i, from, _) =>
      i == id && from == p && id in d.records && d.records[id].status == Valid && p !in SentBy(d.records[id])
    case _ => false
  }

  /** The credits that an event gives, in some order. */
  ghost predicate Gives(d: Deliveries, ttl: Time, e: Event, credits: seq<Credit>) {
    match e
    case Deliver(id, from, _) =>
      NoneTwice(credits) &&
        forall c :: c in credits <==> c == First(from) || (c.Duplicate? && CreditsDuplicate(d, e, id, c.p))
    case Reject(id, from, reason, now) =>
      var r := Appended(d, ttl, id, now).records[id];
      if r.status == Unknown && reason == IsInvalid
      then Blames(credits, from, SentBy(r)) else credits == []
    case Repeat(id, from, _) =>
      credits == if CreditsDuplicate(d, e, id, from) then [Duplicate(from)]
                 else if id in d.records && d.records[id].status == Invalid && from !in SentBy(d.records[id])
                 then [Bad(from)] else []
    case _ => credits == []
  }

  /** The sender is blamed, and so is each of the others, even if the sender is one of them. */
  ghost predicate Blames(credits: seq<Credit>, from: Peer, others: set<Peer>) {
    && |credits| == 1 + |others| && credits[0] == Bad(from) && NoneTwice(credits[1..])
    && (forall c :: c in credits[1..] <==> c.Bad? && c.p in others)
    && forall c :: c in credits <==> c.Bad? && c.p in {from} + others
  }

  ghost predicate NoneTwice(credits: seq<Credit>) { forall i, j :: 0 <= i < j < |credits| ==> credits[i] != credits[j] }

  datatype Log = Start | Then(before: Log, e: Event)

  function After(log: Log, ttl: Time): Deliveries {
    if log.Start? then None else Step(After(log.before, ttl), ttl, log.e)
  }

  /** The clock does not run backwards. */
  predicate Ordered(log: Log) {
    log.Then? ==> Ordered(log.before) && Clock(log.before) <= log.e.now
  }

  function Clock(log: Log): Time { if log.Start? then 0 else log.e.now }

  // ---------------------------------------------------------------------------------
  // The list and the map agree
  // ---------------------------------------------------------------------------------

  ghost predicate Sorted(es: seq<Entry>, now: Time, ttl: Time) {
    && (forall i, j :: 0 <= i < j < |es| ==> es[i].expire <= es[j].expire)
    && (forall i :: 0 <= i < |es| ==> es[i].expire <= now + ttl)
  }

  ghost predicate DistinctIds(es: seq<Entry>) { forall i, j :: 0 <= i < j < |es| ==> es[i].id != es[j].id }

  predicate ReleasedRightly(r: Record) {
    r.who.Released? <==> r.status == Invalid || r.status == Throttled || r.status == Ignored
  }

  ghost predicate Inv(d: Deliveries, now: Time, ttl: Time) {
    && DistinctIds(d.entries) && Sorted(d.entries, now, ttl)
    && d.records.Keys == Ids(d.entries)
    && (forall id :: id in d.records ==> ReleasedRightly(d.records[id]))
  }

  lemma AppendedEntries(es: seq<Entry>, ttl: Time, id: MsgId, t: Time, now: Time)
    requires DistinctIds(es) && Sorted(es, t, ttl) && t <= now && id !in Ids(es)
    ensures DistinctIds(es + [Entry(id, now + ttl)]) && Sorted(es + [Entry(id, now + ttl)], now, ttl)
  {
    forall i | 0 <= i < |es| ensures es[i].id != id { assert es[i].id in Ids(es); }
  }

  lemma AppendedInv(d: Deliveries, ttl: Time, id: MsgId, t: Time, now: Time)
    requires Inv(d, t, ttl) && t <= now
    ensures Inv(Appended(d, ttl, id, now), now, ttl) && id in Appended(d, ttl, id, now).records
  {
    if id !in d.records {
      IdsMore(d.entries, Entry(id, now + ttl));
      AppendedEntries(d.entries, ttl, id, t, now);
    }
  }

  lemma IdsMore(es: seq<Entry>, e: Entry)
    ensures Ids(es + [e]) == Ids(es) + {e.id}
  {
    forall id ensures id in Ids(es + [e]) <==> id in Ids(es) + {e.id} {
      if id in Ids(es + [e]) { var x :| x in es + [e] && x.id == id; }
      if id in Ids(es) { var x :| x in es && x.id == id; assert x in es + [e]; }
      if id == e.id { assert e in es + [e]; }
    }
  }

  lemma IdsSplit(es: seq<Entry>, n: nat)
    requires n <= |es| && DistinctIds(es)
    ensures Ids(es[n..]) == Ids(es) - Ids(es[..n])
  {
    forall id ensures id in Ids(es[n..]) <==> id in Ids(es) - Ids(es[..n]) {
      if id in Ids(es[n..]) {
        var k :| 0 <= k < |es[n..]| && es[n..][k].id == id;
        assert es[n + k].id == id && es[n + k] in es;
      }
      if id in Ids(es) - Ids(es[..n]) {
        var j :| 0 <= j < |es| && es[j].id == id;
        assert es[n..][j - n] == es[j];
      }
    }
  }

  lemma CollectedInv(d: Deliveries, t: Time, now: Time, ttl: Time)
    requires Inv(d, t, ttl) && t <= now
    ensures Inv(Collected(d, now), now, ttl)
  {
    IdsSplit(d.entries, ExpiredCount(d.entries, now));
  }

  /** Settling a record or noting a forwarder changes one record only. */
  lemma UpdatedInv(d: Deliveries, id: MsgId, r: Record, now: Time, ttl: Time)
    requires Inv(d, now, ttl) && id in d.records && ReleasedRightly(r)
    ensures Inv(d.(records := d.records[id := r]), now, ttl)
  {
  }

  lemma StepInv(d: Deliveries, t: Time, ttl: Time, e: Event)
    requires Inv(d, t, ttl) && t <= e.now
    ensures Inv(Step(d, ttl, e), e.now, ttl)
  {
    if e.Collect? {
      CollectedInv(d, t, e.now, ttl);
    } else {
      AppendedInv(d, ttl, e.id, t, e.now);
      var d1 := Appended(d, ttl, e.id, e.now);
      var r := d1.records[e.id];
      match e {
        case Deliver(id, _, now) =>
          if r.status == Unknown { UpdatedInv(d1, id, r.(status := Valid, validated := now), now, ttl); }
        case Reject(id, _, reason, now) =>
          if r.status == Unknown { UpdatedInv(d1, id, r.(status := StatusFor(reason), who := Released), now, ttl); }
        case Repeat(id, p, now) =>
          if r.status == Unknown || r.status == Valid {
            UpdatedInv(d1, id, r.(who := Tracked(SentBy(r) + {p})), now, ttl);
          }
        case _ =>
      }
    }
  }

  /** Along every run the ids on the list are distinct and are the keys of the map, expiries are sorted,
      and the forwarders are released exactly for the records that no longer need them. */
  lemma {:induction false} RunInv(log: Log, ttl: Time)
    requires Ordered(log) && ttl >= 0
    ensures Inv(After(log, ttl), Clock(log), ttl)
  {
    if log.Then? {
      RunInv(log.before, ttl);
      StepInv(After(log.before, ttl), Clock(log.before), ttl, log.e);
    }
  }

  lemma {:induction false} ExpiredIsPrefix(es: seq<Entry>, now: Time)
    ensures var n := ExpiredCount(es, now);
      && (forall i :: 0 <= i < n ==> es[i].expire < now)
      && (n < |es| ==> es[n].expire >= now)
  {
    if es != [] && es[0].expire < now { ExpiredIsPrefix(es[1..], now); }
  }

  /** Collection drops exactly the records that have expired. */
  lemma CollectsExactly(d: Deliveries, t: Time, now: Time, ttl: Time, i: nat)
    requires Inv(d, t, ttl) && i < |d.entries|
    ensures d.entries[i].id in Collected(d, now).records <==> d.entries[i].expire >= now
    ensures forall id :: id in Collected(d, now).records ==> Collected(d, now).records[id] == d.records[id]
  {
    var es := d.entries;
    var n := ExpiredCount(es, now);
    ExpiredIsPrefix(es, now);
    assert es[i].id in Ids(es);
    if i < n { assert es[..n][i] in es[..n]; }
    if es[i].id in Ids(es[..n]) {
      var j :| 0 <= j < |es[..n]| && es[..n][j].id == es[i].id;
      assert es[j].id == es[i].id;
      assert j == i;
    }
  }

  // ---------------------------------------------------------------------------------
  // Settled once, credited once
  // ---------------------------------------------------------------------------------

  /** A record that is kept is settled at most once: a status other than unknown stays. */
  lemma SettledStays(d: Deliveries, ttl: Time, e: Event, id: MsgId)
    requires id in d.records && d.records[id].status != Unknown && id in Step(d, ttl, e).records
    ensures Step(d, ttl, e).records[id].status == d.records[id].status
    ensures SentBy(d.records[id]) <= SentBy(Step(d, ttl, e).records[id])
  {
  }

  function One(b: bool): nat { if b then 1 else 0 }

  /** The duplicate credits of p for the record of id that is kept now. */
  function DuplicateCredits(log: Log, ttl: Time, id: MsgId, p: Peer): nat {
    if log.Start? || id !in After(log, ttl).records then 0
    else DuplicateCredits(log.before, ttl, id, p) + One(CreditsDuplicate(After(log.before, ttl), log.e, id, p))
  }

  lemma StepCredits(d: Deliveries, ttl: Time, e: Event, id: MsgId, p: Peer)
    requires CreditsDuplicate(d, e, id, p)
    ensures var t := Step(d, ttl, e); id in t.records && t.records[id].status == Valid && p in SentBy(t.records[id])
  {
  }

  /** In the life of a record every peer gets at most one duplicate credit. */
  lemma {:induction false} DuplicateCreditedOnce(log: Log, ttl: Time, id: MsgId, p: Peer)
    ensures DuplicateCredits(log, ttl, id, p) <= 1
    ensures DuplicateCredits(log, ttl, id, p) == 1 ==>
      var r := After(log, ttl).records[id]; r.status == Valid && p in SentBy(r)
  {
    if log.Then? && id in After(log, ttl).records {
      var d := After(log.before, ttl);
      DuplicateCreditedOnce(log.before, ttl, id, p);
      if CreditsDuplicate(d, log.e, id, p) {
        StepCredits(d, ttl, log.e, id, p);
      } else if DuplicateCredits(log.before, ttl, id, p) == 1 {
        SettledStays(d, ttl, log.e, id);
      }
    }
  }

  /** The run from `from` on to `log` never drops the record of id. */
  predicate KeptSince(from: Log, log: Log, ttl: Time, id: MsgId) {
    log == from || (log.Then? && id in After(log, ttl).records && KeptSince(from, log.before, ttl, id))
  }

  /** After `from`, p sends id again. */
  predicate RepeatedSince(from: Log, log: Log, id: MsgId, p: Peer) {
    log != from && log.Then? &&
      ((log.e.Repeat? && log.e.id == id && log.e.from == p) || RepeatedSince(from, log.before, id, p))
  }

  /** Who has sent id while it was being validated. */
  function SentAgain(d: Deliveries, id: MsgId): set<Peer> { if id in d.records then SentBy(d.records[id]) else {} }

  /** Nothing has settled the message yet. */
  predicate Unsettled(d: Deliveries, id: MsgId) { id in d.records ==> d.records[id].status == Unknown }

  lemma FirstDeliveryCounts(first: Log, ttl: Time, id: MsgId, a: Peer, t: Time)
    requires Unsettled(After(first, ttl), id)
    ensures var log := Then(first, Deliver(id, a, t));
      && DuplicateCredits(log, ttl, id, a) == 0
      && id in After(log, ttl).records && After(log, ttl).records[id].status == Valid
      && SentBy(After(log, ttl).records[id]) == SentAgain(After(first, ttl), id)
  {
    DuplicateCreditedOnce(first, ttl, id, a);
  }

  /** The first deliverer gets, in the life of the record, a duplicate credit besides: exactly if it sends the
      message again after it was delivered and had not done so before. */
  lemma {:induction false} FirstDelivererCreditedAgainIff(
    first: Log, log: Log, ttl: Time, id: MsgId, a: Peer, t: Time)
    requires Unsettled(After(first, ttl), id) && KeptSince(Then(first, Deliver(id, a, t)), log, ttl, id)
    ensures var from := Then(first, Deliver(id, a, t));
      && (DuplicateCredits(log, ttl, id, a) == 1
          <==> a !in SentAgain(After(first, ttl), id) && RepeatedSince(from, log, id, a))
      && id in After(log, ttl).records && After(log, ttl).records[id].status == Valid
      && (a in SentBy(After(log, ttl).records[id])
          <==> a in SentAgain(After(first, ttl), id) || RepeatedSince(from, log, id, a))
    decreases log
  {
    var from := Then(first, Deliver(id, a, t));
    FirstDeliveryCounts(first, ttl, id, a, t);
    if log != from {
      var d := After(log.before, ttl);
      FirstDelivererCreditedAgainIff(first, log.before, ttl, id, a, t);
      DuplicateCreditedOnce(log.before, ttl, id, a);
      SettledStays(d, ttl, log.e, id);
    }
  }

  lemma FirstDelivererCreditedTwice(id: MsgId, a: Peer)
    ensures var log := Then(Then(Then(Start, Validate(id, 1)), Deliver(id, a, 2)), Repeat(id, a, 3));
      Ordered(log) && DuplicateCredits(log, 10, id, a) == 1
  {
    var one := Then(Start, Validate(id, 1));
    var two := Then(one, Deliver(id, a, 2));
    var log := Then(two, Repeat(id, a, 3));
    assert After(one, 10).records[id] == Record(Unknown, Tracked({}), 1, 0);
    assert After(two, 10) == Delivered(After(one, 10), id, 2);
    assert After(two, 10).records[id] == Record(Valid, Tracked({}), 1, 2);
    assert Clock(one) == 1 && Clock(two) == 2;
    assert Ordered(one);
    assert Ordered(two);
    assert Ordered(log);
    assert DuplicateCredits(one, 10, id, a) == 0;
    assert DuplicateCredits(two, 10, id, a) == 0;
  }

  // ---------------------------------------------------------------------------------
  // What a verdict costs and earns
  // ---------------------------------------------------------------------------------

  lemma {:induction false} StatusKept(from: Log, log: Log, ttl: Time, id: MsgId)
    requires KeptSince(from, log, ttl, id) && id in After(from, ttl).records
    requires After(from, ttl).records[id].status != Unknown
    ensures id in After(log, ttl).records
    ensures After(log, ttl).records[id].status == After(from, ttl).records[id].status
  {
    if log != from {
      StatusKept(from, log.before, ttl, id);
      SettledStays(After(log.before, ttl), ttl, log.e, id);
    }
  }

  lemma {:induction false} NoForwardersKept(from: Log, log: Log, ttl: Time, id: MsgId)
    requires KeptSince(from, log, ttl, id) && id in After(from, ttl).records
    requires var r := After(from, ttl).records[id]; r.status != Unknown && r.status != Valid && SentBy(r) == {}
    ensures id in After(log, ttl).records && SentBy(After(log, ttl).records[id]) == {}
  {
    if log != from {
      NoForwardersKept(from, log.before, ttl, id);
      StatusKept(from, log.before, ttl, id);
    }
  }

  /** On every run that goes on from the rejection that settles a message, while its record is kept: repeating the
      message costs its sender if and only if it was rejected as invalid, every time, and never earns anything. */
  lemma RepeatsAfterReject(first: Log, log: Log, ttl: Time, id: MsgId, a: Peer, reason: Reason, t: Time,
                           q: Peer, now: Time, credits: seq<Credit>)
    requires Unsettled(After(first, ttl), id) && KeptSince(Then(first, Reject(id, a, reason, t)), log, ttl, id)
    requires Gives(After(log, ttl), ttl, Repeat(id, q, now), credits)
    ensures credits == if reason == IsInvalid then [Bad(q)] else []
  {
    var from := Then(first, Reject(id, a, reason, t));
    var r := After(from, ttl).records[id];
    assert r.status != Unknown && r.status != Valid && SentBy(r) == {};
    assert r.status == Invalid <==> reason == IsInvalid;
    StatusKept(from, log, ttl, id);
    NoForwardersKept(from, log, ttl, id);
  }

  /** And from the delivery that settles it: repeating the message never costs anything. */
  lemma RepeatsAfterDeliver(first: Log, log: Log, ttl: Time, id: MsgId, a: Peer, t: Time,
                            q: Peer, now: Time, credits: seq<Credit>)
    requires Unsettled(After(first, ttl), id) && KeptSince(Then(first, Deliver(id, a, t)), log, ttl, id)
    requires Gives(After(log, ttl), ttl, Repeat(id, q, now), credits)
    ensures credits == [] || credits == [Duplicate(q)]
  {
    var from := Then(first, Deliver(id, a, t));
    assert After(from, ttl).records[id].status == Valid;
    StatusKept(from, log, ttl, id);
  }

  /** p sent id again in the life of the record that is kept now. */
  predicate RepeatedInLife(log: Log, ttl: Time, id: MsgId, p: Peer) {
    log.Then? && id in After(log, ttl).records &&
      ((log.e.Repeat? && log.e.id == id && log.e.from == p) || RepeatedInLife(log.before, ttl, id, p))
  }

  /** While a message is being validated its forwarders are exactly those who sent it again in the meantime; they
      are the ones credited when it turns out valid, and penalised when it turns out invalid. */
  lemma {:induction false} ForwardersExactly(log: Log, ttl: Time, id: MsgId, p: Peer)
    requires Unsettled(After(log, ttl), id)
    ensures p in SentAgain(After(log, ttl), id) <==> RepeatedInLife(log, ttl, id, p)
  {
    if log.Then? && id in After(log, ttl).records {
      var d := After(log.before, ttl);
      if id in d.records {
        if d.records[id].status != Unknown { SettledStays(d, ttl, log.e, id); }
        ForwardersExactly(log.before, ttl, id, p);
      } else {
        assert !RepeatedInLife(log.before, ttl, id, p);
      }
    }
  }

  /** The message is credited or penalised exactly as it was repeated. */
  lemma SettlingCredits(log: Log, ttl: Time, id: MsgId, a: Peer, reason: Reason, t: Time, p: Peer, credits: seq<Credit>)
    requires Unsettled(After(log, ttl), id)
    ensures Gives(After(log, ttl), ttl, Deliver(id, a, t), credits) ==>
      && First(a) in credits && (forall c :: c in credits && c.First? ==> c.p == a) && Bad(p) !in credits
      && (Duplicate(p) in credits <==> p != a && RepeatedInLife(log, ttl, id, p))
    ensures Gives(After(log, ttl), ttl, Reject(id, a, reason, t), credits) ==>
      && First(p) !in credits && Duplicate(p) !in credits
      && (Bad(p) in credits <==> reason == IsInvalid && (p == a || RepeatedInLife(log, ttl, id, p)))
  {
    ForwardersExactly(log, ttl, id, p);
  }

  // ---------------------------------------------------------------------------------
  // How long a record lives
  // ---------------------------------------------------------------------------------

  ghost predicate Due(d: Deliveries, id: MsgId, x: Time) { Entry(id, x) in d.entries }

  lemma MadeIsDue(d: Deliveries, ttl: Time, e: Event)
    requires !e.Collect? && e.id !in d.records
    ensures Due(Step(d, ttl, e), e.id, e.now + ttl)
  {
  }

  lemma DueStep(d: Deliveries, t: Time, ttl: Time, e: Event, id: MsgId, x: Time)
    requires Inv(d, t, ttl) && t <= e.now && Due(d, id, x)
    ensures e.Collect? && e.now > x ==> id !in Step(d, ttl, e).records
    ensures !(e.Collect? && e.now > x) ==> Due(Step(d, ttl, e), id, x) && id in Step(d, ttl, e).records
  {
    var i :| 0 <= i < |d.entries| && d.entries[i] == Entry(id, x);
    assert id in Ids(d.entries);
    if e.Collect? {
      CollectsExactly(d, t, e.now, ttl, i);
      CollectedInv(d, t, e.now, ttl);
      if e.now <= x { StaysDue(d, e.now, i); }
    }
  }

  lemma StaysDue(d: Deliveries, now: Time, i: nat)
    requires i < |d.entries| && d.entries[i].expire >= now
    requires forall j :: 0 <= j < i ==> d.entries[j].expire <= d.entries[i].expire
    ensures d.entries[i] in Collected(d, now).entries
  {
    var n := ExpiredCount(d.entries, now);
    ExpiredIsPrefix(d.entries, now);
    assert d.entries[n..][i - n] == d.entries[i];
  }

  /** A record that is made at x is kept on every run, whatever else happens, until a collection after x plus the
      time to live; that one drops it. */
  lemma {:induction false} RecordLivesFor(from: Log, log: Log, ttl: Time, id: MsgId, x: Time)
    requires Ordered(log) && ttl >= 0 && Continues(from, log) && Due(After(from, ttl), id, x)
    requires Clock(log) <= x
    ensures Due(After(log, ttl), id, x)
  {
    if log != from {
      RecordLivesFor(from, log.before, ttl, id, x);
      RunInv(log.before, ttl);
      DueStep(After(log.before, ttl), Clock(log.before), ttl, log.e, id, x);
    }
  }

  predicate Continues(from: Log, log: Log) { log == from || (log.Then? && Continues(from, log.before)) }

  /** A record lives for its time to live from when it was made, whatever happens to the message, and is gone with
      the first collection after that. */
  lemma CollectedWhenDue(from: Log, e: Event, log: Log, ttl: Time, now: Time)
    requires Ordered(log) && ttl >= 0 && !e.Collect? && e.id !in After(from, ttl).records
    requires Continues(Then(from, e), log) && Clock(log) <= e.now + ttl && Clock(log) <= now
    ensures e.id in After(log, ttl).records
    ensures e.id in After(Then(log, Collect(now)), ttl).records <==> now <= e.now + ttl
  {
    var x := e.now + ttl;
    MadeIsDue(After(from, ttl), ttl, e);
    RecordLivesFor(Then(from, e), log, ttl, e.id, x);
    RunInv(log, ttl);
    DueStep(After(log, ttl), Clock(log), ttl, Collect(now), e.id, x);
  }

  // ---------------------------------------------------------------------------------
  // Credited no more often than there were messages
  // ---------------------------------------------------------------------------------

  /** The step makes a record. */
  predicate Opens(d: Deliveries, e: Event) { !e.Collect? && e.id !in d.records }

  /** How often a record was made. */
  function Lives(log: Log, ttl: Time): nat {
    if log.Start? then 0 else Lives(log.before, ttl) + One(Opens(After(log.before, ttl), log.e))
  }

  predicate Duplicates(d: Deliveries, e: Event, p: Peer) { !e.Collect? && CreditsDuplicate(d, e, e.id, p) }

  /** All duplicate credits of p, for whatever message. */
  function AllDuplicates(log: Log, ttl: Time, p: Peer): nat {
    if log.Start? then 0 else AllDuplicates(log.before, ttl, p) + One(Duplicates(After(log.before, ttl), log.e, p))
  }

  /** The records for which p has no duplicate credit yet. */
  function Uncredited(log: Log, ttl: Time, p: Peer): set<MsgId> {
    set id | id in After(log, ttl).records && DuplicateCredits(log, ttl, id, p) == 0
  }

  lemma RecordsAfter(d: Deliveries, ttl: Time, e: Event)
    ensures e.Collect? ==> Step(d, ttl, e).records.Keys <= d.records.Keys
    ensures !e.Collect? ==> Step(d, ttl, e).records.Keys == d.records.Keys + {e.id}
  {
  }

  lemma UncreditedStep(log: Log, ttl: Time, p: Peer)
    requires log.Then?
    ensures var d, us := After(log.before, ttl), Uncredited(log.before, ttl, p);
      && (Duplicates(d, log.e, p) ==> log.e.id in us && Uncredited(log, ttl, p) <= us - {log.e.id})
      && (Opens(d, log.e) ==> Uncredited(log, ttl, p) <= us + {log.e.id})
      && (!Opens(d, log.e) ==> Uncredited(log, ttl, p) <= us)
  {
    var d := After(log.before, ttl);
    RecordsAfter(d, ttl, log.e);
    if Duplicates(d, log.e, p) {
      var id := log.e.id;
      DuplicateCreditedOnce(log, ttl, id, p);
      StepCredits(d, ttl, log.e, id, p);
    }
  }

  lemma SmallerSet(a: set<MsgId>, b: set<MsgId>)
    requires a <= b
    ensures |a| <= |b|
  {
    assert b == a + (b - a);
  }

  /** However often a peer repeats messages, its duplicate credits number at most the records that were made;
      and for each record that is kept uncredited, one less. */
  lemma {:induction false} DuplicatesAtMostLives(log: Log, ttl: Time, p: Peer)
    ensures AllDuplicates(log, ttl, p) + |Uncredited(log, ttl, p)| <= Lives(log, ttl)
  {
    if log.Then? {
      var d, us := After(log.before, ttl), Uncredited(log.before, ttl, p);
      DuplicatesAtMostLives(log.before, ttl, p);
      UncreditedStep(log, ttl, p);
      if Duplicates(d, log.e, p) {
        SmallerSet(Uncredited(log, ttl, p), us - {log.e.id});
      } else if Opens(d, log.e) {
        SmallerSet(Uncredited(log, ttl, p), us + {log.e.id});
      } else {
        SmallerSet(Uncredited(log, ttl, p), us);
      }
    }
  }

  // ---------------------------------------------------------------------------------
  // The linked list and the map as they are kept
  // ---------------------------------------------------------------------------------

  class Node {
    const entry: Entry
    var next: Node?

    constructor (entry: Entry)
      ensures this.entry == entry && next == null
    {
      this.entry := entry;
      next := null;
    }
  }

  class MessageDeliveries {
    const ttl: Time
    var records: map<MsgId, Record>
    var head: Node?
    var tail: Node?
    ghost var nodes: seq<Node>

    /** The nodes from the head on are linked in order, and the tail is last. */
    ghost predicate Chained()
      reads this, nodes
    {
      && (forall i, j :: 0 <= i < j < |nodes| ==> nodes[i] != nodes[j])
      && (forall i :: 0 <= i < |nodes| - 1 ==> nodes[i].next == nodes[i + 1])
      && (if nodes == [] then head == null
          else head == nodes[0] && tail == nodes[|nodes| - 1] && nodes[|nodes| - 1].next == null)
    }

    ghost predicate Linked()
      reads this, nodes
    {
      Chained() && (nodes == [] ==> tail == null)
    }

    ghost function View(): Deliveries
      reads this
    {
      Deliveries(Entries(nodes), records)
    }

    constructor (ttl: Time)
      ensures Linked() && View() == None && this.ttl == ttl && nodes == []
    {
      this.ttl := ttl;
      records, head, tail, nodes := map[], null, null, [];
    }

    /** Finds or makes the record of id. */
    method GetRecord(id: MsgId, now: Time) returns (r: Record)
      requires Linked()
      modifies this, nodes
      ensures Linked() && View() == Appended(old(View()), ttl, id, now) && id in records && r == records[id]
      ensures forall n :: n in nodes ==> n in old(nodes) || fresh(n)
    {
      if id in records { return records[id]; }
      r := Record(Unknown, Tracked({}), now, 0);
      records := records[id := r];
      var entry := new Node(Entry(id, now + ttl));
      if tail != null {
        tail.next := entry;
        tail := entry;
      } else {
        head := entry;
        tail := entry;
      }
      nodes := nodes + [entry];
    }

    method ValidateMessage(id: MsgId, now: Time)
      requires Linked()
      modifies this, nodes
      ensures Linked() && View() == Step(old(View()), ttl, Validate(id, now))
    {
      var r := GetRecord(id, now);
    }

    /** The first deliverer is credited; so is, once each, everybody else who forwarded the message while it
        was being validated. */
    method DeliverMessage(id: MsgId, from: Peer, now: Time) returns (credits: seq<Credit>)
      requires Linked()
      modifies this, nodes
      ensures Linked() && View() == Step(old(View()), ttl, Deliver(id, from, now))
      ensures Gives(old(View()), ttl, Deliver(id, from, now), credits)
    {
      credits := [First(from)];
      var r := GetRecord(id, now);
      if r.status != Unknown { return; }
      records := records[id := r.(status := Valid, validated := now)];
      var more := CreditEach(SentBy(r) - {from});
      credits := credits + more;
    }

    /** An invalid message counts against its sender and everybody who forwarded it; a throttled or ignored
        one against nobody. */
    method RejectMessage(id: MsgId, from: Peer, reason: Reason, now: Time) returns (credits: seq<Credit>)
      requires Linked()
      modifies this, nodes
      ensures Linked() && View() == Step(old(View()), ttl, Reject(id, from, reason, now))
      ensures Gives(old(View()), ttl, Reject(id, from, reason, now), credits)
      ensures id in records
      ensures old(Unsettled(View(), id)) ==>
        match records[id].status
        case Invalid => reason == IsInvalid
        case Throttled => reason == IsThrottled
        case Ignored => reason == IsIgnored
        case _ => false
      ensures !old(Unsettled(View(), id)) ==> records[id] == old(records[id]) && credits == []
    {
      credits := [];
      var r := GetRecord(id, now);
      if r.status != Unknown { return; }
      records := records[id := r.(status := StatusFor(reason), who := Released)];
      if reason == IsInvalid {
        var others := PenaliseEach(SentBy(r));
        credits := [Bad(from)] + others;
        assert credits[1..] == others;
      }
    }

    /** A repeated message is credited once to a peer, when it turned out valid. */
    method DuplicateMessage(id: MsgId, from: Peer, now: Time) returns (credits: seq<Credit>)
      requires Linked()
      modifies this, nodes
      ensures Linked() && View() == Step(old(View()), ttl, Repeat(id, from, now))
      ensures Gives(old(View()), ttl, Repeat(id, from, now), credits)
    {
      credits := [];
      var r := GetRecord(id, now);
      if from in SentBy(r) { return; }
      match r.status
      case Unknown => records := records[id := r.(who := Tracked(SentBy(r) + {from}))];
      case Valid =>
        records := records[id := r.(who := Tracked(SentBy(r) + {from}))];
        credits := [Duplicate(from)];
      case Invalid => credits := [Bad(from)];
      case Throttled =>
      case Ignored =>
    }

    /** Drops the first record and its entry. */
    method DropHead()
      requires Chained() && nodes != []
      modifies this`head, this`nodes, this`records
      ensures Chained() && nodes == old(nodes)[1..] && View() == WithoutFirst(old(View()))
    {
      records := records - {head.entry.id};
      head := head.next;
      EntriesOfRest(nodes);
      nodes := nodes[1..];
    }

    /** Drops the expired records from the front. */
    method Gc(now: Time)
      requires Linked()
      modifies this
      ensures Linked() && View() == Collected(old(View()), now)
      ensures forall n :: n in nodes ==> n in old(nodes)
    {
      while head != null && head.entry.expire < now
        invariant Chained() && CollectAlike(old(View()), View(), now)
        invariant forall n :: n in nodes ==> n in old(nodes)
        decreases |nodes|
      {
        CollectStep(old(View()), View(), now);
        DropHead();
      }
      if head == null { tail := null; }
      CollectNothing(old(View()), View(), now);
    }
  }

  function WithoutFirst(d: Deliveries): Deliveries
    requires d.entries != []
  {
    Deliveries(d.entries[1..], d.records - {d.entries[0].id})
  }

  lemma EntriesOfRest(nodes: seq<Node>)
    requires nodes != []
    ensures Entries(nodes[1..]) == Entries(nodes)[1..]
  {
  }

  /** Collection leaves the same of both. */
  predicate CollectAlike(d: Deliveries, d': Deliveries, now: Time) { Collected(d, now) == Collected(d', now) }

  lemma CollectStep(was: Deliveries, d: Deliveries, now: Time)
    requires CollectAlike(was, d, now) && d.entries != [] && d.entries[0].expire < now
    ensures CollectAlike(was, WithoutFirst(d), now)
  {
    var es := d.entries;
    var k := ExpiredCount(es[1..], now);
    assert es[1..][k..] == es[k + 1..] && es[..k + 1] == [es[0]] + es[1..][..k];
    assert Ids(es[..k + 1]) == {es[0].id} + Ids(es[1..][..k]) by {
      forall id | id in Ids(es[1..][..k]) ensures id in Ids(es[..k + 1]) {
        var e :| e in es[1..][..k] && e.id == id;
        assert e in es[..k + 1];
      }
      assert es[0] in es[..k + 1];
    }
    assert d.records - Ids(es[..k + 1]) == d.records - {es[0].id} - Ids(es[1..][..k]);
  }

  lemma CollectNothing(was: Deliveries, d: Deliveries, now: Time)
    requires CollectAlike(was, d, now) && (d.entries == [] || d.entries[0].expire >= now)
    ensures d == Collected(was, now)
  {
    assert d.entries[0..] == d.entries && Ids(d.entries[..0]) == {};
  }

  method CreditEach(ps: set<Peer>) returns (credits: seq<Credit>)
    ensures forall c :: c in credits <==> c.Duplicate? && c.p in ps
    ensures NoneTwice(credits)
  {
    credits := [];
    var rest := ps;
    while rest != {}
      invariant rest <= ps && NoneTwice(credits)
      invariant forall c :: c in credits <==> c.Duplicate? && c.p in ps && c.p !in rest
      decreases rest
    {
      var p :| p in rest;
      assert Duplicate(p) !in credits;
      credits := credits + [Duplicate(p)];
      rest := rest - {p};
    }
  }

  method PenaliseEach(ps: set<Peer>) returns (credits: seq<Credit>)
    ensures |credits| == |ps| && NoneTwice(credits)
    ensures forall c :: c in credits <==> c.Bad? && c.p in ps
  {
    credits := [];
    var rest := ps;
    while rest != {}
      invariant rest <= ps && |credits| + |rest| == |ps| && NoneTwice(credits)
      invariant forall c :: c in credits <==> c.Bad? && c.p in ps - rest
      decreases rest
    {
      var p :| p in rest;
      assert Bad(p) !in credits;
      credits := credits + [Bad(p)];
      rest := rest - {p};
    }
  }

  ghost function Entries(nodes: seq<Node>): seq<Entry> {
    seq(|nodes|, i requires 0 <= i < |nodes| => nodes[i].entry)
  }
}
