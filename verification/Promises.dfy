/** The promise tracer: which peers owe us which messages. */
module Promises {
  import opened Peers

  type Time = int

  /** A peer's promise of a message. */
  datatype Promise = Promise(mid: MsgId, p: Peer)

  /** The outstanding promises and when they run out. */
  type Pending = map<Promise, Time>

  predicate Overdue(pend: Pending, now: Time, x: Promise) { x in pend && pend[x] < now }

  function Added(pend: Pending, x: Promise, expire: Time): Pending {
    if x in pend then pend else pend[x := expire]
  }

  function Kept(pend: Pending, now: Time): Pending { map x | x in pend && !Overdue(pend, now, x) :: pend[x] }

  function WithoutMessage(pend: Pending, mid: MsgId): Pending { map x | x in pend && x.mid != mid :: pend[x] }

  function WithoutPeer(pend: Pending, p: Peer): Pending { map x | x in pend && x.p != p :: pend[x] }

  /** The promises that p did not keep in time. */
  function BrokenBy(pend: Pending, now: Time, p: Peer): set<Promise> {
    set x | x in pend && Overdue(pend, now, x) && x.p == p
  }

  // ---------------------------------------------------------------------------------
  // Every promise is settled once
  // ---------------------------------------------------------------------------------

  datatype Event = Add(x: Promise, expire: Time) | Break(now: Time) | Fulfil(mid: MsgId) | Throttle(p: Peer)

  datatype Log = Start | Then(before: Log, event: Event)

  function PendingAfter(log: Log): Pending {
    match log
    case Start => map[]
    case Then(before, Add(x, expire)) => Added(PendingAfter(before), x, expire)
    case Then(before, Break(now)) => Kept(PendingAfter(before), now)
    case Then(before, Fulfil(mid)) => WithoutMessage(PendingAfter(before), mid)
    case Then(before, Throttle(p)) => WithoutPeer(PendingAfter(before), p)
  }

  function One(b: bool): nat { if b then 1 else 0 }

  /** How often x was made, when it was not outstanding already. */
  function Made(log: Log, x: Promise): nat {
    if log.Start? then 0
    else Made(log.before, x) + One(log.event.Add? && log.event.x == x && x !in PendingAfter(log.before))
  }

  /** How often x was counted as broken. */
  function Broken(log: Log, x: Promise): nat {
    if log.Start? then 0
    else Broken(log.before, x) + One(log.event.Break? && x in BrokenBy(PendingAfter(log.before), log.event.now, x.p))
  }

  function Fulfilled(log: Log, x: Promise): nat {
    if log.Start? then 0
    else Fulfilled(log.before, x) + One(log.event.Fulfil? && log.event.mid == x.mid && x in PendingAfter(log.before))
  }

  function Voided(log: Log, x: Promise): nat {
    if log.Start? then 0
    else Voided(log.before, x) + One(log.event.Throttle? && log.event.p == x.p && x in PendingAfter(log.before))
  }

  /** Conservation: a promise made is outstanding, or was counted as broken once, or fulfilled, or voided. */
  lemma {:induction false} PromisesAreSettledOnce(log: Log, x: Promise)
    ensures Made(log, x) == One(x in PendingAfter(log)) + Broken(log, x) + Fulfilled(log, x) + Voided(log, x)
  {
    if log.Then? {
      PromisesAreSettledOnce(log.before, x);
    }
  }

  /** The event leaves a promise x that runs out at t alone. */
  predicate Spares(e: Event, x: Promise, t: Time) {
    match e
    case Add(_, _) => true
    case Break(now) => now <= t
    case Fulfil(mid) => mid != x.mid
    case Throttle(p) => p != x.p
  }

  /** `later` continues `log` with events that leave x alone; asking for it again is one of them. */
  predicate Undisturbed(log: Log, later: Log, x: Promise, t: Time) {
    later == log || (later.Then? && Spares(later.event, x, t) && Undisturbed(log, later.before, x, t))
  }

  lemma {:induction false} StaysPending(log: Log, later: Log, x: Promise, t: Time)
    requires x in PendingAfter(log) && PendingAfter(log)[x] == t && Undisturbed(log, later, x, t)
    ensures x in PendingAfter(later) && PendingAfter(later)[x] == t
  {
    if later != log { StaysPending(log, later.before, x, t); }
  }

  /** A promise keeps the deadline it was made with, even if it is made again, until the message arrives or
      the peer is throttled: checked after the deadline it is counted as broken, and checked before it is not. */
  lemma DeadlineStands(log: Log, later: Log, x: Promise, t: Time, now: Time)
    requires x !in PendingAfter(log) && Undisturbed(Then(log, Add(x, t)), later, x, t)
    ensures Broken(Then(later, Break(now)), x) == Broken(later, x) + One(t < now)
    ensures x in PendingAfter(Then(later, Break(now))) <==> now <= t
    ensures x !in PendingAfter(Then(later, Fulfil(x.mid))) && x !in PendingAfter(Then(later, Throttle(x.p)))
  {
    StaysPending(Then(log, Add(x, t)), later, x, t);
  }

  // ---------------------------------------------------------------------------------
  // The two indexes
  // ---------------------------------------------------------------------------------

  type ByMessage = map<MsgId, map<Peer, Time>>

  type ByPeer = map<Peer, set<MsgId>>

  /** The index by message shows x as it is. */
  predicate ShowsMessage(pend: Pending, promises: ByMessage, x: Promise) {
    if x.mid in promises && x.p in promises[x.mid] then x in pend && promises[x.mid][x.p] == pend[x] else x !in pend
  }

  predicate ShowsPeer(pend: Pending, peers: ByPeer, x: Promise) {
    x in pend <==> x.p in peers && x.mid in peers[x.p]
  }

  /** The index by message shows the promises, and keeps no empty inner map. */
  ghost predicate IndexedByMessage(pend: Pending, promises: ByMessage) {
    && (forall x :: ShowsMessage(pend, promises, x))
    && (forall m :: m in promises ==> promises[m] != map[])
  }

  ghost predicate IndexedByPeer(pend: Pending, peers: ByPeer) {
    && (forall x :: ShowsPeer(pend, peers, x))
    && (forall p :: p in peers ==> peers[p] != {})
  }

  function DropByPeer(peers: ByPeer, x: Promise): ByPeer {
    if x.p !in peers then peers
    else if peers[x.p] - {x.mid} == {} then peers - {x.p}
    else peers[x.p := peers[x.p] - {x.mid}]
  }

  function DropByMessage(promises: ByMessage, x: Promise): ByMessage {
    if x.mid !in promises then promises
    else if promises[x.mid] - {x.p} == map[] then promises - {x.mid}
    else promises[x.mid := promises[x.mid] - {x.p}]
  }

  lemma DropByPeerIndexed(pend: Pending, peers: ByPeer, x: Promise)
    requires IndexedByPeer(pend, peers)
    ensures IndexedByPeer(pend - {x}, DropByPeer(peers, x))
  {
    forall y ensures ShowsPeer(pend - {x}, DropByPeer(peers, x), y) {
      assert ShowsPeer(pend, peers, y) && ShowsPeer(pend, peers, x);
      if x.p in peers && y.p == x.p {
        var left := peers[x.p] - {x.mid};
        assert y.mid in left <==> y.mid in peers[x.p] && y != x;
        if left == {} { assert y.mid !in left; }
      }
    }
  }

  lemma DropByMessageIndexed(pend: Pending, promises: ByMessage, x: Promise)
    requires IndexedByMessage(pend, promises)
    ensures IndexedByMessage(pend - {x}, DropByMessage(promises, x))
  {
    forall y ensures ShowsMessage(pend - {x}, DropByMessage(promises, x), y) {
      assert ShowsMessage(pend, promises, y) && ShowsMessage(pend, promises, x);
      if x.mid in promises && y.mid == x.mid {
        var inner := promises[x.mid] - {x.p};
        assert y.p in inner <==> y.p in promises[x.mid] && y != x;
      }
    }
  }

  lemma AddIndexed(pend: Pending, promises: ByMessage, peers: ByPeer, x: Promise, expire: Time)
    requires IndexedByMessage(pend, promises) && IndexedByPeer(pend, peers) && x !in pend
    ensures IndexedByMessage(pend[x := expire],
              promises[x.mid := (if x.mid in promises then promises[x.mid] else map[])[x.p := expire]])
    ensures IndexedByPeer(pend[x := expire], peers[x.p := (if x.p in peers then peers[x.p] else {}) + {x.mid}])
  {
    var promises' := promises[x.mid := (if x.mid in promises then promises[x.mid] else map[])[x.p := expire]];
    var peers' := peers[x.p := (if x.p in peers then peers[x.p] else {}) + {x.mid}];
    var pend' := pend[x := expire];
    forall y ensures ShowsMessage(pend', promises', y) { assert ShowsMessage(pend, promises, y); }
    forall y ensures ShowsPeer(pend', peers', y) { assert ShowsPeer(pend, peers, y); }
    assert x.p in promises'[x.mid];
  }

  /** Without the inner map of a message, the index shows the other messages' promises. */
  lemma MessageGone(pend: Pending, promises: ByMessage, mid: MsgId)
    requires IndexedByMessage(pend, promises)
    ensures IndexedByMessage(WithoutMessage(pend, mid), promises - {mid})
  {
    forall y ensures ShowsMessage(WithoutMessage(pend, mid), promises - {mid}, y) {
      assert ShowsMessage(pend, promises, y);
    }
  }

  lemma OwedFor(pend: Pending, promises: ByMessage, mid: MsgId)
    requires IndexedByMessage(pend, promises)
    ensures forall x :: x in pend && x.mid == mid ==> mid in promises && x.p in promises[mid]
    ensures mid !in promises ==> WithoutMessage(pend, mid) == pend
  {
    forall x | x in pend && x.mid == mid ensures mid in promises && x.p in promises[mid] {
      assert ShowsMessage(pend, promises, x);
    }
  }

  lemma OwedBy(pend: Pending, peers: ByPeer, p: Peer)
    requires IndexedByPeer(pend, peers)
    ensures forall x :: x in pend && x.p == p ==> p in peers && x.mid in peers[p]
    ensures p !in peers ==> WithoutPeer(pend, p) == pend
  {
    forall x | x in pend && x.p == p ensures p in peers && x.mid in peers[p] {
      assert ShowsPeer(pend, peers, x);
    }
  }

  lemma PeerGone(pend: Pending, peers: ByPeer, p: Peer)
    requires IndexedByPeer(pend, peers)
    ensures IndexedByPeer(WithoutPeer(pend, p), peers - {p})
  {
    forall y ensures ShowsPeer(WithoutPeer(pend, p), peers - {p}, y) { assert ShowsPeer(pend, peers, y); }
  }

  class Tracer {
    const followUpTime: Time
    var promises: ByMessage
    var peerPromises: ByPeer
    ghost var pending: Pending

    ghost predicate Valid()
      reads this
    {
      IndexedByMessage(pending, promises) && IndexedByPeer(pending, peerPromises)
    }

    constructor (followUpTime: Time)
      ensures Valid() && pending == map[] && this.followUpTime == followUpTime
    {
      this.followUpTime := followUpTime;
      promises, peerPromises, pending := map[], map[], map[];
    }

    method AddPromise(p: Peer, mids: seq<MsgId>, now: Time) returns (mid: MsgId)
      requires Valid() && mids != []
      modifies this
      ensures Valid() && mid in mids && pending == Added(old(pending), Promise(mid, p), now + followUpTime)
    {
      var idx :| 0 <= idx < |mids|;
      mid := mids[idx];
      ghost var x := Promise(mid, p);
      assert ShowsMessage(pending, promises, x);
      var inner := if mid in promises then promises[mid] else map[];
      if p !in inner {
        AddIndexed(pending, promises, peerPromises, x, now + followUpTime);
        promises := promises[mid := inner[p := now + followUpTime]];
        peerPromises := peerPromises[p := (if p in peerPromises then peerPromises[p] else {}) + {mid}];
        pending := pending[x := now + followUpTime];
      }
    }

    /** Removes x from the index by peer. */
    method DropFromPeer(x: Promise)
      modifies this`peerPromises
      ensures peerPromises == DropByPeer(old(peerPromises), x)
    {
      if x.p in peerPromises {
        peerPromises := peerPromises[x.p := peerPromises[x.p] - {x.mid}];
        if |peerPromises[x.p]| == 0 {
          peerPromises := peerPromises - {x.p};
          assert peerPromises == old(peerPromises) - {x.p};
        }
      }
    }

    /** Removes x from the index by message. */
    method DropFromMessage(x: Promise)
      requires x.mid in promises
      modifies this`promises
      ensures promises == DropByMessage(old(promises), x)
    {
      var inner := promises[x.mid] - {x.p};
      if |inner| == 0 {
        promises := promises - {x.mid};
      } else {
        promises := promises[x.mid := inner];
      }
    }

    method FulfillPromise(mid: MsgId)
      requires Valid()
      modifies this
      ensures Valid() && pending == WithoutMessage(old(pending), mid)
    {
      MessageGone(pending, promises, mid);
      OwedFor(pending, promises, mid);
      if mid !in promises { return; }
      var inner := promises[mid];
      promises := promises - {mid};
      var rest := inner.Keys;
      ghost var shown := pending;
      while rest != {}
        invariant promises == old(promises) - {mid} && pending == old(pending)
        invariant rest <= inner.Keys && IndexedByPeer(shown, peerPromises)
        invariant forall x :: x in shown <==> x in old(pending) && (x.mid == mid ==> x.p in rest)
        invariant forall x :: x in shown ==> shown[x] == old(pending)[x]
        decreases rest
      {
        var p :| p in rest;
        DropByPeerIndexed(shown, peerPromises, Promise(mid, p));
        DropFromPeer(Promise(mid, p));
        shown := shown - {Promise(mid, p)};
        rest := rest - {p};
      }
      pending := WithoutMessage(pending, mid);
      assert shown == pending;
    }

    method ThrottlePeer(p: Peer)
      requires Valid()
      modifies this
      ensures Valid() && pending == WithoutPeer(old(pending), p)
    {
      PeerGone(pending, peerPromises, p);
      OwedBy(pending, peerPromises, p);
      if p !in peerPromises { return; }
      var mids := peerPromises[p];
      var rest := mids;
      ghost var shown := pending;
      while rest != {}
        invariant peerPromises == old(peerPromises) && pending == old(pending)
        invariant rest <= mids && IndexedByMessage(shown, promises)
        invariant forall x :: x in shown <==> x in old(pending) && (x.p == p ==> x.mid in rest)
        invariant forall x :: x in shown ==> shown[x] == old(pending)[x]
        decreases rest
      {
        var mid :| mid in rest;
        ghost var x := Promise(mid, p);
        assert ShowsPeer(old(pending), peerPromises, x) && ShowsMessage(shown, promises, x);
        DropByMessageIndexed(shown, promises, x);
        DropFromMessage(Promise(mid, p));
        shown := shown - {x};
        rest := rest - {mid};
      }
      peerPromises := peerPromises - {p};
      pending := WithoutPeer(pending, p);
      assert shown == pending;
    }

    /** Removes x from both indexes. */
    method Drop(x: Promise)
      requires Valid() && x in pending
      modifies this
      ensures Valid() && pending == old(pending) - {x}
    {
      assert ShowsMessage(pending, promises, x);
      DropByMessageIndexed(pending, promises, x);
      DropByPeerIndexed(pending, peerPromises, x);
      DropFromMessage(x);
      DropFromPeer(x);
      pending := pending - {x};
    }

    /** Counts and removes the overdue promises of one message. */
    method BreakMessage(mid: MsgId, now: Time, res: map<Peer, nat>, ghost done: set<Promise>)
      returns (res': map<Peer, nat>, ghost done': set<Promise>)
      requires Valid() && mid in promises && Counts(res, done) && done !! pending.Keys
      modifies this
      ensures Valid() && Counts(res', done')
      ensures done' == done + (set x | x in old(pending) && Overdue(old(pending), now, x) && x.mid == mid)
      ensures pending == old(pending) - (done' - done)
    {
      res', done' := res, done;
      var inner := promises[mid];
      var rest := inner.Keys;
      OwedFor(pending, promises, mid);
      ghost var pend := pending;
      forall p | p in inner ensures Promise(mid, p) in pend && pend[Promise(mid, p)] == inner[p] {
        assert ShowsMessage(pend, promises, Promise(mid, p));
      }
      while rest != {}
        invariant Valid() && rest <= inner.Keys
        invariant Counts(res', done')
        invariant done' == done + (set x | x in pend && Overdue(pend, now, x) && x.mid == mid && x.p !in rest)
        invariant pending == pend - (done' - done)
        decreases rest
      {
        var p :| p in rest;
        ghost var x := Promise(mid, p);
        if inner[p] < now {
          CountOneMore(res', done', x);
          res' := res'[p := CountOf(res', p) + 1];
          Drop(Promise(mid, p));
          done' := done' + {x};
        }
        rest := rest - {p};
      }
    }

    /** The number of promises each peer broke; they are removed. */
    method GetBrokenPromises(now: Time) returns (res: map<Peer, nat>)
      requires Valid()
      modifies this
      ensures Valid() && pending == Kept(old(pending), now)
      ensures forall p :: CountOf(res, p) == |BrokenBy(old(pending), now, p)|
    {
      res := map[];
      ghost var pend, done := pending, {};
      NoneCounted();
      var rest := promises.Keys;
      forall x | x in pend ensures x.mid in rest { assert ShowsMessage(pend, promises, x); }
      while rest != {}
        invariant Valid() && Counts(res, done)
        invariant done == set x | x in pend && Overdue(pend, now, x) && x.mid !in rest
        invariant pending == pend - done
        decreases rest
      {
        var mid :| mid in rest;
        OwedFor(pending, promises, mid);
        if mid in promises { res, done := BreakMessage(mid, now, res, done); }
        rest := rest - {mid};
      }
      assert pending == Kept(pend, now);
      forall p ensures CountOf(res, p) == |BrokenBy(pend, now, p)| {
        assert CountsFor(res, done, p);
        assert By(done, p) == BrokenBy(pend, now, p);
      }
    }
  }

  function CountOf(res: map<Peer, nat>, p: Peer): nat { if p in res then res[p] else 0 }

  function By(xs: set<Promise>, p: Peer): set<Promise> { set x | x in xs && x.p == p }

  predicate CountsFor(res: map<Peer, nat>, done: set<Promise>, p: Peer) { CountOf(res, p) == |By(done, p)| }

  ghost predicate Counts(res: map<Peer, nat>, done: set<Promise>) { forall p :: CountsFor(res, done, p) }

  lemma NoneCounted()
    ensures Counts(map[], {})
  {
    forall p ensures CountsFor(map[], {}, p) {
      assert By({}, p) == {};
    }
  }

  lemma CountOneMore(res: map<Peer, nat>, done: set<Promise>, x: Promise)
    requires Counts(res, done) && x !in done
    ensures Counts(res[x.p := CountOf(res, x.p) + 1], done + {x})
  {
    var res' := res[x.p := CountOf(res, x.p) + 1];
    forall p ensures CountsFor(res', done + {x}, p) {
      assert CountsFor(res, done, p);
      if p == x.p {
        assert By(done + {x}, p) == By(done, p) + {x};
      } else {
        assert By(done + {x}, p) == By(done, p);
      }
    }
  }
}
