/** IHAVE and IWANT: asking for messages that were advertised, and answering. */
module Gossip {
  import opened Peers
  import opened MessageCache
  import Promises

  // ---------------------------------------------------------------------------------
  // IHAVE
  // ---------------------------------------------------------------------------------

  datatype Limits = Limits(maxIHaveMessages: nat, maxIHaveLength: nat, gossipRetransmission: nat)

  /** One IHAVE; it counts only if its bitmask is joined and the peer passes the filter for it. */
  datatype IHave = IHave(counts: bool, ids: seq<MsgId>)

  function Min(a: int, b: int): int { if a <= b then a else b }

  function Unseen(ids: seq<MsgId>, seen: set<MsgId>): set<MsgId> { set id | id in ids && id !in seen }

  /** What is new in the IHAVEs, looking at no more than `most` ids of each. */
  function NewIds(ihaves: seq<IHave>, seen: set<MsgId>, most: nat): set<MsgId> {
    if ihaves == [] then {}
    else
      var last := ihaves[|ihaves| - 1];
      NewIds(ihaves[..|ihaves| - 1], seen, most)
        + if last.counts then Unseen(last.ids[..Min(most, |last.ids|)], seen) else {}
  }

  /** An IHAVE that counts advertises id among its first `most` ids. */
  ghost predicate Advertised(ihaves: seq<IHave>, most: nat, id: MsgId) {
    exists i, j :: 0 <= i < |ihaves| && ihaves[i].counts && 0 <= j < |ihaves[i].ids| && j < most
                   && ihaves[i].ids[j] == id
  }

  /** New is exactly what is advertised and has not been seen. */
  lemma {:induction false} NewIdsExactly(ihaves: seq<IHave>, seen: set<MsgId>, most: nat, id: MsgId)
    ensures id in NewIds(ihaves, seen, most) <==> id !in seen && Advertised(ihaves, most, id)
  {
    if ihaves != [] {
      var n := |ihaves| - 1;
      NewIdsExactly(ihaves[..n], seen, most, id);
      var ids := ihaves[n].ids;
      var k := Min(most, |ids|);
      assert id in ids[..k] <==> exists j :: 0 <= j < |ids| && j < most && ids[j] == id by {
        if id in ids[..k] {
          var j :| 0 <= j < k && ids[..k][j] == id;
          assert ids[j] == id;
        }
        if j :| 0 <= j < |ids| && j < most && ids[j] == id { assert ids[..k][j] == id; }
      }
      assert Advertised(ihaves, most, id)
        <==> Advertised(ihaves[..n], most, id) || (ihaves[n].counts && id in ids[..k]);
    }
  }

  lemma NewAreAdvertised(ihaves: seq<IHave>, seen: set<MsgId>, most: nat, ids: seq<MsgId>)
    requires forall i :: 0 <= i < |ids| ==> ids[i] in NewIds(ihaves, seen, most)
    ensures forall i :: 0 <= i < |ids| ==> ids[i] !in seen && Advertised(ihaves, most, ids[i])
  {
    forall i | 0 <= i < |ids| ensures ids[i] !in seen && Advertised(ihaves, most, ids[i]) {
      NewIdsExactly(ihaves, seen, most, ids[i]);
    }
  }

  /** How often each peer sent IHAVEs and how many ids it was asked for, since the last heartbeat. */
  datatype Counters = Counters(have: map<Peer, nat>, asked: map<Peer, nat>)

  function Of(m: map<Peer, nat>, p: Peer): nat { if p in m then m[p] else 0 }

  /** How many of n new ids to ask p for; `trusted` says that its score reaches the gossip threshold. */
  function AskFor(l: Limits, c: Counters, p: Peer, trusted: bool, n: nat): nat {
    if !trusted || Of(c.have, p) + 1 > l.maxIHaveMessages || Of(c.asked, p) >= l.maxIHaveLength then 0
    else Min(n, l.maxIHaveLength - Of(c.asked, p))
  }

  function OnIHave(l: Limits, c: Counters, p: Peer, trusted: bool, n: nat): Counters {
    if !trusted then c
    else
      var k := AskFor(l, c, p, trusted, n);
      Counters(c.have[p := Of(c.have, p) + 1], if k == 0 then c.asked else c.asked[p := Of(c.asked, p) + k])
  }

  datatype Event = Advertise(p: Peer, trusted: bool, n: nat) | Heartbeat

  datatype Log = Start | Then(before: Log, event: Event)

  function CountersAfter(l: Limits, log: Log): Counters {
    match log
    case Start => Counters(map[], map[])
    case Then(_, Heartbeat) => Counters(map[], map[])
    case Then(before, Advertise(p, trusted, n)) => OnIHave(l, CountersAfter(l, before), p, trusted, n)
  }

  /** How many ids p was asked for since the last heartbeat. */
  function AskedSince(l: Limits, log: Log, p: Peer): nat {
    match log
    case Start => 0
    case Then(_, Heartbeat) => 0
    case Then(before, Advertise(q, trusted, n)) =>
      AskedSince(l, before, p) + if q == p then AskFor(l, CountersAfter(l, before), p, trusted, n) else 0
  }

  /** Between two heartbeats no peer is asked for more than the maximum, however much it advertises. */
  lemma {:induction false} AskedIsBounded(l: Limits, log: Log, p: Peer)
    ensures AskedSince(l, log, p) == Of(CountersAfter(l, log).asked, p) <= l.maxIHaveLength
  {
    if log.Then? && log.event.Advertise? { AskedIsBounded(l, log.before, p); }
  }

  /** How many trusted advertisements p made since the last heartbeat. */
  function MadeSince(log: Log, p: Peer): nat {
    match log
    case Start => 0
    case Then(_, Heartbeat) => 0
    case Then(before, Advertise(q, trusted, _)) => MadeSince(before, p) + if q == p && trusted then 1 else 0
  }

  /** How many new ids the first of them offered, as many as are looked at. */
  function OfferedSince(l: Limits, log: Log, p: Peer): nat {
    match log
    case Start => 0
    case Then(_, Heartbeat) => 0
    case Then(before, Advertise(q, trusted, n)) =>
      OfferedSince(l, before, p) + if q == p && trusted && MadeSince(before, p) < l.maxIHaveMessages then n else 0
  }

  /** A peer is asked for all that its first advertisements offered, up to the maximum, and for no more. */
  lemma {:induction false} AskedExactly(l: Limits, log: Log, p: Peer)
    ensures Of(CountersAfter(l, log).have, p) == MadeSince(log, p)
    ensures AskedSince(l, log, p) == Min(l.maxIHaveLength, OfferedSince(l, log, p))
  {
    AskedIsBounded(l, log, p);
    if log.Then? && log.event.Advertise? {
      AskedIsBounded(l, log.before, p);
      AskedExactly(l, log.before, p);
    }
  }

  // ---------------------------------------------------------------------------------
  // IWANT
  // ---------------------------------------------------------------------------------

  function AskedAll(c: Cache, ids: seq<MsgId>, p: Peer): Cache {
    if ids == [] then c else Asked(AskedAll(c, ids[..|ids| - 1], p), ids[|ids| - 1], p)
  }

  function Flat(iwants: seq<seq<MsgId>>): seq<MsgId> {
    if iwants == [] then [] else Flat(iwants[..|iwants| - 1]) + iwants[|iwants| - 1]
  }

  /** A peer that has asked for id often enough before is not sent it; otherwise it is, once. */
  predicate Answers(l: Limits, c: Cache, p: Peer, filtered: set<MsgId>, id: MsgId) {
    id in c.msgs && id !in filtered && TxOf(c, id, p) < l.gossipRetransmission
  }

  lemma {:induction false} AskedAllKeeps(c: Cache, ids: seq<MsgId>, p: Peer, id: MsgId)
    ensures AskedAll(c, ids, p).msgs == c.msgs && AskedAll(c, ids, p).history == c.history
    ensures TxOf(AskedAll(c, ids, p), id, p) >= TxOf(c, id, p)
    ensures id !in ids ==> TxOf(AskedAll(c, ids, p), id, p) == TxOf(c, id, p)
    ensures id in ids && id in c.msgs ==> TxOf(AskedAll(c, ids, p), id, p) > TxOf(c, id, p)
  {
    if ids != [] {
      AskedAllKeeps(c, ids[..|ids| - 1], p, id);
      assert ids == ids[..|ids| - 1] + [ids[|ids| - 1]];
    }
  }

  /** The cache's log after p asked for the ids and was sent those in the answer, each once. */
  function AskLog(log: MessageCache.Log, ids: seq<MsgId>, p: Peer, answer: set<MsgId>): MessageCache.Log {
    if ids == [] then log
    else
      var init, id := ids[..|ids| - 1], ids[|ids| - 1];
      MessageCache.Then(AskLog(log, init, p, answer), Ask(id, p, id in answer && id !in init))
  }

  ghost predicate AllAnswered(l: Limits, c: Cache, p: Peer, filtered: set<MsgId>, answer: set<MsgId>) {
    forall id :: id in answer ==> Answers(l, c, p, filtered, id)
  }

  lemma {:induction false} AskLogAllowed(
    l: Limits, h: nat, log: MessageCache.Log, ids: seq<MsgId>, p: Peer, filtered: set<MsgId>, answer: set<MsgId>)
    requires h > 0 && Allowed(h, l.gossipRetransmission, log)
    requires AllAnswered(l, After(h, log), p, filtered, answer)
    ensures Allowed(h, l.gossipRetransmission, AskLog(log, ids, p, answer))
    ensures After(h, AskLog(log, ids, p, answer)) == AskedAll(After(h, log), ids, p)
  {
    if ids != [] {
      var init, id := ids[..|ids| - 1], ids[|ids| - 1];
      AskLogAllowed(l, h, log, init, p, filtered, answer);
      AskedAllKeeps(After(h, log), init, p, id);
    }
  }

  lemma {:induction false} AskLogServes(
    h: nat, log: MessageCache.Log, ids: seq<MsgId>, p: Peer, answer: set<MsgId>, id: MsgId)
    requires h > 0
    ensures Served(h, AskLog(log, ids, p, answer), id, p)
         == Served(h, log, id, p) + if id in ids && id in answer then 1 else 0
  {
    if ids != [] {
      AskLogServes(h, log, ids[..|ids| - 1], p, answer, id);
      assert ids == ids[..|ids| - 1] + [ids[|ids| - 1]];
    }
  }

  /** Whatever run led to the cache `before`, asking for the ids and sending the answer continues it to the
      cache `after` within the limit on retransmissions, and each id of the answer is served once more. */
  ghost predicate ContinuesRuns(
    l: Limits, before: Cache, after: Cache, ids: seq<MsgId>, p: Peer, answer: set<MsgId>) {
    forall h: nat, log :: h > 0 && Allowed(h, l.gossipRetransmission, log) && After(h, log) == before ==>
      var next := AskLog(log, ids, p, answer);
      && Allowed(h, l.gossipRetransmission, next) && After(h, next) == after
      && forall id :: Served(h, next, id, p) == Served(h, log, id, p) + if id in answer then 1 else 0
  }

  lemma AnswerContinuesRuns(l: Limits, c: Cache, ids: seq<MsgId>, p: Peer, filtered: set<MsgId>, answer: set<MsgId>)
    requires AllAnswered(l, c, p, filtered, answer) && forall id :: id in answer ==> id in ids
    ensures ContinuesRuns(l, c, AskedAll(c, ids, p), ids, p, answer)
  {
    forall h: nat, log | h > 0 && Allowed(h, l.gossipRetransmission, log) && After(h, log) == c
      ensures var next := AskLog(log, ids, p, answer);
        && Allowed(h, l.gossipRetransmission, next) && After(h, next) == AskedAll(c, ids, p)
        && forall id :: Served(h, next, id, p) == Served(h, log, id, p) + if id in answer then 1 else 0
    {
      AskLogAllowed(l, h, log, ids, p, filtered, answer);
      forall id { AskLogServes(h, log, ids, p, answer, id); }
    }
  }

  // ---------------------------------------------------------------------------------
  // The handlers
  // ---------------------------------------------------------------------------------

  class Gossiper {
    const limits: Limits
    const tracer: Promises.Tracer
    const mcache: Window
    var peerhave: map<Peer, nat>
    var iasked: map<Peer, nat>

    ghost function View(): Counters
      reads this
    {
      Counters(peerhave, iasked)
    }

    constructor (limits: Limits, tracer: Promises.Tracer, mcache: Window)
      ensures this.limits == limits && this.tracer == tracer && this.mcache == mcache
      ensures View() == Counters(map[], map[])
    {
      this.limits, this.tracer, this.mcache := limits, tracer, mcache;
      peerhave, iasked := map[], map[];
    }

    /** The ids to ask p for in answer to its IHAVEs. */
    method DecideIHave(p: Peer, trusted: bool, ihaves: seq<IHave>, seen: set<MsgId>) returns (iwant: seq<MsgId>)
      modifies this
      ensures var n := |NewIds(ihaves, seen, limits.maxIHaveLength)|;
        && View() == OnIHave(limits, old(View()), p, trusted, n)
        && |iwant| == AskFor(limits, old(View()), p, trusted, n)
      ensures forall i :: 0 <= i < |iwant| ==> iwant[i] in NewIds(ihaves, seen, limits.maxIHaveLength)
      ensures forall i :: 0 <= i < |iwant| ==>
                iwant[i] !in seen && Advertised(ihaves, limits.maxIHaveLength, iwant[i])
      ensures forall i, j :: 0 <= i < j < |iwant| ==> iwant[i] != iwant[j]
    {
      hide NewIds, Advertised;
      iwant := [];
      if !trusted { return; }
      peerhave := peerhave[p := (if p in peerhave then peerhave[p] else 0) + 1];
      if peerhave[p] > limits.maxIHaveMessages { return; }
      var already := if p in iasked then iasked[p] else 0;
      if already >= limits.maxIHaveLength { return; }
      var unseen := CollectNew(ihaves, seen, limits.maxIHaveLength);
      if |unseen| == 0 { return; }
      var iask := |unseen|;
      if iask + already > limits.maxIHaveLength { iask := limits.maxIHaveLength - already; }
      iwant := Listed(unseen);
      iwant := iwant[..iask];
      NewAreAdvertised(ihaves, seen, limits.maxIHaveLength, iwant);
      iasked := iasked[p := already + iask];
    }

    /** When there is anything to ask for, one of the ids is tracked as promised; a promise is never
        picked from an empty list. */
    method HandleIHave(p: Peer, trusted: bool, ihaves: seq<IHave>, seen: set<MsgId>, now: int)
      returns (iwant: seq<MsgId>, promised: seq<MsgId>)
      requires tracer.Valid()
      modifies this, tracer
      ensures tracer.Valid()
      ensures var n := |NewIds(ihaves, seen, limits.maxIHaveLength)|;
        && View() == OnIHave(limits, old(View()), p, trusted, n)
        && |iwant| == AskFor(limits, old(View()), p, trusted, n)
      ensures forall i :: 0 <= i < |iwant| ==> iwant[i] in NewIds(ihaves, seen, limits.maxIHaveLength)
      ensures forall i :: 0 <= i < |iwant| ==>
                iwant[i] !in seen && Advertised(ihaves, limits.maxIHaveLength, iwant[i])
      ensures forall i, j :: 0 <= i < j < |iwant| ==> iwant[i] != iwant[j]
      ensures if iwant == [] then promised == [] else |promised| == 1 && promised[0] in iwant
      ensures tracer.pending ==
        if promised == [] then old(tracer.pending)
        else Promises.Added(old(tracer.pending), Promises.Promise(promised[0], p), now + tracer.followUpTime)
    {
      iwant := DecideIHave(p, trusted, ihaves, seen);
      promised := [];
      if |iwant| > 0 {
        var mid := tracer.AddPromise(p, iwant, now);
        promised := [mid];
      }
    }

    /** Answers the IWANTs of p; messages that p sent itself, does not want or is filtered from are left out. */
    method HandleIWant(p: Peer, trusted: bool, iwants: seq<seq<MsgId>>, filtered: set<MsgId>, unwanted: set<MsgId>)
      returns (answer: map<MsgId, Message>)
      requires mcache.Valid()
      modifies mcache
      ensures !trusted ==> answer == map[] && mcache.View() == old(mcache.View())
      ensures trusted ==> mcache.View() == AskedAll(old(mcache.View()), Flat(iwants), p)
      ensures trusted ==> forall id :: id in answer <==>
                && id in Flat(iwants) && Answers(limits, old(mcache.View()), p, filtered, id)
                && old(mcache.msgs)[id].from != p && id !in unwanted
      ensures forall id :: id in answer ==> id in mcache.msgs && answer[id] == mcache.msgs[id]
      ensures trusted ==> ContinuesRuns(limits, old(mcache.View()), mcache.View(), Flat(iwants), p, answer.Keys)
    {
      answer := map[];
      if !trusted { return; }
      ghost var c := mcache.View();
      var flat := Flatten(iwants);
      for i := 0 to |flat|
        invariant mcache.View() == AskedAll(c, flat[..i], p) && mcache.msgs == c.msgs
        invariant forall id :: id in answer <==> id in flat[..i] && Answers(limits, c, p, filtered, id)
        invariant forall id :: id in answer ==> id in c.msgs && answer[id] == c.msgs[id]
      {
        assert flat[..i + 1][..i] == flat[..i];
        AskedAllKeeps(c, flat[..i], p, flat[i]);
        var m, count, ok := mcache.GetForPeer(flat[i], p);
        assert flat[..i + 1] == flat[..i] + [flat[i]];
        if ok && flat[i] !in filtered && count <= limits.gossipRetransmission {
          answer := answer[flat[i] := m];
        }
      }
      assert flat[..|flat|] == flat;
      answer := map id | id in answer && answer[id].from != p && id !in unwanted :: answer[id];
      AnswerContinuesRuns(limits, c, flat, p, filtered, answer.Keys);
    }
  }

  method Flatten(iwants: seq<seq<MsgId>>) returns (flat: seq<MsgId>)
    ensures flat == Flat(iwants)
  {
    flat := [];
    for i := 0 to |iwants|
      invariant flat == Flat(iwants[..i])
    {
      assert iwants[..i + 1][..i] == iwants[..i];
      flat := flat + iwants[i];
    }
    assert iwants[..|iwants|] == iwants;
  }

  method CollectNew(ihaves: seq<IHave>, seen: set<MsgId>, most: nat) returns (ids: set<MsgId>)
    ensures ids == NewIds(ihaves, seen, most)
  {
    ids := {};
    for i := 0 to |ihaves|
      invariant ids == NewIds(ihaves[..i], seen, most)
    {
      assert ihaves[..i + 1][..i] == ihaves[..i];
      if ihaves[i].counts {
        var unseen := CollectUnseen(ihaves[i].ids, seen, most);
        ids := ids + unseen;
      }
    }
    assert ihaves[..|ihaves|] == ihaves;
  }

  method CollectUnseen(ids: seq<MsgId>, seen: set<MsgId>, most: nat) returns (unseen: set<MsgId>)
    ensures unseen == Unseen(ids[..Min(most, |ids|)], seen)
  {
    unseen := {};
    var i := 0;
    while i < |ids| && i < most
      invariant 0 <= i <= Min(most, |ids|) && unseen == Unseen(ids[..i], seen)
    {
      assert ids[..i + 1] == ids[..i] + [ids[i]];
      if ids[i] !in seen { unseen := unseen + {ids[i]}; }
      i := i + 1;
    }
  }

  /** The ids in some order. */
  method Listed(ids: set<MsgId>) returns (list: seq<MsgId>)
    ensures |list| == |ids|
    ensures forall i :: 0 <= i < |list| ==> list[i] in ids
    ensures forall i, j :: 0 <= i < j < |list| ==> list[i] != list[j]
  {
    list := [];
    var rest := ids;
    while rest != {}
      invariant rest <= ids && |list| + |rest| == |ids|
      invariant forall i :: 0 <= i < |list| ==> list[i] in ids && list[i] !in rest
      invariant forall i, j :: 0 <= i < j < |list| ==> list[i] != list[j]
      decreases rest
    {
      var id :| id in rest;
      list := list + [id];
      rest := rest - {id};
    }
  }
}
