/** The sliding window of recent messages. */
module MessageCache {
  import opened Peers
  import opened BitmaskSlices

  datatype Message = Message(id: MsgId, bitmask: Bytes, from: Peer, payload: int)

  datatype Entry = Entry(mid: MsgId, bitmask: Bytes)

  datatype Slot = Slot(entries: seq<Entry>)

  /** tx counts how often a peer asked for a message. history[0] is the current slot. */
  datatype Cache = Cache(msgs: map<MsgId, Message>, tx: map<MsgId, map<Peer, nat>>, history: seq<Slot>)

  function Empty(history: nat): Cache { Cache(map[], map[], seq(history, _ => Slot([]))) }

  function EntriesOf(m: Message): seq<Entry> {
    var slices := Slices(m.bitmask);
    seq(|slices|, k requires 0 <= k < |slices| => Entry(m.id, slices[k]))
  }

  function Mids(es: seq<Entry>): set<MsgId> { set e | e in es :: e.mid }

  function PutIn(c: Cache, m: Message): Cache
    requires c.history != []
  {
    c.(msgs := c.msgs[m.id := m], history := c.history[0 := Slot(c.history[0].entries + EntriesOf(m))])
  }

  function Shifted(c: Cache): Cache
    requires c.history != []
  {
    var h := |c.history|;
    var gone := Mids(c.history[h - 1].entries);
    Cache(c.msgs - gone, c.tx - gone, [Slot([])] + c.history[..h - 1])
  }

  function TxOf(c: Cache, id: MsgId, p: Peer): nat {
    if id in c.tx && p in c.tx[id] then c.tx[id][p] else 0
  }

  /** A peer asks for a message. */
  function Asked(c: Cache, id: MsgId, p: Peer): Cache {
    if id !in c.msgs then c else
    c.(tx := c.tx[id := (if id in c.tx then c.tx[id] else map[])[p := TxOf(c, id, p) + 1]])
  }

  function WithBitmask(es: seq<Entry>, b: Bytes): seq<MsgId> {
    if es == [] then []
    else WithBitmask(es[..|es| - 1], b) + if es[|es| - 1].bitmask == b then [es[|es| - 1].mid] else []
  }

  /** The ids to gossip about: those of the last g slots with that slice. */
  function GossipIds(history: seq<Slot>, g: nat, b: Bytes): seq<MsgId>
    requires g <= |history|
  {
    if g == 0 then [] else GossipIds(history, g - 1, b) + WithBitmask(history[g - 1].entries, b)
  }

  // ---------------------------------------------------------------------------------
  // Runs
  // ---------------------------------------------------------------------------------

  datatype Op = Put(m: Message) | Shift | Ask(id: MsgId, p: Peer, served: bool)

  /** What was done with the cache, latest last. */
  datatype Log = Start | Then(before: Log, op: Op)

  function After(h: nat, log: Log): (c: Cache)
    requires h > 0
    ensures |c.history| == h
  {
    match log
    case Start => Empty(h)
    case Then(before, Put(m)) => PutIn(After(h, before), m)
    case Then(before, Shift) => Shifted(After(h, before))
    case Then(before, Ask(id, p, _)) => Asked(After(h, before), id, p)
  }

  /** The clock of the log: how many shifts there were. */
  function Shifts(log: Log): nat {
    if log.Start? then 0 else Shifts(log.before) + if log.op.Shift? then 1 else 0
  }

  /** What was put at time t, in order. */
  function EntriesAt(log: Log, t: int): seq<Entry> {
    if log.Start? then []
    else if log.op.Put? && Shifts(log.before) == t then EntriesAt(log.before, t) + EntriesOf(log.op.m)
    else EntriesAt(log.before, t)
  }

  predicate Puts(op: Op, id: MsgId) { op.Put? && op.m.id == id }

  /** How often id was put. */
  function PutCount(log: Log, id: MsgId): nat {
    if log.Start? then 0 else PutCount(log.before, id) + if Puts(log.op, id) then 1 else 0
  }

  /** id was put at time t. */
  predicate StampedAt(log: Log, id: MsgId, t: int) {
    log.Then? && (StampedAt(log.before, id, t) || (Puts(log.op, id) && Shifts(log.before) == t))
  }

  /** The time at which id was last put, or -1. */
  function LastStamp(log: Log, id: MsgId): int {
    if log.Start? then -1 else if Puts(log.op, id) then Shifts(log.before) else LastStamp(log.before, id)
  }

  lemma {:induction false} NothingYet(log: Log, t: int)
    requires t > Shifts(log)
    ensures EntriesAt(log, t) == []
  {
    if log.Then? { NothingYet(log.before, t); }
  }

  lemma {:induction false} StampsArePast(log: Log, id: MsgId, t: int)
    ensures StampedAt(log, id, t) ==> 0 <= t <= LastStamp(log, id)
    ensures LastStamp(log, id) <= Shifts(log)
    ensures LastStamp(log, id) >= 0 <==> PutCount(log, id) > 0
    ensures LastStamp(log, id) >= 0 ==> StampedAt(log, id, LastStamp(log, id))
  {
    if log.Then? { StampsArePast(log.before, id, t); }
  }

  predicate SlotIsLog(h: nat, log: Log, k: nat)
    requires k < h
  {
    After(h, log).history[k].entries == EntriesAt(log, Shifts(log) - k)
  }

  lemma ShiftedSlotIsLog(h: nat, log: Log, k: nat)
    requires k < h && (k > 0 ==> SlotIsLog(h, log, k - 1))
    ensures SlotIsLog(h, Then(log, Shift), k)
  {
    ShiftedSlot(After(h, log), k);
    if k == 0 { NothingYet(log, Shifts(log) + 1); }
  }

  lemma PutSlotIsLog(h: nat, log: Log, m: Message, k: nat)
    requires k < h && SlotIsLog(h, log, k)
    ensures SlotIsLog(h, Then(log, Put(m)), k)
  {
    PutSlot(After(h, log), m, k);
  }

  lemma AskedSlotIsLog(h: nat, log: Log, id: MsgId, p: Peer, served: bool, k: nat)
    requires k < h && SlotIsLog(h, log, k)
    ensures SlotIsLog(h, Then(log, Ask(id, p, served)), k)
  {
  }

  /** The history is the log, slot by slot. */
  lemma {:induction false} HistoryIsLog(h: nat, log: Log, k: nat)
    requires k < h
    ensures SlotIsLog(h, log, k)
  {
    match log
    case Start =>
    case Then(before, Shift) =>
      if k > 0 { HistoryIsLog(h, before, k - 1); }
      ShiftedSlotIsLog(h, before, k);
    case Then(before, Put(m)) =>
      HistoryIsLog(h, before, k);
      PutSlotIsLog(h, before, m, k);
    case Then(before, Ask(id, p, served)) =>
      HistoryIsLog(h, before, k);
      AskedSlotIsLog(h, before, id, p, served, k);
  }

  lemma ShiftedSlot(c: Cache, k: nat)
    requires k < |c.history|
    ensures Shifted(c).history[k] == if k == 0 then Slot([]) else c.history[k - 1]
  {
  }

  lemma PutSlot(c: Cache, m: Message, k: nat)
    requires k < |c.history|
    ensures PutIn(c, m).history[k] == if k == 0 then Slot(c.history[0].entries + EntriesOf(m)) else c.history[k]
  {
  }

  lemma EntriesNameTheId(m: Message)
    ensures Mids(EntriesOf(m)) == {m.id}
  {
    SlicesNonEmpty(m.bitmask);
    assert EntriesOf(m)[0].mid == m.id;
  }

  lemma MidsOfBoth(a: seq<Entry>, b: seq<Entry>)
    ensures Mids(a + b) == Mids(a) + Mids(b)
  {
    forall id ensures id in Mids(a + b) <==> id in Mids(a) + Mids(b) {
      if e :| e in a + b && e.mid == id { assert e in a || e in b; }
    }
  }

  lemma {:induction false} LoggedIffStamped(log: Log, id: MsgId, t: int)
    ensures id in Mids(EntriesAt(log, t)) <==> StampedAt(log, id, t)
  {
    if log.Then? {
      LoggedIffStamped(log.before, id, t);
      if log.op.Put? && Shifts(log.before) == t {
        MidsOfBoth(EntriesAt(log.before, t), EntriesOf(log.op.m));
        EntriesNameTheId(log.op.m);
      } else {
        assert EntriesAt(log, t) == EntriesAt(log.before, t);
      }
    }
  }

  /** By the log alone: id was put, and no put of it has left the window since the last one. */
  ghost predicate Retrievable(h: nat, log: Log, id: MsgId) {
    LastStamp(log, id) >= 0 && forall t :: StampedAt(log, id, t) ==> !(LastStamp(log, id) < t + h <= Shifts(log))
  }

  /** The last message that was put under an id. */
  function Latest(log: Log, id: MsgId): Message
    requires LastStamp(log, id) >= 0
  {
    if Puts(log.op, id) then log.op.m else Latest(log.before, id)
  }

  lemma ShiftEvicts(h: nat, log: Log, id: MsgId)
    requires h > 0
    ensures id in Mids(After(h, log).history[h - 1].entries) <==> StampedAt(log, id, Shifts(log) - (h - 1))
  {
    var t := Shifts(log) - (h - 1);
    calc {
      id in Mids(After(h, log).history[h - 1].entries);
      { HistoryIsLog(h, log, h - 1); }
      id in Mids(EntriesAt(log, t));
      { LoggedIffStamped(log, id, t); }
      StampedAt(log, id, t);
    }
  }

  lemma ShiftRetrievable(h: nat, log: Log, id: MsgId)
    requires h > 0
    ensures Retrievable(h, Then(log, Shift), id)
        <==> Retrievable(h, log, id) && !StampedAt(log, id, Shifts(log) - (h - 1))
  {
    var next, now, t' := Then(log, Shift), Shifts(log), Shifts(log) - (h - 1);
    assert LastStamp(next, id) == LastStamp(log, id) && Shifts(next) == now + 1;
    forall t ensures StampedAt(next, id, t) <==> StampedAt(log, id, t) {
    }
    StampsArePast(log, id, t');
    if Retrievable(h, next, id) {
      forall t | StampedAt(log, id, t) ensures !(LastStamp(log, id) < t + h <= now) { assert StampedAt(next, id, t); }
      assert !StampedAt(next, id, t');
    }
  }

  /** The cache refines the log: an id is cached if and only if it was put and no put of it has left the
      window since its last one; and it is cached as it was last put. */
  lemma {:induction false} CacheIsLog(h: nat, log: Log, id: MsgId)
    requires h > 0
    ensures id in After(h, log).msgs <==> Retrievable(h, log, id)
    ensures id in After(h, log).msgs ==> After(h, log).msgs[id] == Latest(log, id)
  {
    if log.Then? {
      CacheIsLog(h, log.before, id);
      if log.op.Shift? {
        ShiftRetrievable(h, log.before, id);
        ShiftEvicts(h, log.before, id);
      } else if Puts(log.op, id) {
        PutRetrievable(h, log.before, log.op.m);
      } else {
        OtherRetrievable(h, log, id);
      }
    }
  }

  lemma PutRetrievable(h: nat, log: Log, m: Message)
    ensures Retrievable(h, Then(log, Put(m)), m.id)
  {
    assert LastStamp(Then(log, Put(m)), m.id) == Shifts(log) == Shifts(Then(log, Put(m)));
  }

  lemma OtherRetrievable(h: nat, log: Log, id: MsgId)
    requires log.Then? && !log.op.Shift? && !Puts(log.op, id)
    ensures Retrievable(h, log, id) <==> Retrievable(h, log.before, id)
  {
    forall t ensures StampedAt(log, id, t) <==> StampedAt(log.before, id, t) {
    }
  }

  lemma {:induction false} OnlyStamp(log: Log, id: MsgId, t: int)
    requires PutCount(log, id) == 1 && StampedAt(log, id, t)
    ensures t == LastStamp(log, id)
  {
    if PutCount(log.before, id) == 1 {
      OnlyStamp(log.before, id, t);
    } else {
      StampsArePast(log.before, id, t);
    }
  }

  /** A message whose id was put once is cached for exactly the length of the history. */
  lemma FreshIsCachedFor(h: nat, log: Log, id: MsgId)
    requires h > 0 && PutCount(log, id) == 1
    ensures id in After(h, log).msgs <==> Shifts(log) - LastStamp(log, id) < h
  {
    CacheIsLog(h, log, id);
    StampsArePast(log, id, 0);
    forall t | StampedAt(log, id, t) ensures t == LastStamp(log, id) { OnlyStamp(log, id, t); }
  }

  /** Put again, a message is lost when its first put leaves the window. */
  lemma PutAgainIsLostEarly(m: Message)
    ensures var log := Then(Then(Then(Then(Start, Put(m)), Shift), Put(m)), Shift);
      m.id !in After(2, log).msgs && LastStamp(log, m.id) == 1 && Shifts(log) == 2
  {
    var once := Then(Then(Start, Put(m)), Shift);
    var log := Then(Then(once, Put(m)), Shift);
    assert Shifts(once.before) == 0 && Shifts(once) == 1;
    assert StampedAt(once.before, m.id, 0) && StampedAt(once, m.id, 0);
    assert StampedAt(log.before, m.id, 0);
    assert StampedAt(log, m.id, 0) && LastStamp(log, m.id) == 1 && Shifts(log) == 2;
    CacheIsLog(2, log, m.id);
  }

  // ---------------------------------------------------------------------------------
  // Gossip
  // ---------------------------------------------------------------------------------

  lemma {:induction false} WithBitmaskMembers(es: seq<Entry>, b: Bytes, id: MsgId)
    ensures id in WithBitmask(es, b) <==> Entry(id, b) in es
  {
    if es != [] {
      WithBitmaskMembers(es[..|es| - 1], b, id);
      assert es == es[..|es| - 1] + [es[|es| - 1]];
    }
  }

  lemma {:induction false} GossipMembers(history: seq<Slot>, g: nat, b: Bytes, id: MsgId)
    requires g <= |history|
    ensures id in GossipIds(history, g, b) <==> exists k :: 0 <= k < g && Entry(id, b) in history[k].entries
  {
    if g > 0 {
      GossipMembers(history, g - 1, b, id);
      WithBitmaskMembers(history[g - 1].entries, b, id);
    }
  }

  /** id was put under slice b at time t. */
  predicate PutAtTime(log: Log, id: MsgId, b: Bytes, t: int) {
    && log.Then?
    && (|| PutAtTime(log.before, id, b, t)
        || (Puts(log.op, id) && b in Slices(log.op.m.bitmask) && Shifts(log.before) == t))
  }

  /** id was put under slice b, k slots ago. */
  predicate PutAtAge(log: Log, id: MsgId, b: Bytes, k: nat) { PutAtTime(log, id, b, Shifts(log) - k) }

  lemma EntriesOfMembers(m: Message, id: MsgId, b: Bytes)
    ensures Entry(id, b) in EntriesOf(m) <==> id == m.id && b in Slices(m.bitmask)
  {
    var slices := Slices(m.bitmask);
    if id == m.id && b in slices {
      var k :| 0 <= k < |slices| && slices[k] == b;
      assert EntriesOf(m)[k] == Entry(id, b);
    }
  }

  lemma {:induction false} EntriesAtMembers(log: Log, id: MsgId, b: Bytes, t: int)
    ensures Entry(id, b) in EntriesAt(log, t) <==> PutAtTime(log, id, b, t)
  {
    if log.Then? {
      EntriesAtMembers(log.before, id, b, t);
      if log.op.Put? && Shifts(log.before) == t { EntriesOfMembers(log.op.m, id, b); }
    }
  }

  lemma SlotIsAge(h: nat, log: Log, k: nat, id: MsgId, b: Bytes)
    requires k < h
    ensures Entry(id, b) in After(h, log).history[k].entries <==> PutAtAge(log, id, b, k)
  {
    HistoryIsLog(h, log, k);
    EntriesAtMembers(log, id, b, Shifts(log) - k);
  }

  /** Gossip advertises exactly the ids that were put under that slice in the last g slots. */
  lemma GossipIsRecent(h: nat, g: nat, log: Log, id: MsgId, b: Bytes)
    requires 0 < h && g <= h
    ensures id in GossipIds(After(h, log).history, g, b) <==> exists k :: 0 <= k < g && PutAtAge(log, id, b, k)
  {
    GossipMembers(After(h, log).history, g, b, id);
    forall k | 0 <= k < g ensures Entry(id, b) in After(h, log).history[k].entries <==> PutAtAge(log, id, b, k) {
      SlotIsAge(h, log, k, id, b);
    }
  }

  lemma AgeOfGossip(h: nat, g: nat, log: Log, id: MsgId, b: Bytes) returns (k: nat)
    requires 0 < h && g <= h && id in GossipIds(After(h, log).history, g, b)
    ensures k < g && PutAtAge(log, id, b, k)
  {
    GossipIsRecent(h, g, log, id, b);
    k :| 0 <= k < g && PutAtAge(log, id, b, k);
  }

  lemma {:induction false} PutIsStamped(log: Log, id: MsgId, b: Bytes, t: int)
    requires PutAtTime(log, id, b, t)
    ensures StampedAt(log, id, t)
  {
    if PutAtTime(log.before, id, b, t) { PutIsStamped(log.before, id, b, t); }
  }

  /** `later` continues `log`. */
  predicate Continues(log: Log, later: Log) { later == log || (later.Then? && Continues(log, later.before)) }

  lemma {:induction false} StampsStay(log: Log, later: Log, id: MsgId, t: int)
    requires Continues(log, later) && StampedAt(log, id, t)
    ensures StampedAt(later, id, t)
  {
    if later != log { StampsStay(log, later.before, id, t); }
  }

  /** What was advertised can be asked for during the slack between the two windows: for h - g more
      shifts, if the id is put only once. */
  lemma AdvertisedIsAnswerable(h: nat, g: nat, log: Log, later: Log, id: MsgId, b: Bytes)
    requires 0 < h && g <= h && id in GossipIds(After(h, log).history, g, b)
    requires Continues(log, later) && PutCount(later, id) == 1 && Shifts(later) - Shifts(log) <= h - g
    ensures id in After(h, later).msgs
  {
    var k := AgeOfGossip(h, g, log, id, b);
    PutIsCached(h, log, later, id, b, Shifts(log) - k);
  }

  lemma PutIsCached(h: nat, log: Log, later: Log, id: MsgId, b: Bytes, t: int)
    requires 0 < h && PutAtTime(log, id, b, t)
    requires Continues(log, later) && PutCount(later, id) == 1 && Shifts(later) - t < h
    ensures id in After(h, later).msgs
  {
    PutIsStamped(log, id, b, t);
    StampsStay(log, later, id, t);
    OnlyStamp(later, id, t);
    FreshIsCachedFor(h, later, id);
  }

  // ---------------------------------------------------------------------------------
  // Retransmission
  // ---------------------------------------------------------------------------------

  /** An answer goes out only for a cached message that was not asked for more than r times. */
  predicate Allowed(h: nat, r: nat, log: Log)
    requires h > 0
  {
    log.Then? ==>
      && Allowed(h, r, log.before)
      && (log.op.Ask? && log.op.served ==>
            var c := After(h, log.before);
            log.op.id in c.msgs && TxOf(c, log.op.id, log.op.p) + 1 <= r)
  }

  /** By the log alone: how often p asked for id while it was cached, since a put of id last left the window. */
  ghost function AsksFor(h: nat, log: Log, id: MsgId, p: Peer): nat {
    match log
    case Start => 0
    case Then(before, Put(_)) => AsksFor(h, before, id, p)
    case Then(before, Ask(i, q, _)) =>
      AsksFor(h, before, id, p) + if i == id && q == p && Retrievable(h, before, id) then 1 else 0
    case Then(before, Shift) =>
      if StampedAt(before, id, Shifts(before) - (h - 1)) then 0 else AsksFor(h, before, id, p)
  }

  /** The counter that limits retransmission counts exactly the asks, answered or not. */
  lemma {:induction false} TxIsAsks(h: nat, log: Log, id: MsgId, p: Peer)
    requires h > 0
    ensures TxOf(After(h, log), id, p) == AsksFor(h, log, id, p)
  {
    if log.Then? {
      TxIsAsks(h, log.before, id, p);
      CacheIsLog(h, log.before, id);
      if log.op.Shift? { ShiftEvicts(h, log.before, id); }
    }
  }

  /** How often p was sent id since id last left the window. */
  function Served(h: nat, log: Log, id: MsgId, p: Peer): nat
    requires h > 0
  {
    match log
    case Start => 0
    case Then(before, Put(_)) => Served(h, before, id, p)
    case Then(before, Ask(i, q, served)) => Served(h, before, id, p) + if i == id && q == p && served then 1 else 0
    case Then(before, Shift) =>
      if id in Mids(After(h, before).history[h - 1].entries) then 0 else Served(h, before, id, p)
  }

  /** A peer is sent a message at most r times before the message leaves the window. */
  lemma {:induction false} ServedAtMost(h: nat, r: nat, log: Log, id: MsgId, p: Peer)
    requires h > 0 && Allowed(h, r, log)
    ensures Served(h, log, id, p) <= r
    ensures Served(h, log, id, p) <= TxOf(After(h, log), id, p)
  {
    if log.Then? { ServedAtMost(h, r, log.before, id, p); }
  }

  lemma TakeOneMore(es: seq<Entry>, i: nat)
    requires i < |es|
    ensures es[..i + 1] == es[..i] + [es[i]]
  {
  }

  // ---------------------------------------------------------------------------------
  // The cache as it is kept
  // ---------------------------------------------------------------------------------

  class Window {
    var msgs: map<MsgId, Message>
    var peertx: map<MsgId, map<Peer, nat>>
    const history: array<Slot>
    const gossip: nat

    ghost predicate Valid() { history.Length > 0 && gossip <= history.Length }

    ghost function View(): Cache
      reads this, history
    {
      Cache(msgs, peertx, history[..])
    }

    constructor (gossip: nat, slots: nat)
      requires gossip <= slots && slots > 0
      ensures Valid() && fresh(history) && this.gossip == gossip && View() == Empty(slots)
    {
      msgs, peertx := map[], map[];
      history := new Slot[slots](_ => Slot([]));
      this.gossip := gossip;
      new;
      assert history[..] == seq(slots, _ => Slot([]));
    }

    method Put(m: Message)
      requires Valid()
      modifies this, history
      ensures View() == PutIn(old(View()), m)
    {
      msgs := msgs[m.id := m];
      var slices := SliceBitmask(m.bitmask);
      ghost var es := EntriesOf(m);
      ghost var was := history[..];
      for i := 0 to |slices|
        invariant history[0].entries == was[0].entries + es[..i] && history[1..] == was[1..]
        invariant msgs == old(msgs)[m.id := m] && peertx == old(peertx)
      {
        history[0] := Slot(history[0].entries + [Entry(m.id, slices[i])]);
        TakeOneMore(es, i);
      }
      assert es[..|slices|] == es;
      assert history[..] == [history[0]] + history[1..] && was[0 := history[0]] == [history[0]] + was[1..];
    }

    method GetForPeer(id: MsgId, p: Peer) returns (m: Message, count: nat, ok: bool)
      modifies this`peertx
      ensures View() == Asked(old(View()), id, p)
      ensures ok <==> id in msgs
      ensures ok ==> m == msgs[id] && count == TxOf(old(View()), id, p) + 1
    {
      if id !in msgs { return Message(id, [], p, 0), 0, false; }
      var tx: map<Peer, nat> := if id in peertx then peertx[id] else map[];
      count := (if p in tx then tx[p] else 0) + 1;
      peertx := peertx[id := tx[p := count]];
      m, ok := msgs[id], true;
    }

    method GetGossipIDs(b: Bytes) returns (mids: seq<MsgId>)
      requires Valid()
      ensures mids == GossipIds(history[..], gossip, b)
    {
      mids := [];
      for k := 0 to gossip
        invariant mids == GossipIds(history[..], k, b)
      {
        var entries := history[k].entries;
        for i := 0 to |entries|
          invariant mids == GossipIds(history[..], k, b) + WithBitmask(entries[..i], b)
        {
          assert entries[..i + 1][..i] == entries[..i];
          if entries[i].bitmask == b { mids := mids + [entries[i].mid]; }
        }
        assert entries[..|entries|] == entries;
      }
    }

    /** Forgets the messages of a slot. */
    method Evict(slot: seq<Entry>)
      modifies this
      ensures msgs == old(msgs) - Mids(slot) && peertx == old(peertx) - Mids(slot)
    {
      for i := 0 to |slot|
        invariant msgs == old(msgs) - Mids(slot[..i]) && peertx == old(peertx) - Mids(slot[..i])
      {
        MidsOfBoth(slot[..i], [slot[i]]);
        assert slot[..i + 1] == slot[..i] + [slot[i]] && Mids([slot[i]]) == {slot[i].mid};
        msgs := msgs - {slot[i].mid};
        peertx := peertx - {slot[i].mid};
      }
      assert slot[..|slot|] == slot;
    }

    /** Moves every slot one on. */
    method MoveSlots()
      requires Valid()
      modifies history
      ensures history[..] == [Slot([])] + old(history[..])[..history.Length - 1]
    {
      var n := history.Length;
      for i := n - 1 downto 0
        invariant forall k :: 0 <= k <= i ==> history[k] == old(history[k])
        invariant forall k :: i < k < n ==> history[k] == old(history[k - 1])
      {
        history[i + 1] := history[i];
      }
      history[0] := Slot([]);
    }

    method Shift()
      requires Valid()
      modifies this, history
      ensures View() == Shifted(old(View()))
    {
      Evict(history[history.Length - 1].entries);
      MoveSlots();
    }
  }
}
