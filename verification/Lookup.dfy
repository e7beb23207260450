/** The asynchronous Kademlia lookup: one event loop, up to alpha query goroutines
    and a buffered channel of updates between them.

    A peer is identified with its XOR distance to the lookup target. For a fixed target
    that distance determines the peer, and it makes "closest first" the order on numbers. */
module KadLookup {

  type Peer = int

  datatype Option<+T> = None | Some(value: T)

  datatype PeerState = Heard | Waiting | Queried | Unreachable

  type PeerMap = map<Peer, PeerState>

  /** What a query goroutine reports on the channel; the seed update only has heard peers. */
  datatype Update = Update(cause: Peer, queried: seq<Peer>, heard: seq<Peer>, unreachable: seq<Peer>, duration: nat)

  datatype Config = Config(self: Peer, seeds: seq<Peer>, alpha: nat, beta: nat)

  // ---------------------------------------------------------------------------------
  // The query peer set
  // ---------------------------------------------------------------------------------

  function With(m: PeerMap, state: PeerState): set<Peer> {
    set p | p in m && m[p] == state
  }

  function InStates(m: PeerMap, states: set<PeerState>): set<Peer> {
    set p | p in m && m[p] in states
  }

  lemma {:induction false} Minimum(s: set<Peer>) returns (m: Peer)
    requires s != {}
    ensures m in s && forall x | x in s :: m <= x
  {
    assert exists a :: a in s by {
      if forall a :: a !in s {
        assert false;
      }
    }
    var a :| a in s;
    m := a;
    if s == {a} {} else {
      assert s - {a} != {};
      var b := Minimum(s - {a});
      m := if a <= b then a else b;
      forall x | x in s ensures m <= x {
        assert x == a || x in s - {a};
      }
    }
  }

  function Nearest(s: set<Peer>): (m: Peer)
    requires s != {}
    ensures m in s && forall x | x in s :: m <= x
  {
    assert exists m :: m in s && forall x | x in s :: m <= x by {
      var m := Minimum(s);
    }
    var m :| m in s && forall x | x in s :: m <= x;
    m
  }

  /** The peers of a set, closest first. */
  function ClosestFirst(s: set<Peer>): seq<Peer>
  {
    if s == {} then [] else [Nearest(s)] + ClosestFirst(s - {Nearest(s)})
  }

  lemma {:induction false} ClosestFirstMembers(s: set<Peer>)
    ensures |ClosestFirst(s)| == |s|
    ensures forall p :: p in ClosestFirst(s) <==> p in s
  {
    if s != {} {
      var m := Nearest(s);
      ClosestFirstMembers(s - {m});
    }
  }

  lemma {:induction false} ClosestFirstSorted(s: set<Peer>)
    ensures forall i, j :: 0 <= i < j < |ClosestFirst(s)| ==> ClosestFirst(s)[i] < ClosestFirst(s)[j]
  {
    if s != {} {
      var m := Nearest(s);
      var rest := ClosestFirst(s - {m});
      ClosestFirstSorted(s - {m});
      ClosestFirstMembers(s - {m});
      forall i | 0 <= i < |rest| ensures m < rest[i] { assert rest[i] in rest; }
    }
  }

  function Prefix(s: seq<Peer>, n: int): (r: seq<Peer>)
    ensures r <= s
  {
    if 0 <= n < |s| then s[..n] else s
  }

  /** TryAdd over a list: new peers enter as Heard, known peers keep their state. */
  function WithHeard(m: PeerMap, self: Peer, heard: seq<Peer>): PeerMap {
    map p | p in m.Keys + (set q | q in heard && q != self) :: if p in m then m[p] else Heard
  }

  /** Moves each listed peer from Waiting to `to`; None is the "protocol error" panic. */
  function Settle(m: PeerMap, self: Peer, ps: seq<Peer>, to: PeerState): Option<PeerMap> {
    if ps == [] then Some(m) else
    match Settle(m, self, ps[..|ps| - 1], to)
    case None => None
    case Some(n) =>
      var p := ps[|ps| - 1];
      if p == self then Some(n)
      else if p in n && n[p] == Waiting then Some(n[p := to])
      else None
  }

  /** The state after one update, or None if processing it panics. */
  function AfterUpdate(m: PeerMap, self: Peer, up: Update): Option<PeerMap> {
    match Settle(WithHeard(m, self, up.heard), self, up.queried, Queried)
    case None => None
    case Some(n) => Settle(n, self, up.unreachable, Unreachable)
  }

  // ---------------------------------------------------------------------------------
  // Termination conditions and the choice of the next peers to query
  // ---------------------------------------------------------------------------------

  predicate Starved(m: PeerMap) {
    With(m, Heard) == {} && With(m, Waiting) == {}
  }

  predicate ClosestAllQueried(m: PeerMap, beta: nat) {
    var closest := ClosestFirst(InStates(m, {Heard, Waiting, Queried}));
    var top := if |closest| >= beta then closest[..beta] else closest;
    forall p | p in top :: p in m && m[p] == Queried
  }

  /** The candidates that are closer than p. */
  function Closer(candidates: set<Peer>, p: Peer): set<Peer> { set q | q in candidates && q < p }

  /** Every peer not known to be unreachable that has fewer than beta such peers before it has answered. */
  ghost predicate NearestAnswered(m: PeerMap, beta: nat) {
    forall p :: p in m && m[p] != Unreachable && |Closer(InStates(m, {Heard, Waiting, Queried}), p)| < beta ==>
      m[p] == Queried
  }

  lemma RankInIncreasing(all: seq<Peer>, i: nat)
    requires Increasing(all) && i < |all|
    ensures |set q | q in all && q < all[i]| == i
  {
    var front := all[..i];
    IncreasingSize(front);
    forall q ensures q in front <==> q in all && q < all[i] {
      if q in all && q < all[i] {
        var j :| 0 <= j < |all| && all[j] == q;
        assert j < i && front[j] == q;
      }
    }
    assert (set q | q in front) == (set q | q in all && q < all[i]);
  }

  lemma RankInList(s: set<Peer>, i: nat)
    requires i < |ClosestFirst(s)|
    ensures |Closer(s, ClosestFirst(s)[i])| == i
  {
    var all := ClosestFirst(s);
    ClosestFirstMembers(s);
    ClosestFirstSorted(s);
    RankInIncreasing(all, i);
    assert Closer(s, all[i]) == (set q | q in all && q < all[i]);
  }

  /** The test on the list of the closest is one on ranks. */
  lemma ClosestAllQueriedIff(m: PeerMap, beta: nat)
    ensures ClosestAllQueried(m, beta) <==> NearestAnswered(m, beta)
  {
    var s := InStates(m, {Heard, Waiting, Queried});
    var all := ClosestFirst(s);
    var top := if |all| >= beta then all[..beta] else all;
    ClosestFirstMembers(s);
    forall p ensures p in top <==> p in s && |Closer(s, p)| < beta {
      if p in s {
        var i :| 0 <= i < |all| && all[i] == p;
        RankInList(s, i);
        if i < |top| { assert top[i] == p; }
      }
      if p in top {
        var i :| 0 <= i < |top| && top[i] == p;
        assert all[i] == p;
        RankInList(s, i);
      }
    }
  }

  predicate ReadyToTerminate(m: PeerMap, beta: nat, stop: bool) {
    stop || Starved(m) || ClosestAllQueried(m, beta)
  }

  /** The closest heard peers; a budget of zero or less takes all of them. */
  function PeersToQuery(m: PeerMap, budget: int): seq<Peer> {
    var heard := ClosestFirst(With(m, Heard));
    if budget <= 0 then heard else Prefix(heard, budget)
  }

  // ---------------------------------------------------------------------------------
  // The protocol as interleaved steps
  // ---------------------------------------------------------------------------------

  /** Where the event loop is: at its select, spawning the chosen queries, or returned. */
  datatype Control = AtSelect | Spawning(todo: seq<Peer>) | Returned

  datatype State = State(
    peers: PeerMap,
    channel: seq<Update>,      // buffered in ch, oldest first
    running: set<Peer>,        // query goroutines that have not sent their update yet
    issued: seq<Peer>,         // every query ever spawned, in order
    control: Control,
    cancelled: bool,           // pathCtx is done
    terminated: bool,
    panicked: bool)

  datatype Event =
    | Receive(stop: bool)                             // the loop takes an update; stop is stopFn's answer
    | NoticeCancel                                    // the loop sees pathCtx.Done
    | SpawnNext                                       // the loop starts one more query, or goes back to select
    | Succeed(p: Peer, saw: seq<Peer>, duration: nat) // a goroutine reports an answer
    | Fail(p: Peer)                                   // a goroutine reports a dial or query error
    | ExternalCancel

  function Seed(c: Config): Update {
    Update(c.self, [], c.seeds, [], 0)
  }

  function Init(c: Config): State {
    State(map[], [Seed(c)], {}, [], AtSelect, false, false, false)
  }

  predicate Enabled(c: Config, s: State, e: Event) {
    !s.panicked &&
    match e
    case Receive(_) => s.control.AtSelect? && s.channel != []
    case NoticeCancel => s.control.AtSelect? && s.cancelled
    case SpawnNext => s.control.Spawning?
    case Succeed(p, _, _) => p in s.running && |s.channel| < c.alpha
    case Fail(p) => p in s.running && |s.channel| < c.alpha
    case ExternalCancel => !s.cancelled
  }

  function OnReceive(c: Config, s: State, stop: bool): State
    requires s.channel != []
  {
    var s1 := s.(channel := s.channel[1..]);
    if s.terminated then s1.(panicked := true) else
    match AfterUpdate(s.peers, c.self, s.channel[0])
    case None => s1.(panicked := true)
    case Some(m) =>
      if ReadyToTerminate(m, c.beta, stop) then
        s1.(peers := m, terminated := true, cancelled := true, control := Returned)
      else
        s1.(peers := m, control := Spawning(PeersToQuery(m, c.alpha - |With(m, Waiting)|)))
  }

  function OnSpawn(s: State): State
    requires s.control.Spawning?
  {
    if s.control.todo == [] then s.(control := AtSelect) else
    var p := s.control.todo[0];
    s.(peers := s.peers[p := Waiting], running := s.running + {p}, issued := s.issued + [p],
       control := Spawning(s.control.todo[1..]))
  }

  function Step(c: Config, s: State, e: Event): State
    requires Enabled(c, s, e)
  {
    match e
    case Receive(stop) => OnReceive(c, s, stop)
    case NoticeCancel => s.(terminated := true, control := Returned)
    case SpawnNext => OnSpawn(s)
    case Succeed(p, saw, d) =>
      s.(running := s.running - {p}, channel := s.channel + [Update(p, [p], saw, [], d)])
    case Fail(p) =>
      s.(running := s.running - {p}, channel := s.channel + [Update(p, [], [], [p], 0)])
    case ExternalCancel => s.(cancelled := true)
  }

  /** A run: every event is enabled when it happens. */
  ghost predicate Runs(c: Config, s: State, events: seq<Event>, s': State)
    decreases events
  {
    if events == [] then s == s'
    else Enabled(c, s, events[0]) && Runs(c, Step(c, s, events[0]), events[1..], s')
  }

  // ---------------------------------------------------------------------------------
  // What every step keeps
  // ---------------------------------------------------------------------------------

  function WaitingPeers(s: State): set<Peer> { With(s.peers, Waiting) }

  predicate SeedPending(c: Config, s: State) { Seed(c) in s.channel }

  /** An update of a query goroutine: it settles exactly its own peer. */
  predicate WellFormed(up: Update) {
    (up.queried == [up.cause] && up.unreachable == []) ||
    (up.queried == [] && up.unreachable == [up.cause])
  }

  function Causes(ups: seq<Update>): set<Peer> { set up | up in ups :: up.cause }

  function Todo(s: State): seq<Peer> { if s.control.Spawning? then s.control.todo else [] }

  predicate Distinct(ps: seq<Peer>) { forall i, j :: 0 <= i < j < |ps| ==> ps[i] != ps[j] }

  /** Every waiting peer has exactly one outstanding query: a goroutine or a queued update. */
  ghost predicate Accounted(s: State) {
    && (forall i :: 0 <= i < |s.channel| ==> WellFormed(s.channel[i]))
    && (forall i, j :: 0 <= i < j < |s.channel| ==> s.channel[i].cause != s.channel[j].cause)
    && (forall i :: 0 <= i < |s.channel| ==> s.channel[i].cause !in s.running)
    && (forall p :: p in WaitingPeers(s) <==> p in s.running || p in Causes(s.channel))
  }

  /** The peers about to be queried are distinct heard peers, and there is room for them. */
  ghost predicate Roomy(c: Config, s: State) {
    && Distinct(Todo(s))
    && (forall p :: p in Todo(s) ==> p in s.peers && s.peers[p] == Heard)
    && |WaitingPeers(s)| + |Todo(s)| <= c.alpha
  }

  /** Each peer was queried at most once, and exactly the peers past Heard were. */
  ghost predicate QueriedOnce(s: State) {
    && Distinct(s.issued)
    && (forall p :: p in s.issued <==> p in s.peers && s.peers[p] != Heard)
  }

  /** Before the seed update is taken nothing else has happened; afterwards every waiting
      peer is accounted for, and the loop never waits at its select without a query. */
  ghost predicate Fed(c: Config, s: State) {
    if SeedPending(c, s) then
      s.channel == [Seed(c)] && s.peers == map[] && s.running == {} && !s.control.Spawning?
    else
      && Accounted(s)
      && (s.control.AtSelect? ==> WaitingPeers(s) != {})
      && (s.control.Spawning? && s.control.todo == [] ==> WaitingPeers(s) != {})
  }

  ghost predicate Inv(c: Config, s: State) {
    && !s.panicked
    && c.self !in s.peers
    && (s.terminated <==> s.control.Returned?)
    && QueriedOnce(s)
    && Roomy(c, s)
    && Fed(c, s)
  }

  lemma InitInv(c: Config)
    requires c.alpha >= 1
    ensures Inv(c, Init(c))
  {
  }

  /** A goroutine's update settles its own waiting peer and only adds heard peers. */
  lemma UpdateSettles(m: PeerMap, self: Peer, up: Update)
    requires self !in m && WellFormed(up) && up.cause in m && m[up.cause] == Waiting
    ensures AfterUpdate(m, self, up)
         == Some(WithHeard(m, self, up.heard)[up.cause := if up.queried == [] then Unreachable else Queried])
  {
    var n := WithHeard(m, self, up.heard);
    assert Settle(n, self, [], Queried) == Some(n);
    if up.queried == [] {
      assert up.unreachable[..0] == [] && Settle(n, self, [], Unreachable) == Some(n);
    } else {
      assert up.queried[..0] == [];
      assert Settle(n, self, up.queried, Queried) == Some(n[up.cause := Queried]);
    }
  }

  lemma SeedSettles(m: PeerMap, c: Config)
    ensures AfterUpdate(m, c.self, Seed(c)) == Some(WithHeard(m, c.self, c.seeds))
  {
  }

  ghost predicate Increasing(ps: seq<Peer>) { forall i, j :: 0 <= i < j < |ps| ==> ps[i] < ps[j] }

  /** Everybody heard of who is not listed is farther than everybody who is. */
  ghost predicate RestIsFarther(m: PeerMap, todo: seq<Peer>) {
    forall p, q :: p in todo && q in With(m, Heard) && q !in todo ==> p < q
  }

  /** The loop's choice with a positive budget: the closest heard peers, closest first, and as many as the budget
      allows or as there are. */
  lemma ChoiceFits(m: PeerMap, budget: int)
    requires budget >= 1
    ensures var todo := PeersToQuery(m, budget);
            && |todo| == (if budget < |With(m, Heard)| then budget else |With(m, Heard)|)
            && Increasing(todo) && RestIsFarther(m, todo)
            && (forall p :: p in todo ==> p in m && m[p] == Heard)
  {
    var heard := With(m, Heard);
    ClosestFirstMembers(heard);
    ClosestFirstSorted(heard);
    PrefixIsNearest(ClosestFirst(heard), budget);
    var todo := PeersToQuery(m, budget);
    forall p | p in todo ensures p in m && m[p] == Heard {
      assert p in ClosestFirst(heard);
    }
  }

  lemma PrefixIsNearest(all: seq<Peer>, n: int)
    requires n >= 1 && Increasing(all)
    ensures |Prefix(all, n)| == (if n < |all| then n else |all|)
    ensures Increasing(Prefix(all, n))
    ensures forall p, q :: p in Prefix(all, n) && q in all && q !in Prefix(all, n) ==> p < q
    ensures forall p :: p in Prefix(all, n) ==> p in all
  {
    var r := Prefix(all, n);
    forall p, q | p in r && q in all && q !in r ensures p < q {
      var i :| 0 <= i < |r| && r[i] == p;
      var j :| 0 <= j < |all| && all[j] == q;
      assert forall k :: 0 <= k < |r| ==> r[k] == all[k];
    }
  }

  /** As many as there are are all there are. */
  lemma AllChosen(m: PeerMap, todo: seq<Peer>)
    requires Increasing(todo) && (forall p :: p in todo ==> p in m && m[p] == Heard) && |todo| == |With(m, Heard)|
    ensures forall p :: p in With(m, Heard) ==> p in todo
  {
    var chosen := set p | p in todo;
    IncreasingSize(todo);
    assert chosen <= With(m, Heard);
    if p :| p in With(m, Heard) && p !in todo {
      SubsetSize(chosen + {p}, With(m, Heard));
    }
  }

  lemma {:induction false} IncreasingSize(ps: seq<Peer>)
    requires Increasing(ps)
    ensures |set p | p in ps| == |ps|
  {
    if ps != [] {
      var init, last := ps[..|ps| - 1], ps[|ps| - 1];
      IncreasingSize(init);
      assert (set p | p in ps) == (set p | p in init) + {last};
    }
  }

  lemma ChoiceHasRoom(m: PeerMap, alpha: nat)
    requires |With(m, Waiting)| < alpha
    ensures var todo := PeersToQuery(m, alpha - |With(m, Waiting)|);
      && Distinct(todo) && |With(m, Waiting)| + |todo| <= alpha && (todo == [] ==> With(m, Heard) == {})
      && (forall p :: p in todo ==> p in m && m[p] == Heard)
  {
    ChoiceFits(m, alpha - |With(m, Waiting)|);
  }

  // One lemma per kind of step; each shows the invariant for the state it produces.

  lemma ReceiveSeedInv(c: Config, s: State, stop: bool)
    requires c.alpha >= 1 && Inv(c, s) && Enabled(c, s, Receive(stop)) && SeedPending(c, s)
    ensures Inv(c, Step(c, s, Receive(stop)))
  {
    var m := WithHeard(s.peers, c.self, c.seeds);
    SeedSettles(s.peers, c);
    assert With(m, Waiting) == {};
    ChoiceHasRoom(m, c.alpha);
  }

  lemma WaitingAfterUpdate(m: PeerMap, self: Peer, up: Update, n: PeerMap)
    requires self !in m && WellFormed(up) && up.cause in m && m[up.cause] == Waiting
    requires AfterUpdate(m, self, up) == Some(n)
    ensures With(n, Waiting) == With(m, Waiting) - {up.cause}
    ensures |With(n, Waiting)| == |With(m, Waiting)| - 1
    ensures self !in n
    ensures forall p :: (p in n && n[p] != Heard) <==> (p in m && m[p] != Heard)
  {
    UpdateSettles(m, self, up);
    assert up.cause in With(m, Waiting);
  }

  lemma PopAccounts(s: State, s': State)
    requires Accounted(s) && s.channel != [] && s'.channel == s.channel[1..] && s'.running == s.running
    requires WaitingPeers(s') == WaitingPeers(s) - {s.channel[0].cause}
    ensures Accounted(s')
  {
    forall p ensures p in WaitingPeers(s') <==> p in s'.running || p in Causes(s'.channel) {
      CausesAfterPop(s.channel, p);
    }
  }

  lemma ReceiveInv(c: Config, s: State, stop: bool)
    requires Inv(c, s) && Enabled(c, s, Receive(stop)) && !SeedPending(c, s)
    ensures Inv(c, Step(c, s, Receive(stop)))
  {
    var up := s.channel[0];
    assert up.cause in Causes(s.channel) && up.cause in WaitingPeers(s);
    UpdateSettles(s.peers, c.self, up);
    var m := AfterUpdate(s.peers, c.self, up).value;
    WaitingAfterUpdate(s.peers, c.self, up, m);
    ChoiceHasRoom(m, c.alpha);
    var s' := Step(c, s, Receive(stop));
    PopAccounts(s, s');
  }

  lemma CausesAfterPop(ups: seq<Update>, p: Peer)
    requires ups != []
    requires forall i, j :: 0 <= i < j < |ups| ==> ups[i].cause != ups[j].cause
    ensures p in Causes(ups[1..]) <==> p in Causes(ups) && p != ups[0].cause
  {
    if p in Causes(ups) && p != ups[0].cause {
      var up :| up in ups && up.cause == p;
      assert up in ups[1..];
    }
    if p in Causes(ups[1..]) {
      var up :| up in ups[1..] && up.cause == p;
      var i :| 0 <= i < |ups| - 1 && ups[1..][i] == up;
      assert ups[i + 1] == up;
    }
  }

  lemma SpawnQueriesOnce(c: Config, s: State)
    requires QueriedOnce(s) && Roomy(c, s) && Enabled(c, s, SpawnNext) && s.control.todo != []
    ensures QueriedOnce(Step(c, s, SpawnNext))
  {
    var p := s.control.todo[0];
    assert p in Todo(s) && p !in s.issued;
    var s' := Step(c, s, SpawnNext);
    forall q ensures q in s'.issued <==> q in s'.peers && s'.peers[q] != Heard {
      assert q in s'.issued <==> q in s.issued || q == p;
    }
  }

  lemma SpawnKeepsRoom(c: Config, s: State)
    requires Roomy(c, s) && Enabled(c, s, SpawnNext) && s.control.todo != []
    ensures Roomy(c, Step(c, s, SpawnNext))
    ensures WaitingPeers(Step(c, s, SpawnNext)) == WaitingPeers(s) + {s.control.todo[0]}
  {
    var p := s.control.todo[0];
    var s' := Step(c, s, SpawnNext);
    assert p in Todo(s);
    assert WaitingPeers(s') == WaitingPeers(s) + {p};
    forall q | q in Todo(s') ensures q in Todo(s) && q != p {
      var i :| 0 <= i < |Todo(s')| && Todo(s')[i] == q;
      assert Todo(s)[i + 1] == q;
    }
  }

  lemma SpawnAccounts(c: Config, s: State)
    requires Roomy(c, s) && Accounted(s) && Enabled(c, s, SpawnNext) && s.control.todo != []
    ensures Accounted(Step(c, s, SpawnNext))
  {
    var p := s.control.todo[0];
    SpawnKeepsRoom(c, s);
    assert p in Todo(s) && p !in WaitingPeers(s);
    forall i | 0 <= i < |s.channel| ensures s.channel[i].cause != p {
      assert s.channel[i].cause in Causes(s.channel);
    }
  }

  lemma SpawnInv(c: Config, s: State)
    requires Inv(c, s) && Enabled(c, s, SpawnNext)
    ensures Inv(c, Step(c, s, SpawnNext))
  {
    if s.control.todo != [] {
      SpawnQueriesOnce(c, s);
      SpawnKeepsRoom(c, s);
      SpawnAccounts(c, s);
      assert s.control.todo[0] in WaitingPeers(Step(c, s, SpawnNext));
    }
  }

  lemma SettleInv(c: Config, s: State, e: Event)
    requires Inv(c, s) && Enabled(c, s, e) && (e.Succeed? || e.Fail?)
    ensures Inv(c, Step(c, s, e))
  {
    var s' := Step(c, s, e);
    var up := s'.channel[|s.channel|];
    assert WellFormed(up) && up.cause == e.p;
    assert Seed(c) !in s'.channel;
    forall p ensures p in Causes(s'.channel) <==> p in Causes(s.channel) || p == e.p {
      CausesAfterPush(s.channel, up, p);
    }
  }

  lemma CausesAfterPush(ups: seq<Update>, up: Update, p: Peer)
    ensures p in Causes(ups + [up]) <==> p in Causes(ups) || p == up.cause
  {
    if p in Causes(ups) {
      var u :| u in ups && u.cause == p;
      assert u in ups + [up];
    }
    if p == up.cause {
      assert up in ups + [up];
    }
  }

  lemma StepInv(c: Config, s: State, e: Event)
    requires c.alpha >= 1 && Inv(c, s) && Enabled(c, s, e)
    ensures Inv(c, Step(c, s, e))
  {
    match e
    case Receive(stop) =>
      if SeedPending(c, s) { ReceiveSeedInv(c, s, stop); } else { ReceiveInv(c, s, stop); }
    case SpawnNext => SpawnInv(c, s);
    case Succeed(_, _, _) => SettleInv(c, s, e);
    case Fail(_) => SettleInv(c, s, e);
    case NoticeCancel =>
    case ExternalCancel =>
  }

  // ---------------------------------------------------------------------------------
  // Results over whole runs
  // ---------------------------------------------------------------------------------

  lemma {:induction false} RunInv(c: Config, s: State, events: seq<Event>, s': State)
    requires c.alpha >= 1 && Inv(c, s) && Runs(c, s, events, s')
    ensures Inv(c, s')
    decreases events
  {
    if events != [] {
      StepInv(c, s, events[0]);
      RunInv(c, Step(c, s, events[0]), events[1..], s');
    }
  }

  lemma {:induction false} CausesCount(ups: seq<Update>)
    requires forall i, j :: 0 <= i < j < |ups| ==> ups[i].cause != ups[j].cause
    ensures |Causes(ups)| == |ups|
  {
    if ups != [] {
      var init, last := ups[..|ups| - 1], ups[|ups| - 1];
      CausesCount(init);
      assert ups == init + [last];
      forall p ensures p in Causes(ups) <==> p in Causes(init) + {last.cause} {
        CausesAfterPush(init, last, p);
      }
      assert Causes(ups) == Causes(init) + {last.cause};
    }
  }

  /** Queued updates and running queries together are the waiting peers. */
  lemma OutstandingIsWaiting(c: Config, s: State)
    requires Inv(c, s) && !SeedPending(c, s)
    ensures |s.channel| + |s.running| == |WaitingPeers(s)|
  {
    CausesCount(s.channel);
    var outstanding := s.running + Causes(s.channel);
    forall p ensures p in WaitingPeers(s) <==> p in outstanding {
    }
    assert WaitingPeers(s) == outstanding;
    forall p | p in Causes(s.channel) ensures p !in s.running {
      var up :| up in s.channel && up.cause == p;
    }
    assert s.running !! Causes(s.channel);
  }

  /** Safety of every interleaving: at most alpha peers wait, no peer is queried twice, no
      panic is reachable, the channel never holds more than its capacity even if every
      running query reported at once, and no update is taken after termination. */
  lemma LookupIsSafe(c: Config, events: seq<Event>, s: State)
    requires c.alpha >= 1 && Runs(c, Init(c), events, s)
    ensures |WaitingPeers(s)| <= c.alpha
    ensures Distinct(s.issued)
    ensures !s.panicked
    ensures |s.channel| + |s.running| <= c.alpha
    ensures forall stop :: s.terminated ==> !Enabled(c, s, Receive(stop))
  {
    InitInv(c);
    RunInv(c, Init(c), events, s);
    if !SeedPending(c, s) {
      OutstandingIsWaiting(c, s);
    }
  }

  /** No sender ever blocks on the channel, so the final Wait is always released. */
  lemma SendersNeverBlock(c: Config, events: seq<Event>, s: State, p: Peer)
    requires c.alpha >= 1 && Runs(c, Init(c), events, s) && p in s.running
    ensures Enabled(c, s, Fail(p))
    ensures forall saw, d :: Enabled(c, s, Succeed(p, saw, d))
  {
    LookupIsSafe(c, events, s);
    assert |s.running| >= 1 by {
      assert s.running == {p} + (s.running - {p});
    }
  }

  /** The event that can always happen next: a query reports, or the loop moves on. */
  ghost function Progress(s: State): Event {
    if s.running != {} then Fail(Nearest(s.running))
    else if s.control.Spawning? then SpawnNext
    else Receive(false)
  }

  /** Deadlock freedom: until the loop has returned and every query goroutine is done, some
      step other than a cancellation is possible. In particular the select of a lookup that
      has not terminated always has a queued update or a query that will send one. */
  lemma NeverStuck(c: Config, events: seq<Event>, s: State)
    requires c.alpha >= 1 && Runs(c, Init(c), events, s)
    ensures (s.control.Returned? && s.running == {}) || Enabled(c, s, Progress(s))
    ensures s.control.AtSelect? ==> s.channel != [] || s.running != {}
  {
    InitInv(c);
    RunInv(c, Init(c), events, s);
    if s.running != {} {
      SendersNeverBlock(c, events, s, Progress(s).p);
    } else if s.control.AtSelect? && !SeedPending(c, s) {
      var p := Nearest(WaitingPeers(s));
      assert p in Causes(s.channel);
    }
  }

  // Closest first, and never idle

  /** While queries are spawned, the rest of the list is the closest of what was heard; and the list fills the
      slots or takes everybody. At the select either all slots are used or nobody is left to query. */
  ghost predicate Eager(c: Config, s: State) {
    match s.control
    case Spawning(todo) => EagerChoice(s.peers, c.alpha, todo)
    case AtSelect => SeedPending(c, s) || |WaitingPeers(s)| == c.alpha || With(s.peers, Heard) == {}
    case Returned => true
  }

  ghost predicate EagerChoice(m: PeerMap, alpha: nat, todo: seq<Peer>) {
    && Increasing(todo) && RestIsFarther(m, todo)
    && (|With(m, Waiting)| + |todo| == alpha || forall p :: p in With(m, Heard) ==> p in todo)
  }

  lemma ReceiveEager(c: Config, s: State, stop: bool)
    requires c.alpha >= 1 && Inv(c, s) && Enabled(c, s, Receive(stop))
    ensures Eager(c, Step(c, s, Receive(stop)))
  {
    QueuedCounts(c, s);
    var m := AfterUpdate(s.peers, c.self, s.channel[0]).value;
    RoomAfterUpdate(c, s, m);
    AfterReceive(c, s, stop);
    ChosenIsEager(c, Step(c, s, Receive(stop)));
  }

  lemma ChosenIsEager(c: Config, s: State)
    requires |With(s.peers, Waiting)| < c.alpha
    requires s.control == Returned || s.control == Spawning(PeersToQuery(s.peers, c.alpha - |With(s.peers, Waiting)|))
    ensures Eager(c, s)
  {
    ChoiceIsEager(s.peers, c.alpha);
  }

  lemma ChoiceIsEager(m: PeerMap, alpha: nat)
    requires |With(m, Waiting)| < alpha
    ensures EagerChoice(m, alpha, PeersToQuery(m, alpha - |With(m, Waiting)|))
  {
    var budget := alpha - |With(m, Waiting)|;
    ChoiceFits(m, budget);
    var todo := PeersToQuery(m, budget);
    if |todo| < budget { AllChosen(m, todo); }
  }

  lemma RoomAfterUpdate(c: Config, s: State, m: PeerMap)
    requires c.alpha >= 1 && Inv(c, s) && s.channel != [] && AfterUpdate(s.peers, c.self, s.channel[0]) == Some(m)
    ensures |With(m, Waiting)| < c.alpha
  {
    var up := s.channel[0];
    if SeedPending(c, s) {
      SeedSettles(s.peers, c);
      assert With(m, Waiting) == {};
    } else {
      assert up.cause in Causes(s.channel) && up.cause in WaitingPeers(s);
      WaitingAfterUpdate(s.peers, c.self, up, m);
    }
  }

  lemma SpawnEager(c: Config, s: State)
    requires Inv(c, s) && Eager(c, s) && Enabled(c, s, SpawnNext)
    ensures Eager(c, Step(c, s, SpawnNext))
  {
    if s.control.todo != [] {
      var p, rest := s.control.todo[0], s.control.todo[1..];
      var s' := Step(c, s, SpawnNext);
      SpawnKeepsRoom(c, s);
      assert p in Todo(s) && p !in WaitingPeers(s);
      forall q ensures q in With(s'.peers, Heard) <==> q in With(s.peers, Heard) && q != p {
      }
      forall q | q in s.control.todo && q != p ensures q in rest { }
      forall q | q in rest ensures q in s.control.todo && q != p { }
    } else {
      assert |WaitingPeers(s)| == c.alpha || forall p :: p !in With(s.peers, Heard);
    }
  }

  lemma StepEager(c: Config, s: State, e: Event)
    requires c.alpha >= 1 && Inv(c, s) && Eager(c, s) && Enabled(c, s, e)
    ensures Eager(c, Step(c, s, e))
  {
    match e
    case Receive(stop) => ReceiveEager(c, s, stop);
    case SpawnNext => SpawnEager(c, s);
    case _ =>
  }

  lemma {:induction false} RunEager(c: Config, s: State, events: seq<Event>, s': State)
    requires c.alpha >= 1 && Inv(c, s) && Eager(c, s) && Runs(c, s, events, s')
    ensures Eager(c, s')
    decreases events
  {
    if events != [] {
      StepInv(c, s, events[0]);
      StepEager(c, s, events[0]);
      RunEager(c, Step(c, s, events[0]), events[1..], s');
    }
  }

  /** Along every run each query goes to the closest peer that was heard of and not queried yet; and a lookup that
      waits for updates has all alpha queries outstanding, or nobody left to query. */
  lemma QueriesClosestFirst(c: Config, events: seq<Event>, s: State)
    requires c.alpha >= 1 && Runs(c, Init(c), events, s)
    ensures Enabled(c, s, SpawnNext) && Step(c, s, SpawnNext).issued != s.issued ==>
      exists p :: && Step(c, s, SpawnNext).issued == s.issued + [p] && p in s.peers && s.peers[p] == Heard
                  && forall q :: q in s.peers && s.peers[q] == Heard ==> p <= q
    ensures s.control.AtSelect? && !SeedPending(c, s) ==>
      |WaitingPeers(s)| == c.alpha || forall q :: q in s.peers ==> s.peers[q] != Heard
  {
    InitInv(c);
    RunInv(c, Init(c), events, s);
    RunEager(c, Init(c), events, s);
    if s.control.Spawning? && s.control.todo != [] {
      var p := s.control.todo[0];
      assert p in Todo(s);
      forall q | q in s.peers && s.peers[q] == Heard ensures p <= q {
        if q in s.control.todo {
          var i :| 0 <= i < |s.control.todo| && s.control.todo[i] == q;
        } else {
          assert q in With(s.peers, Heard) && p in s.control.todo;
        }
      }
    }
    if s.control.AtSelect? && With(s.peers, Heard) == {} {
      forall q | q in s.peers ensures s.peers[q] != Heard { assert q !in With(s.peers, Heard); }
    }
  }

  // Nothing reported is forgotten

  /** The answer of p is still queued, or everybody it named is known. */
  ghost predicate Told(c: Config, s: State, p: Peer, saw: seq<Peer>) {
    || (p in s.peers && s.peers[p] == Waiting && exists d :: Update(p, [p], saw, [], d) in s.channel)
    || (forall q :: q in saw && q != c.self ==> q in s.peers)
  }

  lemma ReceiveTold(c: Config, s: State, stop: bool, p: Peer, saw: seq<Peer>)
    requires c.alpha >= 1 && Inv(c, s) && !SeedPending(c, s) && Enabled(c, s, Receive(stop)) && Told(c, s, p, saw)
    ensures Told(c, Step(c, s, Receive(stop)), p, saw)
  {
    var up, s' := s.channel[0], Step(c, s, Receive(stop));
    PeersAfterReceive(c, s, stop);
    if d :| Update(p, [p], saw, [], d) in s.channel && up != Update(p, [p], saw, [], d) {
      OtherUpdateStays(s.channel, Update(p, [p], saw, [], d));
    }
  }

  lemma PeersAfterReceive(c: Config, s: State, stop: bool)
    requires Inv(c, s) && !SeedPending(c, s) && Enabled(c, s, Receive(stop))
    ensures var up, s' := s.channel[0], Step(c, s, Receive(stop));
      && s'.channel == s.channel[1..]
      && (forall q :: q in s'.peers <==> q in s.peers || (q in up.heard && q != c.self))
      && (forall q :: q in s.peers && q != up.cause ==> s'.peers[q] == s.peers[q])
  {
    var up := s.channel[0];
    assert up.cause in Causes(s.channel) && up.cause in WaitingPeers(s);
    UpdateSettles(s.peers, c.self, up);
    AfterReceive(c, s, stop);
  }

  lemma OtherUpdateStays(ups: seq<Update>, up: Update)
    requires up in ups && up != ups[0] && forall i, j :: 0 <= i < j < |ups| ==> ups[i].cause != ups[j].cause
    ensures up in ups[1..] && up.cause != ups[0].cause
  {
    var i :| 0 <= i < |ups| && ups[i] == up;
    assert ups[1..][i - 1] == up;
  }

  lemma StepTold(c: Config, s: State, e: Event, p: Peer, saw: seq<Peer>)
    requires c.alpha >= 1 && Inv(c, s) && !SeedPending(c, s) && Enabled(c, s, e) && Told(c, s, p, saw)
    ensures Told(c, Step(c, s, e), p, saw) && !SeedPending(c, Step(c, s, e))
  {
    match e
    case Receive(stop) => ReceiveTold(c, s, stop, p, saw);
    case SpawnNext =>
      if s.control.todo != [] { assert s.control.todo[0] in Todo(s); }
    case Succeed(q, seen, t) =>
      if d :| Update(p, [p], saw, [], d) in s.channel { assert Update(p, [p], saw, [], d) in Step(c, s, e).channel; }
    case Fail(q) =>
      if d :| Update(p, [p], saw, [], d) in s.channel { assert Update(p, [p], saw, [], d) in Step(c, s, e).channel; }
    case _ =>
  }

  lemma {:induction false} RunTold(c: Config, s: State, events: seq<Event>, s': State, p: Peer, saw: seq<Peer>)
    requires c.alpha >= 1 && Inv(c, s) && !SeedPending(c, s) && Runs(c, s, events, s') && Told(c, s, p, saw)
    ensures Told(c, s', p, saw)
    decreases events
  {
    if events != [] {
      StepInv(c, s, events[0]);
      StepTold(c, s, events[0], p, saw);
      RunTold(c, Step(c, s, events[0]), events[1..], s', p, saw);
    }
  }

  /** On every run that goes on from an answer of p: once the answer was taken, every peer that it named, other
      than ourselves, is known to the lookup. */
  lemma AnswersAreHeard(c: Config, events: seq<Event>, s: State, p: Peer, saw: seq<Peer>, d: nat,
                        more: seq<Event>, s': State)
    requires c.alpha >= 1 && Runs(c, Init(c), events, s) && Enabled(c, s, Succeed(p, saw, d))
    requires Runs(c, Step(c, s, Succeed(p, saw, d)), more, s') && p in s'.peers && s'.peers[p] == Queried
    ensures forall q :: q in saw && q != c.self ==> q in s'.peers
  {
    var s1 := Step(c, s, Succeed(p, saw, d));
    InitInv(c);
    RunInv(c, Init(c), events, s);
    StepInv(c, s, Succeed(p, saw, d));
    assert Update(p, [p], saw, [], d) in s1.channel;
    assert p in WaitingPeers(s);
    RunTold(c, s1, more, s', p, saw);
  }

  /** The seeds are known as soon as the seed update was taken. */
  lemma SeedsAreHeard(c: Config, s: State, stop: bool)
    requires Inv(c, s) && SeedPending(c, s) && Enabled(c, s, Receive(stop))
    ensures forall q :: q in c.seeds && q != c.self ==> q in Step(c, s, Receive(stop)).peers
  {
    SeedSettles(s.peers, c);
  }

  /** Nobody has mentioned q. */
  ghost predicate Unheard(s: State, q: Peer) {
    q !in s.peers && forall i :: 0 <= i < |s.channel| ==> q !in s.channel[i].heard
  }

  lemma StepUnheard(c: Config, s: State, e: Event, q: Peer)
    requires c.alpha >= 1 && Inv(c, s) && Enabled(c, s, e) && Unheard(s, q) && !(e.Succeed? && q in e.saw)
    ensures Unheard(Step(c, s, e), q)
  {
    match e
    case Receive(stop) =>
      if SeedPending(c, s) {
        SeedSettles(s.peers, c);
      } else {
        PeersAfterReceive(c, s, stop);
      }
    case SpawnNext =>
      if s.control.todo != [] { assert s.control.todo[0] in Todo(s); }
    case _ =>
  }

  /** Only the seeds and what answers mention are ever known, and so queried. */
  lemma {:induction false} UnheardStays(c: Config, s: State, events: seq<Event>, s': State, q: Peer)
    requires c.alpha >= 1 && Inv(c, s) && Runs(c, s, events, s') && Unheard(s, q)
    requires forall i :: 0 <= i < |events| && events[i].Succeed? ==> q !in events[i].saw
    ensures Unheard(s', q)
    decreases events
  {
    if events != [] {
      StepInv(c, s, events[0]);
      StepUnheard(c, s, events[0], q);
      UnheardStays(c, Step(c, s, events[0]), events[1..], s', q);
    }
  }

  // Termination: a measure that every step lowers, over any finite universe of peers.

  predicate Within(e: Event, universe: set<Peer>) {
    e.Succeed? ==> forall p | p in e.saw :: p in universe
  }

  function ControlRank(k: Control): nat {
    match k case Returned => 0 case AtSelect => 1 case Spawning(_) => 2
  }

  function Measure(universe: set<Peer>, s: State): int {
    2 * (4 * (|universe| - |s.peers.Keys|) + 3 * |With(s.peers, Heard)| + 2 * |s.running| + |s.channel|)
    + ControlRank(s.control) + (if s.cancelled then 0 else 1)
  }

  /** Every peer the lookup knows or is about to hear of is in the universe. */
  ghost predicate Known(universe: set<Peer>, s: State) {
    && s.peers.Keys <= universe
    && forall i :: 0 <= i < |s.channel| ==> forall p | p in s.channel[i].heard :: p in universe
  }

  lemma SubsetSize(a: set<Peer>, b: set<Peer>)
    requires a <= b
    ensures |a| <= |b|
  {
    assert b == a + (b - a);
  }

  lemma DisjointSize(a: set<Peer>, b: set<Peer>, u: set<Peer>)
    requires a !! b && u == a + b
    ensures |u| == |a| + |b|
  {
  }

  lemma HeardAdds(m: PeerMap, self: Peer, heard: seq<Peer>)
    ensures var n := WithHeard(m, self, heard);
            m.Keys <= n.Keys && With(n, Heard) == With(m, Heard) + (n.Keys - m.Keys)
  {
  }

  /** Adding heard peers raises the number of known and of heard peers by the same amount. */
  lemma HeardCount(m: PeerMap, self: Peer, heard: seq<Peer>)
    ensures var n := WithHeard(m, self, heard);
            |n.Keys| - |m.Keys| == |With(n, Heard)| - |With(m, Heard)| >= 0
  {
    HeardAdds(m, self, heard);
    var n := WithHeard(m, self, heard);
    SameGrowth(m.Keys, n.Keys, With(m, Heard), With(n, Heard));
  }

  lemma SameGrowth(k: set<Peer>, k': set<Peer>, h: set<Peer>, h': set<Peer>)
    requires k <= k' && h <= k && h' == h + (k' - k)
    ensures |k'| - |k| == |h'| - |h| >= 0
  {
    DisjointSize(k, k' - k, k');
    DisjointSize(h, k' - k, h');
  }

  lemma UpdateCounts(m: PeerMap, self: Peer, up: Update)
    requires self !in m && WellFormed(up) && up.cause in m && m[up.cause] == Waiting
    requires AfterUpdate(m, self, up).Some?
    ensures var n := AfterUpdate(m, self, up).value;
            && n.Keys == WithHeard(m, self, up.heard).Keys
            && |n.Keys| - |m.Keys| == |With(n, Heard)| - |With(m, Heard)| >= 0
  {
    UpdateSettles(m, self, up);
    HeardCount(m, self, up.heard);
    assert With(AfterUpdate(m, self, up).value, Heard) == With(WithHeard(m, self, up.heard), Heard);
  }

  lemma AfterReceive(c: Config, s: State, stop: bool)
    requires Enabled(c, s, Receive(stop)) && !s.terminated && AfterUpdate(s.peers, c.self, s.channel[0]).Some?
    ensures var s' := Step(c, s, Receive(stop));
            && s'.channel == s.channel[1..] && s'.running == s.running
            && s'.peers == AfterUpdate(s.peers, c.self, s.channel[0]).value
            && (s'.control == Returned
                || s'.control == Spawning(PeersToQuery(s'.peers, c.alpha - |With(s'.peers, Waiting)|)))
  {
  }

  /** What taking the oldest queued update does to the peer counts. */
  lemma QueuedCounts(c: Config, s: State)
    requires Inv(c, s) && s.channel != []
    ensures var n := AfterUpdate(s.peers, c.self, s.channel[0]);
            && n.Some?
            && n.value.Keys == WithHeard(s.peers, c.self, s.channel[0].heard).Keys
            && |n.value.Keys| - |s.peers.Keys|
               == |With(n.value, Heard)| - |With(s.peers, Heard)| >= 0
  {
    var up := s.channel[0];
    if SeedPending(c, s) {
      SeedSettles(s.peers, c);
      HeardCount(s.peers, c.self, up.heard);
    } else {
      assert up.cause in Causes(s.channel) && up.cause in WaitingPeers(s);
      UpdateSettles(s.peers, c.self, up);
      UpdateCounts(s.peers, c.self, up);
    }
  }

  lemma ReceiveKnown(c: Config, universe: set<Peer>, s: State, stop: bool)
    requires c.alpha >= 1 && Inv(c, s) && Known(universe, s) && Enabled(c, s, Receive(stop))
    ensures Known(universe, Step(c, s, Receive(stop)))
  {
    QueuedCounts(c, s);
    AfterReceive(c, s, stop);
    var up := s.channel[0];
    var s' := Step(c, s, Receive(stop));
    forall p | p in s'.peers ensures p in universe {
      if p !in s.peers { assert p in up.heard; }
    }
  }

  lemma LeavesHeard(m: PeerMap, p: Peer)
    requires p in m && m[p] == Heard
    ensures m[p := Waiting].Keys == m.Keys && |With(m[p := Waiting], Heard)| == |With(m, Heard)| - 1
  {
    DisjointSize(With(m[p := Waiting], Heard), {p}, With(m, Heard));
  }

  lemma SpawnLowersMeasure(c: Config, universe: set<Peer>, s: State)
    requires Inv(c, s) && Known(universe, s) && Enabled(c, s, SpawnNext)
    ensures Known(universe, Step(c, s, SpawnNext))
    ensures Measure(universe, Step(c, s, SpawnNext)) < Measure(universe, s)
  {
    if s.control.todo != [] {
      var p := s.control.todo[0];
      var s' := Step(c, s, SpawnNext);
      assert p in Todo(s);
      assert s'.peers == s.peers[p := Waiting] && s.peers[p] == Heard;
      LeavesHeard(s.peers, p);
      assert p !in WaitingPeers(s) && p !in s.running;
    }
  }

  lemma SettleLowersMeasure(c: Config, universe: set<Peer>, s: State, e: Event)
    requires Known(universe, s) && Enabled(c, s, e) && Within(e, universe) && (e.Succeed? || e.Fail?)
    ensures Known(universe, Step(c, s, e))
    ensures Measure(universe, Step(c, s, e)) < Measure(universe, s)
  {
    DisjointSize(s.running - {e.p}, {e.p}, s.running);
  }

  lemma ReceiveLowersMeasure(c: Config, universe: set<Peer>, s: State, stop: bool)
    requires c.alpha >= 1 && Inv(c, s) && Known(universe, s) && Enabled(c, s, Receive(stop))
    ensures Known(universe, Step(c, s, Receive(stop)))
    ensures Measure(universe, Step(c, s, Receive(stop))) < Measure(universe, s)
  {
    ReceiveKnown(c, universe, s, stop);
    QueuedCounts(c, s);
    AfterReceive(c, s, stop);
  }

  lemma StepLowersMeasure(c: Config, universe: set<Peer>, s: State, e: Event)
    requires c.alpha >= 1 && Inv(c, s) && Known(universe, s) && Enabled(c, s, e) && Within(e, universe)
    ensures Known(universe, Step(c, s, e))
    ensures Measure(universe, Step(c, s, e)) < Measure(universe, s)
  {
    match e
    case Receive(stop) => ReceiveLowersMeasure(c, universe, s, stop);
    case SpawnNext => SpawnLowersMeasure(c, universe, s);
    case Succeed(_, _, _) => SettleLowersMeasure(c, universe, s, e);
    case Fail(_) => SettleLowersMeasure(c, universe, s, e);
    case NoticeCancel =>
    case ExternalCancel =>
  }

  lemma {:induction false} RunIsBounded(c: Config, universe: set<Peer>, s: State, events: seq<Event>, s': State)
    requires c.alpha >= 1 && Inv(c, s) && Known(universe, s) && Runs(c, s, events, s')
    requires forall i :: 0 <= i < |events| ==> Within(events[i], universe)
    ensures |events| + Measure(universe, s') <= Measure(universe, s)
    ensures Measure(universe, s') >= 0
    decreases events
  {
    if events == [] {
      SubsetSize(s.peers.Keys, universe);
    } else {
      StepLowersMeasure(c, universe, s, events[0]);
      StepInv(c, s, events[0]);
      RunIsBounded(c, universe, Step(c, s, events[0]), events[1..], s');
    }
  }

  /** Every run over a finite universe of peers is finite, with an explicit bound; by
      NeverStuck it can only end with the loop returned and no query left running. */
  lemma LookupTerminates(c: Config, universe: set<Peer>, events: seq<Event>, s: State)
    requires c.alpha >= 1 && Runs(c, Init(c), events, s)
    requires forall p | p in c.seeds :: p in universe
    requires forall i :: 0 <= i < |events| ==> Within(events[i], universe)
    ensures |events| <= 8 * |universe| + 4
  {
    InitInv(c);
    assert With(map[], Heard) == {};
    RunIsBounded(c, universe, Init(c), events, s);
  }

  // Why a lookup returns.

  predicate Undisturbed(e: Event) {
    !e.ExternalCancel? && (e.Receive? ==> !e.stop)
  }

  /** Nothing outside has interfered, and a returned loop met one of its own conditions. */
  ghost predicate Conclusive(c: Config, s: State) {
    && (s.cancelled ==> s.control.Returned?)
    && (s.control.Returned? ==> Starved(s.peers) || ClosestAllQueried(s.peers, c.beta))
  }

  lemma {:induction false} RunConclusive(c: Config, s: State, events: seq<Event>, s': State)
    requires c.alpha >= 1 && Inv(c, s) && Conclusive(c, s) && Runs(c, s, events, s')
    requires forall i :: 0 <= i < |events| ==> Undisturbed(events[i])
    ensures Conclusive(c, s')
    decreases events
  {
    if events != [] {
      assert Undisturbed(events[0]);
      StepInv(c, s, events[0]);
      assert Conclusive(c, Step(c, s, events[0]));
      RunConclusive(c, Step(c, s, events[0]), events[1..], s');
    }
  }

  /** A lookup that is neither cancelled nor stopped returns only when the beta closest
      peers not known to be unreachable have all answered, or when every peer it ever heard
      of has been settled. */
  lemma ReturnsOnlyWhenDone(c: Config, events: seq<Event>, s: State)
    requires c.alpha >= 1 && Runs(c, Init(c), events, s) && s.control.Returned?
    requires forall i :: 0 <= i < |events| ==> Undisturbed(events[i])
    ensures NearestAnswered(s.peers, c.beta)
         || forall p | p in s.peers :: s.peers[p] == Queried || s.peers[p] == Unreachable
  {
    InitInv(c);
    RunConclusive(c, Init(c), events, s);
    ClosestAllQueriedIff(s.peers, c.beta);
    if Starved(s.peers) {
      forall p | p in s.peers ensures s.peers[p] == Queried || s.peers[p] == Unreachable {
        assert p !in With(s.peers, Heard) && p !in With(s.peers, Waiting);
      }
    }
  }

  // ---------------------------------------------------------------------------------
  // The lookup object: the loops of query.go, proved against the step functions
  // ---------------------------------------------------------------------------------

  lemma SettleExtends(m: PeerMap, self: Peer, ps: seq<Peer>, i: nat, to: PeerState)
    requires i < |ps|
    ensures Settle(m, self, ps[..i], to) == None ==> Settle(m, self, ps[..i + 1], to) == None
    ensures Settle(m, self, ps[..i], to).Some? ==>
              Settle(m, self, ps[..i + 1], to) ==
                (var n := Settle(m, self, ps[..i], to).value;
                 if ps[i] == self then Some(n)
                 else if ps[i] in n && n[ps[i]] == Waiting then Some(n[ps[i] := to]) else None)
  {
    assert ps[..i + 1][..i] == ps[..i];
  }

  lemma {:induction false} SettleStuck(m: PeerMap, self: Peer, ps: seq<Peer>, i: nat, to: PeerState)
    requires i <= |ps| && Settle(m, self, ps[..i], to) == None
    ensures Settle(m, self, ps, to) == None
    decreases |ps| - i
  {
    if i < |ps| {
      SettleExtends(m, self, ps, i, to);
      SettleStuck(m, self, ps, i + 1, to);
    } else {
      assert ps[..i] == ps;
    }
  }

  /** The round-trip times after the listed peers answered. */
  function TimesAfter(times: map<Peer, nat>, self: Peer, ps: seq<Peer>, duration: nat): map<Peer, nat> {
    times + (map p | p in ps && p != self :: duration)
  }

  lemma TimesMore(times: map<Peer, nat>, self: Peer, ps: seq<Peer>, i: nat, duration: nat)
    requires i < |ps|
    ensures TimesAfter(times, self, ps[..i + 1], duration)
         == var t := TimesAfter(times, self, ps[..i], duration); if ps[i] == self then t else t[ps[i] := duration]
  {
    assert ps[..i + 1] == ps[..i] + [ps[i]];
  }

  class Query {
    const c: Config
    var peers: PeerMap
    var peerTimes: map<Peer, nat>
    var channel: seq<Update>
    var running: set<Peer>
    var issued: seq<Peer>
    var control: Control
    var cancelled: bool
    var terminated: bool
    var panicked: bool

    constructor (c: Config)
      ensures this.c == c && View() == Init(c) && peerTimes == map[]
    {
      this.c := c;
      peers, peerTimes, channel, running, issued := map[], map[], [Seed(c)], {}, [];
      control, cancelled, terminated, panicked := AtSelect, false, false, false;
    }

    ghost function View(): State
      reads this
    {
      State(peers, channel, running, issued, control, cancelled, terminated, panicked)
    }

    /** Moves the listed peers out of Waiting; stops and reports false at the first that is not waiting. */
    method SettleAll(ps: seq<Peer>, to: PeerState, duration: nat) returns (ok: bool)
      modifies this`peers, this`peerTimes
      ensures ok <==> Settle(old(peers), c.self, ps, to).Some?
      ensures ok ==> peers == Settle(old(peers), c.self, ps, to).value
      ensures to != Queried ==> peerTimes == old(peerTimes)
      ensures ok && to == Queried ==>
                peerTimes == TimesAfter(old(peerTimes), c.self, ps, duration)
    {
      for i := 0 to |ps|
        invariant Settle(old(peers), c.self, ps[..i], to) == Some(peers)
        invariant to != Queried ==> peerTimes == old(peerTimes)
        invariant to == Queried ==> peerTimes == TimesAfter(old(peerTimes), c.self, ps[..i], duration)
      {
        SettleExtends(old(peers), c.self, ps, i, to);
        TimesMore(old(peerTimes), c.self, ps, i, duration);
        var p := ps[i];
        if p != c.self {
          if p in peers && peers[p] == Waiting {
            peers := peers[p := to];
            if to == Queried { peerTimes := peerTimes[p := duration]; }
          } else {
            SettleStuck(old(peers), c.self, ps, i + 1, to);
            return false;
          }
        }
      }
      assert ps[..|ps|] == ps;
      return true;
    }

    /** TryAdd for every reported peer except ourselves. */
    method HearAll(heard: seq<Peer>)
      modifies this`peers
      ensures peers == WithHeard(old(peers), c.self, heard)
    {
      for i := 0 to |heard|
        invariant peers == WithHeard(old(peers), c.self, heard[..i])
      {
        var p := heard[i];
        assert heard[..i + 1] == heard[..i] + [p];
        if p != c.self && p !in peers {
          peers := peers[p := Heard];
        }
      }
      assert heard[..|heard|] == heard;
    }

    /** Applies one update to the peer set; reports false where the original panics. */
    method UpdateState(up: Update) returns (ok: bool)
      modifies this`peers, this`peerTimes
      ensures ok <==> !terminated && AfterUpdate(old(peers), c.self, up).Some?
      ensures ok ==> peers == AfterUpdate(old(peers), c.self, up).value
      ensures ok && up.queried == [up.cause] && up.cause != c.self ==>
                peerTimes == old(peerTimes)[up.cause := up.duration]
    {
      if terminated { return false; }
      HearAll(up.heard);
      ok := SettleAll(up.queried, Queried, up.duration);
      if ok {
        ok := SettleAll(up.unreachable, Unreachable, 0);
      }
    }

    /** True iff the beta closest peers not known to be unreachable have all answered. */
    method IsLookupTermination() returns (b: bool)
      ensures b <==> ClosestAllQueried(peers, c.beta)
      ensures b <==> NearestAnswered(peers, c.beta)
    {
      ClosestAllQueriedIff(peers, c.beta);
      var candidates := InStates(peers, {Heard, Waiting, Queried});
      ClosestFirstMembers(candidates);
      var closest := ClosestFirst(candidates);
      var top := if |closest| >= c.beta then closest[..c.beta] else closest;
      for i := 0 to |top|
        invariant forall j :: 0 <= j < i ==> top[j] in peers && peers[top[j]] == Queried
      {
        assert top[i] == closest[i] && closest[i] in closest;
        if peers[top[i]] != Queried {
          assert top[i] in top;
          return false;
        }
      }
      return true;
    }

    /** Decides termination, and otherwise collects the peers to query next. */
    method IsReadyToTerminate(stop: bool, budget: int) returns (ready: bool, todo: seq<Peer>)
      ensures ready <==> ReadyToTerminate(peers, c.beta, stop)
      ensures !ready ==> todo == PeersToQuery(peers, budget)
      ensures !ready && budget > 0 ==> Increasing(todo) && RestIsFarther(peers, todo)
      ensures !ready && budget > 0 ==>
                |todo| == (if budget < |With(peers, Heard)| then budget else |With(peers, Heard)|)
    {
      if budget > 0 { ChoiceFits(peers, budget); }
      todo := [];
      if stop || (With(peers, Heard) == {} && With(peers, Waiting) == {}) {
        return true, todo;
      }
      ready := IsLookupTermination();
      if ready { return; }
      var heard := ClosestFirst(With(peers, Heard));
      var count := 0;
      while count < |heard|
        invariant 0 <= count <= |heard| && todo == heard[..count]
        invariant budget > 0 ==> count < budget
      {
        todo := todo + [heard[count]];
        count := count + 1;
        if count == budget { break; }
      }
    }

    /** One iteration of the event loop up to the point where queries are spawned. */
    method TakeUpdate(stop: bool)
      requires Enabled(c, View(), Receive(stop))
      modifies this
      ensures View() == Step(c, old(View()), Receive(stop))
    {
      var up := channel[0];
      channel := channel[1..];
      var before := peers;
      var ok := UpdateState(up);
      if !ok {
        peers, panicked := before, true;
        return;
      }
      var ready, todo := IsReadyToTerminate(stop, c.alpha - |With(peers, Waiting)|);
      if ready {
        cancelled, terminated, control := true, true, Returned;
      } else {
        control := Spawning(todo);
      }
    }

    method SpawnQuery()
      requires Enabled(c, View(), SpawnNext)
      modifies this
      ensures View() == Step(c, old(View()), SpawnNext)
    {
      if control.todo == [] {
        control := AtSelect;
      } else {
        var p := control.todo[0];
        peers, running, issued := peers[p := Waiting], running + {p}, issued + [p];
        control := Spawning(control.todo[1..]);
      }
    }

    /** Runs the lookup under an arbitrary schedule; events that cannot happen are skipped. */
    method Run(schedule: seq<Event>) returns (ghost taken: seq<Event>)
      requires c.alpha >= 1 && View() == Init(c)
      modifies this
      ensures Runs(c, Init(c), taken, View())
      ensures !panicked && |channel| + |running| <= c.alpha && Distinct(issued)
    {
      taken := [];
      for i := 0 to |schedule|
        invariant Runs(c, Init(c), taken, View())
      {
        var e := schedule[i];
        if Possible(e) {
          RunSnoc(c, Init(c), taken, View(), e);
          taken := taken + [e];
          match e
          case Receive(stop) => TakeUpdate(stop);
          case SpawnNext => SpawnQuery();
          case NoticeCancel => terminated, control := true, Returned;
          case Succeed(p, saw, d) => running, channel := running - {p}, channel + [Update(p, [p], saw, [], d)];
          case Fail(p) => running, channel := running - {p}, channel + [Update(p, [], [], [p], 0)];
          case ExternalCancel => cancelled := true;
        }
      }
      LookupIsSafe(c, taken, View());
    }

    predicate Possible(e: Event)
      reads this
      ensures Possible(e) <==> Enabled(c, View(), e)
    {
      Enabled(c, State(peers, channel, running, issued, control, cancelled, terminated, panicked), e)
    }
  }

  lemma {:induction false} RunSnoc(c: Config, s: State, events: seq<Event>, s': State, e: Event)
    requires Runs(c, s, events, s') && Enabled(c, s', e)
    ensures Runs(c, s, events + [e], Step(c, s', e))
    decreases events
  {
    if events == [] {
      assert (events + [e])[1..] == [];
    } else {
      RunSnoc(c, Step(c, s, events[0]), events[1..], s', e);
      assert (events + [e])[1..] == events[1..] + [e];
    }
  }

  // ---------------------------------------------------------------------------------
  // The follow-up round after a lookup
  // ---------------------------------------------------------------------------------

  /** What the i-th wait of the follow-up loop observes: a finished query, together with
      stopFn's answer, or a cancelled context. */
  datatype Signal = QueryDone(stop: bool) | ContextDone

  /** Waits for the follow-up queries. Whatever interrupts the wait, exactly one completion is
      received per query before it returns, so no follow-up goroutine is left behind; and the
      result stays complete iff no wait saw a cancellation and no query but the last a stop. */
  method AwaitFollowUps(signals: seq<Signal>, completedBefore: bool) returns (received: nat, completed: bool)
    ensures received == |signals|
    ensures completed <==>
              completedBefore
              && forall i :: 0 <= i < |signals| ==> signals[i].QueryDone? && (i < |signals| - 1 ==> !signals[i].stop)
  {
    received, completed := 0, completedBefore;
    var i := 0;
    while i < |signals|
      invariant 0 <= i <= |signals| && received == i && completed == completedBefore
      invariant forall j :: 0 <= j < i ==> signals[j].QueryDone? && !signals[j].stop
    {
      if signals[i].ContextDone? {
        completed := false;
        break;
      }
      received := received + 1;
      if signals[i].stop {
        if i < |signals| - 1 { completed := false; }
        break;
      }
      i := i + 1;
    }
    if !completed {
      while received < |signals|
        invariant received <= |signals|
      {
        received := received + 1;
      }
    }
  }
}
