/** Subscriptions and relays, and what they make the node join and announce. */
module Interest {
  import opened Peers
  import opened Router
  import RouterRuns
  import RouterNode

  datatype Subscription = Subscription(id: nat, bitmask: Bitmask)

  datatype Announcement = Announcement(bitmask: Bitmask, subscribe: bool)

  /** The node as far as its own interest goes; `log` holds its announcements, oldest first. */
  datatype Node = Node(subs: map<Bitmask, set<Subscription>>, relays: map<Bitmask, nat>,
                       router: Router.State, log: seq<Announcement>)

  const Start := Node(map[], map[], Router.Init, [])

  function SubsOf(n: Node, b: Bitmask): set<Subscription> { if b in n.subs then n.subs[b] else {} }

  function RelaysOf(n: Node, b: Bitmask): nat { if b in n.relays then n.relays[b] else 0 }

  predicate Wanted(n: Node, b: Bitmask) { SubsOf(n, b) != {} || RelaysOf(n, b) > 0 }

  datatype Event =
    | Subscribe(env: Env, sub: Subscription, chosen: set<Peer>)
    | Unsubscribe(env: Env, sub: Subscription)
    | AddRelay(env: Env, b: Bitmask, chosen: set<Peer>)
    | RemoveRelay(env: Env, b: Bitmask)
    | Other(event: RouterRuns.Event)

  /** Announces and joins. */
  function Open(env: Env, n: Node, b: Bitmask, chosen: set<Peer>): Node {
    n.(router := OnJoin(env, n.router, b, chosen), log := n.log + [Announcement(b, true)])
  }

  /** Announces the end and leaves. */
  function Close(c: Params, env: Env, n: Node, b: Bitmask): Node {
    n.(router := OnLeave(c, env, n.router, b), log := n.log + [Announcement(b, false)])
  }

  function OnSubscribe(env: Env, n: Node, sub: Subscription, chosen: set<Peer>): Node {
    var b := sub.bitmask;
    var m := if SubsOf(n, b) == {} && RelaysOf(n, b) == 0 then Open(env, n, b, chosen) else n;
    m.(subs := n.subs[b := SubsOf(n, b) + {sub}])
  }

  function OnUnsubscribe(c: Params, env: Env, n: Node, sub: Subscription): Node {
    var b := sub.bitmask;
    if b !in n.subs then n
    else if n.subs[b] - {sub} != {} then n.(subs := n.subs[b := n.subs[b] - {sub}])
    else
      var m := n.(subs := n.subs - {b});
      if RelaysOf(n, b) == 0 then Close(c, env, m, b) else m
  }

  function OnAddRelay(env: Env, n: Node, b: Bitmask, chosen: set<Peer>): Node {
    var m := n.(relays := n.relays[b := RelaysOf(n, b) + 1]);
    if RelaysOf(m, b) == 1 && SubsOf(n, b) == {} then Open(env, m, b, chosen) else m
  }

  function OnRemoveRelay(c: Params, env: Env, n: Node, b: Bitmask): Node {
    if RelaysOf(n, b) == 0 then n
    else if RelaysOf(n, b) > 1 then n.(relays := n.relays[b := n.relays[b] - 1])
    else
      var m := n.(relays := n.relays - {b});
      if SubsOf(n, b) == {} then Close(c, env, m, b) else m
  }

  /** Joining and leaving happen only here. */
  ghost predicate Enabled(c: Params, n: Node, e: Event)
    requires Sane(c)
  {
    match e
    case Subscribe(env, sub, chosen) => JoinChoice(c, env, n.router, sub.bitmask, chosen)
    case AddRelay(env, b, chosen) => JoinChoice(c, env, n.router, b, chosen)
    case Other(event) => !event.Join? && !event.Leave? && RouterRuns.Enabled(c, n.router, event)
    case _ => true
  }

  ghost function Step(c: Params, n: Node, e: Event): Node
    requires Sane(c) && Enabled(c, n, e)
  {
    match e
    case Subscribe(env, sub, chosen) => OnSubscribe(env, n, sub, chosen)
    case Unsubscribe(env, sub) => OnUnsubscribe(c, env, n, sub)
    case AddRelay(env, b, chosen) => OnAddRelay(env, n, b, chosen)
    case RemoveRelay(env, b) => OnRemoveRelay(c, env, n, b)
    case Other(event) => n.(router := RouterRuns.Step(c, n.router, event))
  }

  ghost predicate Runs(c: Params, n: Node, events: seq<Event>, m: Node)
    requires Sane(c)
    decreases |events|
  {
    if events == [] then n == m
    else Enabled(c, n, events[0]) && Runs(c, Step(c, n, events[0]), events[1..], m)
  }

  // ---------------------------------------------------------------------------------
  // Agreement
  // ---------------------------------------------------------------------------------

  /** The announcements about one bitmask. */
  function Said(log: seq<Announcement>, b: Bitmask): seq<bool> {
    if log == [] then []
    else
      var last := log[|log| - 1];
      Said(log[..|log| - 1], b) + if last.bitmask == b then [last.subscribe] else []
  }

  predicate Alternates(s: seq<bool>) { forall i :: 0 <= i < |s| ==> s[i] == (i % 2 == 0) }

  ghost predicate AgreesOn(n: Node, b: Bitmask) {
    && (b in n.router.mesh <==> Wanted(n, b))
    && Alternates(Said(n.log, b))
    && (b in n.router.mesh <==> |Said(n.log, b)| % 2 == 1)
    && (b in n.subs ==> n.subs[b] != {})
    && (b in n.relays ==> n.relays[b] > 0)
  }

  /** The meshes are exactly what is wanted; announcements alternate and the last one says what is
      wanted; and no empty entry is kept. */
  ghost predicate Agrees(n: Node) { forall b :: AgreesOn(n, b) }

  lemma SaidMore(log: seq<Announcement>, a: Announcement, b: Bitmask)
    ensures Said(log + [a], b) == Said(log, b) + if a.bitmask == b then [a.subscribe] else []
  {
    assert (log + [a])[..|log|] == log;
  }

  lemma JoinedKeys(env: Env, s: State, b: Bitmask, chosen: set<Peer>)
    ensures OnJoin(env, s, b, chosen).mesh.Keys == s.mesh.Keys + {b}
  {
  }

  lemma LeftKeys(c: Params, env: Env, s: State, b: Bitmask)
    ensures OnLeave(c, env, s, b).mesh.Keys == s.mesh.Keys - {b}
  {
  }

  /** No other step opens or closes a mesh. */
  lemma OtherKeys(c: Params, s: State, e: RouterRuns.Event)
    requires Sane(c) && RouterRuns.Enabled(c, s, e) && !e.Join? && !e.Leave?
    ensures RouterRuns.Step(c, s, e).mesh.Keys == s.mesh.Keys
  {
  }

  lemma OpenAgrees(env: Env, n: Node, m: Node, b: Bitmask, chosen: set<Peer>, k: Bitmask)
    requires AgreesOn(n, k) && !Wanted(n, b)
    requires m.router == OnJoin(env, n.router, b, chosen) && m.log == n.log + [Announcement(b, true)]
    requires Wanted(m, b) && (b in m.subs ==> m.subs[b] != {}) && (b in m.relays ==> m.relays[b] > 0)
    requires k != b ==> (k in m.subs <==> k in n.subs) && SubsOf(m, k) == SubsOf(n, k)
    requires k != b ==> (k in m.relays <==> k in n.relays) && RelaysOf(m, k) == RelaysOf(n, k)
    ensures AgreesOn(m, k)
  {
    JoinedKeys(env, n.router, b, chosen);
    SaidMore(n.log, Announcement(b, true), k);
  }

  lemma CloseAgrees(c: Params, env: Env, n: Node, m: Node, b: Bitmask, k: Bitmask)
    requires AgreesOn(n, k) && Wanted(n, b)
    requires m.router == OnLeave(c, env, n.router, b) && m.log == n.log + [Announcement(b, false)]
    requires b !in m.subs && b !in m.relays
    requires k != b ==> (k in m.subs <==> k in n.subs) && SubsOf(m, k) == SubsOf(n, k)
    requires k != b ==> (k in m.relays <==> k in n.relays) && RelaysOf(m, k) == RelaysOf(n, k)
    ensures AgreesOn(m, k)
  {
    LeftKeys(c, env, n.router, b);
    SaidMore(n.log, Announcement(b, false), k);
  }

  lemma SubscribeAgrees(env: Env, n: Node, sub: Subscription, chosen: set<Peer>, k: Bitmask)
    requires AgreesOn(n, k) && AgreesOn(n, sub.bitmask)
    ensures AgreesOn(OnSubscribe(env, n, sub, chosen), k)
  {
    if !Wanted(n, sub.bitmask) { OpenAgrees(env, n, OnSubscribe(env, n, sub, chosen), sub.bitmask, chosen, k); }
  }

  lemma AddRelayAgrees(env: Env, n: Node, b: Bitmask, chosen: set<Peer>, k: Bitmask)
    requires AgreesOn(n, k) && AgreesOn(n, b)
    ensures AgreesOn(OnAddRelay(env, n, b, chosen), k)
  {
    if !Wanted(n, b) { OpenAgrees(env, n, OnAddRelay(env, n, b, chosen), b, chosen, k); }
  }

  lemma UnsubscribeAgrees(c: Params, env: Env, n: Node, sub: Subscription, k: Bitmask)
    requires AgreesOn(n, k) && AgreesOn(n, sub.bitmask)
    ensures AgreesOn(OnUnsubscribe(c, env, n, sub), k)
  {
    var b := sub.bitmask;
    if b in n.subs && n.subs[b] - {sub} == {} && RelaysOf(n, b) == 0 {
      CloseAgrees(c, env, n, OnUnsubscribe(c, env, n, sub), b, k);
    }
  }

  lemma RemoveRelayAgrees(c: Params, env: Env, n: Node, b: Bitmask, k: Bitmask)
    requires AgreesOn(n, k) && AgreesOn(n, b)
    ensures AgreesOn(OnRemoveRelay(c, env, n, b), k)
  {
    if RelaysOf(n, b) == 1 && SubsOf(n, b) == {} { CloseAgrees(c, env, n, OnRemoveRelay(c, env, n, b), b, k); }
  }

  lemma StepAgrees(c: Params, n: Node, e: Event, k: Bitmask)
    requires Sane(c) && Enabled(c, n, e) && Agrees(n)
    ensures AgreesOn(Step(c, n, e), k)
  {
    assert AgreesOn(n, k);
    match e {
      case Subscribe(env, sub, chosen) =>
        assert AgreesOn(n, sub.bitmask);
        SubscribeAgrees(env, n, sub, chosen, k);
      case AddRelay(env, b, chosen) =>
        assert AgreesOn(n, b);
        AddRelayAgrees(env, n, b, chosen, k);
      case Unsubscribe(env, sub) =>
        assert AgreesOn(n, sub.bitmask);
        UnsubscribeAgrees(c, env, n, sub, k);
      case RemoveRelay(env, b) =>
        assert AgreesOn(n, b);
        RemoveRelayAgrees(c, env, n, b, k);
      case Other(event) => OtherKeys(c, n.router, event);
    }
  }

  lemma {:induction false} RunAgrees(c: Params, n: Node, events: seq<Event>, m: Node)
    requires Sane(c) && Agrees(n) && Runs(c, n, events, m)
    ensures Agrees(m)
    decreases |events|
  {
    if events != [] {
      forall k ensures AgreesOn(Step(c, n, events[0]), k) { StepAgrees(c, n, events[0], k); }
      RunAgrees(c, Step(c, n, events[0]), events[1..], m);
    }
  }

  /** On every run of subscribing, unsubscribing, relaying and everything else the router does. */
  lemma InterestAgrees(c: Params, events: seq<Event>, n: Node)
    requires Sane(c) && Runs(c, Start, events, n)
    ensures Agrees(n)
    ensures n.subs.Keys + n.relays.Keys == n.router.mesh.Keys
  {
    RunAgrees(c, Start, events, n);
    HelloAgrees(n);
  }

  /** What the hello packet lists is what is joined. */
  lemma HelloAgrees(n: Node)
    requires Agrees(n)
    ensures n.subs.Keys + n.relays.Keys == n.router.mesh.Keys
  {
    forall b ensures b in n.subs.Keys + n.relays.Keys <==> b in n.router.mesh {
      assert AgreesOn(n, b);
    }
  }

  // ---------------------------------------------------------------------------------
  // The handlers
  // ---------------------------------------------------------------------------------

  class PubSub {
    const rt: RouterNode.BlossomSubRouter
    var mySubs: map<Bitmask, set<Subscription>>
    var myRelays: map<Bitmask, nat>
    var announced: seq<Announcement>

    ghost function View(): Node
      reads this, rt
    {
      Node(mySubs, myRelays, rt.View(), announced)
    }

    constructor (params: Params)
      ensures fresh(rt) && rt.params == params && View() == Start
    {
      rt := new RouterNode.BlossomSubRouter(params);
      mySubs, myRelays, announced := map[], map[], [];
    }

    method Announce(b: Bitmask, sub: bool)
      modifies this`announced
      ensures announced == old(announced) + [Announcement(b, sub)]
    {
      announced := announced + [Announcement(b, sub)];
    }

    method HandleAddSubscription(env: Env, sub: Subscription) returns (chosen: set<Peer>)
      modifies this, rt
      ensures !Wanted(old(View()), sub.bitmask) ==> JoinChoice(rt.params, env, old(View()).router, sub.bitmask, chosen)
      ensures View() == OnSubscribe(env, old(View()), sub, chosen)
    {
      chosen := {};
      var b := sub.bitmask;
      var subs := if b in mySubs then mySubs[b] else {};
      if |subs| == 0 && (b !in myRelays || myRelays[b] == 0) {
        Announce(b, true);
        chosen := rt.Join(env, b);
      }
      mySubs := mySubs[b := subs + {sub}];
    }

    method HandleRemoveSubscription(env: Env, sub: Subscription)
      modifies this, rt
      ensures View() == OnUnsubscribe(rt.params, env, old(View()), sub)
    {
      var b := sub.bitmask;
      if b !in mySubs { return; }
      mySubs := mySubs[b := mySubs[b] - {sub}];
      if |mySubs[b]| == 0 {
        mySubs := mySubs - {b};
        assert mySubs == old(mySubs) - {b};
        if b !in myRelays || myRelays[b] == 0 {
          Announce(b, false);
          rt.Leave(env, b);
        }
      }
    }

    method HandleAddRelay(env: Env, b: Bitmask) returns (chosen: set<Peer>)
      modifies this, rt
      ensures !Wanted(old(View()), b) ==> JoinChoice(rt.params, env, old(View()).router, b, chosen)
      ensures View() == OnAddRelay(env, old(View()), b, chosen)
    {
      chosen := {};
      myRelays := myRelays[b := (if b in myRelays then myRelays[b] else 0) + 1];
      if myRelays[b] == 1 && (b !in mySubs || |mySubs[b]| == 0) {
        Announce(b, true);
        chosen := rt.Join(env, b);
      }
    }

    method HandleRemoveRelay(env: Env, b: Bitmask)
      modifies this, rt
      ensures View() == OnRemoveRelay(rt.params, env, old(View()), b)
    {
      if b !in myRelays || myRelays[b] == 0 { return; }
      myRelays := myRelays[b := myRelays[b] - 1];
      if myRelays[b] == 0 {
        myRelays := myRelays - {b};
        assert myRelays == old(myRelays) - {b};
        if b !in mySubs || |mySubs[b]| == 0 {
          Announce(b, false);
          rt.Leave(env, b);
        }
      }
    }

    /** The announcements a new peer gets: each bitmask of interest once, in some order; they are the joined
        ones when the tables agree with the router. */
    method GetHelloPacket() returns (hello: seq<Announcement>)
      ensures forall a :: a in hello <==> a.subscribe && a.bitmask in mySubs.Keys + myRelays.Keys
      ensures forall i, j :: 0 <= i < j < |hello| ==> hello[i] != hello[j]
      ensures Agrees(View()) ==> forall a :: a in hello <==> a.subscribe && a.bitmask in rt.mesh
    {
      var all := mySubs.Keys + myRelays.Keys;
      var rest := all;
      if Agrees(View()) { HelloAgrees(View()); }
      hello := [];
      while rest != {}
        invariant rest <= all
        invariant forall a :: a in hello <==> a.subscribe && a.bitmask in all && a.bitmask !in rest
        invariant forall i, j :: 0 <= i < j < |hello| ==> hello[i] != hello[j]
        decreases rest
      {
        var b :| b in rest;
        assert Announcement(b, true) !in hello;
        hello := hello + [Announcement(b, true)];
        rest := rest - {b};
      }
    }
  }
}
