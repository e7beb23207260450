/** The maintenance of one mesh in a heartbeat, as it is carried out. */
module MeshUpkeep {
  import opened Peers
  import opened PeerSelection
  import opened Router
  import opened RouterSafety
  import MeshTrim
  import Opportunistic

  lemma DelayOneMore(bo: Backoffs, ps: set<Peer>, p: Peer, expire: Time)
    ensures Delayed(Delayed(bo, ps, expire), {p}, expire) == Delayed(bo, ps + {p}, expire)
  {
    var once, both := Delayed(bo, ps, expire), Delayed(bo, ps + {p}, expire);
    var twice := Delayed(once, {p}, expire);
    assert twice.Keys == both.Keys;
    forall q | q in both ensures twice[q] == both[q] {
    }
  }

  lemma DelayNobody(bo: Backoffs, expire: Time)
    ensures Delayed(bo, {}, expire) == bo
  {
  }

  /** prunePeer, for each of the peers. */
  method PruneEach(c: Params, env: Env, u: Upkeep, ps: set<Peer>) returns (v: Upkeep)
    ensures v == PruneAll(c, env, u, ps)
  {
    v := u;
    var rest, done := ps, {};
    var expire := env.now + c.pruneBackoff;
    PruneNobody(c, env, u);
    while rest != {}
      invariant done + rest == ps && v == PruneAll(c, env, u, done)
      decreases rest
    {
      var p :| p in rest;
      PruneOneMore(c, env, u, done, p);
      v := Upkeep(v.peers - {p}, if ExpiryOf(v.bo, p) < expire then v.bo[p := expire] else v.bo,
                  v.grafted, v.pruned + {p});
      rest, done := rest - {p}, done + {p};
    }
    assert done == ps;
  }

  lemma PruneNobody(c: Params, env: Env, u: Upkeep)
    ensures PruneAll(c, env, u, {}) == u
  {
    DelayNobody(u.bo, env.now + c.pruneBackoff);
  }

  lemma DelayOne(bo: Backoffs, p: Peer, expire: Time)
    ensures Delayed(bo, {p}, expire) == if ExpiryOf(bo, p) < expire then bo[p := expire] else bo
  {
  }

  lemma PruneOneMore(c: Params, env: Env, u: Upkeep, ps: set<Peer>, p: Peer)
    ensures var v, expire := PruneAll(c, env, u, ps), env.now + c.pruneBackoff;
      PruneAll(c, env, u, ps + {p})
        == Upkeep(v.peers - {p}, if ExpiryOf(v.bo, p) < expire then v.bo[p := expire] else v.bo,
                  v.grafted, v.pruned + {p})
  {
    hide Delayed, ExpiryOf;
    var v, expire := PruneAll(c, env, u, ps), env.now + c.pruneBackoff;
    DelayOneMore(u.bo, ps, p, expire);
    DelayOne(v.bo, p, expire);
    OneMore(u.peers, u.pruned, ps, p);
  }

  lemma OneMore(a: set<Peer>, b: set<Peer>, ps: set<Peer>, p: Peer)
    ensures a - (ps + {p}) == a - ps - {p} && b + (ps + {p}) == b + ps + {p}
  {
  }

  /** graftPeer, for each of the peers. */
  method GraftEach(u: Upkeep, ps: seq<Peer>) returns (v: Upkeep)
    ensures v == GraftAll(u, Elements(ps))
  {
    v := u;
    for i := 0 to |ps|
      invariant v == GraftAll(u, Elements(ps[..i]))
    {
      v := v.(peers := v.peers + {ps[i]}, grafted := v.grafted + {ps[i]});
      assert Elements(ps[..i + 1]) == Elements(ps[..i]) + {ps[i]};
    }
    assert ps[..|ps|] == ps;
  }

  method LowestScore(env: Env, peers: set<Peer>) returns (m: Peer)
    requires peers != {}
    ensures m in peers && forall q :: q in peers ==> env.score(m) <= env.score(q)
  {
    m :| m in peers;
    var rest := peers - {m};
    while rest != {}
      invariant rest <= peers && m in peers
      invariant forall q :: q in peers && q !in rest ==> env.score(m) <= env.score(q)
      decreases rest
    {
      var p :| p in rest;
      if env.score(p) < env.score(m) { m := p; }
      rest := rest - {p};
    }
  }

  /** The peers by ascending score, in some order where they tie. */
  method SortByScore(env: Env, peers: set<Peer>) returns (sorted: seq<Peer>)
    ensures Lists(peers, sorted) && Ascending(env, sorted)
  {
    sorted := [];
    var rest := peers;
    while rest != {}
      invariant SortedSoFar(env, peers, sorted, rest)
      decreases rest
    {
      var m := LowestScore(env, rest);
      SortStep(env, peers, sorted, rest, m);
      sorted := sorted + [m];
      rest := rest - {m};
    }
    DistinctSize(sorted);
  }

  /** The peers taken out so far are sorted and score no more than the rest. */
  ghost predicate SortedSoFar(env: Env, peers: set<Peer>, sorted: seq<Peer>, rest: set<Peer>) {
    && Elements(sorted) !! rest && Elements(sorted) + rest == peers
    && Distinct(sorted) && Ascending(env, sorted)
    && NoneBelow(env, sorted, rest)
  }

  ghost predicate NoneBelow(env: Env, sorted: seq<Peer>, rest: set<Peer>) {
    forall i, q :: 0 <= i < |sorted| && q in rest ==> env.score(sorted[i]) <= env.score(q)
  }

  lemma SortStep(env: Env, peers: set<Peer>, sorted: seq<Peer>, rest: set<Peer>, m: Peer)
    requires SortedSoFar(env, peers, sorted, rest)
    requires m in rest && forall q :: q in rest ==> env.score(m) <= env.score(q)
    ensures SortedSoFar(env, peers, sorted + [m], rest - {m})
  {
    SortedSnoc(env, sorted, m);
    SetStep(peers, Elements(sorted), rest, m);
    assert NoneBelow(env, sorted + [m], rest - {m});
  }

  lemma SetStep(peers: set<Peer>, done: set<Peer>, rest: set<Peer>, m: Peer)
    requires done !! rest && done + rest == peers && m in rest
    ensures (done + {m}) !! (rest - {m}) && (done + {m}) + (rest - {m}) == peers
  {
  }

  lemma SortedSnoc(env: Env, sorted: seq<Peer>, m: Peer)
    requires Distinct(sorted) && Ascending(env, sorted) && m !in Elements(sorted)
    requires forall i :: 0 <= i < |sorted| ==> env.score(sorted[i]) <= env.score(m)
    ensures Distinct(sorted + [m]) && Ascending(env, sorted + [m]) && Elements(sorted + [m]) == Elements(sorted) + {m}
  {
    forall i | 0 <= i < |sorted| ensures sorted[i] != m { assert sorted[i] in Elements(sorted); }
  }

  /** The peers as a list with the n best first and the others shuffled. */
  method BestThenShuffled(env: Env, peers: set<Peer>, n: nat) returns (list: seq<Peer>)
    ensures Lists(peers, list) && BestFirst(env, list, n)
  {
    var sorted := SortByScore(env, peers);
    var k := |sorted|;
    list := seq(k, i requires 0 <= i < k => sorted[k - 1 - i]);
    assert Elements(list) == peers by {
      forall p | p in peers ensures p in list {
        assert p in Elements(sorted);
        var i :| 0 <= i < k && sorted[i] == p;
        assert list[k - 1 - i] == p;
      }
      forall p | p in list ensures p in peers { assert p in Elements(sorted); }
    }
    if k > n {
      ghost var best := list;
      var tail := Shuffle(list[n..]);
      DistinctSize(tail);
      DistinctSize(list[n..]);
      list := list[..n] + tail;
      TailShuffled(env, best, tail, n);
    }
  }

  lemma TailShuffled(env: Env, best: seq<Peer>, tail: seq<Peer>, n: nat)
    requires n <= |best| && Distinct(best) && BestFirst(env, best, |best|)
    requires Distinct(tail) && Elements(tail) == Elements(best[n..]) && |tail| == |best| - n
    ensures Distinct(best[..n] + tail) && BestFirst(env, best[..n] + tail, n)
    ensures Elements(best[..n] + tail) == Elements(best)
  {
    var list := best[..n] + tail;
    forall j | n <= j < |list| ensures exists k :: n <= k < |best| && best[k] == list[j] {
      assert list[j] in Elements(tail);
      assert list[j] in best[n..];
      var k :| 0 <= k < |best[n..]| && best[n..][k] == list[j];
      assert best[n + k] == list[j];
    }
    assert best == best[..n] + best[n..];
    assert Elements(best) == Elements(best[..n]) + Elements(best[n..]);
    assert Elements(list) == Elements(best[..n]) + Elements(tail);
  }

  /** What is not kept of a list. */
  lemma RestOfList(list: seq<Peer>, bubbled: seq<Peer>, d: nat, peers: set<Peer>)
    requires Lists(peers, list) && multiset(bubbled) == multiset(list) && d <= |bubbled|
    ensures Elements(bubbled[d..]) == peers - Elements(bubbled[..d])
  {
    DistinctPermutes(list, bubbled);
    assert bubbled == bubbled[..d] + bubbled[d..];
    forall p ensures p in bubbled <==> p in peers {
      assert p in multiset(bubbled) <==> p in multiset(list);
      assert p in Elements(list) <==> p in list;
    }
    forall p | p in bubbled[d..] ensures p !in bubbled[..d] {
      var i :| 0 <= i < |bubbled[d..]| && bubbled[d..][i] == p;
      assert bubbled[d + i] == p;
    }
  }

  /** The trimming of a mesh that has too many peers. */
  method TrimPeers(c: Params, env: Env, u: Upkeep) returns (v: Upkeep, list: seq<Peer>)
    requires Sane(c)
    ensures TrimChoice(c, env, u, list) && v == TrimExcess(c, env, u, list)
  {
    v, list := u, [];
    if |u.peers| > c.dhi {
      var plst := BestThenShuffled(env, u.peers, c.dscore);
      list := plst;
      var a := new Peer[|plst|](i requires 0 <= i < |plst| => plst[i]);
      assert a[..] == plst;
      MeshTrim.Trim(a, c.d, c.dout, env.outbound);
      MeshTrim.TrimPermutes(plst, c.d, c.dout, env.outbound);
      RestOfList(plst, a[..], c.d, u.peers);
      assert a[..][..c.d] == MeshTrim.Kept(plst, c.d, c.dout, env.outbound);
      assert a[..][c.d..] == a[c.d..];
      v := PruneEach(c, env, u, Elements(a[c.d..]));
    }
  }

  method CountOut(env: Env, peers: set<Peer>) returns (n: nat)
    ensures n == |peers * env.outbound|
  {
    n := 0;
    var rest := peers;
    ghost var done: set<Peer> := {};
    while rest != {}
      invariant done !! rest && done + rest == peers && n == |done * env.outbound|
      decreases rest
    {
      var p :| p in rest;
      if p in env.outbound {
        n := n + 1;
        assert (done + {p}) * env.outbound == done * env.outbound + {p};
      } else {
        assert (done + {p}) * env.outbound == done * env.outbound;
      }
      rest, done := rest - {p}, done + {p};
    }
    assert done == peers;
  }

  method FillUp(c: Params, env: Env, b: Bitmask, u: Upkeep) returns (v: Upkeep, more: set<Peer>)
    ensures FillChoice(c, env, b, u, more) && v == GraftAll(u, more)
  {
    v, more := u, {};
    assert v == GraftAll(u, more);
    if |u.peers| < c.dlo {
      var sel := GetPeers(env.slices(b), c.d - |u.peers|, Acceptable(c, env, b, u.peers, u.bo));
      more := Elements(sel);
      v := GraftEach(u, sel);
    }
  }

  method FillOutbound(c: Params, env: Env, b: Bitmask, u: Upkeep) returns (v: Upkeep, outs: set<Peer>)
    ensures OutChoice(c, env, b, u, outs) && v == GraftAll(u, outs)
  {
    v, outs := u, {};
    assert v == GraftAll(u, outs);
    if |u.peers| >= c.dlo {
      var have := CountOut(env, u.peers);
      if have < c.dout {
        var sel := GetPeers(env.slices(b), c.dout - have, Acceptable(c, env, b, u.peers, u.bo) * env.outbound);
        outs := Elements(sel);
        v := GraftEach(u, sel);
      }
    }
  }

  method GraftBetter(c: Params, env: Env, b: Bitmask, ticks: nat, u: Upkeep)
    returns (v: Upkeep, sorted: seq<Peer>, better: set<Peer>)
    requires c.opportunisticTicks > 0
    ensures BetterChoice(c, env, b, u, ticks, sorted, better) && v == GraftAll(u, better)
    ensures Opportunistic.Grafts(c, env, b, u, ticks, better)
  {
    v, sorted, better := u, [], {};
    assert v == GraftAll(u, better);
    if ticks % c.opportunisticTicks == 0 && |u.peers| > 1 {
      var plst := SortByScore(env, u.peers);
      sorted := plst;
      var median := env.score(plst[|u.peers| / 2]);
      if median < env.opportunisticThreshold {
        var sel := GetPeers(env.slices(b), c.opportunisticPeers, Improving(c, env, b, u, median));
        better := Elements(sel);
        v := GraftEach(u, sel);
      }
    }
    Opportunistic.BetterIsGrafts(c, env, b, u, ticks, sorted, better);
  }

  /** One round of the heartbeat's loop over the meshes. */
  method Maintain(c: Params, env: Env, b: Bitmask, ticks: nat, peers: set<Peer>, bo: Backoffs) returns (v: Upkeep)
    requires Sane(c)
    ensures Upkept(c, env, b, ticks, peers, bo, v.peers, v.bo)
    ensures env.now > 0 ==> v.grafted == v.peers - peers && v.pruned == peers - v.peers
  {
    var u := Upkeep(peers, bo, {}, {});
    var sorted, better;
    var u1 := PruneEach(c, env, u, Negative(env, peers));
    var u2, more := FillUp(c, env, b, u1);
    var u3, list := TrimPeers(c, env, u2);
    var u4, outs := FillOutbound(c, env, b, u3);
    v, sorted, better := GraftBetter(c, env, b, ticks, u4);
    ghost var ch := Choice(more, list, outs, sorted, better);
    assert u1 == DropNegative(c, env, u) && u2 == Filled(c, env, u, ch) && u3 == Trimmed(c, env, u, ch);
    assert ValidChoice(c, env, b, ticks, u, ch);
    if env.now > 0 { MaintainedIsSound(c, env, b, ticks, u, ch); }
  }
}
