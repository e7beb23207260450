/** The score engine object. */
module PeerScoreEngine {
  import opened Peers
  import opened PeerScore
  import opened PeerScoreRuns

  class Scorer {
    var params: Params
    var peerStats: map<Peer, PeerStats>
    var peerIPs: map<Ip, set<Peer>>

    ghost function View(): State
      reads this
    {
      State(peerStats, peerIPs)
    }

    constructor (params: Params)
      ensures this.params == params && View() == State(map[], map[])
    {
      this.params := params;
      peerStats, peerIPs := map[], map[];
    }

    /** The score of p; the bitmasks are summed up in any order. */
    method ScoreOf(p: Peer, app: real) returns (score: real)
      requires ValidParams(params)
      ensures score == Score(params, View(), p, app)
    {
      if p !in peerStats { return 0.0; }
      var st := peerStats[p];
      var total := SumBitmasks(params, st.bitmasks);
      var p6 := IpColocationFactor(st.ips);
      score := Combine(params, total, app, p6, st.penalty);
    }

    method IpColocationFactor(ips: seq<Ip>) returns (result: real)
      ensures result == Colocation(params, View(), ips)
    {
      result := 0.0;
      for i := 0 to |ips|
        invariant result == Colocation(params, View(), ips[..i])
      {
        assert ips[..i + 1][..i] == ips[..i];
        if ips[i] !in params.whitelist {
          var surplus := (if ips[i] in peerIPs then |peerIPs[ips[i]]| else 0) - params.ipThreshold;
          if surplus > 0 { result := result + Square(surplus as real); }
        }
      }
      assert ips[..|ips|] == ips;
    }

    method RemovePeer(p: Peer, app: real, now: Time)
      requires ValidParams(params) && KeysScored(params, View())
      modifies this
      ensures View() == Disconnected(old(params), old(View()), p, app, now) && params == old(params)
    {
      if p !in peerStats { return; }
      var st := peerStats[p];
      var score := ScoreOf(p, app);
      if score > 0.0 {
        peerIPs := RemoveIPs(peerIPs, p, st.ips);
        peerStats := peerStats - {p};
        return;
      }
      var bitmasks := RetireAll(params, st.bitmasks);
      peerStats := peerStats[p := st.(bitmasks := bitmasks, connected := false, expire := now + params.retain)];
    }

    method AddPeer(p: Peer, ips: seq<Ip>)
      modifies this
      ensures View() == Connected(old(View()), p, ips) && params == old(params)
    {
      var st := if p in peerStats then peerStats[p] else PeerStats(true, 0, map[], [], 0.0);
      assert AllOf(st.ips) == IpsOf(View(), p);
      peerIPs := SetIPs(peerIPs, p, ips, st.ips);
      peerStats := peerStats[p := st.(connected := true, ips := ips)];
    }

    method SetBitmaskScoreParams(b: Bitmask, bp: BitmaskParams)
      modifies this
      ensures Engine(params, View()) == OnSetParams(Engine(old(params), old(View())), b, bp)
    {
      var exist := b in params.bitmasks;
      var before := if exist then params.bitmasks[b] else bp;
      params := params.(bitmasks := params.bitmasks[b := bp]);
      if !exist || !(bp.firstCap < before.firstCap || bp.meshCap < before.meshCap) { return; }
      peerStats := RecapAll(peerStats, b, bp);
      assert State(peerStats, peerIPs) == Recapped(old(View()), b, bp);
    }
  }

  method Recap(st: PeerStats, b: Bitmask, bp: BitmaskParams) returns (r: PeerStats)
    requires b in st.bitmasks
    ensures r == st.(bitmasks := st.bitmasks[b := Lowered(st.bitmasks[b], bp)])
  {
    var ts := st.bitmasks[b];
    if ts.first > bp.firstCap { ts := ts.(first := bp.firstCap); }
    if ts.mesh > bp.meshCap { ts := ts.(mesh := bp.meshCap); }
    r := st.(bitmasks := st.bitmasks[b := ts]);
  }

  method RecapAll(stats: map<Peer, PeerStats>, b: Bitmask, bp: BitmaskParams) returns (r: map<Peer, PeerStats>)
    ensures r == Recapped(State(stats, map[]), b, bp).stats
  {
    r := stats;
    var rest := stats.Keys;
    ghost var goal := Recapped(State(stats, map[]), b, bp).stats;
    while rest != {}
      invariant rest <= stats.Keys == r.Keys
      invariant forall p :: p in stats ==> r[p] == if p in rest then stats[p] else goal[p]
      decreases rest
    {
      var p :| p in rest;
      if b in r[p].bitmasks {
        var st := Recap(r[p], b, bp);
        r := r[p := st];
      }
      rest := rest - {p};
    }
  }

  /** The parts of the score put together. */
  method Combine(ps: Params, total: real, app: real, colocation: real, penalty: real) returns (score: real)
    ensures score == Sum(ps, total, app, colocation, penalty)
  {
    score := total;
    if ps.bitmaskCap > 0.0 && score > ps.bitmaskCap { score := ps.bitmaskCap; }
    score := score + app * ps.appWeight;
    score := score + colocation * ps.ipWeight;
    if penalty > ps.penaltyThreshold {
      var excess := penalty - ps.penaltyThreshold;
      score := score + Square(excess) * ps.penaltyWeight;
    }
  }

  method ScorePart(ps: Params, m: map<Bitmask, BitmaskStats>, b: Bitmask) returns (part: real)
    requires ValidParams(ps) && b in m
    ensures part == Part(ps, m, b)
  {
    part := 0.0;
    if b in ps.bitmasks {
      var one := ScoreBitmask(ps.bitmasks[b], m[b]);
      part := one * ps.bitmasks[b].weight;
    }
  }

  method SumBitmasks(ps: Params, m: map<Bitmask, BitmaskStats>) returns (score: real)
    requires ValidParams(ps)
    ensures score == Total(ps, m, m.Keys)
  {
    score := 0.0;
    var rest := m.Keys;
    while rest != {}
      invariant rest <= m.Keys && score + Total(ps, m, rest) == Total(ps, m, m.Keys)
      decreases rest
    {
      var b :| b in rest;
      TotalWithout(ps, m, rest, b);
      var part := ScorePart(ps, m, b);
      score := score + part;
      rest := rest - {b};
    }
  }

  /** The time in the mesh, in quanta and up to the cap. */
  method CappedTime(bp: BitmaskParams, ts: BitmaskStats) returns (p1: real)
    requires ValidBitmask(bp) && ts.inMesh
    ensures p1 == TimeInMesh(bp, ts)
  {
    p1 := Quotient(ts.meshTime, bp.timeInMeshQuantum);
    if p1 > bp.timeInMeshCap { p1 := bp.timeInMeshCap; }
  }

  /** The penalty for a deficit of deliveries in the mesh. */
  method MeshPart(bp: BitmaskParams, ts: BitmaskStats) returns (p3: real)
    ensures p3 == Deficit(bp, ts) * bp.meshWeight
  {
    p3 := 0.0;
    if ts.active && ts.mesh < bp.meshThreshold {
      p3 := Square(bp.meshThreshold - ts.mesh) * bp.meshWeight;
    }
  }

  method ScoreBitmask(bp: BitmaskParams, ts: BitmaskStats) returns (score: real)
    requires ValidBitmask(bp)
    ensures score == BitmaskScore(bp, ts)
  {
    score := 0.0;
    if ts.inMesh {
      var p1 := CappedTime(bp, ts);
      score := score + p1 * bp.timeInMeshWeight;
    }
    assert score == TimeInMesh(bp, ts) * bp.timeInMeshWeight;
    score := score + ts.first * bp.firstWeight;
    var p3 := MeshPart(bp, ts);
    score := score + p3;
    score := score + ts.failure * bp.failureWeight;
    score := score + Square(ts.invalid) * bp.invalidWeight;
  }

  method RetireAll(ps: Params, m: map<Bitmask, BitmaskStats>) returns (r: map<Bitmask, BitmaskStats>)
    requires m.Keys <= ps.bitmasks.Keys
    ensures r == RetiredAll(ps, m)
  {
    r := m;
    var rest := m.Keys;
    while rest != {}
      invariant rest <= m.Keys == r.Keys
      invariant forall b :: b in m ==> r[b] == if b in rest then m[b] else Retired(ps.bitmasks[b], m[b])
      decreases rest
    {
      var b :| b in rest;
      var ts, threshold := r[b], ps.bitmasks[b].meshThreshold;
      ts := ts.(first := 0.0);
      if ts.inMesh && ts.active && ts.mesh < threshold {
        ts := ts.(failure := ts.failure + Square(threshold - ts.mesh));
      }
      r := r[b := ts.(inMesh := false)];
      rest := rest - {b};
    }
  }

  /** Forgets p at one address. */
  function Left(index: map<Ip, set<Peer>>, p: Peer, ip: Ip): map<Ip, set<Peer>> {
    if ip !in index then index
    else if index[ip] - {p} == {} then index - {ip}
    else index[ip := index[ip] - {p}]
  }

  lemma LeftOneMore(index: map<Ip, set<Peer>>, p: Peer, ips: set<Ip>, ip: Ip)
    ensures Left(WithoutIPs(index, p, ips), p, ip) == WithoutIPs(index, p, ips + {ip})
  {
    var w, both := WithoutIPs(index, p, ips), WithoutIPs(index, p, ips + {ip});
    if ip in index {
      assert ip in w ==> w[ip] - {p} == index[ip] - {p};
      if index[ip] - {p} == {} {
        assert ip !in both && ip !in Left(w, p, ip);
      } else {
        assert ip in w && both[ip] == index[ip] - {p};
      }
    }
    assert Left(w, p, ip).Keys == both.Keys;
  }

  lemma AtOneMore(index: map<Ip, set<Peer>>, p: Peer, ips: set<Ip>, ip: Ip)
    ensures var w := WithIPs(index, p, ips);
      w[ip := At(w, ip) + {p}] == WithIPs(index, p, ips + {ip})
  {
    var w, both := WithIPs(index, p, ips), WithIPs(index, p, ips + {ip});
    assert At(w, ip) + {p} == both[ip];
    assert both.Keys == w.Keys + {ip};
  }

  method RemoveIPs(index: map<Ip, set<Peer>>, p: Peer, ips: seq<Ip>) returns (r: map<Ip, set<Peer>>)
    ensures r == WithoutIPs(index, p, AllOf(ips))
  {
    r := index;
    assert WithoutIPs(index, p, {}) == index;
    for i := 0 to |ips|
      invariant r == WithoutIPs(index, p, AllOf(ips[..i]))
    {
      LeftOneMore(index, p, AllOf(ips[..i]), ips[i]);
      assert AllOf(ips[..i + 1]) == AllOf(ips[..i]) + {ips[i]};
      r := Left(r, p, ips[i]);
    }
    assert ips[..|ips|] == ips;
  }

  method AddIPs(index: map<Ip, set<Peer>>, p: Peer, newips: seq<Ip>, oldips: seq<Ip>) returns (r: map<Ip, set<Peer>>)
    ensures r == WithIPs(index, p, AllOf(newips) - AllOf(oldips))
  {
    r := index;
    assert WithIPs(index, p, {}) == index;
    for i := 0 to |newips|
      invariant r == WithIPs(index, p, AllOf(newips[..i]) - AllOf(oldips))
    {
      var ip := newips[i];
      MoreMinus(newips, i, oldips);
      if ip !in oldips {
        AtOneMore(index, p, AllOf(newips[..i]) - AllOf(oldips), ip);
        r := r[ip := At(r, ip) + {p}];
      }
    }
    assert newips[..|newips|] == newips;
  }

  lemma MoreMinus(a: seq<Ip>, i: nat, b: seq<Ip>)
    requires i < |a|
    ensures AllOf(a[..i + 1]) - AllOf(b) == (AllOf(a[..i]) - AllOf(b)) + if a[i] in b then {} else {a[i]}
  {
    assert a[..i + 1] == a[..i] + [a[i]];
  }

  method DropIPs(index: map<Ip, set<Peer>>, p: Peer, newips: seq<Ip>, oldips: seq<Ip>) returns (r: map<Ip, set<Peer>>)
    ensures r == WithoutIPs(index, p, AllOf(oldips) - AllOf(newips))
  {
    r := index;
    assert WithoutIPs(index, p, {}) == index;
    for i := 0 to |oldips|
      invariant r == WithoutIPs(index, p, AllOf(oldips[..i]) - AllOf(newips))
    {
      var ip := oldips[i];
      MoreMinus(oldips, i, newips);
      if ip !in newips {
        LeftOneMore(index, p, AllOf(oldips[..i]) - AllOf(newips), ip);
        r := Left(r, p, ip);
      }
    }
    assert oldips[..|oldips|] == oldips;
  }

  method SetIPs(index: map<Ip, set<Peer>>, p: Peer, newips: seq<Ip>, oldips: seq<Ip>) returns (r: map<Ip, set<Peer>>)
    ensures r == WithoutIPs(WithIPs(index, p, AllOf(newips) - AllOf(oldips)), p, AllOf(oldips) - AllOf(newips))
  {
    r := AddIPs(index, p, newips, oldips);
    r := DropIPs(r, p, newips, oldips);
  }
}
