/** Trimming an over-subscribed mesh: which D peers of a list stay, under a quota of
    outbound connections that is filled by rotating outbound peers to the front. */
module MeshTrim {

  import opened Peers

  function Outs(s: seq<Peer>, outbound: set<Peer>): seq<Peer> {
    if s == [] then [] else
    Outs(s[..|s| - 1], outbound) + (if s[|s| - 1] in outbound then [s[|s| - 1]] else [])
  }

  function NonOuts(s: seq<Peer>, outbound: set<Peer>): seq<Peer> {
    if s == [] then [] else
    NonOuts(s[..|s| - 1], outbound) + (if s[|s| - 1] in outbound then [] else [s[|s| - 1]])
  }

  function Reversed(s: seq<Peer>): seq<Peer> {
    if s == [] then [] else [s[|s| - 1]] + Reversed(s[..|s| - 1])
  }

  /** The list after the first n positions were visited: their outbound peers, latest first,
      then their other peers in order, then the unvisited rest. */
  function Gather(s: seq<Peer>, n: nat, outbound: set<Peer>): seq<Peer>
    requires n <= |s|
  {
    Reversed(Outs(s[..n], outbound)) + NonOuts(s[..n], outbound) + s[n..]
  }

  /** Puts the i-th peer in front and shifts those before it to the right. */
  function Rotated(s: seq<Peer>, i: nat): seq<Peer>
    requires i < |s|
  {
    [s[i]] + s[..i] + s[i + 1..]
  }

  /** The first position at or after n by which the quota is met, or the end of the list. */
  function QuotaEnd(s: seq<Peer>, n: nat, quota: int, outbound: set<Peer>): (m: nat)
    requires n <= |s|
    ensures n <= m <= |s|
    decreases |s| - n
  {
    if n == |s| || |Outs(s[..n], outbound)| >= quota then n else QuotaEnd(s, n + 1, quota, outbound)
  }

  /** The list from which the first d peers are kept. */
  function Bubbled(s: seq<Peer>, d: nat, dout: int, outbound: set<Peer>): seq<Peer>
    requires d <= |s|
  {
    if |Outs(s[..d], outbound)| >= dout then s else Gather(s, QuotaEnd(s, d, dout, outbound), outbound)
  }

  // ---------------------------------------------------------------------------------
  // Facts about the parts
  // ---------------------------------------------------------------------------------

  lemma PrefixStep(s: seq<Peer>, n: nat, outbound: set<Peer>)
    requires n < |s|
    ensures Outs(s[..n + 1], outbound) == Outs(s[..n], outbound) + (if s[n] in outbound then [s[n]] else [])
    ensures NonOuts(s[..n + 1], outbound) == NonOuts(s[..n], outbound) + (if s[n] in outbound then [] else [s[n]])
  {
    assert s[..n + 1][..n] == s[..n];
  }

  lemma {:induction false} PartLengths(s: seq<Peer>, outbound: set<Peer>)
    ensures |Outs(s, outbound)| + |NonOuts(s, outbound)| == |s|
    ensures |Reversed(Outs(s, outbound))| == |Outs(s, outbound)|
  {
    if s != [] { PartLengths(s[..|s| - 1], outbound); }
    ReversedLength(Outs(s, outbound));
  }

  lemma {:induction false} ReversedLength(s: seq<Peer>)
    ensures |Reversed(s)| == |s|
  {
    if s != [] { ReversedLength(s[..|s| - 1]); }
  }

  lemma ReversedSnoc(s: seq<Peer>, x: Peer)
    ensures Reversed(s + [x]) == [x] + Reversed(s)
  {
    assert (s + [x])[..|s|] == s;
  }

  lemma RotateMiddle(visited: seq<Peer>, x: Peer, rest: seq<Peer>)
    ensures var g := visited + ([x] + rest);
            g[|visited|] == x && Rotated(g, |visited|) == ([x] + visited) + rest
  {
    var g := visited + ([x] + rest);
    assert g[..|visited|] == visited && g[|visited| + 1..] == rest;
  }

  /** Visiting one more position: an outbound peer is rotated to the front, another stays. */
  lemma GatherStep(s: seq<Peer>, n: nat, outbound: set<Peer>)
    requires n < |s|
    ensures |Gather(s, n, outbound)| == |s| && Gather(s, n, outbound)[n] == s[n]
    ensures Gather(s, n + 1, outbound)
         == if s[n] in outbound then Rotated(Gather(s, n, outbound), n) else Gather(s, n, outbound)
  {
    var o, r := Outs(s[..n], outbound), NonOuts(s[..n], outbound);
    var x, rest := s[n], s[n + 1..];
    PartLengths(s[..n], outbound);
    PrefixStep(s, n, outbound);
    var visited := Reversed(o) + r;
    assert |visited| == n && s[n..] == [x] + rest;
    RotateMiddle(visited, x, rest);
    if x in outbound {
      ReversedSnoc(o, x);
      assert ([x] + Reversed(o)) + r == [x] + visited;
      assert Gather(s, n + 1, outbound) == ([x] + visited) + rest;
    } else {
      assert o + [] == o;
      assert Reversed(o) + (r + [x]) == visited + [x];
      assert (visited + [x]) + rest == visited + ([x] + rest);
    }
  }

  lemma GatherNone(s: seq<Peer>, outbound: set<Peer>)
    ensures Gather(s, 0, outbound) == s
  {
    assert s[..0] == [];
    assert Outs([], outbound) == [] && NonOuts([], outbound) == [] && Reversed([]) == [];
    assert ([] + []) + s[0..] == s;
  }

  lemma GatherStart(s: seq<Peer>, n: nat, outbound: set<Peer>)
    requires n <= 1 && n <= |s|
    ensures Gather(s, n, outbound) == s
  {
    GatherNone(s, outbound);
    if n == 1 {
      GatherStep(s, 0, outbound);
      RotatedFirst(s);
    }
  }

  lemma RotatedFirst(s: seq<Peer>)
    requires s != []
    ensures Rotated(s, 0) == s
  {
    RotateMiddle([], s[0], s[1..]);
    assert s == [] + ([s[0]] + s[1..]) == ([s[0]] + []) + s[1..];
  }

  lemma {:induction false} ReversedPermutes(s: seq<Peer>)
    ensures multiset(Reversed(s)) == multiset(s)
  {
    if s != [] {
      ReversedPermutes(s[..|s| - 1]);
      assert s == s[..|s| - 1] + [s[|s| - 1]];
    }
  }

  lemma {:induction false} PartsPermute(s: seq<Peer>, outbound: set<Peer>)
    ensures multiset(Outs(s, outbound)) + multiset(NonOuts(s, outbound)) == multiset(s)
  {
    if s != [] {
      var init, p := s[..|s| - 1], s[|s| - 1];
      PartsPermute(init, outbound);
      assert multiset(s) == multiset(init) + multiset{p} by { assert s == init + [p]; }
      if p in outbound {
        assert NonOuts(s, outbound) == NonOuts(init, outbound);
      } else {
        assert Outs(s, outbound) == Outs(init, outbound);
      }
    }
  }

  lemma GatherPermutes(s: seq<Peer>, n: nat, outbound: set<Peer>)
    requires n <= |s|
    ensures multiset(Gather(s, n, outbound)) == multiset(s) && |Gather(s, n, outbound)| == |s|
  {
    PartsPermute(s[..n], outbound);
    PartLengths(s[..n], outbound);
    ReversedPermutes(Outs(s[..n], outbound));
    assert s == s[..n] + s[n..];
  }

  // ---------------------------------------------------------------------------------
  // What the trim guarantees
  // ---------------------------------------------------------------------------------

  function Kept(s: seq<Peer>, d: nat, dout: int, outbound: set<Peer>): seq<Peer>
    requires d <= |s|
  {
    var b := Bubbled(s, d, dout, outbound);
    if d <= |b| then b[..d] else b
  }

  function Min(a: int, b: int): int { if a <= b then a else b }

  /** The bubbled list is a permutation, so exactly d peers are kept. */
  lemma TrimPermutes(s: seq<Peer>, d: nat, dout: int, outbound: set<Peer>)
    requires d <= |s|
    ensures multiset(Bubbled(s, d, dout, outbound)) == multiset(s)
    ensures |Bubbled(s, d, dout, outbound)| == |s| && |Kept(s, d, dout, outbound)| == d
  {
    GatherPermutes(s, QuotaEnd(s, d, dout, outbound), outbound);
  }

  /** Visiting stops with the quota exactly met, or with every outbound peer found. */
  lemma {:induction false} QuotaEndCount(s: seq<Peer>, n: nat, quota: int, outbound: set<Peer>)
    requires n <= |s| && |Outs(s[..n], outbound)| <= quota
    ensures |Outs(s[..QuotaEnd(s, n, quota, outbound)], outbound)| == Min(quota, |Outs(s, outbound)|)
    decreases |s| - n
  {
    if n == |s| {
      assert s[..n] == s;
    } else if |Outs(s[..n], outbound)| == quota {
      OutsGrow(s, n, |s|, outbound);
      assert s[..|s|] == s;
    } else {
      PrefixStep(s, n, outbound);
      QuotaEndCount(s, n + 1, quota, outbound);
    }
  }

  lemma {:induction false} OutsGrow(s: seq<Peer>, n: nat, m: nat, outbound: set<Peer>)
    requires n <= m <= |s|
    ensures Outs(s[..n], outbound) <= Outs(s[..m], outbound)
    ensures NonOuts(s[..n], outbound) <= NonOuts(s[..m], outbound)
    decreases m - n
  {
    if n < m {
      PrefixStep(s, n, outbound);
      OutsGrow(s, n + 1, m, outbound);
    }
  }

  lemma {:induction false} PartMembers(s: seq<Peer>, outbound: set<Peer>)
    ensures forall p :: p in Outs(s, outbound) <==> p in s && p in outbound
    ensures forall p :: p in NonOuts(s, outbound) <==> p in s && p !in outbound
  {
    if s != [] {
      PartMembers(s[..|s| - 1], outbound);
      assert s == s[..|s| - 1] + [s[|s| - 1]];
    }
  }

  lemma ReversedMembers(s: seq<Peer>)
    ensures forall p :: p in Reversed(s) <==> p in s
  {
    ReversedPermutes(s);
    forall p ensures p in Reversed(s) <==> p in s {
      assert p in s <==> p in multiset(s);
      assert p in Reversed(s) <==> p in multiset(Reversed(s));
    }
  }

  /** When the quota was not met by the selection, the kept peers are the outbound peers found
      and, in order, as many of the others as there is room for. */
  lemma KeptShape(s: seq<Peer>, d: nat, dout: int, outbound: set<Peer>)
    requires d <= |s| && |Outs(s[..d], outbound)| < dout <= d
    ensures var n := QuotaEnd(s, d, dout, outbound);
            var o, r := Outs(s[..n], outbound), NonOuts(s[..n], outbound);
            && |o| == Min(dout, |Outs(s, outbound)|) && 0 <= d - |o| <= |r|
            && Kept(s, d, dout, outbound) == Reversed(o) + r[..d - |o|]
  {
    var n := QuotaEnd(s, d, dout, outbound);
    var o, r := Outs(s[..n], outbound), NonOuts(s[..n], outbound);
    QuotaEndCount(s, d, dout, outbound);
    PartLengths(s[..n], outbound);
    GatherPermutes(s, n, outbound);
    TakeTwo(Reversed(o), r, s[n..], d);
  }

  lemma TakeTwo(a: seq<Peer>, b: seq<Peer>, c: seq<Peer>, d: nat)
    requires |a| <= d <= |a| + |b|
    ensures ((a + b) + c)[..d] == a + b[..d - |a|]
  {
  }

  lemma {:induction false} OutsAll(s: seq<Peer>, outbound: set<Peer>)
    requires forall i :: 0 <= i < |s| ==> s[i] in outbound
    ensures |Outs(s, outbound)| == |s|
  {
    if s != [] {
      OutsAll(s[..|s| - 1], outbound);
    }
  }

  lemma {:induction false} OutsNone(s: seq<Peer>, outbound: set<Peer>)
    requires forall i :: 0 <= i < |s| ==> s[i] !in outbound
    ensures Outs(s, outbound) == []
  {
    if s != [] {
      OutsNone(s[..|s| - 1], outbound);
    }
  }

  lemma {:induction false} OutsAppend(a: seq<Peer>, b: seq<Peer>, outbound: set<Peer>)
    ensures |Outs(a + b, outbound)| == |Outs(a, outbound)| + |Outs(b, outbound)|
    decreases b
  {
    if b == [] {
      assert a + b == a;
    } else {
      OutsAppend(a, b[..|b| - 1], outbound);
      assert (a + b)[..|a + b| - 1] == a + b[..|b| - 1];
    }
  }

  lemma OutsOfShape(o: seq<Peer>, r: seq<Peer>, outbound: set<Peer>)
    requires forall p :: p in o ==> p in outbound
    requires forall p :: p in r ==> p !in outbound
    ensures |Outs(Reversed(o) + r, outbound)| == |o|
  {
    ReversedMembers(o);
    ReversedLength(o);
    forall i | 0 <= i < |Reversed(o)| ensures Reversed(o)[i] in outbound {
      var p := Reversed(o)[i];
      assert p in o;
    }
    forall i | 0 <= i < |r| ensures r[i] !in outbound {
      var p := r[i];
      assert p in r;
    }
    OutsAll(Reversed(o), outbound);
    OutsNone(r, outbound);
    OutsAppend(Reversed(o), r, outbound);
  }

  /** The kept peers contain at least the quota of outbound peers, or all outbound peers if there
      are fewer; and the number is exactly what the selection had or what the quota asks for. */
  lemma KeptOutbound(s: seq<Peer>, d: nat, dout: int, outbound: set<Peer>)
    requires d <= |s| && dout <= d
    ensures |Outs(Kept(s, d, dout, outbound), outbound)|
         == if |Outs(s[..d], outbound)| >= dout then |Outs(s[..d], outbound)| else Min(dout, |Outs(s, outbound)|)
    ensures |Outs(Kept(s, d, dout, outbound), outbound)| >= Min(dout, |Outs(s, outbound)|)
  {
    if |Outs(s[..d], outbound)| < dout {
      KeptShape(s, d, dout, outbound);
      var n := QuotaEnd(s, d, dout, outbound);
      var o, r := Outs(s[..n], outbound), NonOuts(s[..n], outbound);
      PartMembers(s[..n], outbound);
      OutsOfShape(o, r[..d - |o|], outbound);
    }
  }

  lemma {:induction false} NonOutsDistinct(s: seq<Peer>, outbound: set<Peer>)
    requires Distinct(s)
    ensures Distinct(NonOuts(s, outbound))
  {
    if s != [] {
      var init := s[..|s| - 1];
      NonOutsDistinct(init, outbound);
      PartMembers(init, outbound);
      var r := NonOuts(init, outbound);
      forall i | 0 <= i < |r| ensures r[i] != s[|s| - 1] {
        assert r[i] in r && r[i] in init;
      }
    }
  }

  ghost predicate AllKept(s: seq<Peer>, k: nat, d: nat, dout: int, outbound: set<Peer>)
    requires k <= d <= |s|
  {
    forall i :: 0 <= i < k ==> s[i] in Kept(s, d, dout, outbound)
  }

  lemma PrefixMember(top: seq<Peer>, r: seq<Peer>, n: int, p: Peer)
    requires top <= r && |top| <= n <= |r| && p in top
    ensures p in r[..n]
  {
    var k :| 0 <= k < |top| && top[k] == p;
    assert r[..n][k] == p;
  }

  lemma TopFits(s: seq<Peer>, k: nat, d: nat, dout: int, outbound: set<Peer>)
    requires k <= d <= |s| && |Outs(s[..d], outbound)| < dout <= d
    requires |NonOuts(s[..k], outbound)| + Min(dout, |Outs(s, outbound)|) <= d
    ensures AllKept(s, k, d, dout, outbound)
  {
    KeptShape(s, d, dout, outbound);
    var n := QuotaEnd(s, d, dout, outbound);
    var o, r := Outs(s[..n], outbound), NonOuts(s[..n], outbound);
    var top := NonOuts(s[..k], outbound);
    OutsGrow(s, k, n, outbound);
    PartMembers(s[..n], outbound);
    PartMembers(s[..k], outbound);
    ReversedMembers(o);
    forall i | 0 <= i < k ensures s[i] in Kept(s, d, dout, outbound) {
      if s[i] in outbound {
        assert s[..n][i] == s[i] && s[i] in o;
      } else {
        assert s[..k][i] == s[i] && s[i] in top;
        PrefixMember(top, r, d - |o|, s[i]);
      }
    }
  }

  lemma TopOverflows(s: seq<Peer>, k: nat, d: nat, dout: int, outbound: set<Peer>)
    requires k <= d <= |s| && |Outs(s[..d], outbound)| < dout <= d && Distinct(s)
    requires |NonOuts(s[..k], outbound)| + Min(dout, |Outs(s, outbound)|) > d
    ensures !AllKept(s, k, d, dout, outbound)
  {
    KeptShape(s, d, dout, outbound);
    var n := QuotaEnd(s, d, dout, outbound);
    var o, r := Outs(s[..n], outbound), NonOuts(s[..n], outbound);
    var top, room := NonOuts(s[..k], outbound), d - |o|;
    OutsGrow(s, k, n, outbound);
    PartMembers(s[..n], outbound);
    PartMembers(s[..k], outbound);
    ReversedMembers(o);
    NonOutsDistinct(s[..n], outbound);
    var loser := r[room];
    assert top[room] == loser && loser in top;
    var i :| 0 <= i < k && s[..k][i] == loser;
    assert s[i] == loser && loser !in o && loser !in r[..room];
  }

  /** The first k peers of the list all survive exactly when the selection already met the quota,
      or the outbound peers that must be kept leave room for the others among the first k. */
  lemma TopSurvivesIff(s: seq<Peer>, k: nat, d: nat, dout: int, outbound: set<Peer>)
    requires k <= d <= |s| && dout <= d && Distinct(s)
    ensures AllKept(s, k, d, dout, outbound)
       <==> |Outs(s[..d], outbound)| >= dout
            || |NonOuts(s[..k], outbound)| + Min(dout, |Outs(s, outbound)|) <= d
  {
    if |Outs(s[..d], outbound)| >= dout {
      forall i | 0 <= i < k ensures s[i] in Kept(s, d, dout, outbound) {
        assert s[..d][i] == s[i];
      }
    } else if |NonOuts(s[..k], outbound)| + Min(dout, |Outs(s, outbound)|) <= d {
      TopFits(s, k, d, dout, outbound);
    } else {
      TopOverflows(s, k, d, dout, outbound);
    }
  }

  /** With Dscore + Dout <= D the Dscore best-scoring peers always survive. */
  lemma BestSurvive(s: seq<Peer>, dscore: nat, d: nat, dout: int, outbound: set<Peer>)
    requires d <= |s| && dout <= d && dscore + dout <= d && dscore <= d && Distinct(s)
    ensures AllKept(s, dscore, d, dout, outbound)
  {
    TopSurvivesIff(s, dscore, d, dout, outbound);
    PartLengths(s[..dscore], outbound);
  }

  /** Without that bound they need not: whatever the peers, with D = 2, Dscore = 2 and Dout = 1 an
      outbound peer in third place drops the second-best peer. */
  lemma BestCanBeDropped(a: Peer, b: Peer, c: Peer)
    requires a != b && b != c && a != c
    ensures !AllKept([a, b, c], 2, 2, 1, {c})
  {
    var s := [a, b, c];
    TopSurvivesIff(s, 2, 2, 1, {c});
    assert s[..2] == [a, b] && s == [a, b] + [c];
    OutsNone([a, b], {c});
    PartLengths([a, b], {c});
    OutsAll([c], {c});
    OutsAppend([a, b], [c], {c});
    assert |Outs(s[..2], {c})| == 0 && |NonOuts(s[..2], {c})| == 2 && |Outs(s, {c})| == 1;
  }

  // ---------------------------------------------------------------------------------
  // The trim in place
  // ---------------------------------------------------------------------------------

  method Rotate(a: array<Peer>, i: nat)
    requires i < a.Length
    modifies a
    ensures a[..] == Rotated(old(a[..]), i)
  {
    var p := a[i];
    var j := i;
    while j > 0
      invariant 0 <= j <= i
      invariant forall k :: 0 <= k < j || i < k < a.Length ==> a[k] == old(a[k])
      invariant forall k :: j < k <= i ==> a[k] == old(a[k - 1])
    {
      a[j] := a[j - 1];
      j := j - 1;
    }
    a[0] := p;
    ghost var was := old(a[..]);
    assert |Rotated(was, i)| == |was|;
    forall k | 0 <= k < a.Length ensures a[..][k] == Rotated(was, i)[k] {
    }
  }

  method CountOutbound(a: array<Peer>, d: nat, outbound: set<Peer>) returns (n: nat)
    requires d <= a.Length
    ensures n == |Outs(a[..d], outbound)|
  {
    n := 0;
    for i := 0 to d
      invariant n == |Outs(a[..i], outbound)|
    {
      assert a[..i + 1][..i] == a[..i];
      if a[i] in outbound { n := n + 1; }
    }
  }

  /** Visits position n. */
  method Visit(a: array<Peer>, n: nat, outbound: set<Peer>, ghost s: seq<Peer>) returns (moved: bool)
    requires n < a.Length == |s| && a[..] == Gather(s, n, outbound)
    modifies a
    ensures a[..] == Gather(s, n + 1, outbound) && moved == (s[n] in outbound)
  {
    GatherStep(s, n, outbound);
    assert a[n] == a[..][n];
    moved := a[n] in outbound;
    if moved { Rotate(a, n); }
  }

  /** Bubbles outbound peers of a[from..to] to the front until `need` of them were moved. */
  method BubbleUp(a: array<Peer>, from: nat, to: nat, need: int, outbound: set<Peer>, ghost s: seq<Peer>)
    returns (n: nat, left: int)
    requires from <= to <= a.Length == |s| && need >= 0 && a[..] == Gather(s, from, outbound)
    modifies a
    ensures from <= n <= to && a[..] == Gather(s, n, outbound)
    ensures left == need - (|Outs(s[..n], outbound)| - |Outs(s[..from], outbound)|) >= 0
    ensures n == to || left == 0
    ensures n == from || |Outs(s[..n - 1], outbound)| - |Outs(s[..from], outbound)| < need
  {
    n, left := from, need;
    while n < to && left > 0
      invariant from <= n <= to && a[..] == Gather(s, n, outbound)
      invariant left == need - (|Outs(s[..n], outbound)| - |Outs(s[..from], outbound)|) >= 0
      invariant n == from || |Outs(s[..n - 1], outbound)| - |Outs(s[..from], outbound)| < need
    {
      PrefixStep(s, n, outbound);
      var moved := Visit(a, n, outbound, s);
      if moved { left := left - 1; }
      n := n + 1;
    }
  }

  lemma {:induction false} QuotaEndIs(s: seq<Peer>, n: nat, m: nat, quota: int, outbound: set<Peer>)
    requires n <= m <= |s|
    requires m == |s| || |Outs(s[..m], outbound)| >= quota
    requires m == n || |Outs(s[..m - 1], outbound)| < quota
    ensures QuotaEnd(s, n, quota, outbound) == m
    decreases m - n
  {
    if n < m {
      OutsGrow(s, n, m - 1, outbound);
      QuotaEndIs(s, n + 1, m, quota, outbound);
    }
  }

  /** The outbound peers that were found first are all there are in a[1..d]. */
  lemma {:induction false} NoMoreOuts(s: seq<Peer>, n: nat, d: nat, outbound: set<Peer>)
    requires n <= d <= |s| && |Outs(s[..n], outbound)| == |Outs(s[..d], outbound)|
    ensures Gather(s, n, outbound) == Gather(s, d, outbound)
    decreases d - n
  {
    if n < d {
      PrefixStep(s, n, outbound);
      OutsGrow(s, n + 1, d, outbound);
      GatherStep(s, n, outbound);
      NoMoreOuts(s, n + 1, d, outbound);
    }
  }

  /** The selection of the peers to keep, as done in place on the list of mesh peers. */
  method Trim(a: array<Peer>, d: nat, dout: int, outbound: set<Peer>)
    requires d <= a.Length
    modifies a
    ensures a[..] == Bubbled(old(a[..]), d, dout, outbound)
  {
    ghost var s := a[..];
    var have := CountOutbound(a, d, outbound);
    assert a[..d] == s[..d];
    if have < dout {
      if have > 0 {
        GatherStart(s, 1, outbound);
        PrefixStep(s, 0, outbound);
        assert s[..0] == [];
        var n, left := BubbleUp(a, 1, d, have, outbound, s);
        OutsGrow(s, n, d, outbound);
        NoMoreOuts(s, n, d, outbound);
      } else {
        GatherStart(s, 0, outbound);
        OutsGrow(s, 0, d, outbound);
        NoMoreOuts(s, 0, d, outbound);
      }
      var n, left := BubbleUp(a, d, a.Length, dout - have, outbound, s);
      QuotaEndIs(s, d, n, dout, outbound);
    }
  }
}
