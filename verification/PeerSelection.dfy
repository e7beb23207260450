/** getPeers: picking random peers that take part in every slice of a bitmask. */
module PeerSelection {
  import opened Peers

  datatype Slice = Unknown | Known(peers: set<Peer>)

  function Everyone(slices: seq<Slice>): set<Peer> {
    if slices == [] then {}
    else (if slices[0].Known? then slices[0].peers else {}) + Everyone(slices[1..])
  }

  /** Narrows down `found` slice by slice, keeping to the peers that pass the filter. While nothing
      has been found yet a slice is taken as it is; once something has, losing all of it is final. */
  function Narrow(slices: seq<Slice>, passing: set<Peer>, found: set<Peer>): (r: set<Peer>)
    ensures found <= passing ==> r <= passing
  {
    if slices == [] then found
    else if slices[0].Unknown? then {}
    else
      var peers := slices[0].peers * passing;
      if found == {} then Narrow(slices[1..], passing, peers)
      else if found * peers == {} then {}
      else Narrow(slices[1..], passing, found * peers)
  }

  function Offered(slices: seq<Slice>, passing: set<Peer>): set<Peer> { Narrow(slices, passing, {}) }

  /** Up to `count` of the offered peers; all of them if count is not positive. */
  predicate Selection(offered: set<Peer>, count: int, sel: set<Peer>) {
    && sel <= offered
    && (if count > 0 && |offered| > count then |sel| == count else sel == offered)
  }

  predicate InAll(slices: seq<Slice>, passing: set<Peer>, p: Peer) {
    p in passing && forall i :: 0 <= i < |slices| ==> slices[i].Known? && p in slices[i].peers
  }

  /** Once something was found, narrowing is intersection. */
  lemma {:induction false} NarrowFound(slices: seq<Slice>, passing: set<Peer>, found: set<Peer>, p: Peer)
    requires found != {} && found <= passing
    ensures p in Narrow(slices, passing, found) <==> p in found && InAll(slices, passing, p)
  {
    if slices != [] && slices[0].Known? {
      var both := found * (slices[0].peers * passing);
      assert forall i :: 0 <= i < |slices[1..]| ==> slices[1..][i] == slices[i + 1];
      if both != {} {
        NarrowFound(slices[1..], passing, both, p);
        assert InAll(slices, passing, p) <==> p in slices[0].peers && InAll(slices[1..], passing, p);
      } else {
        assert p !in both;
      }
    }
  }

  /** The number of leading slices in which no peer passes the filter. */
  function Barren(slices: seq<Slice>, passing: set<Peer>): (n: nat)
    ensures n <= |slices|
  {
    if slices == [] || slices[0].Unknown? || slices[0].peers * passing != {} then 0
    else 1 + Barren(slices[1..], passing)
  }

  /** What getPeers offers: the peers of every slice, the leading barren slices left out of account. */
  lemma {:induction false} OfferedExactly(slices: seq<Slice>, passing: set<Peer>, p: Peer)
    ensures p in Offered(slices, passing)
      <==> Barren(slices, passing) < |slices| && InAll(slices[Barren(slices, passing)..], passing, p)
  {
    if slices != [] && slices[0].Known? {
      var peers := slices[0].peers * passing;
      assert forall i :: 0 <= i < |slices[1..]| ==> slices[1..][i] == slices[i + 1];
      if peers == {} {
        OfferedExactly(slices[1..], passing, p);
        assert slices[1..][Barren(slices[1..], passing)..] == slices[Barren(slices, passing)..];
      } else {
        NarrowFound(slices[1..], passing, peers, p);
        assert slices[0..] == slices;
        assert InAll(slices, passing, p) <==> p in slices[0].peers && InAll(slices[1..], passing, p);
      }
    } else if slices != [] {
      assert slices[0..][0] == slices[0];
    }
  }

  /** Offered is the intersection of all slices if and only if somebody passes in the first slice, nobody does in
      any, or nobody passes in all of the slices after the leading barren ones. */
  lemma OfferedIsIntersectionIff(slices: seq<Slice>, passing: set<Peer>)
    ensures (forall p :: p in Offered(slices, passing) <==> slices != [] && InAll(slices, passing, p))
      <==> var n := Barren(slices, passing);
           n == 0 || n == |slices| || forall p :: !InAll(slices[n..], passing, p)
  {
    var n := Barren(slices, passing);
    forall p
      ensures p in Offered(slices, passing) <==> n < |slices| && InAll(slices[n..], passing, p)
      ensures n > 0 ==> !InAll(slices, passing, p)
    {
      OfferedExactly(slices, passing, p);
      if n > 0 { assert p !in slices[0].peers * passing; }
    }
    if n == 0 { assert slices[0..] == slices; }
  }

  /** A peer of the second slice only is offered when nobody is in the first. */
  lemma BarrenSliceIsSkipped(p: Peer)
    ensures p in Offered([Known({}), Known({p})], {p}) && !InAll([Known({}), Known({p})], {p}, p)
  {
    var slices := [Known({}), Known({p})];
    assert slices[1..] == [Known({p})] && slices[1..][1..] == [];
    assert Known({p}).peers * {p} == {p};
    assert Narrow([Known({p})], {p}, {}) == Narrow([], {p}, {p}) by {
      assert [Known({p})][1..] == [];
    }
    assert Known({}).peers * {p} == {};
    assert Offered(slices, {p}) == Narrow(slices[1..], {p}, {});
    assert p !in slices[0].peers;
  }

  method CollectPassing(tmap: set<Peer>, passing: set<Peer>) returns (peers: seq<Peer>)
    ensures forall p :: p in peers <==> p in tmap && p in passing
    ensures Distinct(peers)
  {
    peers := [];
    var rest := tmap;
    while rest != {}
      invariant rest <= tmap
      invariant forall p :: p in peers <==> p in tmap - rest && p in passing
      invariant Distinct(peers)
    {
      var p :| p in rest;
      if p in passing {
        assert p !in peers;
        peers := peers + [p];
      }
      rest := rest - {p};
    }
  }

  /** The members of `peers` that are in `found`, in order. */
  method Common(peers: seq<Peer>, found: seq<Peer>) returns (both: seq<Peer>)
    requires Distinct(peers)
    ensures Elements(both) == Elements(found) * Elements(peers) && Distinct(both)
  {
    both := [];
    for i := 0 to |peers|
      invariant Distinct(both)
      invariant forall p :: p in both <==> p in peers[..i] && p in found
    {
      if peers[i] in found { both := both + [peers[i]]; }
    }
    assert peers[..|peers|] == peers;
  }

  /** getPeers up to the order of its answer. */
  method GetPeers(slices: seq<Slice>, count: int, passing: set<Peer>) returns (sel: seq<Peer>)
    ensures Distinct(sel) && Selection(Offered(slices, passing), count, Elements(sel))
  {
    var found: seq<Peer> := [];
    for i := 0 to |slices|
      invariant Distinct(found)
      invariant Narrow(slices[i..], passing, Elements(found)) == Offered(slices, passing)
    {
      assert slices[i..][0] == slices[i] && slices[i..][1..] == slices[i + 1..];
      if slices[i].Unknown? { return []; }
      var peers := CollectPassing(slices[i].peers, passing);
      assert Elements(peers) == slices[i].peers * passing;
      if |found| == 0 {
        assert Elements(found) == {};
        found := peers;
      } else {
        assert found[0] in Elements(found);
        var both := Common(peers, found);
        if |both| == 0 {
          assert Elements(both) == {};
          return [];
        }
        assert both[0] in Elements(both);
        found := both;
      }
    }
    found := Shuffle(found);
    DistinctSize(found);
    sel := found;
    if count > 0 && |found| > count {
      sel := found[..count];
      DistinctSize(sel);
    }
  }

  /** Some reordering. */
  method Shuffle(s: seq<Peer>) returns (t: seq<Peer>)
    requires Distinct(s)
    ensures Distinct(t) && Elements(t) == Elements(s)
  {
    t := [];
    var rest := s;
    while rest != []
      invariant Distinct(t) && Distinct(rest)
      invariant Elements(t) + Elements(rest) == Elements(s) && Elements(t) !! Elements(rest)
      decreases |rest|
    {
      var k :| 0 <= k < |rest|;
      var p := rest[k];
      assert p in Elements(rest);
      ghost var was := rest;
      t := t + [p];
      rest := rest[..k] + rest[k + 1..];
      assert Elements(was) == Elements(rest) + {p};
      assert p !in Elements(rest);
    }
    assert Elements(rest) == {};
  }
}
