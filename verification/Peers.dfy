/** Peers, bitmasks and message ids, as the keys of the tables the other modules keep. */
module Peers {
  datatype Peer = Peer(id: int)

  /** The string form of a bitmask, which names a set of bits to subscribe to. */
  datatype Bitmask = Bitmask(bytes: seq<bv8>)

  datatype MsgId = MsgId(key: int)

  predicate Distinct(s: seq<Peer>) { forall i, j :: 0 <= i < j < |s| ==> s[i] != s[j] }

  function Elements(s: seq<Peer>): set<Peer> { set p | p in s }

  lemma {:induction false} DistinctSize(s: seq<Peer>)
    requires Distinct(s)
    ensures |Elements(s)| == |s|
  {
    if s != [] {
      var l := s[|s| - 1];
      DistinctSize(s[..|s| - 1]);
      assert Elements(s) == Elements(s[..|s| - 1]) + {l};
    }
  }
}
