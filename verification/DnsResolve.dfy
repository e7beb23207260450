/** Encapsulation and decapsulation of multiaddrs, and dnsaddr resolution built on them. */
module DnsResolve {
  import opened Varint
  import opened Multiaddr
  import opened MultiaddrText

  // ---------------------------------------------------------------------------------
  // Equality, encapsulation, decapsulation. A nil address is the empty one.
  // ---------------------------------------------------------------------------------

  /** Equal: components are compared by their bytes. */
  predicate Same(a: Addr, b: Addr) {
    |a| == |b| && forall i :: 0 <= i < |a| ==> a[i].bytes == b[i].bytes
  }

  function Encapsulate(m: Addr, o: Addr): Addr { m + o }

  /** The parts of `right` are found in `left` from position i on. */
  predicate MatchAt(left: Addr, right: Addr, i: nat) {
    right != [] && i + |right| <= |left| && Same(left[i..i + |right|], right)
  }

  /** The last position below n at which `right` is found, or -1. */
  function LastMatch(left: Addr, right: Addr, n: nat): int {
    if n == 0 then -1 else if MatchAt(left, right, n - 1) then n - 1 else LastMatch(left, right, n - 1)
  }

  function Decapsulate(m: Addr, right: Addr): Addr {
    var i := LastMatch(m, right, |m|);
    if 0 <= i <= |m| then m[..i] else m
  }

  lemma {:induction false} LastMatchIs(left: Addr, right: Addr, n: nat, i: nat)
    requires i < n && MatchAt(left, right, i) && forall j :: i < j < n ==> !MatchAt(left, right, j)
    ensures LastMatch(left, right, n) == i
  {
    if n - 1 != i { LastMatchIs(left, right, n - 1, i); }
  }

  /** An address that ends with `suffix` loses exactly that suffix: no later match has room. */
  lemma DecapsulateSuffix(m: Addr, suffix: Addr)
    requires |suffix| <= |m| && Same(m[|m| - |suffix|..], suffix)
    ensures Decapsulate(m, suffix) == m[..|m| - |suffix|]
  {
    var i := |m| - |suffix|;
    if suffix == [] {
      NoEmptyMatch(m, |m|);
      assert m[..|m|] == m;
    } else {
      assert m[i..i + |suffix|] == m[i..];
      LastMatchIs(m, suffix, |m|, i);
    }
  }

  lemma {:induction false} NoEmptyMatch(m: Addr, n: nat)
    ensures LastMatch(m, [], n) == -1
  {
    if n > 0 { NoEmptyMatch(m, n - 1); }
  }

  /** Decapsulating undoes encapsulating, for every address and every suffix. */
  lemma DecapsulateEncapsulate(m: Addr, suffix: Addr)
    ensures Decapsulate(Encapsulate(m, suffix), suffix) == m
  {
    var e := Encapsulate(m, suffix);
    assert e[|m|..] == suffix && e[..|m|] == m;
    DecapsulateSuffix(e, suffix);
  }

  /** The nested loops of Decapsulate. */
  method DecapsulateLoop(left: Addr, right: Addr) returns (r: Addr)
    ensures r == Decapsulate(left, right)
  {
    var lastIndex := -1;
    for i := 0 to |left|
      invariant lastIndex == LastMatch(left, right, i) && -1 <= lastIndex < i
    {
      var foundMatch := false;
      var j := 0;
      while j < |right|
        invariant 0 <= j <= |right| && i + j <= |left|
        invariant foundMatch <==> j > 0
        invariant forall k :: 0 <= k < j ==> left[i + k].bytes == right[k].bytes
      {
        if |left| <= i + j {
          foundMatch := false;
          break;
        }
        foundMatch := right[j].bytes == left[i + j].bytes;
        if !foundMatch { break; }
        j := j + 1;
      }
      assert foundMatch <==> MatchAt(left, right, i);
      if foundMatch { lastIndex := i; }
    }
    if lastIndex == 0 { return []; }
    if lastIndex < 0 { return left; }
    return left[..lastIndex];
  }

  // ---------------------------------------------------------------------------------
  // Splitting
  // ---------------------------------------------------------------------------------

  /** SplitFunc: splits where the callback first holds; that component starts the second part. */
  method SplitFunc(m: Addr, cb: Component -> bool) returns (pre: Addr, post: Addr)
    ensures m == pre + post
    ensures forall i :: 0 <= i < |pre| ==> !cb(pre[i])
    ensures post != [] ==> cb(post[0])
  {
    var idx := |m|;
    var i := 0;
    while i < |m|
      invariant 0 <= i <= |m| && idx == |m|
      invariant forall k :: 0 <= k < i ==> !cb(m[k])
    {
      if cb(m[i]) {
        idx := i;
        break;
      }
      i := i + 1;
    }
    return m[..idx], m[idx..];
  }

  /** offset: the callback counts down, so this drops k components. */
  method Offset(m: Addr, k: nat) returns (after: Addr)
    ensures after == if k <= |m| then m[k..] else []
  {
    var idx, left, i := |m|, k, 0;
    while i < |m|
      invariant 0 <= i <= |m| && idx == |m| && left == k - i >= 0
    {
      if left == 0 {
        idx := i;
        break;
      }
      left := left - 1;
      i := i + 1;
    }
    return m[idx..];
  }

  // ---------------------------------------------------------------------------------
  // Choosing a resolver
  // ---------------------------------------------------------------------------------

  const Dot: byte := 46

  /** The domain itself, or what follows one of its dots if that is not empty. */
  predicate LabelStart(fqdn: Bytes, k: nat) {
    k == 0 || (k < |fqdn| && fqdn[k - 1] == Dot)
  }

  predicate HasCustom<R>(custom: map<Bytes, R>, fqdn: Bytes, k: nat) {
    k <= |fqdn| && LabelStart(fqdn, k) && fqdn[k..] in custom
  }

  /** The most specific custom resolver: the one for the longest suffix of the domain, cut at a
      dot, that has one; the default resolver if none has. */
  method GetResolver<R>(custom: map<Bytes, R>, def: R, fqdn: Bytes) returns (r: R)
    ensures (exists k: nat :: HasCustom(custom, fqdn, k) && r == custom[fqdn[k..]]
                         && forall j :: 0 <= j < k ==> !HasCustom(custom, fqdn, j))
         || (r == def && forall k: nat :: !HasCustom(custom, fqdn, k))
  {
    assert fqdn[0..] == fqdn;
    if fqdn in custom {
      assert HasCustom(custom, fqdn, 0);
      return custom[fqdn];
    }
    var start := 0;
    while true
      invariant 0 <= start <= |fqdn| && (start == |fqdn| ==> start == 0)
      invariant forall k :: 0 <= k <= start ==> !HasCustom(custom, fqdn, k)
      decreases |fqdn| - start
    {
      var i := start;
      while i < |fqdn| && fqdn[i] != Dot
        invariant start <= i <= |fqdn|
        invariant forall k :: start <= k < i ==> fqdn[k] != Dot
      {
        i := i + 1;
      }
      if i == |fqdn| || i + 1 == |fqdn| { return def; }
      forall k | start < k < i + 1 ensures !HasCustom(custom, fqdn, k) {
        assert fqdn[k - 1] != Dot;
      }
      start := i + 1;
      if fqdn[start..] in custom {
        assert HasCustom(custom, fqdn, start);
        return custom[fqdn[start..]];
      }
    }
  }

  // ---------------------------------------------------------------------------------
  // Resolving
  // ---------------------------------------------------------------------------------

  const CodeDns := 53
  const CodeDns4 := 54
  const CodeDns6 := 55
  const CodeDnsaddr := 56
  const MaxResolvedAddrs := 100

  /** "dnsaddr=" */
  const TxtPrefix: Bytes := [100, 110, 115, 97, 100, 100, 114, 61]

  predicate IsDns(c: Component) {
    || c.protocol.code == CodeDns || c.protocol.code == CodeDns4
    || c.protocol.code == CodeDns6 || c.protocol.code == CodeDnsaddr
  }

  /** An IP record with the address text it was converted from, if that could be parsed. */
  datatype IpRecord = IpRecord(v4: bool, addr: Option<Addr>)

  datatype Resolution = Nothing | Failed | Resolved(addrs: seq<Addr>)

  /** The address in a TXT record, if it is a dnsaddr record we understand. */
  function TxtAddr(reg: Registry, record: Bytes): Option<Addr> {
    if TxtPrefix <= record then NewMultiaddr(reg, record[|TxtPrefix|..]) else None
  }

  lemma TxtAddrNotEmpty(reg: Registry, record: Bytes)
    ensures TxtAddr(reg, record) != Some([])
  {
  }

  /** The record ends with what follows the dnsaddr component, and has something before it. */
  predicate Accepted(rm: Addr, post: Addr) {
    |rm| > |post| && Same(rm[|rm| - |post|..], post)
  }

  /** The accepted TXT addresses without the suffix, in order. */
  function StrippedOne(reg: Registry, record: Bytes, post: Addr): seq<Addr> {
    match TxtAddr(reg, record)
    case None => []
    case Some(rm) => if Accepted(rm, post) then [rm[..|rm| - |post|]] else []
  }

  function Stripped(reg: Registry, records: seq<Bytes>, post: Addr): seq<Addr> {
    if records == [] then []
    else Stripped(reg, records[..|records| - 1], post) + StrippedOne(reg, records[|records| - 1], post)
  }

  function Capped(ms: seq<Addr>): seq<Addr> {
    if |ms| > MaxResolvedAddrs then ms[..MaxResolvedAddrs] else ms
  }

  function Wrapped(pre: Addr, ms: seq<Addr>, post: Addr): seq<Addr> {
    seq(|ms|, i requires 0 <= i < |ms| => pre + ms[i] + post)
  }

  /** The result of resolving a dnsaddr component between `pre` and `post`. */
  function DnsaddrResults(reg: Registry, pre: Addr, post: Addr, records: seq<Bytes>): seq<Addr> {
    Wrapped(pre, Capped(Stripped(reg, records, post)), post)
  }

  /** `result` is `pre` followed by the whole address of some TXT record that ends with `post`. */
  ghost predicate FromRecord(reg: Registry, pre: Addr, post: Addr, records: seq<Bytes>, result: Addr) {
    exists k :: 0 <= k < |records| && TxtAddr(reg, records[k]).Some?
                && var rm := TxtAddr(reg, records[k]).value;
                   Accepted(rm, post) && Same(result, pre + rm)
  }

  lemma {:induction false} StrippedFromRecord(reg: Registry, records: seq<Bytes>, post: Addr, i: nat)
      returns (k: nat, rm: Addr)
    requires i < |Stripped(reg, records, post)|
    ensures k < |records| && TxtAddr(reg, records[k]) == Some(rm) && Accepted(rm, post)
    ensures Stripped(reg, records, post)[i] == rm[..|rm| - |post|]
  {
    var init := records[..|records| - 1];
    if i < |Stripped(reg, init, post)| {
      k, rm := StrippedFromRecord(reg, init, post, i);
    } else {
      k := |records| - 1;
      rm := TxtAddr(reg, records[k]).value;
    }
  }

  lemma SamePrefix(x: Addr, a: Addr, b: Addr)
    requires Same(b, a)
    ensures Same(x + a, x + b)
  {
  }

  /** Every dnsaddr result is what came before the DNS component followed by a whole TXT address
      that ends with what came after it. */
  lemma DnsaddrResultsAreRecords(reg: Registry, pre: Addr, post: Addr, records: seq<Bytes>, i: nat)
    requires i < |DnsaddrResults(reg, pre, post, records)|
    ensures FromRecord(reg, pre, post, records, DnsaddrResults(reg, pre, post, records)[i])
  {
    var k, rm := StrippedFromRecord(reg, records, post, i);
    var head, tail := rm[..|rm| - |post|], rm[|rm| - |post|..];
    assert pre + rm == (pre + head) + tail;
    SamePrefix(pre + head, post, tail);
  }

  /** And while fewer than the cap are found, no accepted record is left out. */
  lemma {:induction false} AcceptedIsResolved(reg: Registry, post: Addr, records: seq<Bytes>, k: nat, rm: Addr)
    requires k < |records| && TxtAddr(reg, records[k]) == Some(rm) && Accepted(rm, post)
    ensures rm[..|rm| - |post|] in Stripped(reg, records, post)
  {
    var init, x := records[..|records| - 1], rm[..|rm| - |post|];
    var one := StrippedOne(reg, records[|records| - 1], post);
    if k == |records| - 1 {
      assert one == [x];
    } else {
      AcceptedIsResolved(reg, post, init, k, rm);
    }
    InBoth(Stripped(reg, init, post), one, x);
  }

  lemma InBoth(a: seq<Addr>, b: seq<Addr>, x: Addr)
    ensures x in a || x in b ==> x in a + b
  {
  }

  /** One TXT record: match the suffix, then remove it. */
  method MatchRecord(reg: Registry, record: Bytes, post: Addr) returns (one: seq<Addr>)
    ensures one == StrippedOne(reg, record, post)
  {
    hide NewMultiaddr;
    one := [];
    TxtAddrNotEmpty(reg, record);
    var parsed := TxtAddr(reg, record);
    if parsed.Some? {
      var rm := parsed.value;
      if |post| == 0 {
        assert rm[..|rm|] == rm && rm[|rm|..] == [];
        one := [rm];
      } else if |rm| >= |post| {
        var suffix := Offset(rm, |rm| - |post|);
        if Same(post, suffix) {
          assert Same(suffix, post);
          DecapsulateSuffix(rm, post);
          rm := DecapsulateLoop(rm, post);
          if |rm| > 0 { one := [rm]; }
        }
      }
    }
  }

  /** The loop over the TXT records. */
  method MatchRecords(reg: Registry, records: seq<Bytes>, post: Addr) returns (resolved: seq<Addr>)
    ensures resolved == Stripped(reg, records, post)
  {
    resolved := [];
    for i := 0 to |records|
      invariant resolved == Stripped(reg, records[..i], post)
    {
      assert records[..i + 1][..i] == records[..i];
      var one := MatchRecord(reg, records[i], post);
      resolved := resolved + one;
    }
    assert records[..|records|] == records;
  }

  method WrapAll(pre: Addr, ms: seq<Addr>, post: Addr) returns (r: seq<Addr>)
    ensures r == Wrapped(pre, ms, post)
  {
    r := ms;
    for i := 0 to |ms|
      invariant |r| == |ms|
      invariant forall k :: 0 <= k < i ==> r[k] == pre + ms[k]
      invariant forall k :: i <= k < |ms| ==> r[k] == ms[k]
    {
      r := r[i := Encapsulate(pre, r[i])];
    }
    for i := 0 to |ms|
      invariant |r| == |ms|
      invariant forall k :: 0 <= k < i ==> r[k] == pre + ms[k] + post
      invariant forall k :: i <= k < |ms| ==> r[k] == pre + ms[k]
    {
      r := r[i := Encapsulate(r[i], post)];
    }
  }

  /** The IP addresses of the wanted family; None if a record could not be converted. */
  function IpAddrs(records: seq<IpRecord>, v4only: bool, v6only: bool): Option<seq<Addr>> {
    if records == [] then Some([]) else
    var r := records[|records| - 1];
    match IpAddrs(records[..|records| - 1], v4only, v6only)
    case None => None
    case Some(found) =>
      if (r.v4 && v6only) || (!r.v4 && v4only) then Some(found)
      else if r.addr.None? then None else Some(found + [r.addr.value])
  }

  lemma {:induction false} IpAddrsStuck(records: seq<IpRecord>, i: nat, v4only: bool, v6only: bool)
    requires i <= |records| && IpAddrs(records[..i], v4only, v6only).None?
    ensures IpAddrs(records, v4only, v6only).None?
    decreases |records| - i
  {
    if i < |records| {
      assert records[..i + 1][..i] == records[..i];
      IpAddrsStuck(records, i + 1, v4only, v6only);
    } else {
      assert records[..i] == records;
    }
  }

  /** The family of addresses a DNS component stands for: dns4 and dns6 for one, dns for both. */
  predicate InFamily(code: nat, r: IpRecord) {
    (r.v4 ==> code != CodeDns6) && (!r.v4 ==> code != CodeDns4)
  }

  /** The addresses are those of the records at these positions, in order. */
  ghost predicate TakenAt(code: nat, records: seq<IpRecord>, found: seq<Addr>, at: seq<nat>) {
    && |at| == |found|
    && (forall i, j :: 0 <= i < j < |at| ==> at[i] < at[j])
    && forall i :: 0 <= i < |at| ==>
         at[i] < |records| && InFamily(code, records[at[i]]) && records[at[i]].addr == Some(found[i])
  }

  ghost predicate Unusable(code: nat, records: seq<IpRecord>, k: nat) {
    k < |records| && InFamily(code, records[k]) && records[k].addr.None?
  }

  /** The lookup fails exactly if a record of the wanted family is unusable; otherwise it yields all
      records of that family and no others, in order. */
  lemma IpAddrsOfFamily(code: nat, records: seq<IpRecord>) returns (at: seq<nat>)
    ensures var r := IpAddrs(records, code == CodeDns4, code == CodeDns6);
      && (r.None? <==> exists k: nat :: Unusable(code, records, k))
      && (r.Some? ==> TakenAt(code, records, r.value, at)
                      && forall k :: 0 <= k < |records| && InFamily(code, records[k]) ==> k in at)
  {
    FailsIffUnusable(code, records);
    at := [];
    if IpAddrs(records, code == CodeDns4, code == CodeDns6).Some? { at := TakenOfFamily(code, records); }
  }

  lemma {:induction false} FailsIffUnusable(code: nat, records: seq<IpRecord>)
    ensures IpAddrs(records, code == CodeDns4, code == CodeDns6).None?
       <==> exists k: nat :: Unusable(code, records, k)
  {
    if records != [] {
      var n := |records| - 1;
      var init := records[..n];
      FailsIffUnusable(code, init);
      assert forall k: nat :: k < n ==> (Unusable(code, init, k) <==> Unusable(code, records, k));
      assert (exists k: nat :: Unusable(code, records, k))
        <==> (exists k: nat :: Unusable(code, init, k)) || Unusable(code, records, n);
    }
  }

  lemma TakenFromMore(code: nat, records: seq<IpRecord>, n: nat, found: seq<Addr>, at: seq<nat>)
    requires n <= |records| && TakenAt(code, records[..n], found, at)
    ensures TakenAt(code, records, found, at)
  {
  }

  lemma TakenOneMore(code: nat, records: seq<IpRecord>, n: nat, found: seq<Addr>, at: seq<nat>, a: Addr)
    requires n < |records| && TakenAt(code, records[..n], found, at)
    requires InFamily(code, records[n]) && records[n].addr == Some(a)
    ensures TakenAt(code, records, found + [a], at + [n])
  {
    TakenFromMore(code, records, n, found, at);
    assert forall i :: 0 <= i < |at| ==> at[i] < n;
  }

  lemma {:induction false} TakenOfFamily(code: nat, records: seq<IpRecord>) returns (at: seq<nat>)
    requires IpAddrs(records, code == CodeDns4, code == CodeDns6).Some?
    ensures TakenAt(code, records, IpAddrs(records, code == CodeDns4, code == CodeDns6).value, at)
    ensures forall k :: 0 <= k < |records| && InFamily(code, records[k]) ==> k in at
  {
    hide TakenAt;
    if records == [] {
      at := NothingTaken(code);
    } else {
      var n := |records| - 1;
      at := TakenOfFamily(code, records[..n]);
      var found := IpAddrs(records[..n], code == CodeDns4, code == CodeDns6).value;
      if InFamily(code, records[n]) {
        TakenOneMore(code, records, n, found, at, records[n].addr.value);
        at := at + [n];
      } else {
        TakenFromMore(code, records, n, found, at);
      }
    }
  }

  lemma NothingTaken(code: nat) returns (at: seq<nat>)
    ensures at == [] && TakenAt(code, [], [], at)
  {
    at := [];
  }

  /** The results are the first records of the family at most, each between `pre` and `post`; below
      the cap no record of the family is missing. */
  ghost predicate FamilyResults(code: nat, records: seq<IpRecord>, pre: Addr, post: Addr, results: seq<Addr>) {
    exists found, at ::
      && TakenAt(code, records, found, at) && |results| == |found| <= MaxResolvedAddrs
      && (forall i :: 0 <= i < |found| ==> results[i] == pre + found[i] + post)
      && forall k :: 0 <= k < |records| && InFamily(code, records[k]) && k !in at ==>
           |found| == MaxResolvedAddrs && forall i :: 0 <= i < |at| ==> at[i] < k
  }

  lemma TakenPrefix(code: nat, records: seq<IpRecord>, found: seq<Addr>, at: seq<nat>, n: nat)
    requires TakenAt(code, records, found, at) && n <= |found|
    ensures TakenAt(code, records, found[..n], at[..n])
    ensures forall k :: k in at && k !in at[..n] ==> n < |found| && forall i :: 0 <= i < n ==> at[..n][i] < k
  {
    forall k | k in at && k !in at[..n] ensures n < |found| && forall i :: 0 <= i < n ==> at[..n][i] < k {
      var j :| 0 <= j < |at| && at[j] == k;
    }
  }

  lemma IpResultsOfFamily(code: nat, records: seq<IpRecord>, pre: Addr, post: Addr)
    requires IpAddrs(records, code == CodeDns4, code == CodeDns6).Some?
    ensures var found := IpAddrs(records, code == CodeDns4, code == CodeDns6).value;
      FamilyResults(code, records, pre, post, Wrapped(pre, Capped(found), post))
  {
    hide TakenAt, IpAddrs, InFamily;
    var found := IpAddrs(records, code == CodeDns4, code == CodeDns6).value;
    var at := IpAddrsOfFamily(code, records);
    var n := |Capped(found)|;
    TakenPrefix(code, records, found, at, n);
    assert found[..n] == Capped(found);
    assert TakenAt(code, records, Capped(found), at[..n]);
  }

  method CollectIps(records: seq<IpRecord>, v4only: bool, v6only: bool) returns (r: Option<seq<Addr>>)
    ensures r == IpAddrs(records, v4only, v6only)
  {
    var found := [];
    for i := 0 to |records|
      invariant IpAddrs(records[..i], v4only, v6only) == Some(found)
    {
      assert records[..i + 1][..i] == records[..i];
      if !((records[i].v4 && v6only) || (!records[i].v4 && v4only)) {
        if records[i].addr.None? {
          IpAddrsStuck(records, i + 1, v4only, v6only);
          return None;
        }
        found := found + [records[i].addr.value];
      }
    }
    assert records[..|records|] == records;
    return Some(found);
  }

  /** Resolve: only the first DNS component is resolved. The two lookups are the answers of the
      resolver chosen for its value. */
  method Resolve(reg: Registry, m: Addr, ips: Option<seq<IpRecord>>, txt: Option<seq<Bytes>>)
    returns (r: Resolution, ghost pre: Addr, ghost post: Addr)
    ensures m == [] ==> r == Nothing
    ensures m != [] && (forall i :: 0 <= i < |m| ==> !IsDns(m[i])) ==> r == Resolved([m])
    ensures m != [] && (exists i :: 0 <= i < |m| && IsDns(m[i])) ==>
              && |pre| < |m| && IsDns(m[|pre|]) && m == pre + [m[|pre|]] + post
              && (forall i :: 0 <= i < |pre| ==> !IsDns(pre[i]))
              && (if m[|pre|].protocol.code == CodeDnsaddr then
                    if txt.None? then r == Failed
                    else if Stripped(reg, txt.value, post) == [] then r == Nothing
                    else r == Resolved(DnsaddrResults(reg, pre, post, txt.value))
                  else
                    var code := m[|pre|].protocol.code;
                    var found := if ips.None? then None else IpAddrs(ips.value, code == CodeDns4, code == CodeDns6);
                    if found.None? then r == Failed
                    else if found.value == [] then r == Nothing
                    else r == Resolved(Wrapped(pre, Capped(found.value), post)))
    ensures r.Resolved? && |pre| < |m| && IsDns(m[|pre|]) && m[|pre|].protocol.code != CodeDnsaddr ==>
              ips.Some? && FamilyResults(m[|pre|].protocol.code, ips.value, pre, post, r.addrs)
  {
    pre, post := [], [];
    if |m| == 0 { return Nothing, pre, post; }
    var preDns, rest := SplitFunc(m, IsDns);
    pre := preDns;
    if |rest| == 0 {
      assert m == preDns;
      return Resolved([preDns]), pre, post;
    }
    var c, postDns := rest[0], rest[1..];
    post := postDns;
    assert rest == [c] + postDns && m[|preDns|] == c;
    var resolved: seq<Addr>;
    if c.protocol.code == CodeDnsaddr {
      if txt.None? { return Failed, pre, post; }
      resolved := MatchRecords(reg, txt.value, postDns);
    } else {
      if ips.None? { return Failed, pre, post; }
      var found := CollectIps(ips.value, c.protocol.code == CodeDns4, c.protocol.code == CodeDns6);
      if found.None? { return Failed, pre, post; }
      resolved := found.value;
      IpResultsOfFamily(c.protocol.code, ips.value, preDns, postDns);
    }
    if |resolved| == 0 { return Nothing, pre, post; }
    if |resolved| > MaxResolvedAddrs { resolved := resolved[..MaxResolvedAddrs]; }
    resolved := WrapAll(preDns, resolved, postDns);
    return Resolved(resolved), pre, post;
  }
}
