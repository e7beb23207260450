/** Multiaddr components, the protocol registry and the binary format. */
module Multiaddr {
  import opened Varint

  /** Converts the argument of a protocol between its text and its bytes. Go strings are byte
      strings, so text is a sequence of bytes as well. */
  datatype Transcoder = Transcoder(stringToBytes: Bytes -> Option<Bytes>,
                                   bytesToString: Bytes -> Option<Bytes>,
                                   validBytes: Bytes -> bool)

  /** size == 0: no argument; size > 0: that many bits; size < 0: length-prefixed. */
  datatype Protocol = Protocol(name: Bytes, code: int, vcode: Bytes, size: int, path: bool, coder: Option<Transcoder>)

  datatype Component = Component(bytes: Bytes, protocol: Protocol, valueStart: nat)

  type Addr = seq<Component>

  datatype Registry = Registry(byName: map<Bytes, Protocol>, byCode: map<int, Protocol>)

  // ---------------------------------------------------------------------------------
  // The registry
  // ---------------------------------------------------------------------------------

  /** What AddProtocol insists on for a single protocol. */
  predicate Admissible(p: Protocol) {
    && (p.size != 0 ==> p.coder.Some?)
    && (p.path ==> p.size < 0)
    && p.vcode != []
  }

  /** The two indexes describe the same admissible protocols. */
  ghost predicate Consistent(reg: Registry) {
    && (forall n :: n in reg.byName ==> var p := reg.byName[n]; p.code in reg.byCode && reg.byCode[p.code] == p)
    && (forall c :: c in reg.byCode ==>
          var p := reg.byCode[c]; p.code == c && Admissible(p) && p.name in reg.byName && reg.byName[p.name] == p)
  }

  /** The global protocol table. */
  class ProtocolTable {
    var reg: Registry

    constructor ()
      ensures reg == Registry(map[], map[]) && Consistent(reg)
    {
      reg := Registry(map[], map[]);
    }

    /** Registers a protocol; refused iff its name or code is taken or it is not admissible. */
    method AddProtocol(p: Protocol) returns (ok: bool)
      requires Consistent(reg)
      modifies this
      ensures Consistent(reg)
      ensures ok <==> p.name !in old(reg).byName && p.code !in old(reg).byCode && Admissible(p)
      ensures ok ==> reg.byName == old(reg).byName[p.name := p] && reg.byCode == old(reg).byCode[p.code := p]
      ensures !ok ==> reg == old(reg)
    {
      if p.name in reg.byName || p.code in reg.byCode { return false; }
      if p.size != 0 && p.coder.None? { return false; }
      if p.path && p.size >= 0 { return false; }
      if |p.vcode| == 0 { return false; }
      reg := Registry(reg.byName[p.name := p], reg.byCode[p.code := p]);
      return true;
    }

    /** A second name for a registered protocol, as "ipfs" is for p2p. */
    method AddAlias(name: Bytes, p: Protocol)
      requires Consistent(reg) && p.code in reg.byCode && reg.byCode[p.code] == p
      requires name !in reg.byName
      modifies this
      ensures Consistent(reg) && reg.byCode == old(reg).byCode && reg.byName == old(reg).byName[name := p]
    {
      reg := reg.(byName := reg.byName[name := p]);
    }
  }

  /** What the protocol definitions promise beyond that: the code is a positive 31-bit number
      and vcode is its varint, and a fixed size is a whole positive number of bytes. */
  predicate WellDefined(p: Protocol) {
    && Admissible(p)
    && 0 < p.code <= MaxCode && p.vcode == Encode(p.code)
    && (p.size > 0 ==> p.size % 8 == 0)
    && (p.size == 0 ==> p.coder.None?)
  }

  ghost predicate Registered(reg: Registry, p: Protocol) {
    && p.code in reg.byCode && reg.byCode[p.code] == p
    && p.name in reg.byName && reg.byName[p.name] == p
  }

  ghost predicate Standard(reg: Registry) {
    Consistent(reg) && forall c :: c in reg.byCode ==> WellDefined(reg.byCode[c])
  }

  // ---------------------------------------------------------------------------------
  // Components
  // ---------------------------------------------------------------------------------

  function RawValue(c: Component): Bytes
    requires c.valueStart <= |c.bytes|
  {
    c.bytes[c.valueStart..]
  }

  /** The text of the value; None where the transcoder reports an error. */
  function ValueOf(c: Component): Option<Bytes>
    requires c.valueStart <= |c.bytes|
  {
    if c.protocol.coder.None? then Some([]) else c.protocol.coder.value.bytesToString(RawValue(c))
  }

  /** validateComponent accepts. */
  predicate Valid(c: Component) {
    var p := c.protocol;
    var k := |p.vcode|;
    && c.valueStart <= |c.bytes|
    && k > 0 && k <= |c.bytes| && c.bytes[..k] == p.vcode
    && (if p.size < 0 then
          var r := ReadCode(c.bytes[k..]);
          r.Ok? && r.value == |c.bytes| - c.valueStart && k + r.length + r.value == |c.bytes|
        else
          p.size / 8 == |c.bytes| - c.valueStart && k + p.size / 8 == |c.bytes|)
    && ValueOf(c).Some?
    && (p.coder.Some? ==> p.coder.value.validBytes(RawValue(c)))
  }

  function Frame(p: Protocol, value: Bytes): Bytes {
    p.vcode + (if p.size < 0 then Encode(|value|) else []) + value
  }

  /** newComponent: frames a value; None where validation refuses the result. */
  function NewComponent(p: Protocol, value: Bytes): (r: Option<Component>)
    ensures r.Some? ==> Valid(r.value) && r.value.protocol == p && RawValue(r.value) == value
  {
    var c := Component(Frame(p, value), p, |Frame(p, value)| - |value|);
    if Valid(c) then Some(c) else None
  }

  /** A valid component is its protocol's frame around its value, and nothing else. */
  lemma ValidShape(c: Component)
    requires Valid(c)
    ensures c.bytes == Frame(c.protocol, RawValue(c)) && c.valueStart == |c.bytes| - |RawValue(c)|
    ensures c.protocol.size < 0 ==> |RawValue(c)| <= MaxCode
  {
    var p, k := c.protocol, |c.protocol.vcode|;
    var rest := c.bytes[k..];
    assert c.bytes == p.vcode + rest;
    if p.size < 0 {
      ReadCodeCanonical(rest);
      var r := ReadCode(rest);
      assert rest[r.length..] == RawValue(c);
      assert rest == Encode(r.value) + RawValue(c);
      assert p.vcode + (Encode(r.value) + RawValue(c)) == (p.vcode + Encode(r.value)) + RawValue(c);
    } else {
      assert rest == RawValue(c) && p.vcode + [] == p.vcode;
    }
  }

  /** Hence equal bytes and protocol mean equal components, and building a component from its
      own protocol and value gives it back. */
  lemma NewComponentRebuilds(c: Component)
    requires Valid(c)
    ensures NewComponent(c.protocol, RawValue(c)) == Some(c)
  {
    ValidShape(c);
  }

  // ---------------------------------------------------------------------------------
  // Reading
  // ---------------------------------------------------------------------------------

  /** How many value bytes follow, and where they start; None if the length cannot be read. */
  function ValueExtent(p: Protocol, b: Bytes, offset: nat): Option<(nat, nat)>
    requires offset <= |b| && p.size != 0
  {
    if p.size < 0 then
      match ReadCode(b[offset..])
      case Ok(size, n) => Some((size, offset + n))
      case _ => None
    else Some((p.size / 8, offset))
  }

  /** Reads one component from the front. */
  function ReadComponent(reg: Registry, b: Bytes): (c: Option<Component>)
    ensures c.Some? ==> 1 <= |c.value.bytes| <= |b| && c.value.bytes == b[..|c.value.bytes|] && Valid(c.value)
  {
    var r := ReadCode(b);
    if !r.Ok? || r.value !in reg.byCode || reg.byCode[r.value].code == 0 then None else
    var p := reg.byCode[r.value];
    if p.size == 0 then
      var c := Component(b[..r.length], p, r.length);
      if Valid(c) then Some(c) else None
    else
      match ValueExtent(p, b, r.length)
      case None => None
      case Some((size, start)) =>
        if |b| < start + size || size <= 0 then None else
        var c := Component(b[..start + size], p, start);
        if Valid(c) then Some(c) else None
  }

  /** Reads components to the end; nothing may follow a path component. */
  function ReadAll(reg: Registry, b: Bytes, sawPath: bool): Option<Addr>
    decreases |b|
  {
    if b == [] then Some([]) else
    var c := ReadComponent(reg, b);
    if c.None? || sawPath then None else
    match ReadAll(reg, b[|c.value.bytes|..], c.value.protocol.path)
    case None => None
    case Some(cs) => Some([c.value] + cs)
  }

  function Parse(reg: Registry, b: Bytes): Option<Addr> {
    if b == [] then None else ReadAll(reg, b, false)
  }

  function BytesOf(m: Addr): Bytes {
    if m == [] then [] else m[0].bytes + BytesOf(m[1..])
  }

  /** A path component can only come last. */
  predicate PathLast(m: Addr) {
    forall i :: 0 <= i < |m| - 1 ==> !m[i].protocol.path
  }

  /** A component that the reader can return: registered, valid, and with a value if its
      protocol takes one. */
  ghost predicate Readable(reg: Registry, c: Component) {
    && Valid(c)
    && c.protocol.code in reg.byCode && reg.byCode[c.protocol.code] == c.protocol
    && (c.protocol.size != 0 ==> RawValue(c) != [])
  }

  /** What the reader returns is readable and is exactly what it consumed. */
  lemma ReadComponentSound(reg: Registry, b: Bytes)
    requires Standard(reg) && ReadComponent(reg, b).Some?
    ensures Readable(reg, ReadComponent(reg, b).value)
  {
    var c := ReadComponent(reg, b).value;
    ValidShape(c);
  }

  lemma VcodeRead(reg: Registry, c: Component, rest: Bytes)
    requires Standard(reg) && Valid(c) && c.protocol.code in reg.byCode && reg.byCode[c.protocol.code] == c.protocol
    ensures ReadCode(c.bytes + rest) == Ok(c.protocol.code, |c.protocol.vcode|)
  {
    var p := c.protocol;
    CodeRoundTrip(p.code, c.bytes[|p.vcode|..] + rest);
    assert c.bytes + rest == p.vcode + (c.bytes[|p.vcode|..] + rest);
  }

  lemma ExtentRead(c: Component, rest: Bytes)
    requires Valid(c) && c.protocol.size != 0
    ensures ValueExtent(c.protocol, c.bytes + rest, |c.protocol.vcode|) == Some((|RawValue(c)|, c.valueStart))
  {
    var k := |c.protocol.vcode|;
    ValidShape(c);
    if c.protocol.size < 0 {
      ReadCodeExtends(c.bytes[k..], rest);
      assert (c.bytes + rest)[k..] == c.bytes[k..] + rest;
    }
  }

  /** Components are self-delimiting: whatever follows, the reader gives back the component,
      value start included. */
  lemma ReadComponentComplete(reg: Registry, c: Component, rest: Bytes)
    requires Standard(reg) && Readable(reg, c)
    ensures ReadComponent(reg, c.bytes + rest) == Some(c)
  {
    VcodeRead(reg, c, rest);
    ValidShape(c);
    assert (c.bytes + rest)[..|c.bytes|] == c.bytes;
    if c.protocol.size != 0 {
      ExtentRead(c, rest);
    }
  }

  ghost predicate AllReadable(reg: Registry, m: Addr) {
    forall i :: 0 <= i < |m| ==> Readable(reg, m[i])
  }

  lemma ConsReadable(reg: Registry, c: Component, cs: Addr)
    requires Readable(reg, c) && AllReadable(reg, cs) && PathLast(cs) && (c.protocol.path ==> cs == [])
    ensures AllReadable(reg, [c] + cs) && PathLast([c] + cs) && BytesOf([c] + cs) == c.bytes + BytesOf(cs)
  {
    var m := [c] + cs;
    assert m[1..] == cs;
    assert forall i :: 0 < i < |m| ==> m[i] == cs[i - 1];
  }

  lemma {:induction false} ReadAllSound(reg: Registry, b: Bytes, sawPath: bool)
    requires Standard(reg) && ReadAll(reg, b, sawPath).Some?
    ensures var m := ReadAll(reg, b, sawPath).value;
            && BytesOf(m) == b && AllReadable(reg, m) && PathLast(m)
            && (sawPath ==> m == [])
    decreases |b|
  {
    if b != [] {
      var c := ReadComponent(reg, b).value;
      var rest := b[|c.bytes|..];
      ReadComponentSound(reg, b);
      ReadAllSound(reg, rest, c.protocol.path);
      var cs := ReadAll(reg, rest, c.protocol.path).value;
      assert b == b[..|c.bytes|] + rest;
      ConsReadable(reg, c, cs);
    }
  }

  lemma {:induction false} ReadAllComplete(reg: Registry, m: Addr, sawPath: bool)
    requires Standard(reg) && AllReadable(reg, m) && PathLast(m) && (sawPath ==> m == [])
    ensures ReadAll(reg, BytesOf(m), sawPath) == Some(m)
  {
    if m != [] {
      var c, rest := m[0], BytesOf(m[1..]);
      ReadComponentComplete(reg, c, rest);
      ValidShape(c);
      assert (c.bytes + rest)[|c.bytes|..] == rest;
      assert AllReadable(reg, m[1..]) && PathLast(m[1..]);
      assert c.protocol.path ==> m[1..] == [];
      ReadAllComplete(reg, m[1..], c.protocol.path);
      assert m == [c] + m[1..];
    }
  }

  /** The bytes of an address decode to exactly that address if and only if it is not empty, its
      components are readable, and only the last is a path component. */
  lemma BinaryRoundTripIff(reg: Registry, m: Addr)
    requires Standard(reg)
    ensures Parse(reg, BytesOf(m)) == Some(m) <==> m != [] && AllReadable(reg, m) && PathLast(m)
  {
    if m != [] && AllReadable(reg, m) && PathLast(m) {
      ReadAllComplete(reg, m, false);
      ValidShape(m[0]);
      assert BytesOf(m) != [];
    } else if Parse(reg, BytesOf(m)) == Some(m) {
      ReadAllSound(reg, BytesOf(m), false);
    }
  }

  /** Whatever byte string is accepted, the components found concatenate back to it. */
  lemma BinaryDecodeSound(reg: Registry, b: Bytes)
    requires Standard(reg) && Parse(reg, b).Some?
    ensures BytesOf(Parse(reg, b).value) == b
    ensures AllReadable(reg, Parse(reg, b).value) && PathLast(Parse(reg, b).value)
  {
    ReadAllSound(reg, b, false);
  }

  /** The bytes of a component of a registered protocol with an empty length-prefixed value are refused. */
  lemma EmptyValueUnreadable(reg: Registry, c: Component)
    requires Standard(reg) && Valid(c) && Registered(reg, c.protocol) && c.protocol.size < 0 && RawValue(c) == []
    ensures Parse(reg, BytesOf([c])) == None
  {
    VcodeRead(reg, c, []);
    ExtentRead(c, []);
    assert c.bytes + [] == c.bytes && BytesOf([c]) == c.bytes;
  }

  /** Such a component can be made exactly if the protocol's transcoder accepts the empty value. */
  lemma EmptyValueAcceptedIff(reg: Registry, p: Protocol)
    requires Standard(reg) && Registered(reg, p) && p.size < 0
    ensures NewComponent(p, []).Some? <==> p.coder.value.bytesToString([]).Some? && p.coder.value.validBytes([])
    ensures NewComponent(p, []).Some? ==> Parse(reg, BytesOf([NewComponent(p, []).value])) == None
  {
    CodeRoundTrip(0, []);
    assert Encode(0) + [] == Encode(0);
    var c := Component(Frame(p, []), p, |Frame(p, [])|);
    assert c.bytes[|p.vcode|..] == Encode(0) && RawValue(c) == [];
    if NewComponent(p, []).Some? { EmptyValueUnreadable(reg, NewComponent(p, []).value); }
  }

  const AcceptAll := Transcoder(s => Some(s), b => Some(b), (b: Bytes) => true)

  const Lenient := Protocol([97], 1, Encode(1), -1, false, Some(AcceptAll))

  /** A protocol whose transcoder accepts everything has such a component. */
  lemma EmptyValueIsMade()
    ensures var reg := Registry(map[Lenient.name := Lenient], map[Lenient.code := Lenient]);
      && Standard(reg) && NewComponent(Lenient, []).Some?
      && Parse(reg, BytesOf([NewComponent(Lenient, []).value])) == None
  {
    EmptyValueAcceptedIff(Registry(map[Lenient.name := Lenient], map[Lenient.code := Lenient]), Lenient);
  }

  // ---------------------------------------------------------------------------------
  // The loops of the codec
  // ---------------------------------------------------------------------------------

  lemma BytesOfSnoc(m: Addr, c: Component)
    ensures BytesOf(m + [c]) == BytesOf(m) + c.bytes
    decreases m
  {
    if m == [] {
      assert [c][1..] == [] && m + [c] == [c];
    } else {
      BytesOfSnoc(m[1..], c);
      assert (m + [c])[1..] == m[1..] + [c];
    }
  }

  /** Bytes(): appends the components to a buffer. */
  method WriteBytes(m: Addr) returns (b: Bytes)
    ensures b == BytesOf(m)
  {
    b := [];
    for i := 0 to |m|
      invariant b == BytesOf(m[..i])
    {
      BytesOfSnoc(m[..i], m[i]);
      assert m[..i + 1] == m[..i] + [m[i]];
      b := b + m[i].bytes;
    }
    assert m[..|m|] == m;
  }

  /** readMultiaddr: consumes component after component. */
  method ReadMultiaddr(reg: Registry, b: Bytes) returns (m: Option<Addr>)
    ensures m == Parse(reg, b)
  {
    if |b| == 0 { return None; }
    var rest, res, sawPath := b, [], false;
    ghost var all := ReadAll(reg, b, false);
    assert all.Some? ==> [] + all.value == all.value;
    while |rest| > 0
      invariant ReadAll(reg, b, false)
             == match ReadAll(reg, rest, sawPath) { case None => None case Some(cs) => Some(res + cs) }
      decreases |rest|
    {
      var c := ReadComponent(reg, rest);
      if c.None? { return None; }
      var rest' := rest[|c.value.bytes|..];
      if sawPath { return None; }
      ghost var tail := ReadAll(reg, rest', c.value.protocol.path);
      assert tail.Some? ==> res + ([c.value] + tail.value) == (res + [c.value]) + tail.value;
      rest, sawPath, res := rest', c.value.protocol.path, res + [c.value];
    }
    assert res + [] == res;
    return Some(res);
  }
}
