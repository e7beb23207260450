/** The text form of multiaddrs: printing, parsing, and that parsing undoes printing. */
module MultiaddrText {
  import opened Varint
  import opened Multiaddr

  const Slash: byte := 47

  predicate SlashFree(s: Bytes) { forall i :: 0 <= i < |s| ==> s[i] != Slash }

  // ---------------------------------------------------------------------------------
  // Strings and slashes
  // ---------------------------------------------------------------------------------

  function TrimRight(s: Bytes): Bytes {
    if s != [] && s[|s| - 1] == Slash then TrimRight(s[..|s| - 1]) else s
  }

  function Split(s: Bytes): (ws: seq<Bytes>)
    ensures ws != []
  {
    if s == [] then [[]]
    else if s[0] == Slash then [[]] + Split(s[1..])
    else var ws := Split(s[1..]); [[s[0]] + ws[0]] + ws[1..]
  }

  function Join(ws: seq<Bytes>): Bytes {
    if ws == [] then [] else if |ws| == 1 then ws[0] else ws[0] + [Slash] + Join(ws[1..])
  }

  /** Every word with a slash in front. */
  function Slashed(ws: seq<Bytes>): Bytes {
    if ws == [] then [] else [Slash] + ws[0] + Slashed(ws[1..])
  }

  lemma {:induction false} SlashedIsJoin(ws: seq<Bytes>)
    requires ws != []
    ensures Slashed(ws) == [Slash] + Join(ws)
  {
    if |ws| > 1 {
      SlashedIsJoin(ws[1..]);
      assert [Slash] + ws[0] + ([Slash] + Join(ws[1..])) == [Slash] + (ws[0] + [Slash] + Join(ws[1..]));
    }
  }

  lemma {:induction false} SlashedAppend(a: seq<Bytes>, b: seq<Bytes>)
    ensures Slashed(a + b) == Slashed(a) + Slashed(b)
  {
    if a == [] {
      assert a + b == b;
    } else {
      SlashedAppend(a[1..], b);
      assert (a + b)[1..] == a[1..] + b;
    }
  }

  lemma {:induction false} JoinSplit(s: Bytes)
    ensures Join(Split(s)) == s
  {
    if s != [] {
      var ws := Split(s[1..]);
      JoinSplit(s[1..]);
      if s[0] == Slash {
        assert Split(s)[1..] == ws;
        assert s == [Slash] + s[1..];
      } else {
        assert Split(s)[1..] == ws[1..];
        assert s == [s[0]] + s[1..];
      }
    }
  }

  lemma {:induction false} SplitWords(s: Bytes)
    ensures forall i :: 0 <= i < |Split(s)| ==> SlashFree(Split(s)[i])
    ensures s != [] && s[|s| - 1] != Slash ==> Split(s)[|Split(s)| - 1] != []
  {
    if s != [] {
      SplitWords(s[1..]);
    }
  }

  lemma {:induction false} SplitOne(w: Bytes)
    requires SlashFree(w)
    ensures Split(w) == [w]
  {
    if w != [] {
      SplitOne(w[1..]);
      assert w == [w[0]] + w[1..];
    }
  }

  lemma {:induction false} SplitAt(w: Bytes, s: Bytes)
    requires SlashFree(w)
    ensures Split(w + ([Slash] + s)) == [w] + Split(s)
  {
    var t := w + ([Slash] + s);
    if w == [] {
      assert t[1..] == s;
    } else {
      SplitAt(w[1..], s);
      assert t[1..] == w[1..] + ([Slash] + s);
      assert w == [w[0]] + w[1..];
    }
  }

  lemma SameTail(a: seq<Bytes>, b: seq<Bytes>)
    requires [[]] + a == [[]] + b
    ensures a == b
  {
    assert ([[]] + a)[1..] == a && ([[]] + b)[1..] == b;
  }

  /** Splitting slashed words finds an empty word, for what is before the first slash, and the
      words themselves. */
  lemma {:induction false} SplitSlashed(ws: seq<Bytes>)
    requires forall i :: 0 <= i < |ws| ==> SlashFree(ws[i])
    ensures Split(Slashed(ws)) == [[]] + ws
  {
    if ws != [] {
      SplitSlashed(ws[1..]);
      var rest := Slashed(ws[1..]);
      assert Slashed(ws)[1..] == ws[0] + rest;
      if |ws| == 1 {
        SplitOne(ws[0]);
        assert ws[0] + [] == ws[0] && ws == [ws[0]];
      } else {
        SplitAt(ws[0], rest[1..]);
        assert rest == [Slash] + rest[1..];
        assert Split(rest) == [[]] + Split(rest[1..]);
        SameTail(Split(rest[1..]), ws[1..]);
        assert ws == [ws[0]] + ws[1..];
      }
    }
  }

  lemma SlashedEnd(ws: seq<Bytes>)
    requires ws != [] && ws[|ws| - 1] != [] && SlashFree(ws[|ws| - 1])
    ensures TrimRight(Slashed(ws)) == Slashed(ws)
  {
    var w := ws[|ws| - 1];
    SlashedAppend(ws[..|ws| - 1], [w]);
    assert ws == ws[..|ws| - 1] + [w];
    SlashedOne(w);
    LastOf(Slashed(ws[..|ws| - 1]), [Slash], w);
  }

  lemma SlashedOne(w: Bytes)
    ensures Slashed([w]) == [Slash] + w
  {
    assert [w][1..] == [];
  }

  lemma LastOf(a: Bytes, b: Bytes, w: Bytes)
    requires w != []
    ensures var s := a + (b + w); s[|s| - 1] == w[|w| - 1]
  {
  }

  // ---------------------------------------------------------------------------------
  // Parsing
  // ---------------------------------------------------------------------------------

  /** The bytes of a protocol's argument given as text; None if it is refused. */
  function Argument(p: Protocol, text: Bytes): Option<Bytes> {
    if p.coder.None? then None else
    match p.coder.value.stringToBytes(text)
    case None => None
    case Some(a) => if p.coder.value.validBytes(a) then Some(a) else None
  }

  /** A path protocol takes all remaining words as its argument. */
  function TakeWords(p: Protocol, ws: seq<Bytes>): seq<Bytes> {
    if p.path then [[Slash] + Join(ws)] else ws
  }

  function ParseWords(reg: Registry, ws: seq<Bytes>): Option<Bytes>
    decreases |ws|
  {
    if ws == [] then Some([])
    else if ws[0] !in reg.byName || reg.byName[ws[0]].code == 0 then None
    else
      var p, rest := reg.byName[ws[0]], ws[1..];
      if p.size == 0 then
        match ParseWords(reg, rest) case None => None case Some(b) => Some(p.vcode + b)
      else if rest == [] then None
      else
        var words := TakeWords(p, rest);
        var a := Argument(p, words[0]);
        if a.None? then None else
        match ParseWords(reg, words[1..]) case None => None case Some(b) => Some(Frame(p, a.value) + b)
  }

  /** The bytes of an address given as text. */
  function StringToBytes(reg: Registry, s: Bytes): Option<Bytes> {
    var ws := Split(TrimRight(s));
    if ws[0] != [] || |ws| == 1 then None else ParseWords(reg, ws[1..])
  }

  // ---------------------------------------------------------------------------------
  // Printing
  // ---------------------------------------------------------------------------------

  function Value(c: Component): Bytes
    requires Valid(c)
  {
    ValueOf(c).value
  }

  function ComponentText(c: Component): Bytes
    requires Valid(c)
  {
    var v := Value(c);
    [Slash] + c.protocol.name +
    (if v == [] then [] else (if c.protocol.path && v[0] == Slash then [] else [Slash]) + v)
  }

  ghost predicate AllValid(m: Addr) { forall i :: 0 <= i < |m| ==> Valid(m[i]) }

  ghost function ToText(m: Addr): Bytes
    requires AllValid(m)
  {
    if m == [] then [] else ComponentText(m[0]) + ToText(m[1..])
  }

  // ---------------------------------------------------------------------------------
  // The contract of a protocol's definition
  // ---------------------------------------------------------------------------------

  /** On argument bytes that validation accepts, the transcoder prints a non-empty text that it
      reads back as the same bytes. A path prints as an absolute path without a trailing
      slash; any other argument prints without slashes. */
  ghost predicate LawfulOn(p: Protocol, t: Transcoder, raw: Bytes) {
    t.bytesToString(raw).Some? && t.validBytes(raw) && (p.size > 0 ==> |raw| == p.size / 8) ==>
      var v := t.bytesToString(raw).value;
      && v != [] && t.stringToBytes(v) == Some(raw)
      && (if p.path then |v| >= 2 && v[0] == Slash && v[|v| - 1] != Slash else SlashFree(v))
  }

  ghost predicate Lawful(p: Protocol) {
    && p.name != [] && SlashFree(p.name)
    && (p.coder.Some? ==> forall raw :: LawfulOn(p, p.coder.value, raw))
  }

  /** A valid component of a lawful, registered protocol. */
  ghost predicate Printable(reg: Registry, c: Component) {
    Valid(c) && Registered(reg, c.protocol) && WellDefined(c.protocol) && Lawful(c.protocol)
  }

  ghost predicate AllPrintable(reg: Registry, m: Addr) { forall i :: 0 <= i < |m| ==> Printable(reg, m[i]) }

  lemma ValueLawful(reg: Registry, c: Component)
    requires Printable(reg, c)
    ensures c.protocol.size == 0 ==> Value(c) == [] && RawValue(c) == []
    ensures c.protocol.size != 0 ==>
              && c.protocol.coder.Some? && Value(c) != []
              && Argument(c.protocol, Value(c)) == Some(RawValue(c))
              && (if c.protocol.path
                  then |Value(c)| >= 2 && Value(c)[0] == Slash && Value(c)[|Value(c)| - 1] != Slash
                  else SlashFree(Value(c)))
  {
    var p := c.protocol;
    ValidShape(c);
    if p.size != 0 {
      assert LawfulOn(p, p.coder.value, RawValue(c));
    }
  }

  // ---------------------------------------------------------------------------------
  // Parsing undoes printing
  // ---------------------------------------------------------------------------------

  /** The words a component is printed as. */
  function Words(c: Component): seq<Bytes>
    requires Valid(c)
  {
    var v := Value(c);
    if v == [] then [c.protocol.name]
    else if c.protocol.path then [c.protocol.name] + Split(v[1..])
    else [c.protocol.name, v]
  }

  lemma ComponentTextIsWords(reg: Registry, c: Component)
    requires Printable(reg, c)
    ensures ComponentText(c) == Slashed(Words(c))
    ensures forall i :: 0 <= i < |Words(c)| ==> SlashFree(Words(c)[i])
    ensures Words(c)[|Words(c)| - 1] != []
  {
    var p, v := c.protocol, Value(c);
    ValueLawful(reg, c);
    SlashedOne(p.name);
    if v == [] {
      assert Words(c) == [p.name];
    } else if p.path {
      SplitWords(v[1..]);
      PathIsWords(p.name, v);
    } else {
      SlashedAppend([p.name], [v]);
      SlashedOne(v);
      assert [p.name, v] == [p.name] + [v];
    }
  }

  lemma PathIsWords(name: Bytes, v: Bytes)
    requires v != [] && v[0] == Slash
    ensures Slashed([name] + Split(v[1..])) == ([Slash] + name) + v
  {
    var t := v[1..];
    JoinSplit(t);
    SlashedIsJoin(Split(t));
    SlashedAppend([name], Split(t));
    SlashedOne(name);
    assert v == [Slash] + t;
  }

  lemma ParseComponent(reg: Registry, c: Component, rest: seq<Bytes>, b: Bytes)
    requires Printable(reg, c) && (c.protocol.path ==> rest == []) && ParseWords(reg, rest) == Some(b)
    ensures ParseWords(reg, Words(c) + rest) == Some(c.bytes + b)
  {
    var p, v := c.protocol, Value(c);
    ValueLawful(reg, c);
    ValidShape(c);
    if v == [] {
      ParseBare(reg, p, rest, b);
      assert Words(c) == [p.name] && c.bytes == p.vcode by { assert p.vcode + [] + [] == p.vcode; }
    } else if p.path {
      ParsePath(reg, p, v, RawValue(c));
      assert Words(c) + [] == [p.name] + Split(v[1..]) && c.bytes + [] == c.bytes;
    } else {
      ParseValue(reg, p, v, RawValue(c), rest, b);
      assert Words(c) == [p.name, v];
    }
  }

  lemma ParseBare(reg: Registry, p: Protocol, rest: seq<Bytes>, b: Bytes)
    requires Registered(reg, p) && p.code != 0 && p.size == 0 && ParseWords(reg, rest) == Some(b)
    ensures ParseWords(reg, [p.name] + rest) == Some(p.vcode + b)
  {
    assert ([p.name] + rest)[1..] == rest;
  }

  lemma ParseValue(reg: Registry, p: Protocol, v: Bytes, raw: Bytes, rest: seq<Bytes>, b: Bytes)
    requires Registered(reg, p) && p.code != 0 && p.size != 0 && !p.path
    requires Argument(p, v) == Some(raw) && ParseWords(reg, rest) == Some(b)
    ensures ParseWords(reg, [p.name, v] + rest) == Some(Frame(p, raw) + b)
  {
    var ws := [p.name, v] + rest;
    assert ws[1..][0] == v && ws[1..][1..] == rest;
  }

  lemma ParsePath(reg: Registry, p: Protocol, v: Bytes, raw: Bytes)
    requires Registered(reg, p) && p.code != 0 && p.size != 0 && p.path && v != [] && v[0] == Slash
    requires Argument(p, v) == Some(raw)
    ensures ParseWords(reg, [p.name] + Split(v[1..])) == Some(Frame(p, raw))
  {
    var ws := [p.name] + Split(v[1..]);
    JoinSplit(v[1..]);
    assert ws[1..] == Split(v[1..]) && v == [Slash] + v[1..];
    assert TakeWords(p, ws[1..]) == [v] && [v][1..] == [];
    assert Frame(p, raw) + [] == Frame(p, raw);
  }

  ghost function AllWords(m: Addr): seq<Bytes>
    requires AllValid(m)
  {
    if m == [] then [] else Words(m[0]) + AllWords(m[1..])
  }

  lemma {:induction false} ToTextIsWords(reg: Registry, m: Addr)
    requires AllValid(m) && AllPrintable(reg, m)
    ensures ToText(m) == Slashed(AllWords(m))
    ensures forall i :: 0 <= i < |AllWords(m)| ==> SlashFree(AllWords(m)[i])
    ensures m != [] ==> AllWords(m) != [] && AllWords(m)[|AllWords(m)| - 1] != []
  {
    if m != [] {
      ComponentTextIsWords(reg, m[0]);
      ToTextIsWords(reg, m[1..]);
      SlashedAppend(Words(m[0]), AllWords(m[1..]));
    }
  }

  lemma {:induction false} ParseAllWords(reg: Registry, m: Addr)
    requires AllValid(m) && AllPrintable(reg, m) && PathLast(m)
    ensures ParseWords(reg, AllWords(m)) == Some(BytesOf(m))
  {
    if m != [] {
      assert PathLast(m[1..]);
      ParseAllWords(reg, m[1..]);
      assert m[0].protocol.path ==> m[1..] == [];
      ParseComponent(reg, m[0], AllWords(m[1..]), BytesOf(m[1..]));
    }
  }

  /** The text of every non-empty address whose only path component is its last one parses
      to the bytes of that address. */
  lemma TextRoundTrip(reg: Registry, m: Addr)
    requires AllValid(m) && AllPrintable(reg, m) && PathLast(m) && m != []
    ensures StringToBytes(reg, ToText(m)) == Some(BytesOf(m))
  {
    var ws := AllWords(m);
    ToTextIsWords(reg, m);
    SlashedEnd(ws);
    SplitSlashed(ws);
    ParseAllWords(reg, m);
    assert ([[]] + ws)[1..] == ws;
  }

  /** NewMultiaddr: parse the text, then read the bytes. */
  function NewMultiaddr(reg: Registry, s: Bytes): Option<Addr> {
    match StringToBytes(reg, s)
    case None => None
    case Some(b) => Parse(reg, b)
  }

  /** Printing and parsing again gives the very same components. */
  lemma NewMultiaddrRoundTrip(reg: Registry, m: Addr)
    requires Standard(reg) && AllValid(m) && AllPrintable(reg, m) && PathLast(m) && m != []
    requires forall i :: 0 <= i < |m| && m[i].protocol.size < 0 ==> RawValue(m[i]) != []
    ensures NewMultiaddr(reg, ToText(m)) == Some(m)
  {
    TextRoundTrip(reg, m);
    forall i | 0 <= i < |m| ensures Readable(reg, m[i]) {
      ValueLawful(reg, m[i]);
      ValidShape(m[i]);
    }
    BinaryRoundTripIff(reg, m);
  }

  ghost predicate AllLawful(reg: Registry) { forall n :: n in reg.byName ==> Lawful(reg.byName[n]) }

  /** Whatever text is accepted, the address it stands for prints to a text that parses to that address. */
  lemma AcceptedTextRoundTrip(reg: Registry, s: Bytes)
    requires Standard(reg) && AllLawful(reg) && NewMultiaddr(reg, s).Some?
    ensures AllValid(NewMultiaddr(reg, s).value)
    ensures NewMultiaddr(reg, ToText(NewMultiaddr(reg, s).value)) == NewMultiaddr(reg, s)
  {
    var b := StringToBytes(reg, s).value;
    var m := Parse(reg, b).value;
    BinaryDecodeSound(reg, b);
    forall i | 0 <= i < |m|
      ensures Valid(m[i]) && Printable(reg, m[i]) && (m[i].protocol.size < 0 ==> RawValue(m[i]) != [])
    {
      assert Readable(reg, m[i]);
    }
    assert AllValid(m);
    NewMultiaddrRoundTrip(reg, m);
  }

  // ---------------------------------------------------------------------------------
  // The loops of the codec
  // ---------------------------------------------------------------------------------

  method TrimSlashes(s: Bytes) returns (t: Bytes)
    ensures t == TrimRight(s)
  {
    t := s;
    while |t| > 0 && t[|t| - 1] == Slash
      invariant TrimRight(t) == TrimRight(s)
    {
      t := t[..|t| - 1];
    }
  }

  /** The bytes so far followed by what the remaining words parse to. */
  function Continued(b: Bytes, rest: Option<Bytes>): Option<Bytes> {
    match rest case None => None case Some(x) => Some(b + x)
  }

  lemma ContinuedAssoc(b: Bytes, piece: Bytes, rest: Option<Bytes>)
    ensures Continued(b, Continued(piece, rest)) == Continued(b + piece, rest)
  {
    if rest.Some? {
      assert b + (piece + rest.value) == (b + piece) + rest.value;
    }
  }

  /** stringToBytes: consumes the list of words and writes a buffer. */
  method ParseText(reg: Registry, s: Bytes) returns (r: Option<Bytes>)
    ensures r == StringToBytes(reg, s)
  {
    var t := TrimSlashes(s);
    var sp := Split(t);
    if sp[0] != [] { return None; }
    sp := sp[1..];
    if |sp| == 0 { return None; }
    var b: Bytes := [];
    ghost var all := ParseWords(reg, sp);
    assert all.Some? ==> [] + all.value == all.value;
    while |sp| > 0
      invariant all == Continued(b, ParseWords(reg, sp))
      decreases |sp|
    {
      if sp[0] !in reg.byName || reg.byName[sp[0]].code == 0 { return None; }
      var p := reg.byName[sp[0]];
      var rest := sp[1..];
      if p.size == 0 {
        ContinuedAssoc(b, p.vcode, ParseWords(reg, rest));
        b, sp := b + p.vcode, rest;
      } else {
        if |rest| < 1 { return None; }
        var words := TakeWords(p, rest);
        var a := Argument(p, words[0]);
        if a.None? { return None; }
        ContinuedAssoc(b, Frame(p, a.value), ParseWords(reg, words[1..]));
        b, sp := b + Frame(p, a.value), words[1..];
      }
    }
    assert b + [] == b;
    return Some(b);
  }

  lemma {:induction false} ToTextSnoc(m: Addr, c: Component)
    requires AllValid(m) && Valid(c)
    ensures AllValid(m + [c]) && ToText(m + [c]) == ToText(m) + ComponentText(c)
  {
    if m == [] {
      assert m + [c] == [c] && ToText([c][1..]) == [];
    } else {
      ToTextSnoc(m[1..], c);
      assert (m + [c])[1..] == m[1..] + [c];
    }
  }

  /** writeTo: appends one component to the builder. */
  method WriteComponent(buf: Bytes, c: Component) returns (s: Bytes)
    requires Valid(c)
    ensures s == buf + ComponentText(c)
  {
    s := buf + ([Slash] + c.protocol.name);
    var v := Value(c);
    if |v| == 0 { return; }
    if !(c.protocol.path && v[0] == Slash) { s := s + [Slash]; }
    s := s + v;
  }

  /** String(): writes the components to a builder. */
  method WriteText(m: Addr) returns (s: Bytes)
    requires AllValid(m)
    ensures s == ToText(m)
  {
    s := [];
    for i := 0 to |m|
      invariant AllValid(m[..i]) && s == ToText(m[..i])
    {
      var c := m[i];
      ToTextSnoc(m[..i], c);
      assert m[..i + 1] == m[..i] + [c];
      s := WriteComponent(s, c);
    }
    assert m[..|m|] == m;
  }
}
