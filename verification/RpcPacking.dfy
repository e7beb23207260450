/** Splitting and merging outgoing RPCs so that each stays within a size limit.

    The packer is a fold over the indivisible things an RPC is made of. Each thing is put
    into the last RPC of the output, or, if that would exceed the limit, into a new one. */
module RpcPacking {

  /** An opaque byte string: a message id, a bitmask, or an encoded sub-message. */
  datatype Blob = Blob(bytes: seq<int>)

  /** Items other than IHAVE ids are filed under no bitmask. */
  const NoBitmask := Blob([])

  datatype Option<+T> = None | Some(value: T)

  datatype IHave = IHave(bitmask: Blob, ids: seq<Blob>)

  datatype Control = Control(ihave: seq<IHave>, iwant: seq<seq<Blob>>, graft: seq<Blob>,
                             prune: seq<Blob>, idontwant: seq<Blob>)

  datatype Rpc = Rpc(from: int, publish: seq<Blob>, subs: seq<Blob>, control: Option<Control>)

  const EmptyControl := Control([], [], [], [], [])

  function EmptyRpc(from: int): Rpc { Rpc(from, [], [], None) }

  function Ctl(r: Rpc): Control {
    if r.control.Some? then r.control.value else EmptyControl
  }

  datatype Kind = KPublish | KSub | KGraft | KPrune | KWant | KHave

  /** An item with the bitmask it is filed under; only IHAVE ids have one. */
  datatype Item = Item(bitmask: Blob, payload: Blob)

  /** What the packer puts into an RPC, one at a time: an item, or a container that is only
      added when it is missing. */
  datatype Thing = Put(kind: Kind, item: Item) | OpenControl | OpenIWant | OpenIHave(bitmask: Blob)

  predicate EndsWithIHave(c: Control, bitmask: Blob) {
    c.ihave != [] && c.ihave[|c.ihave| - 1].bitmask == bitmask
  }

  /** The containers that are already there are not added again. */
  predicate Present(r: Rpc, t: Thing) {
    match t
    case OpenControl => r.control.Some?
    case OpenIWant => Ctl(r).iwant != []
    case OpenIHave(b) => EndsWithIHave(Ctl(r), b)
    case _ => false
  }

  function AddWant(ws: seq<seq<Blob>>, id: Blob): seq<seq<Blob>> {
    if ws == [] then [[id]] else ws[0 := ws[0] + [id]]
  }

  function AddHave(c: Control, bitmask: Blob, id: Blob): seq<IHave> {
    if EndsWithIHave(c, bitmask) then
      var k := |c.ihave| - 1;
      c.ihave[k := IHave(bitmask, c.ihave[k].ids + [id])]
    else c.ihave + [IHave(bitmask, [id])]
  }

  function AddItem(r: Rpc, kind: Kind, item: Item): Rpc {
    var c, x := Ctl(r), item.payload;
    match kind
    case KPublish => r.(publish := r.publish + [x])
    case KSub => r.(subs := r.subs + [x])
    case KGraft => r.(control := Some(c.(graft := c.graft + [x])))
    case KPrune => r.(control := Some(c.(prune := c.prune + [x])))
    case KWant => r.(control := Some(c.(iwant := AddWant(c.iwant, x))))
    case KHave => r.(control := Some(c.(ihave := AddHave(c, item.bitmask, x))))
  }

  function Add(r: Rpc, t: Thing): Rpc {
    var c := Ctl(r);
    match t
    case Put(kind, item) => AddItem(r, kind, item)
    case OpenControl => r.(control := Some(c))
    case OpenIWant => r.(control := Some(c.(iwant := if c.iwant == [] then [[]] else c.iwant)))
    case OpenIHave(b) =>
      r.(control := Some(c.(ihave := if EndsWithIHave(c, b) then c.ihave else c.ihave + [IHave(b, [])])))
  }

  /** One step of the packer. */
  function Place(size: Rpc -> int, limit: int, from: int, out: seq<Rpc>, t: Thing): (out': seq<Rpc>)
    requires out != []
    ensures out' != []
  {
    var k := |out| - 1;
    if Present(out[k], t) then out
    else if size(Add(out[k], t)) > limit then out + [Add(EmptyRpc(from), t)]
    else out[k := Add(out[k], t)]
  }

  function PlaceAll(size: Rpc -> int, limit: int, from: int, out: seq<Rpc>, ts: seq<Thing>): (out': seq<Rpc>)
    requires out != []
    ensures out' != []
  {
    if ts == [] then out
    else Place(size, limit, from, PlaceAll(size, limit, from, out, ts[..|ts| - 1]), ts[|ts| - 1])
  }

  // The things an RPC is made of, in the order the packer visits them.

  function Puts(kind: Kind, b: Blob, xs: seq<Blob>): seq<Thing> {
    seq(|xs|, i requires 0 <= i < |xs| => Put(kind, Item(b, xs[i])))
  }

  function IWants(ws: seq<seq<Blob>>): seq<Thing> {
    if ws == [] then [] else IWants(ws[..|ws| - 1]) + ([OpenIWant] + Puts(KWant, NoBitmask, ws[|ws| - 1]))
  }

  function IHaves(hs: seq<IHave>): seq<Thing> {
    if hs == [] then [] else
    var h := hs[|hs| - 1];
    IHaves(hs[..|hs| - 1]) + ([OpenIHave(h.bitmask)] + Puts(KHave, h.bitmask, h.ids))
  }

  function ControlThings(c: Control): seq<Thing> {
    [OpenControl] + Puts(KGraft, NoBitmask, c.graft) + Puts(KPrune, NoBitmask, c.prune)
    + IWants(c.iwant) + IHaves(c.ihave)
  }

  function Things(r: Rpc): seq<Thing> {
    Puts(KPublish, NoBitmask, r.publish) + Puts(KSub, NoBitmask, r.subs)
    + (if r.control.Some? then ControlThings(r.control.value) else [])
  }

  function PackAll(size: Rpc -> int, limit: int, out: seq<Rpc>, elems: seq<Rpc>): (out': seq<Rpc>)
    requires out != []
    ensures out' != []
  {
    if elems == [] then out else
    var e := elems[|elems| - 1];
    PlaceAll(size, limit, e.from, PackAll(size, limit, out, elems[..|elems| - 1]), Things(e))
  }

  predicate FastPath(size: Rpc -> int, limit: int, slice: seq<Rpc>, elems: seq<Rpc>) {
    slice == [] && |elems| == 1 && size(elems[0]) < limit
  }

  /** The result of appendOrMergeRPC. */
  function Packed(size: Rpc -> int, limit: int, slice: seq<Rpc>, elems: seq<Rpc>): seq<Rpc> {
    if elems == [] then slice
    else if FastPath(size, limit, slice, elems) then elems
    else PackAll(size, limit, if slice == [] then [EmptyRpc(elems[0].from)] else slice, elems)
  }

  // ---------------------------------------------------------------------------------
  // Conservation
  // ---------------------------------------------------------------------------------

  function Plain(bs: seq<Blob>): seq<Item> { Filed(NoBitmask, bs) }
  function Filed(b: Blob, bs: seq<Blob>): seq<Item> { seq(|bs|, i requires 0 <= i < |bs| => Item(b, bs[i])) }

  function FlatWants(ws: seq<seq<Blob>>): seq<Item> {
    if ws == [] then [] else FlatWants(ws[..|ws| - 1]) + Plain(ws[|ws| - 1])
  }

  function FlatHaves(hs: seq<IHave>): seq<Item> {
    if hs == [] then [] else FlatHaves(hs[..|hs| - 1]) + Filed(hs[|hs| - 1].bitmask, hs[|hs| - 1].ids)
  }

  /** All items of one kind in an RPC, in order. */
  function Items(r: Rpc, k: Kind): seq<Item> {
    match k
    case KPublish => Plain(r.publish)
    case KSub => Plain(r.subs)
    case KGraft => Plain(Ctl(r).graft)
    case KPrune => Plain(Ctl(r).prune)
    case KWant => FlatWants(Ctl(r).iwant)
    case KHave => FlatHaves(Ctl(r).ihave)
  }

  function Flow(rs: seq<Rpc>, k: Kind): seq<Item> {
    if rs == [] then [] else Flow(rs[..|rs| - 1], k) + Items(rs[|rs| - 1], k)
  }

  function ThingItems(t: Thing, k: Kind): seq<Item> {
    if t.Put? && t.kind == k then [t.item] else []
  }

  function ThingFlow(ts: seq<Thing>, k: Kind): seq<Item> {
    if ts == [] then [] else ThingFlow(ts[..|ts| - 1], k) + ThingItems(ts[|ts| - 1], k)
  }

  /** Only the first IWANT entry of the RPC carries ids. */
  predicate OneIWant(r: Rpc) {
    forall i :: 0 < i < |Ctl(r).iwant| ==> Ctl(r).iwant[i] == []
  }

  lemma FlowSnoc(rs: seq<Rpc>, r: Rpc, k: Kind)
    ensures Flow(rs + [r], k) == Flow(rs, k) + Items(r, k)
  {
    assert (rs + [r])[..|rs|] == rs;
  }

  lemma FlowLast(rs: seq<Rpc>, r: Rpc, k: Kind)
    requires rs != []
    ensures Flow(rs[|rs| - 1 := r], k) == Flow(rs[..|rs| - 1], k) + Items(r, k)
  {
    FlowSnoc(rs[..|rs| - 1], r, k);
    assert rs[|rs| - 1 := r] == rs[..|rs| - 1] + [r];
  }

  lemma Assoc(x: seq<Item>, y: seq<Item>, z: seq<Item>)
    ensures (x + y) + z == x + (y + z)
  {
  }

  lemma ThingFlowSnoc(ts: seq<Thing>, t: Thing, k: Kind)
    ensures ThingFlow(ts + [t], k) == ThingFlow(ts, k) + ThingItems(t, k)
  {
    assert (ts + [t])[..|ts|] == ts;
  }

  lemma {:induction false} ThingFlowAppend(a: seq<Thing>, b: seq<Thing>, k: Kind)
    ensures ThingFlow(a + b, k) == ThingFlow(a, k) + ThingFlow(b, k)
    decreases |b|
  {
    if b == [] {
      assert a + b == a;
    } else {
      var b', last := b[..|b| - 1], b[|b| - 1];
      assert a + b == (a + b') + [last];
      calc {
        ThingFlow(a + b, k);
        { ThingFlowSnoc(a + b', last, k); }
        ThingFlow(a + b', k) + ThingItems(last, k);
        { ThingFlowAppend(a, b', k); }
        (ThingFlow(a, k) + ThingFlow(b', k)) + ThingItems(last, k);
        { Assoc(ThingFlow(a, k), ThingFlow(b', k), ThingItems(last, k)); }
        ThingFlow(a, k) + ThingFlow(b, k);
      }
    }
  }

  lemma {:induction false} FlatWantsOne(ws: seq<seq<Blob>>)
    requires ws != [] && forall i :: 0 < i < |ws| ==> ws[i] == []
    ensures FlatWants(ws) == Plain(ws[0])
  {
    var init := ws[..|ws| - 1];
    if init == [] {
      assert FlatWants(init) == [];
      assert ws[|ws| - 1] == ws[0];
    } else {
      FlatWantsOne(init);
      assert Plain(ws[|ws| - 1]) == [];
    }
  }

  lemma WantAdds(ws: seq<seq<Blob>>, id: Blob)
    requires forall i :: 0 < i < |ws| ==> ws[i] == []
    ensures FlatWants(AddWant(ws, id)) == FlatWants(ws) + [Item(NoBitmask, id)]
  {
    FlatWantsOne(AddWant(ws, id));
    if ws == [] {
      assert FlatWants(ws) == [];
      PlainSnoc([], id);
      assert [] + [id] == [id];
    } else {
      FlatWantsOne(ws);
      PlainSnoc(ws[0], id);
    }
  }

  lemma HaveAdds(c: Control, b: Blob, id: Blob)
    ensures FlatHaves(AddHave(c, b, id)) == FlatHaves(c.ihave) + [Item(b, id)]
  {
    var hs, hs' := c.ihave, AddHave(c, b, id);
    var init := hs'[..|hs'| - 1];
    if EndsWithIHave(c, b) {
      var ids := hs[|hs| - 1].ids;
      assert init == hs[..|hs| - 1];
      assert Filed(b, ids + [id]) == Filed(b, ids) + [Item(b, id)];
      calc {
        FlatHaves(hs');
        FlatHaves(init) + (Filed(b, ids) + [Item(b, id)]);
        (FlatHaves(init) + Filed(b, ids)) + [Item(b, id)];
      }
    } else {
      assert init == hs;
      assert Filed(b, [id]) == [Item(b, id)];
    }
  }

  lemma OpenHaveAddsNothing(c: Control, b: Blob)
    ensures FlatHaves(c.ihave + [IHave(b, [])]) == FlatHaves(c.ihave)
  {
    assert (c.ihave + [IHave(b, [])])[..|c.ihave|] == c.ihave;
    assert Filed(b, []) == [];
  }

  lemma PlainSnoc(bs: seq<Blob>, x: Blob)
    ensures Plain(bs + [x]) == Plain(bs) + [Item(NoBitmask, x)]
  {
  }

  /** No item of this kind can be filed under a bitmask. */
  predicate Unfiled(t: Thing) { t.Put? && t.kind != KHave ==> t.item.bitmask == NoBitmask }

  lemma OtherKinds(r: Rpc, kind: Kind, item: Item, k: Kind)
    requires kind != k
    ensures Items(AddItem(r, kind, item), k) == Items(r, k)
  {
  }

  lemma SameKind(r: Rpc, kind: Kind, item: Item)
    requires kind != KHave ==> item.bitmask == NoBitmask
    requires kind == KWant ==> OneIWant(r)
    ensures Items(AddItem(r, kind, item), kind) == Items(r, kind) + [item]
  {
    var c, x := Ctl(r), item.payload;
    match kind {
      case KPublish => PlainSnoc(r.publish, x);
      case KSub => PlainSnoc(r.subs, x);
      case KGraft => PlainSnoc(c.graft, x);
      case KPrune => PlainSnoc(c.prune, x);
      case KWant => WantAdds(c.iwant, x);
      case KHave => HaveAdds(c, item.bitmask, x);
    }
  }

  lemma OpeningAddsNothing(r: Rpc, t: Thing, k: Kind)
    requires !t.Put?
    ensures Items(Add(r, t), k) == Items(r, k)
  {
    match t
    case OpenIHave(b) => OpenHaveAddsNothing(Ctl(r), b);
    case OpenIWant =>
      var single: seq<seq<Blob>> := [[]];
      FlatWantsOne(single);
      assert Plain(single[0]) == [];
    case OpenControl =>
  }

  /** Adding a thing appends exactly its item to its kind and leaves the other kinds alone. */
  lemma AddItems(r: Rpc, t: Thing, k: Kind)
    requires Unfiled(t) && (k == KWant ==> OneIWant(r))
    ensures Items(Add(r, t), k) == Items(r, k) + ThingItems(t, k)
  {
    assert Items(r, k) + [] == Items(r, k);
    if !t.Put? {
      OpeningAddsNothing(r, t, k);
    } else if t.kind == k {
      SameKind(r, k, t.item);
    } else {
      OtherKinds(r, t.kind, t.item, k);
    }
  }

  lemma AddKeepsOneIWant(r: Rpc, t: Thing)
    requires OneIWant(r)
    ensures OneIWant(Add(r, t))
  {
    var ws, ws' := Ctl(r).iwant, Ctl(Add(r, t)).iwant;
    forall i | 0 < i < |ws'| ensures ws'[i] == [] {
      assert i < |ws| && ws'[i] == ws[i];
    }
  }

  lemma PlaceKeepsOneIWant(size: Rpc -> int, limit: int, from: int, out: seq<Rpc>, t: Thing)
    requires out != [] && OneIWant(out[|out| - 1])
    ensures var out' := Place(size, limit, from, out, t); OneIWant(out'[|out'| - 1])
  {
    AddKeepsOneIWant(out[|out| - 1], t);
    AddKeepsOneIWant(EmptyRpc(from), t);
  }

  lemma NoItems(from: int, k: Kind)
    ensures Items(EmptyRpc(from), k) == []
  {
  }

  lemma FreshItems(from: int, t: Thing, k: Kind)
    requires Unfiled(t)
    ensures Items(Add(EmptyRpc(from), t), k) == ThingItems(t, k)
  {
    NoItems(from, k);
    AddItems(EmptyRpc(from), t, k);
    assert [] + ThingItems(t, k) == ThingItems(t, k);
  }

  /** One packing step keeps every item of every kind in order. */
  lemma PlaceConserves(size: Rpc -> int, limit: int, from: int, out: seq<Rpc>, t: Thing, k: Kind)
    requires out != [] && Unfiled(t) && (k == KWant ==> OneIWant(out[|out| - 1]))
    ensures Flow(Place(size, limit, from, out, t), k) == Flow(out, k) + ThingItems(t, k)
  {
    var last := out[|out| - 1];
    if Present(last, t) {
      assert ThingItems(t, k) == [];
    } else if size(Add(last, t)) > limit {
      FlowSnoc(out, Add(EmptyRpc(from), t), k);
      FreshItems(from, t, k);
    } else {
      FlowLast(out, Add(last, t), k);
      AddItems(last, t, k);
      Assoc(Flow(out[..|out| - 1], k), Items(last, k), ThingItems(t, k));
    }
  }

  /** out' has the items of out followed by the others, and is ready for more. */
  ghost predicate Adds(out: seq<Rpc>, items: seq<Item>, out': seq<Rpc>, k: Kind) {
    out' != [] && Flow(out', k) == Flow(out, k) + items && (k == KWant ==> OneIWant(out'[|out'| - 1]))
  }

  lemma AddsBoth(out: seq<Rpc>, a: seq<Item>, mid: seq<Rpc>, b: seq<Item>, out': seq<Rpc>, k: Kind)
    requires Adds(out, a, mid, k) && Adds(mid, b, out', k)
    ensures Adds(out, a + b, out', k)
  {
    Assoc(Flow(out, k), a, b);
  }

  lemma PlaceAdds(size: Rpc -> int, limit: int, from: int, out: seq<Rpc>, t: Thing, k: Kind)
    requires out != [] && Unfiled(t) && (k == KWant ==> OneIWant(out[|out| - 1]))
    ensures Adds(out, ThingItems(t, k), Place(size, limit, from, out, t), k)
  {
    PlaceConserves(size, limit, from, out, t, k);
    if k == KWant { PlaceKeepsOneIWant(size, limit, from, out, t); }
  }

  lemma {:induction false} PlaceAllConserves(
    size: Rpc -> int, limit: int, from: int, out: seq<Rpc>, ts: seq<Thing>, k: Kind)
    requires out != [] && (forall t :: t in ts ==> Unfiled(t))
    requires k == KWant ==> OneIWant(out[|out| - 1])
    ensures Adds(out, ThingFlow(ts, k), PlaceAll(size, limit, from, out, ts), k)
    decreases ts
  {
    if ts == [] {
      assert Flow(out, k) + [] == Flow(out, k);
    } else {
      var init, t := ts[..|ts| - 1], ts[|ts| - 1];
      var mid := PlaceAll(size, limit, from, out, init);
      PlaceAllConserves(size, limit, from, out, init, k);
      PlaceAdds(size, limit, from, mid, t, k);
      AddsBoth(out, ThingFlow(init, k), mid, ThingItems(t, k), PlaceAll(size, limit, from, out, ts), k);
    }
  }

  // The things of an RPC carry exactly its items.

  lemma PutsSnoc(kind: Kind, b: Blob, xs: seq<Blob>)
    requires xs != []
    ensures Puts(kind, b, xs) == Puts(kind, b, xs[..|xs| - 1]) + [Put(kind, Item(b, xs[|xs| - 1]))]
  {
  }

  lemma FiledSnoc(b: Blob, xs: seq<Blob>)
    requires xs != []
    ensures Filed(b, xs) == Filed(b, xs[..|xs| - 1]) + [Item(b, xs[|xs| - 1])]
  {
  }

  lemma {:induction false} PutsFlow(kind: Kind, b: Blob, xs: seq<Blob>, k: Kind)
    ensures ThingFlow(Puts(kind, b, xs), k) == if k == kind then Filed(b, xs) else []
  {
    if xs != [] {
      var init, x := xs[..|xs| - 1], xs[|xs| - 1];
      PutsFlow(kind, b, init, k);
      PutsSnoc(kind, b, xs);
      FiledSnoc(b, xs);
      ThingFlowSnoc(Puts(kind, b, init), Put(kind, Item(b, x)), k);
    }
  }

  lemma {:induction false} IWantsUnfiled(ws: seq<seq<Blob>>)
    ensures forall t :: t in IWants(ws) ==> Unfiled(t)
  {
    if ws != [] { IWantsUnfiled(ws[..|ws| - 1]); }
  }

  lemma {:induction false} IHavesUnfiled(hs: seq<IHave>)
    ensures forall t :: t in IHaves(hs) ==> Unfiled(t)
  {
    if hs != [] { IHavesUnfiled(hs[..|hs| - 1]); }
  }

  lemma ThingsUnfiled(r: Rpc)
    ensures forall t :: t in Things(r) ==> Unfiled(t)
  {
    if r.control.Some? {
      IWantsUnfiled(r.control.value.iwant);
      IHavesUnfiled(r.control.value.ihave);
    }
  }

  lemma HeaderFlow(t: Thing, k: Kind)
    requires !t.Put?
    ensures ThingFlow([t], k) == []
  {
    assert [t][..0] == [];
  }

  lemma ListFlow(t: Thing, kind: Kind, b: Blob, xs: seq<Blob>, k: Kind)
    requires !t.Put?
    ensures ThingFlow([t] + Puts(kind, b, xs), k) == if k == kind then Filed(b, xs) else []
  {
    HeaderFlow(t, k);
    PutsFlow(kind, b, xs, k);
    ThingFlowAppend([t], Puts(kind, b, xs), k);
  }

  lemma {:induction false} IWantsFlow(ws: seq<seq<Blob>>, k: Kind)
    ensures ThingFlow(IWants(ws), k) == if k == KWant then FlatWants(ws) else []
  {
    if ws != [] {
      var w := ws[|ws| - 1];
      IWantsFlow(ws[..|ws| - 1], k);
      ListFlow(OpenIWant, KWant, NoBitmask, w, k);
      ThingFlowAppend(IWants(ws[..|ws| - 1]), [OpenIWant] + Puts(KWant, NoBitmask, w), k);
    }
  }

  lemma {:induction false} IHavesFlow(hs: seq<IHave>, k: Kind)
    ensures ThingFlow(IHaves(hs), k) == if k == KHave then FlatHaves(hs) else []
  {
    if hs != [] {
      var h := hs[|hs| - 1];
      IHavesFlow(hs[..|hs| - 1], k);
      ListFlow(OpenIHave(h.bitmask), KHave, h.bitmask, h.ids, k);
      ThingFlowAppend(IHaves(hs[..|hs| - 1]), [OpenIHave(h.bitmask)] + Puts(KHave, h.bitmask, h.ids), k);
    }
  }

  /** A concatenation in which at most one part is not empty. */
  lemma OnlyPart(x: seq<Item>, y: seq<Item>, z: seq<Item>, w: seq<Item>, r: seq<Item>)
    requires (x == r && y == z == w == []) || (y == r && x == z == w == [])
          || (z == r && x == y == w == []) || (w == r && x == y == z == [])
    ensures ((x + y) + z) + w == r
  {
  }

  lemma ThingFlowParts(x: seq<Thing>, y: seq<Thing>, z: seq<Thing>, w: seq<Thing>, k: Kind)
    ensures ThingFlow(((x + y) + z) + w, k)
         == ((ThingFlow(x, k) + ThingFlow(y, k)) + ThingFlow(z, k)) + ThingFlow(w, k)
  {
    ThingFlowAppend(x, y, k);
    ThingFlowAppend(x + y, z, k);
    ThingFlowAppend((x + y) + z, w, k);
  }

  lemma ControlFlow(from: int, c: Control, k: Kind)
    ensures ThingFlow(ControlThings(c), k) == Items(Rpc(from, [], [], Some(c)), k)
  {
    HeaderFlow(OpenControl, k);
    PutsFlow(KGraft, NoBitmask, c.graft, k);
    PutsFlow(KPrune, NoBitmask, c.prune, k);
    IWantsFlow(c.iwant, k);
    IHavesFlow(c.ihave, k);
    var g, p := Puts(KGraft, NoBitmask, c.graft), Puts(KPrune, NoBitmask, c.prune);
    var w, h := IWants(c.iwant), IHaves(c.ihave);
    ThingFlowAppend([OpenControl], g, k);
    ThingFlowParts([OpenControl] + g, p, w, h, k);
    assert ThingFlow([OpenControl] + g, k) == ThingFlow(g, k);
    var items := Items(Rpc(from, [], [], Some(c)), k);
    assert k == KPublish || k == KSub ==> items == [];
    OnlyPart(ThingFlow(g, k), ThingFlow(p, k), ThingFlow(w, k), ThingFlow(h, k), items);
  }

  lemma ThingsFlow(r: Rpc, k: Kind)
    ensures ThingFlow(Things(r), k) == Items(r, k)
  {
    PutsFlow(KPublish, NoBitmask, r.publish, k);
    PutsFlow(KSub, NoBitmask, r.subs, k);
    var p, u := Puts(KPublish, NoBitmask, r.publish), Puts(KSub, NoBitmask, r.subs);
    var c := if r.control.Some? then ControlThings(r.control.value) else [];
    ThingFlowAppend(p, u, k);
    ThingFlowAppend(p + u, c, k);
    assert ThingFlow(c, k) == if k == KPublish || k == KSub then [] else Items(r, k) by {
      if r.control.Some? {
        ControlFlow(r.from, r.control.value, k);
      }
    }
    OnlyPart(ThingFlow(p, k), ThingFlow(u, k), ThingFlow(c, k), [], Items(r, k));
  }

  lemma ElementConserves(size: Rpc -> int, limit: int, out: seq<Rpc>, e: Rpc, k: Kind)
    requires out != [] && (k == KWant ==> OneIWant(out[|out| - 1]))
    ensures Adds(out, Items(e, k), PlaceAll(size, limit, e.from, out, Things(e)), k)
  {
    ThingsUnfiled(e);
    PlaceAllConserves(size, limit, e.from, out, Things(e), k);
    ThingsFlow(e, k);
  }

  lemma {:induction false} PackAllConserves(size: Rpc -> int, limit: int, out: seq<Rpc>, elems: seq<Rpc>, k: Kind)
    requires out != [] && (k == KWant ==> OneIWant(out[|out| - 1]))
    ensures Adds(out, Flow(elems, k), PackAll(size, limit, out, elems), k)
    decreases elems
  {
    if elems == [] {
      assert Flow(out, k) + [] == Flow(out, k);
    } else {
      var init, e := elems[..|elems| - 1], elems[|elems| - 1];
      var mid := PackAll(size, limit, out, init);
      PackAllConserves(size, limit, out, init, k);
      ElementConserves(size, limit, mid, e, k);
      AddsBoth(out, Flow(init, k), mid, Items(e, k), PackAll(size, limit, out, elems), k);
    }
  }

  /** Nothing is lost, duplicated or reordered: for each of the six kinds the items of the
      output are those of the slice followed by those of the elements. For IWANT ids the last
      RPC of the slice must not carry ids beyond its first IWANT entry. */
  lemma PackingConserves(size: Rpc -> int, limit: int, slice: seq<Rpc>, elems: seq<Rpc>, k: Kind)
    requires k == KWant && slice != [] ==> OneIWant(slice[|slice| - 1])
    ensures Flow(Packed(size, limit, slice, elems), k) == Flow(slice, k) + Flow(elems, k)
  {
    if elems == [] || FastPath(size, limit, slice, elems) {
      assert Flow([], k) == [];
    } else if slice == [] {
      var first := EmptyRpc(elems[0].from);
      PackAllConserves(size, limit, [first], elems, k);
      FlowSnoc([], first, k);
      assert [] + [first] == [first] && Items(first, k) == [];
    } else {
      PackAllConserves(size, limit, slice, elems, k);
    }
  }

  // IWANT ids when the slice does carry ids beyond its first IWANT entry.

  ghost predicate WantOrderKept(size: Rpc -> int, limit: int, slice: seq<Rpc>, elems: seq<Rpc>) {
    Flow(Packed(size, limit, slice, elems), KWant) == Flow(slice, KWant) + Flow(elems, KWant)
  }

  lemma {:induction false} FlatWantsFront(ws: seq<seq<Blob>>)
    requires ws != []
    ensures FlatWants(ws) == Plain(ws[0]) + FlatWants(ws[1..])
  {
    var init, last := ws[..|ws| - 1], ws[|ws| - 1];
    if init == [] {
      assert FlatWants(init) == [] && ws[1..] == [];
    } else {
      FlatWantsFront(init);
      assert ws[1..][..|ws| - 2] == init[1..];
      Assoc(Plain(ws[0]), FlatWants(init[1..]), Plain(last));
    }
  }

  lemma {:induction false} FlatWantsNonEmpty(ws: seq<seq<Blob>>, i: nat)
    requires i < |ws| && ws[i] != []
    ensures FlatWants(ws) != []
  {
    var last := ws[|ws| - 1];
    if i == |ws| - 1 {
      assert Plain(last)[0] == Item(NoBitmask, last[0]);
    } else {
      FlatWantsNonEmpty(ws[..|ws| - 1], i);
    }
  }

  /** An RPC asking for one id. */
  function AskFor(id: Blob): Rpc { Rpc(0, [], [], Some(EmptyControl.(iwant := [[id]]))) }

  lemma AskForThings(id: Blob)
    ensures Things(AskFor(id)) == [OpenControl, OpenIWant, Put(KWant, Item(NoBitmask, id))]
    ensures Flow([AskFor(id)], KWant) == [Item(NoBitmask, id)]
  {
    var ws := [[id]];
    assert ws[..0] == [] && IWants(ws[..0]) == [] && FlatWants(ws[..0]) == [];
    assert Puts(KWant, NoBitmask, [id]) == [Put(KWant, Item(NoBitmask, id))];
    assert IWants(ws) == [OpenIWant] + Puts(KWant, NoBitmask, [id]);
    FlowSnoc([], AskFor(id), KWant);
    assert [] + [AskFor(id)] == [AskFor(id)] && Plain([id]) == [Item(NoBitmask, id)];
  }

  lemma PlaceThree(size: Rpc -> int, limit: int, from: int, out: seq<Rpc>, a: Thing, b: Thing, c: Thing)
    requires out != [] && Present(out[|out| - 1], a) && Present(out[|out| - 1], b)
    ensures PlaceAll(size, limit, from, out, [a, b, c]) == Place(size, limit, from, out, c)
  {
    PlaceTwo(size, limit, from, out, a, b);
    PlaceAllSnoc(size, limit, from, out, [a, b], c);
    assert [a, b] + [c] == [a, b, c];
  }

  lemma PlaceTwo(size: Rpc -> int, limit: int, from: int, out: seq<Rpc>, a: Thing, b: Thing)
    requires out != [] && Present(out[|out| - 1], a) && Present(out[|out| - 1], b)
    ensures PlaceAll(size, limit, from, out, [a, b]) == out
  {
    PlaceAllOne(size, limit, from, out, a);
    PlaceAllSnoc(size, limit, from, out, [a], b);
    assert [a] + [b] == [a, b];
  }

  /** Packing a request for one id into a last RPC that has room adds it to the first IWANT entry. */
  lemma AskIsPacked(size: Rpc -> int, slice: seq<Rpc>, id: Blob)
    requires slice != [] && Ctl(slice[|slice| - 1]).iwant != [] && slice[|slice| - 1].control.Some?
    ensures var k, grown := |slice| - 1, Add(slice[|slice| - 1], Put(KWant, Item(NoBitmask, id)));
      Packed(size, size(grown), slice, [AskFor(id)]) == slice[k := grown]
  {
    var k, t := |slice| - 1, Put(KWant, Item(NoBitmask, id));
    var limit := size(Add(slice[k], t));
    AskForThings(id);
    PlaceThree(size, limit, 0, slice, OpenControl, OpenIWant, t);
    assert [AskFor(id)][..0] == [] && PackAll(size, limit, slice, []) == slice;
  }

  /** A new id among the first IWANT entry's comes before those of the later entries. */
  lemma WantsAhead(ws: seq<seq<Blob>>, id: Blob)
    requires ws != [] && FlatWants(ws[1..]) != []
    ensures var tail := FlatWants(ws[1..]);
      && FlatWants(ws) == Plain(ws[0]) + tail
      && FlatWants(AddWant(ws, id)) == (Plain(ws[0]) + [Item(NoBitmask, id)]) + tail
  {
    FlatWantsFront(ws);
    FlatWantsFront(AddWant(ws, id));
    assert AddWant(ws, id)[1..] == ws[1..];
    PlainSnoc(ws[0], id);
  }

  lemma Reordered(pre: seq<Item>, head: seq<Item>, x: Item, tail: seq<Item>)
    requires tail != [] && tail[0] != x
    ensures pre + ((head + [x]) + tail) != (pre + (head + tail)) + [x]
  {
    var n := |pre| + |head|;
    assert (pre + ((head + [x]) + tail))[n] == x;
    assert ((pre + (head + tail)) + [x])[n] == tail[0];
  }

  lemma GrownFlow(slice: seq<Rpc>, id: Blob)
    requires slice != []
    ensures var k, ws := |slice| - 1, Ctl(slice[|slice| - 1]).iwant;
      && Flow(slice, KWant) == Flow(slice[..k], KWant) + FlatWants(ws)
      && Flow(slice[k := Add(slice[k], Put(KWant, Item(NoBitmask, id)))], KWant)
         == Flow(slice[..k], KWant) + FlatWants(AddWant(ws, id))
  {
    var last := slice[|slice| - 1];
    FlowLast(slice, last, KWant);
    assert slice[|slice| - 1 := last] == slice;
    FlowLast(slice, Add(last, Put(KWant, Item(NoBitmask, id))), KWant);
  }

  /** If the last RPC of the slice carries ids in a later IWANT entry, some call reorders:
      a new id is appended to the first entry, in front of them. */
  lemma LaterIWantReorders(size: Rpc -> int, slice: seq<Rpc>) returns (limit: int, id: Blob)
    requires slice != [] && !OneIWant(slice[|slice| - 1])
    ensures !WantOrderKept(size, limit, slice, [AskFor(id)])
  {
    var last := slice[|slice| - 1];
    var ws := Ctl(last).iwant;
    var i :| 0 < i < |ws| && ws[i] != [];
    assert ws[1..][i - 1] == ws[i];
    FlatWantsNonEmpty(ws[1..], i - 1);
    var tail := FlatWants(ws[1..]);
    id := Blob(tail[0].payload.bytes + [0]);
    limit := size(Add(last, Put(KWant, Item(NoBitmask, id))));
    AskIsPacked(size, slice, id);
    GrownFlow(slice, id);
    AskForThings(id);
    WantsAhead(ws, id);
    Reordered(Flow(slice[..|slice| - 1], KWant), Plain(ws[0]), Item(NoBitmask, id), tail);
  }

  /** IWANT ids keep their order for every limit and every list of elements exactly when the
      last RPC of the slice carries no ids beyond its first IWANT entry. */
  lemma WantOrderIff(size: Rpc -> int, slice: seq<Rpc>)
    requires slice != []
    ensures OneIWant(slice[|slice| - 1])
       <==> forall limit, elems :: WantOrderKept(size, limit, slice, elems)
  {
    if OneIWant(slice[|slice| - 1]) {
      forall limit, elems ensures WantOrderKept(size, limit, slice, elems) {
        PackingConserves(size, limit, slice, elems, KWant);
      }
    } else {
      var limit, id := LaterIWantReorders(size, slice);
      assert !WantOrderKept(size, limit, slice, [AskFor(id)]);
    }
  }

  // Even then no IWANT id is lost or duplicated.

  lemma {:induction false} WantCount(ws: seq<seq<Blob>>, id: Blob)
    ensures multiset(FlatWants(AddWant(ws, id))) == multiset(FlatWants(ws)) + multiset{Item(NoBitmask, id)}
  {
    if |ws| <= 1 {
      WantAdds(ws, id);
    } else {
      var init, last := ws[..|ws| - 1], ws[|ws| - 1];
      WantCount(init, id);
      assert AddWant(ws, id)[..|ws| - 1] == AddWant(init, id);
    }
  }

  lemma AddCount(r: Rpc, t: Thing, k: Kind)
    requires Unfiled(t)
    ensures multiset(Items(Add(r, t), k)) == multiset(Items(r, k)) + multiset(ThingItems(t, k))
  {
    if k != KWant || OneIWant(r) {
      AddItems(r, t, k);
    } else if !t.Put? {
      OpeningAddsNothing(r, t, k);
    } else if t.kind == KWant {
      WantCount(Ctl(r).iwant, t.item.payload);
    } else {
      OtherKinds(r, t.kind, t.item, k);
    }
  }

  lemma LastCount(out: seq<Rpc>, r: Rpc, more: seq<Item>, k: Kind)
    requires out != [] && multiset(Items(r, k)) == multiset(Items(out[|out| - 1], k)) + multiset(more)
    ensures multiset(Flow(out[|out| - 1 := r], k)) == multiset(Flow(out, k)) + multiset(more)
  {
    var last := out[|out| - 1];
    assert out[|out| - 1 := last] == out;
    FlowLast(out, last, k);
    FlowLast(out, r, k);
  }

  lemma PlaceCount(size: Rpc -> int, limit: int, from: int, out: seq<Rpc>, t: Thing, k: Kind)
    requires out != [] && Unfiled(t)
    ensures multiset(Flow(Place(size, limit, from, out, t), k)) == multiset(Flow(out, k)) + multiset(ThingItems(t, k))
  {
    var last := out[|out| - 1];
    if Present(last, t) {
      assert ThingItems(t, k) == [];
    } else if size(Add(last, t)) > limit {
      FlowSnoc(out, Add(EmptyRpc(from), t), k);
      FreshItems(from, t, k);
    } else {
      AddCount(last, t, k);
      LastCount(out, Add(last, t), ThingItems(t, k), k);
    }
  }

  lemma {:induction false} PlaceAllCount(
    size: Rpc -> int, limit: int, from: int, out: seq<Rpc>, ts: seq<Thing>, k: Kind)
    requires out != [] && (forall t :: t in ts ==> Unfiled(t))
    ensures multiset(Flow(PlaceAll(size, limit, from, out, ts), k))
         == multiset(Flow(out, k)) + multiset(ThingFlow(ts, k))
    decreases ts
  {
    if ts != [] {
      var init := ts[..|ts| - 1];
      PlaceAllCount(size, limit, from, out, init, k);
      PlaceCount(size, limit, from, PlaceAll(size, limit, from, out, init), ts[|ts| - 1], k);
    }
  }

  lemma {:induction false} PackAllCount(size: Rpc -> int, limit: int, out: seq<Rpc>, elems: seq<Rpc>, k: Kind)
    requires out != []
    ensures multiset(Flow(PackAll(size, limit, out, elems), k)) == multiset(Flow(out, k)) + multiset(Flow(elems, k))
    decreases elems
  {
    if elems != [] {
      var init, e := elems[..|elems| - 1], elems[|elems| - 1];
      PackAllCount(size, limit, out, init, k);
      ThingsUnfiled(e);
      ThingsFlow(e, k);
      PlaceAllCount(size, limit, e.from, PackAll(size, limit, out, init), Things(e), k);
    }
  }

  /** For every slice and every kind the items of the output are, up to order, those of the
      slice and of the elements. */
  lemma NothingLostOrDuplicated(size: Rpc -> int, limit: int, slice: seq<Rpc>, elems: seq<Rpc>, k: Kind)
    ensures multiset(Flow(Packed(size, limit, slice, elems), k)) == multiset(Flow(slice, k)) + multiset(Flow(elems, k))
  {
    if slice == [] {
      PackingConserves(size, limit, slice, elems, k);
      assert Flow([], k) == [];
    } else if elems != [] {
      PackAllCount(size, limit, slice, elems, k);
    }
  }

  // IDONTWANT ids have no loop of their own.

  function DontWants(rs: seq<Rpc>): seq<Blob> {
    if rs == [] then [] else DontWants(rs[..|rs| - 1]) + Ctl(rs[|rs| - 1]).idontwant
  }

  lemma PlaceIgnoresDontWants(size: Rpc -> int, limit: int, from: int, out: seq<Rpc>, t: Thing)
    requires out != []
    ensures DontWants(Place(size, limit, from, out, t)) == DontWants(out)
  {
    var init, last := out[..|out| - 1], out[|out| - 1];
    assert out == init + [last];
    PlaceIsBlock(size, limit, from, init, last, t);
    DontWantsSnoc(init, last);
    DontWantsSnoc(init, With(last, t));
    DontWantsSnoc(out, Add(EmptyRpc(from), t));
    AddKeepsDontWants(last, t);
    AddKeepsDontWants(EmptyRpc(from), t);
  }

  lemma AddKeepsDontWants(r: Rpc, t: Thing)
    ensures Ctl(Add(r, t)).idontwant == Ctl(r).idontwant
  {
  }

  lemma DontWantsSnoc(rs: seq<Rpc>, r: Rpc)
    ensures DontWants(rs + [r]) == DontWants(rs) + Ctl(r).idontwant
  {
    assert (rs + [r])[..|rs|] == rs;
  }

  lemma {:induction false} PlaceAllIgnoresDontWants(
    size: Rpc -> int, limit: int, from: int, out: seq<Rpc>, ts: seq<Thing>)
    requires out != []
    ensures DontWants(PlaceAll(size, limit, from, out, ts)) == DontWants(out)
    decreases ts
  {
    if ts != [] {
      PlaceAllIgnoresDontWants(size, limit, from, out, ts[..|ts| - 1]);
      PlaceIgnoresDontWants(size, limit, from, PlaceAll(size, limit, from, out, ts[..|ts| - 1]), ts[|ts| - 1]);
    }
  }

  lemma {:induction false} PackAllIgnoresDontWants(size: Rpc -> int, limit: int, out: seq<Rpc>, elems: seq<Rpc>)
    requires out != []
    ensures DontWants(PackAll(size, limit, out, elems)) == DontWants(out)
    decreases elems
  {
    if elems != [] {
      var init, e := elems[..|elems| - 1], elems[|elems| - 1];
      PackAllIgnoresDontWants(size, limit, out, init);
      PlaceAllIgnoresDontWants(size, limit, e.from, PackAll(size, limit, out, init), Things(e));
    }
  }

  /** The IDONTWANT ids of the elements survive exactly when there are none or when the single
      element is passed through unchanged. */
  lemma DontWantsSurviveIff(size: Rpc -> int, limit: int, slice: seq<Rpc>, elems: seq<Rpc>)
    ensures DontWants(Packed(size, limit, slice, elems)) == DontWants(slice) + DontWants(elems)
       <==> DontWants(elems) == [] || FastPath(size, limit, slice, elems)
  {
    if elems != [] && !FastPath(size, limit, slice, elems) {
      PackedDropsDontWants(size, limit, slice, elems);
      assert |DontWants(slice) + DontWants(elems)| == |DontWants(slice)| + |DontWants(elems)|;
    }
  }

  lemma PackedDropsDontWants(size: Rpc -> int, limit: int, slice: seq<Rpc>, elems: seq<Rpc>)
    requires elems != [] && !FastPath(size, limit, slice, elems)
    ensures DontWants(Packed(size, limit, slice, elems)) == DontWants(slice)
  {
    var out := if slice == [] then [EmptyRpc(elems[0].from)] else slice;
    PackAllIgnoresDontWants(size, limit, out, elems);
    if slice == [] { assert out[..0] == []; }
  }

  function Refuse(id: Blob): Rpc { Rpc(0, [], [], Some(EmptyControl.(idontwant := [id]))) }

  /** Two elements that carry only IDONTWANT ids lose them, whatever the limit. */
  lemma DontWantsAreLost(size: Rpc -> int, limit: int, a: Blob, b: Blob)
    ensures DontWants([Refuse(a), Refuse(b)]) == [a, b]
    ensures DontWants(Packed(size, limit, [], [Refuse(a), Refuse(b)])) == []
  {
    DontWantsOfTwo(Refuse(a), Refuse(b));
    PackedDropsDontWants(size, limit, [], [Refuse(a), Refuse(b)]);
  }

  lemma DontWantsOfTwo(r: Rpc, s: Rpc)
    ensures DontWants([r, s]) == Ctl(r).idontwant + Ctl(s).idontwant
  {
    DontWantsSnoc([], r);
    DontWantsSnoc([r], s);
    assert [] + [r] == [r] && [r] + [s] == [r, s];
  }

  // ---------------------------------------------------------------------------------
  // The size limit
  // ---------------------------------------------------------------------------------

  /** The number of indivisible items in an RPC. */
  function ItemCount(r: Rpc): nat {
    |Items(r, KPublish)| + |Items(r, KSub)| + |Items(r, KGraft)| + |Items(r, KPrune)|
    + |Items(r, KWant)| + |Items(r, KHave)|
  }

  predicate Fits(size: Rpc -> int, limit: int, r: Rpc) { size(r) <= limit || ItemCount(r) <= 1 }

  /** Each RPC is one of the original slice, untouched, or fits. */
  predicate AllFit(size: Rpc -> int, limit: int, slice: seq<Rpc>, out: seq<Rpc>) {
    forall i :: 0 <= i < |out| ==> (i < |slice| && out[i] == slice[i]) || Fits(size, limit, out[i])
  }

  lemma FreshFits(size: Rpc -> int, limit: int, from: int, t: Thing)
    requires Unfiled(t)
    ensures Fits(size, limit, Add(EmptyRpc(from), t))
  {
    FreshItems(from, t, KPublish);
    FreshItems(from, t, KSub);
    FreshItems(from, t, KGraft);
    FreshItems(from, t, KPrune);
    FreshItems(from, t, KWant);
    FreshItems(from, t, KHave);
  }

  lemma {:induction false} PlaceAllFits(
    size: Rpc -> int, limit: int, from: int, slice: seq<Rpc>, out: seq<Rpc>, ts: seq<Thing>)
    requires out != [] && AllFit(size, limit, slice, out) && (forall t :: t in ts ==> Unfiled(t))
    ensures AllFit(size, limit, slice, PlaceAll(size, limit, from, out, ts))
    decreases ts
  {
    if ts != [] {
      PlaceAllFits(size, limit, from, slice, out, ts[..|ts| - 1]);
      FreshFits(size, limit, from, ts[|ts| - 1]);
    }
  }

  lemma {:induction false} PackAllFits(size: Rpc -> int, limit: int, slice: seq<Rpc>, out: seq<Rpc>, elems: seq<Rpc>)
    requires out != [] && AllFit(size, limit, slice, out)
    ensures AllFit(size, limit, slice, PackAll(size, limit, out, elems))
    decreases elems
  {
    if elems != [] {
      var init, e := elems[..|elems| - 1], elems[|elems| - 1];
      PackAllFits(size, limit, slice, out, init);
      ThingsUnfiled(e);
      PlaceAllFits(size, limit, e.from, slice, PackAll(size, limit, out, init), Things(e));
    }
  }

  /** Whatever the size function is: every output RPC that was not simply passed through from
      the slice is within the limit or carries at most one indivisible item. */
  lemma PackedFits(size: Rpc -> int, limit: int, slice: seq<Rpc>, elems: seq<Rpc>)
    ensures AllFit(size, limit, slice, Packed(size, limit, slice, elems))
  {
    if elems != [] && !FastPath(size, limit, slice, elems) {
      var empty := EmptyRpc(elems[0].from);
      assert ItemCount(empty) == 0;
      PackAllFits(size, limit, slice, if slice == [] then [empty] else slice, elems);
    }
  }

  // ---------------------------------------------------------------------------------
  // The packing is the greedy one
  // ---------------------------------------------------------------------------------

  /** Things one after the other, each with the sender of the element it comes from. */
  datatype Line = Nothing | More(before: Line, from: int, thing: Thing)

  function Lined(line: Line, from: int, ts: seq<Thing>): Line {
    if ts == [] then line else More(Lined(line, from, ts[..|ts| - 1]), from, ts[|ts| - 1])
  }

  /** The things of all elements, in input order. */
  function AllThings(elems: seq<Rpc>): Line {
    if elems == [] then Nothing
    else Lined(AllThings(elems[..|elems| - 1]), elems[|elems| - 1].from, Things(elems[|elems| - 1]))
  }

  /** r can take the thing, or needs not to. */
  predicate HasRoom(size: Rpc -> int, limit: int, r: Rpc, t: Thing) { Present(r, t) || size(Add(r, t)) <= limit }

  function With(r: Rpc, t: Thing): Rpc { if Present(r, t) then r else Add(r, t) }

  /** r with the things after `mark` put into it. */
  function Filled(r: Rpc, mark: Line, line: Line): Rpc {
    if line == mark || line.Nothing? then r else With(Filled(r, mark, line.before), line.thing)
  }

  /** The line goes on from `mark`, and r has room for the things after it, one by one. */
  predicate Holds(size: Rpc -> int, limit: int, r: Rpc, mark: Line, line: Line) {
    line == mark ||
      (line.More? && Holds(size, limit, r, mark, line.before) &&
       HasRoom(size, limit, Filled(r, mark, line.before), line.thing))
  }

  function Opening(mark: Line): Rpc
    requires mark.More?
  {
    Add(EmptyRpc(mark.from), mark.thing)
  }

  /** `next` was opened for the last thing of `mark`, which `prev` had no room for, and holds the rest. */
  predicate Cut(size: Rpc -> int, limit: int, mark: Line, line: Line, prev: Rpc, next: Rpc) {
    && mark.More? && !HasRoom(size, limit, prev, mark.thing)
    && Holds(size, limit, Opening(mark), mark, line) && next == Filled(Opening(mark), mark, line)
  }

  predicate FirstBlock(size: Rpc -> int, limit: int, first: Rpc, line: Line, last: Rpc) {
    Holds(size, limit, first, Nothing, line) && last == Filled(first, Nothing, line)
  }

  /** One or more RPCs. */
  datatype Run = Only(last: Rpc) | Next(before: Run, last: Rpc)

  function Listed(pre: seq<Rpc>, rs: Run): seq<Rpc> {
    (if rs.Only? then pre else Listed(pre, rs.before)) + [rs.last]
  }

  /** The line is cut into blocks. The first fills up `first`; each further block begins with the thing that the
      RPC before it has no room for, and fills a new one. */
  ghost predicate Greedy(size: Rpc -> int, limit: int, first: Rpc, line: Line, rs: Run)
    decreases rs
  {
    match rs
    case Only(r) => FirstBlock(size, limit, first, line, r)
    case Next(before, r) =>
      exists mark :: Cut(size, limit, mark, line, before.last, r) && Greedy(size, limit, first, mark.before, before)
  }

  lemma {:induction false} MarkIsBehind(size: Rpc -> int, limit: int, r: Rpc, mark: Line, line: Line)
    requires Holds(size, limit, r, mark, line)
    ensures Length(mark) <= Length(line)
  {
    if line != mark { MarkIsBehind(size, limit, r, mark, line.before); }
  }

  function Length(line: Line): nat { if line.Nothing? then 0 else Length(line.before) + 1 }

  lemma CutGrows(
    size: Rpc -> int, limit: int, mark: Line, line: Line, prev: Rpc, next: Rpc, from: int, t: Thing)
    requires Cut(size, limit, mark, line, prev, next) && HasRoom(size, limit, next, t)
    ensures Cut(size, limit, mark, More(line, from, t), prev, With(next, t))
  {
    MarkIsBehind(size, limit, Opening(mark), mark, line);
    assert mark != More(line, from, t);
  }

  /** The last RPC takes the thing, or a new one is opened for it. */
  function Grown(size: Rpc -> int, limit: int, rs: Run, from: int, t: Thing): Run {
    if HasRoom(size, limit, rs.last, t) then rs.(last := With(rs.last, t)) else Next(rs, Add(EmptyRpc(from), t))
  }

  function GrownAll(size: Rpc -> int, limit: int, first: Rpc, line: Line): Run {
    if line.Nothing? then Only(first)
    else Grown(size, limit, GrownAll(size, limit, first, line.before), line.from, line.thing)
  }

  /** Room in the last RPC makes the last block longer, and no room opens a block. */
  lemma GreedyGrows(size: Rpc -> int, limit: int, first: Rpc, line: Line, rs: Run, from: int, t: Thing)
    requires Greedy(size, limit, first, line, rs)
    ensures Greedy(size, limit, first, More(line, from, t), Grown(size, limit, rs, from, t))
  {
    var more := More(line, from, t);
    if !HasRoom(size, limit, rs.last, t) {
      assert Cut(size, limit, more, more, rs.last, Opening(more));
    } else if rs.Next? {
      var mark :| Cut(size, limit, mark, line, rs.before.last, rs.last) &&
                  Greedy(size, limit, first, mark.before, rs.before);
      CutGrows(size, limit, mark, line, rs.before.last, rs.last, from, t);
    }
  }

  lemma {:induction false} GrownIsGreedy(size: Rpc -> int, limit: int, first: Rpc, line: Line)
    ensures Greedy(size, limit, first, line, GrownAll(size, limit, first, line))
  {
    if line.More? {
      GrownIsGreedy(size, limit, first, line.before);
      GreedyGrows(size, limit, first, line.before, GrownAll(size, limit, first, line.before), line.from, line.thing);
    }
  }

  lemma CutShrinks(
    size: Rpc -> int, limit: int, mark: Line, line: Line, from: int, t: Thing, prev: Rpc, next: Rpc)
    requires Cut(size, limit, mark, More(line, from, t), prev, next) && mark != More(line, from, t)
    ensures var r := Filled(Opening(mark), mark, line);
      Cut(size, limit, mark, line, prev, r) && HasRoom(size, limit, r, t) && next == With(r, t)
  {
  }

  lemma FirstShrinks(size: Rpc -> int, limit: int, first: Rpc, line: Line, from: int, t: Thing, last: Rpc)
    requires FirstBlock(size, limit, first, More(line, from, t), last)
    ensures var r := Filled(first, Nothing, line);
      FirstBlock(size, limit, first, line, r) && HasRoom(size, limit, r, t) && last == With(r, t)
  {
  }

  /** Without its last thing the line is cut the same way, up to where that thing was put. */
  lemma GreedyShrinks(size: Rpc -> int, limit: int, first: Rpc, line: Line, from: int, t: Thing, rs: Run)
    returns (was: Run)
    requires Greedy(size, limit, first, More(line, from, t), rs)
    ensures Greedy(size, limit, first, line, was) && rs == Grown(size, limit, was, from, t)
  {
    match rs
    case Only(r) =>
      FirstShrinks(size, limit, first, line, from, t, r);
      was := Only(Filled(first, Nothing, line));
    case Next(before, r) =>
      var mark :| Cut(size, limit, mark, More(line, from, t), before.last, r) &&
                  Greedy(size, limit, first, mark.before, before);
      if mark == More(line, from, t) {
        was := before;
      } else {
        CutShrinks(size, limit, mark, line, from, t, before.last, r);
        was := Next(before, Filled(Opening(mark), mark, line));
      }
  }

  /** There is only one way to cut. */
  lemma {:induction false} GreedyIsGrown(size: Rpc -> int, limit: int, first: Rpc, line: Line, rs: Run)
    requires Greedy(size, limit, first, line, rs)
    ensures rs == GrownAll(size, limit, first, line)
    decreases line
  {
    if line.More? {
      var was := GreedyShrinks(size, limit, first, line.before, line.from, line.thing, rs);
      GreedyIsGrown(size, limit, first, line.before, was);
    }
  }

  /** One step of the packer, by whether there is room. */
  lemma PlaceIsBlock(size: Rpc -> int, limit: int, from: int, done: seq<Rpc>, last: Rpc, t: Thing)
    ensures HasRoom(size, limit, last, t) ==>
              Place(size, limit, from, done + [last], t) == done + [With(last, t)]
    ensures !HasRoom(size, limit, last, t) ==>
              Place(size, limit, from, done + [last], t) == (done + [last]) + [Add(EmptyRpc(from), t)]
  {
    var out := done + [last];
    assert out[|done| := With(last, t)] == done + [With(last, t)];
  }

  lemma GrownIsPlace(size: Rpc -> int, limit: int, pre: seq<Rpc>, rs: Run, from: int, t: Thing)
    ensures Listed(pre, Grown(size, limit, rs, from, t)) == Place(size, limit, from, Listed(pre, rs), t)
  {
    PlaceIsBlock(size, limit, from, if rs.Only? then pre else Listed(pre, rs.before), rs.last, t);
  }

  function PlaceLine(size: Rpc -> int, limit: int, out: seq<Rpc>, line: Line): (out': seq<Rpc>)
    requires out != []
    ensures out' != []
  {
    if line.Nothing? then out
    else Place(size, limit, line.from, PlaceLine(size, limit, out, line.before), line.thing)
  }

  lemma {:induction false} GrownIsPlaceLine(size: Rpc -> int, limit: int, pre: seq<Rpc>, first: Rpc, line: Line)
    ensures Listed(pre, GrownAll(size, limit, first, line)) == PlaceLine(size, limit, pre + [first], line)
  {
    if line.More? {
      GrownIsPlaceLine(size, limit, pre, first, line.before);
      GrownIsPlace(size, limit, pre, GrownAll(size, limit, first, line.before), line.from, line.thing);
    }
  }

  lemma {:induction false} PlaceLined(
    size: Rpc -> int, limit: int, out: seq<Rpc>, line: Line, from: int, ts: seq<Thing>)
    requires out != []
    ensures PlaceLine(size, limit, out, Lined(line, from, ts))
         == PlaceAll(size, limit, from, PlaceLine(size, limit, out, line), ts)
    decreases ts
  {
    if ts != [] { PlaceLined(size, limit, out, line, from, ts[..|ts| - 1]); }
  }

  lemma {:induction false} PackAllIsLine(size: Rpc -> int, limit: int, out: seq<Rpc>, elems: seq<Rpc>)
    requires out != []
    ensures PackAll(size, limit, out, elems) == PlaceLine(size, limit, out, AllThings(elems))
    decreases elems
  {
    if elems != [] {
      var init, e := elems[..|elems| - 1], elems[|elems| - 1];
      PackAllIsLine(size, limit, out, init);
      PlaceLined(size, limit, out, AllThings(init), e.from, Things(e));
    }
  }

  /** out is `pre` followed by `first`, filled up, and by further RPCs as the line is cut. */
  ghost predicate GreedyCut(size: Rpc -> int, limit: int, pre: seq<Rpc>, first: Rpc, line: Line, out: seq<Rpc>) {
    exists rs :: Greedy(size, limit, first, line, rs) && out == Listed(pre, rs)
  }

  lemma GreedyCutIff(size: Rpc -> int, limit: int, pre: seq<Rpc>, first: Rpc, line: Line, out: seq<Rpc>)
    ensures GreedyCut(size, limit, pre, first, line, out) <==> out == PlaceLine(size, limit, pre + [first], line)
  {
    GrownIsGreedy(size, limit, first, line);
    GrownIsPlaceLine(size, limit, pre, first, line);
    if GreedyCut(size, limit, pre, first, line, out) {
      var rs :| Greedy(size, limit, first, line, rs) && out == Listed(pre, rs);
      GreedyIsGrown(size, limit, first, line, rs);
    }
  }

  /** The RPC that is filled up first. */
  function FirstRpc(slice: seq<Rpc>, elems: seq<Rpc>): Rpc
    requires elems != []
  {
    if slice == [] then EmptyRpc(elems[0].from) else slice[|slice| - 1]
  }

  function Untouched(slice: seq<Rpc>): seq<Rpc> { if slice == [] then [] else slice[..|slice| - 1] }

  /** Unless the only element is passed through, the output is the greedy cut of the things of the elements, in
      input order, after the slice; and nothing else is. */
  lemma PackedIsGreedy(size: Rpc -> int, limit: int, slice: seq<Rpc>, elems: seq<Rpc>, out: seq<Rpc>)
    requires elems != [] && !FastPath(size, limit, slice, elems)
    ensures out == Packed(size, limit, slice, elems)
       <==> GreedyCut(size, limit, Untouched(slice), FirstRpc(slice, elems), AllThings(elems), out)
  {
    var start := if slice == [] then [EmptyRpc(elems[0].from)] else slice;
    assert start == Untouched(slice) + [FirstRpc(slice, elems)];
    PackAllIsLine(size, limit, start, elems);
    GreedyCutIff(size, limit, Untouched(slice), FirstRpc(slice, elems), AllThings(elems), out);
  }

  // ---------------------------------------------------------------------------------
  // The packer itself: append, check, take back
  // ---------------------------------------------------------------------------------

  lemma PlaceAllSnoc(size: Rpc -> int, limit: int, from: int, out: seq<Rpc>, ts: seq<Thing>, t: Thing)
    requires out != []
    ensures PlaceAll(size, limit, from, out, ts + [t])
         == Place(size, limit, from, PlaceAll(size, limit, from, out, ts), t)
  {
    assert (ts + [t])[..|ts|] == ts;
  }

  lemma PlaceAllOne(size: Rpc -> int, limit: int, from: int, out: seq<Rpc>, t: Thing)
    requires out != []
    ensures PlaceAll(size, limit, from, out, [t]) == Place(size, limit, from, out, t)
  {
    assert [t][..0] == [] && PlaceAll(size, limit, from, out, []) == out;
  }

  lemma PlaceControlThings(size: Rpc -> int, limit: int, from: int, out: seq<Rpc>, c: Control)
    requires out != []
    ensures var o1 := Place(size, limit, from, out, OpenControl);
            var o2 := PlaceAll(size, limit, from, o1, Puts(KGraft, NoBitmask, c.graft));
            var o3 := PlaceAll(size, limit, from, o2, Puts(KPrune, NoBitmask, c.prune));
            var o4 := PlaceAll(size, limit, from, o3, IWants(c.iwant));
            PlaceAll(size, limit, from, out, ControlThings(c)) == PlaceAll(size, limit, from, o4, IHaves(c.ihave))
  {
    var g, p := Puts(KGraft, NoBitmask, c.graft), Puts(KPrune, NoBitmask, c.prune);
    var w, h := IWants(c.iwant), IHaves(c.ihave);
    PlaceAllOne(size, limit, from, out, OpenControl);
    PlaceAllAppend(size, limit, from, out, [OpenControl], g);
    PlaceAllAppend(size, limit, from, out, [OpenControl] + g, p);
    PlaceAllAppend(size, limit, from, out, [OpenControl] + g + p, w);
    PlaceAllAppend(size, limit, from, out, [OpenControl] + g + p + w, h);
  }

  lemma AppendSnoc(a: seq<Thing>, b: seq<Thing>)
    requires b != []
    ensures a + b == (a + b[..|b| - 1]) + [b[|b| - 1]]
  {
  }

  lemma {:induction false} PlaceAllAppend(
    size: Rpc -> int, limit: int, from: int, out: seq<Rpc>, a: seq<Thing>, b: seq<Thing>)
    requires out != []
    ensures PlaceAll(size, limit, from, out, a + b)
         == PlaceAll(size, limit, from, PlaceAll(size, limit, from, out, a), b)
    decreases b
  {
    if b == [] {
      assert a + b == a;
    } else {
      var init, t := b[..|b| - 1], b[|b| - 1];
      var mid := PlaceAll(size, limit, from, out, a);
      calc {
        PlaceAll(size, limit, from, out, a + b);
        { AppendSnoc(a, b); PlaceAllSnoc(size, limit, from, out, a + init, t); }
        Place(size, limit, from, PlaceAll(size, limit, from, out, a + init), t);
        { PlaceAllAppend(size, limit, from, out, a, init); }
        Place(size, limit, from, PlaceAll(size, limit, from, mid, init), t);
        PlaceAll(size, limit, from, mid, b);
      }
    }
  }

  /** The containers an item needs are there: a control message, an IWANT entry, or a last
      IHAVE entry of the right bitmask. */
  predicate Ready(r: Rpc, kind: Kind, b: Blob) {
    && (kind != KPublish && kind != KSub ==> r.control.Some?)
    && (kind == KWant ==> Ctl(r).iwant != [])
    && (kind == KHave ==> EndsWithIHave(Ctl(r), b))
  }

  lemma PutsStep(size: Rpc -> int, limit: int, from: int, out: seq<Rpc>, kind: Kind, b: Blob, xs: seq<Blob>, i: nat)
    requires out != [] && i < |xs|
    ensures PlaceAll(size, limit, from, out, Puts(kind, b, xs[..i + 1]))
         == Place(size, limit, from, PlaceAll(size, limit, from, out, Puts(kind, b, xs[..i])),
                  Put(kind, Item(b, xs[i])))
  {
    PutsSnoc(kind, b, xs[..i + 1]);
    assert xs[..i + 1][..i] == xs[..i];
    PlaceAllSnoc(size, limit, from, out, Puts(kind, b, xs[..i]), Put(kind, Item(b, xs[i])));
  }

  /** Appends a thing to the last RPC and takes it back into a new RPC if the limit is exceeded. */
  method AppendOrOpen(size: Rpc -> int, limit: int, from: int, rpcs: seq<Rpc>, t: Thing) returns (out: seq<Rpc>)
    requires rpcs != []
    ensures out == Place(size, limit, from, rpcs, t)
  {
    out := rpcs;
    if !Present(out[|out| - 1], t) {
      var lastRpc := Add(out[|out| - 1], t);
      if size(lastRpc) > limit {
        out := out + [Add(EmptyRpc(from), t)];
      } else {
        out := out[|out| - 1 := lastRpc];
      }
    }
  }

  /** After a step the last RPC holds the thing, or the container it asked for. */
  lemma PlacedIsReady(size: Rpc -> int, limit: int, from: int, out: seq<Rpc>, t: Thing)
    requires out != []
    ensures var last := Place(size, limit, from, out, t)[|Place(size, limit, from, out, t)| - 1];
            && (t.Put? ==> Ready(last, t.kind, t.item.bitmask))
            && (!t.Put? ==> Present(last, t) && last.control.Some?)
  {
  }

  /** The loop over the items of one list. Every item goes into a container that exists. */
  method PackItems(size: Rpc -> int, limit: int, from: int, rpcs: seq<Rpc>, kind: Kind, b: Blob, xs: seq<Blob>)
    returns (out: seq<Rpc>)
    requires rpcs != [] && Ready(rpcs[|rpcs| - 1], kind, b)
    ensures out != [] && Ready(out[|out| - 1], kind, b)
    ensures out == PlaceAll(size, limit, from, rpcs, Puts(kind, b, xs))
  {
    out := rpcs;
    for i := 0 to |xs|
      invariant out != [] && Ready(out[|out| - 1], kind, b)
      invariant out == PlaceAll(size, limit, from, rpcs, Puts(kind, b, xs[..i]))
    {
      PutsStep(size, limit, from, rpcs, kind, b, xs, i);
      PlacedIsReady(size, limit, from, out, Put(kind, Item(b, xs[i])));
      out := AppendOrOpen(size, limit, from, out, Put(kind, Item(b, xs[i])));
    }
    assert xs[..|xs|] == xs;
  }

  method PackIWants(size: Rpc -> int, limit: int, from: int, rpcs: seq<Rpc>, ws: seq<seq<Blob>>) returns (out: seq<Rpc>)
    requires rpcs != [] && rpcs[|rpcs| - 1].control.Some?
    ensures out != [] && out[|out| - 1].control.Some?
    ensures out == PlaceAll(size, limit, from, rpcs, IWants(ws))
  {
    out := rpcs;
    for i := 0 to |ws|
      invariant out != [] && out[|out| - 1].control.Some?
      invariant out == PlaceAll(size, limit, from, rpcs, IWants(ws[..i]))
    {
      var done := IWants(ws[..i]);
      assert ws[..i + 1][..i] == ws[..i];
      PlaceAllAppend(size, limit, from, rpcs, done, [OpenIWant] + Puts(KWant, NoBitmask, ws[i]));
      PlaceAllAppend(size, limit, from, out, [OpenIWant], Puts(KWant, NoBitmask, ws[i]));
      PlaceAllOne(size, limit, from, out, OpenIWant);
      PlacedIsReady(size, limit, from, out, OpenIWant);
      out := AppendOrOpen(size, limit, from, out, OpenIWant);
      out := PackItems(size, limit, from, out, KWant, NoBitmask, ws[i]);
    }
    assert ws[..|ws|] == ws;
  }

  method PackIHaves(size: Rpc -> int, limit: int, from: int, rpcs: seq<Rpc>, hs: seq<IHave>) returns (out: seq<Rpc>)
    requires rpcs != [] && rpcs[|rpcs| - 1].control.Some?
    ensures out != [] && out[|out| - 1].control.Some?
    ensures out == PlaceAll(size, limit, from, rpcs, IHaves(hs))
  {
    out := rpcs;
    for i := 0 to |hs|
      invariant out != [] && out[|out| - 1].control.Some?
      invariant out == PlaceAll(size, limit, from, rpcs, IHaves(hs[..i]))
    {
      var done, h := IHaves(hs[..i]), hs[i];
      assert hs[..i + 1][..i] == hs[..i];
      PlaceAllAppend(size, limit, from, rpcs, done, [OpenIHave(h.bitmask)] + Puts(KHave, h.bitmask, h.ids));
      PlaceAllAppend(size, limit, from, out, [OpenIHave(h.bitmask)], Puts(KHave, h.bitmask, h.ids));
      PlaceAllOne(size, limit, from, out, OpenIHave(h.bitmask));
      PlacedIsReady(size, limit, from, out, OpenIHave(h.bitmask));
      out := AppendOrOpen(size, limit, from, out, OpenIHave(h.bitmask));
      out := PackItems(size, limit, from, out, KHave, h.bitmask, h.ids);
    }
    assert hs[..|hs|] == hs;
  }

  method PackControl(size: Rpc -> int, limit: int, from: int, rpcs: seq<Rpc>, c: Control) returns (out: seq<Rpc>)
    requires rpcs != []
    ensures out != [] && out == PlaceAll(size, limit, from, rpcs, ControlThings(c))
  {
    PlaceControlThings(size, limit, from, rpcs, c);
    PlacedIsReady(size, limit, from, rpcs, OpenControl);
    out := AppendOrOpen(size, limit, from, rpcs, OpenControl);
    out := PackItems(size, limit, from, out, KGraft, NoBitmask, c.graft);
    out := PackItems(size, limit, from, out, KPrune, NoBitmask, c.prune);
    out := PackIWants(size, limit, from, out, c.iwant);
    out := PackIHaves(size, limit, from, out, c.ihave);
  }

  method PackElement(size: Rpc -> int, limit: int, rpcs: seq<Rpc>, e: Rpc) returns (out: seq<Rpc>)
    requires rpcs != []
    ensures out != [] && out == PlaceAll(size, limit, e.from, rpcs, Things(e))
  {
    var p, u := Puts(KPublish, NoBitmask, e.publish), Puts(KSub, NoBitmask, e.subs);
    out := PackItems(size, limit, e.from, rpcs, KPublish, NoBitmask, e.publish);
    PlaceAllAppend(size, limit, e.from, rpcs, p, u);
    out := PackItems(size, limit, e.from, out, KSub, NoBitmask, e.subs);
    if e.control.Some? {
      PlaceAllAppend(size, limit, e.from, rpcs, p + u, ControlThings(e.control.value));
      out := PackControl(size, limit, e.from, out, e.control.value);
    } else {
      assert p + u + [] == p + u;
    }
  }

  method AppendOrMergeRpc(size: Rpc -> int, limit: int, slice: seq<Rpc>, elems: seq<Rpc>) returns (out: seq<Rpc>)
    ensures out == Packed(size, limit, slice, elems)
  {
    if |elems| == 0 { return slice; }
    if |slice| == 0 && |elems| == 1 && size(elems[0]) < limit { return [elems[0]]; }
    out := slice;
    if |out| == 0 { out := [EmptyRpc(elems[0].from)]; }
    ghost var start := out;
    for i := 0 to |elems|
      invariant out != [] && out == PackAll(size, limit, start, elems[..i])
    {
      assert elems[..i + 1][..i] == elems[..i];
      out := PackElement(size, limit, out, elems[i]);
    }
    assert elems[..|elems|] == elems;
  }
}
