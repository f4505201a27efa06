/** The house item codec (iomapserialize.cpp): saveItem, loadItem and loadContainer. */
module HouseCodec {
  import opened Common
  import opened Streams
  import opened AttributeStore
  import opened ItemCodec

  // ---------------------------------------------------------------- trees of items

  /** An item with its children, and the order in which its hash map of custom attributes yields its keys. */
  datatype Tree = Tree(id: nat, body: Body, order: seq<Text>, children: seq<Tree>)

  /** A loaded item. */
  datatype Loaded = Loaded(id: nat, body: Body, children: seq<Loaded>)

  /** The item types that exist; CreateItem makes nothing for any other id. */
  type Types = map<nat, ItemType>

  ghost predicate Sound(types: Types, t: Tree) {
    && t.id < 0x1_0000 && t.id in types
    && Enumerates(t.order, CustomIn(t.body.store))
    && (types[t.id].container || t.children == [])
    && |t.children| < 0x1_0000_0000
    && AllSound(types, t.children)
  }

  ghost predicate AllSound(types: Types, ts: seq<Tree>) {
    ts == [] || (Sound(types, ts[0]) && AllSound(types, ts[1..]))
  }

  lemma {:induction false} SoundAt(types: Types, ts: seq<Tree>, i: nat)
    requires AllSound(types, ts) && i <= |ts|
    ensures AllSound(types, ts[..i]) && (i < |ts| ==> Sound(types, ts[i]))
  {
    if i > 0 {
      assert ts[..i][1..] == ts[1..][..i - 1];
      SoundAt(types, ts[1..], i - 1);
    } else {
      assert ts[..i] == [];
    }
  }

  /** Somewhere in the tree an item has a custom attribute without a value. */
  ghost predicate HasBlank(t: Tree) {
    Blanks(CustomIn(t.body.store)) || AnyHasBlank(t.children)
  }

  ghost predicate AnyHasBlank(ts: seq<Tree>) {
    ts != [] && (HasBlank(ts[|ts| - 1]) || AnyHasBlank(ts[..|ts| - 1]))
  }

  // ---------------------------------------------------------------- saving

  ghost function Saving(types: Types, t: Tree, now: Int64): seq<Byte>
    requires Sound(types, t)
    decreases t
  {
    var it := types[t.id];
    ToBytes(t.id, SizeOf(UInt16)) + Serialized(it, t.body, now, t.order)
    + (if it.container then [ATTR_CONTAINER_ITEMS] + ToBytes(|t.children|, SizeOf(UInt32)) +
      SavingReversed(types, t.children, now) else [])
    + [0]
  }

  /** The children from the last to the first. */
  ghost function SavingReversed(types: Types, ts: seq<Tree>, now: Int64): seq<Byte>
    requires AllSound(types, ts)
    decreases ts
  {
    if ts == [] then []
    else
      SoundAt(types, ts, |ts| - 1);
      Saving(types, ts[|ts| - 1], now) + SavingReversed(types, ts[..|ts| - 1], now)
  }

  // ---------------------------------------------------------------- loading

  datatype Load<T> = Good(value: T, rest: seq<Byte>) | Bad

  /** loadItem, which skips an id that has no type without looking at what follows it. */
  function Loading(types: Types, w: World, bs: seq<Byte>): (r: Load<Option<Loaded>>)
    ensures r.Good? ==> |r.rest| < |bs|
    decreases |bs|, 0, 0
  {
    match ReadInt(UInt16, bs)
    case Short => Bad
    case Got(id, rest) =>
      if id !in types then Good(None, rest)
      else
        AttributesShrink(types[id], w, rest, Created(types[id], 0));
        match Unserialized(types[id], w, rest, Created(types[id], 0))
        case Failed => Bad
        case Done(body, size, rest') =>
          if !types[id].container then Good(Some(Loaded(id, body, [])), rest')
          else
            match LoadingContainer(types, w, rest', if size.Some? then size.value else 0, [])
            case Bad => Bad
            case Good(children, rest'') => Good(Some(Loaded(id, body, children)), rest'')
  }

  /** loadContainer: n items, each of which is put in front of those before it, and a zero byte. */
  function LoadingContainer(
      types: Types, w: World, bs: seq<Byte>, n: nat, children: seq<Loaded>): (r: Load<seq<Loaded>>)
    ensures r.Good? ==> |r.rest| < |bs|
    decreases |bs|, 1, n
  {
    if n == 0 then
      if bs == [] || bs[0] != 0 then Bad else Good(children, bs[1..])
    else
      match Loading(types, w, bs)
      case Bad => Bad
      case Good(child, rest) =>
        LoadingContainer(types, w, rest, n - 1, if child.Some? then [child.value] + children else children)
  }

  lemma {:induction false} AttributesShrink(it: ItemType, w: World, bs: seq<Byte>, x: Body)
    ensures Unserialized(it, w, bs, x).Done? ==> |Unserialized(it, w, bs, x).rest| <= |bs|
    decreases |bs|
  {
    if bs != [] && bs[0] != 0 {
      AttrShrinks(it, w, bs[0], bs[1..], x);
      match ReadAttr(it, w, bs[0], bs[1..], x)
      case Continue(y, rest) => AttributesShrink(it, w, rest, y);
      case _ =>
    }
  }

  // ---------------------------------------------------------------- the round trip

  /** A loaded tree: each item in its normal form, and all children in their order. */
  ghost function NormalTree(types: Types, t: Tree, now: Int64): Loaded
    requires Sound(types, t)
    decreases t
  {
    Loaded(t.id, Normal(types[t.id], t.body, now, t.order, 0), NormalTrees(types, t.children, now))
  }

  ghost function NormalTrees(types: Types, ts: seq<Tree>, now: Int64): (r: seq<Loaded>)
    requires AllSound(types, ts)
    ensures |r| == |ts|
    decreases ts
  {
    if ts == [] then []
    else
      SoundAt(types, ts, |ts| - 1);
      NormalTrees(types, ts[..|ts| - 1], now) + [NormalTree(types, ts[|ts| - 1], now)]
  }

  lemma IdReturns(id: nat, rest: seq<Byte>)
    requires id < 0x1_0000
    ensures ReadInt(UInt16, ToBytes(id, SizeOf(UInt16)) + rest) == Got(id, rest)
  {
    WrittenInt(UInt16, id, rest);
    IdFits(id);
  }

  lemma IdFits(id: nat)
    requires id < 0x1_0000
    ensures Convert(UInt16, id) == id
  {
  }

  /** What is left of a saved item behind its attributes. */
  ghost function Tail(types: Types, t: Tree, now: Int64): seq<Byte>
    requires Sound(types, t)
  {
    if types[t.id].container
    then [ATTR_CONTAINER_ITEMS] + ToBytes(|t.children|, SizeOf(UInt32)) + SavingReversed(types, t.children, now)
    else []
  }

  lemma SavingIs(types: Types, t: Tree, now: Int64, rest: seq<Byte>)
    requires Sound(types, t)
    ensures Saving(types, t, now) + rest ==
            ToBytes(t.id, SizeOf(UInt16)) +
              (Serialized(types[t.id], t.body, now, t.order) + (Tail(types, t, now) + ([0] + rest)))
  {
    Join5(ToBytes(t.id, SizeOf(UInt16)), Serialized(types[t.id], t.body, now, t.order), Tail(types, t, now), [0], rest);
  }

  lemma Join5<T>(a: seq<T>, b: seq<T>, c: seq<T>, d: seq<T>, e: seq<T>)
    ensures a + b + c + d + e == a + (b + (c + (d + e)))
  {
  }

  /** The attributes of a saved item are read up to its children, or to the end of the item. */
  lemma HeadReturns(types: Types, w: World, t: Tree, now: Int64, rest: seq<Byte>)
    requires Sound(types, t)
    ensures var it := types[t.id];
            Unserialized(it, w, Serialized(it, t.body, now, t.order) + (Tail(types, t, now) + ([0] + rest)),
              Created(it, 0)) ==
            if Blanks(CustomIn(t.body.store)) then Failed
            else if it.container then
              Done(Normal(it, t.body, now, t.order, 0), Some(|t.children|),
                SavingReversed(types, t.children, now) + ([0] + rest))
            else Done(Normal(it, t.body, now, t.order, 0), None, rest)
  {
    var it := types[t.id];
    AttributesReturn(it, w, t.body, now, t.order, 0, Tail(types, t, now) + ([0] + rest));
    var y := Normal(it, t.body, now, t.order, 0);
    if it.container {
      var kids := SavingReversed(types, t.children, now);
      Assoc([ATTR_CONTAINER_ITEMS] + ToBytes(|t.children|, SizeOf(UInt32)), kids, [0] + rest);
      ChildrenReturn(it, w, y, |t.children|, kids + ([0] + rest));
    } else {
      assert [] + ([0] + rest) == [0] + rest;
      EndReturns(it, w, y, rest);
    }
  }

  lemma LoadingStep(types: Types, w: World, id: nat, rest: seq<Byte>)
    requires id < 0x1_0000 && id in types
    ensures Loading(types, w, ToBytes(id, SizeOf(UInt16)) + rest) ==
            match Unserialized(types[id], w, rest, Created(types[id], 0))
            case Failed => Bad
            case Done(body, size, rest') =>
              if !types[id].container then Good(Some(Loaded(id, body, [])), rest')
              else
                match LoadingContainer(types, w, rest', if size.Some? then size.value else 0, [])
                case Bad => Bad
                case Good(children, rest'') => Good(Some(Loaded(id, body, children)), rest'')
  {
    IdReturns(id, rest);
  }

  /**
   * The house codec theorem: loadItem consumes exactly what saveItem wrote for the tree and
   * returns the tree with every item in its normal form and every list of children in its order.
   * It fails exactly if some item of the tree has a custom attribute without a value.
   */
  lemma {:induction false} TreeReturns(types: Types, w: World, t: Tree, now: Int64, rest: seq<Byte>)
    requires Sound(types, t)
    ensures Loading(types, w, Saving(types, t, now) + rest) ==
            if HasBlank(t) then Bad else Good(Some(NormalTree(types, t, now)), rest)
    decreases t
  {
    SavingIs(types, t, now, rest);
    LoadingStep(types, w, t.id, Serialized(types[t.id], t.body, now, t.order) + (Tail(types, t, now) + ([0] + rest)));
    HeadReturns(types, w, t, now, rest);
    if types[t.id].container {
      ForestReturns(types, w, t.children, now, [], rest);
      assert NormalTrees(types, t.children, now) + [] == NormalTrees(types, t.children, now);
    } else {
      assert t.children == [] && NormalTrees(types, t.children, now) == [] && !AnyHasBlank(t.children);
    }
  }

  /** The last child is the first to be loaded. */
  lemma LastLoaded(
      types: Types, w: World, before: seq<Tree>, last: Tree, now: Int64, children: seq<Loaded>, tail: seq<Byte>)
    requires AllSound(types, before + [last]) && AllSound(types, before) && Sound(types, last)
    requires Loading(types, w, Saving(types, last, now) + (SavingReversed(types, before, now) + tail)) ==
             if HasBlank(last) then Bad
             else Good(Some(NormalTree(types, last, now)), SavingReversed(types, before, now) + tail)
    ensures LoadingContainer(types, w, SavingReversed(types, before + [last], now) + tail, |before| + 1, children) ==
            if HasBlank(last) then Bad
            else LoadingContainer(
              types, w, SavingReversed(types, before, now) + tail, |before|, [NormalTree(types, last, now)] + children)
  {
    assert (before + [last])[..|before|] == before;
    Assoc(Saving(types, last, now), SavingReversed(types, before, now), tail);
  }

  lemma {:induction false} ForestReturns(
      types: Types, w: World, ts: seq<Tree>, now: Int64, children: seq<Loaded>, rest: seq<Byte>)
    requires AllSound(types, ts)
    ensures LoadingContainer(types, w, SavingReversed(types, ts, now) + ([0] + rest), |ts|, children) ==
            if AnyHasBlank(ts) then Bad else Good(NormalTrees(types, ts, now) + children, rest)
    decreases ts
  {
    if ts == [] {
      assert SavingReversed(types, ts, now) + ([0] + rest) == [0] + rest && ([0] + rest)[1..] == rest;
      assert [] + children == children;
    } else {
      var last, before := ts[|ts| - 1], ts[..|ts| - 1];
      assert ts == before + [last];
      SoundAt(types, ts, |ts| - 1);
      TreeReturns(types, w, last, now, SavingReversed(types, before, now) + ([0] + rest));
      LastLoaded(types, w, before, last, now, children, [0] + rest);
      if !HasBlank(last) {
        ForestReturns(types, w, before, now, [NormalTree(types, last, now)] + children, rest);
        Assoc(NormalTrees(types, before, now), [NormalTree(types, last, now)], children);
      }
    }
  }

  // ---------------------------------------------------------------- the methods

  /** An item object in its place in the tree of items that a container object stands for. */
  datatype Thing = Thing(id: nat, item: Item, order: seq<Text>, children: seq<Thing>)

  ghost function Objects(t: Thing): set<object>
    decreases t
  {
    {t.item, t.item.attributes} + AllObjects(t.children)
  }

  ghost function AllObjects(ts: seq<Thing>): set<object>
    decreases ts
  {
    if ts == [] then {} else AllObjects(ts[..|ts| - 1]) + Objects(ts[|ts| - 1])
  }

  ghost function View(t: Thing): Tree
    reads Objects(t)
    decreases t
  {
    Tree(t.id, t.item.View(), t.order, Views(t.children))
  }

  ghost function Views(ts: seq<Thing>): (r: seq<Tree>)
    ensures |r| == |ts|
    reads AllObjects(ts)
    decreases ts
  {
    if ts == [] then [] else Views(ts[..|ts| - 1]) + [View(ts[|ts| - 1])]
  }

  ghost predicate Intact(types: Types, t: Thing)
    reads Objects(t)
    decreases t
  {
    t.item.Valid() && t.id in types && t.item.it == types[t.id] && AllIntact(types, t.children)
  }

  ghost predicate AllIntact(types: Types, ts: seq<Thing>)
    reads AllObjects(ts)
    decreases ts
  {
    ts == [] || (AllIntact(types, ts[..|ts| - 1]) && Intact(types, ts[|ts| - 1]))
  }

  /** The objects of a tree exist, and no stream is one of them. */
  lemma {:induction false} Apart(o: object, t: Thing)
    requires o is PropWriteStream || o is PropStream
    ensures o !in Objects(t) && forall p <- Objects(t) :: allocated(p)
    decreases t
  {
    AllApart(o, t.children);
  }

  lemma {:induction false} AllApart(o: object, ts: seq<Thing>)
    requires o is PropWriteStream || o is PropStream
    ensures o !in AllObjects(ts) && forall p <- AllObjects(ts) :: allocated(p)
    decreases ts
  {
    if ts != [] {
      AllApart(o, ts[..|ts| - 1]);
      Apart(o, ts[|ts| - 1]);
    }
  }

  method SaveHead(out: PropWriteStream, id: nat, item: Item, order: seq<Text>, now: Int64)
    requires item.Valid() && forall k <- order :: k in CustomIn(item.attributes.store)
    modifies out
    ensures out.buffer ==
            old(out.buffer) + (ToBytes(id, SizeOf(UInt16)) + Serialized(item.it, old(item.View()), now, order))
  {
    ghost var was := out.buffer;
    out.Write(id, SizeOf(UInt16));
    item.SerializeAttr(out, now, order);
    Assoc(was, ToBytes(id, SizeOf(UInt16)), Serialized(item.it, item.View(), now, order));
  }

  method SaveTail(out: PropWriteStream, types: Types, t: Thing, now: Int64)
    requires Intact(types, t) && Sound(types, View(t)) && types[t.id].container
    modifies out
    ensures out.buffer == old(out.buffer) +
            ([ATTR_CONTAINER_ITEMS] + ToBytes(|t.children|, SizeOf(UInt32)) +
              SavingReversed(types, old(Views(t.children)), now))
    decreases t, 0
  {
    ghost var was, vs := out.buffer, Views(t.children);
    AllApart(out, t.children);
    t.item.WriteByte(out, ATTR_CONTAINER_ITEMS);
    out.Write(|t.children|, SizeOf(UInt32));
    SaveReversed(out, types, t.children, now);
    Join4(was, [ATTR_CONTAINER_ITEMS], ToBytes(|t.children|, SizeOf(UInt32)), SavingReversed(types, vs, now));
  }

  method SaveItem(out: PropWriteStream, types: Types, t: Thing, now: Int64)
    requires Intact(types, t) && Sound(types, View(t))
    modifies out
    ensures out.buffer == old(out.buffer) + Saving(types, old(View(t)), now)
    decreases t, 1
  {
    ghost var was, v := out.buffer, View(t);
    Apart(out, t);
    SaveHead(out, t.id, t.item, t.order, now);
    if types[t.id].container {
      SaveTail(out, types, t, now);
    }
    t.item.WriteByte(out, 0);
    SavingJoin(types, v, now, was, out.buffer);
  }

  /** The three writes of saveItem are the bytes of the item. */
  lemma SavingJoin(types: Types, v: Tree, now: Int64, was: seq<Byte>, after: seq<Byte>)
    requires Sound(types, v)
    requires var a, b, c := ToBytes(v.id, SizeOf(UInt16)), Serialized(types[v.id], v.body, now, v.order),
             Tail(types, v, now);
             after == was + (a + b) + c + [0] || (c == [] && after == was + (a + b) + [0])
    ensures after == was + Saving(types, v, now)
  {
    Join5(was, ToBytes(v.id, SizeOf(UInt16)), Serialized(types[v.id], v.body, now, v.order), Tail(types, v, now), [0]);
  }

  lemma LastOf(types: Types, ts: seq<Thing>, i: nat, vs: seq<Tree>)
    requires 0 < i <= |ts| && |vs| == |ts|
    requires AllIntact(types, ts[..i]) && Views(ts[..i]) == vs[..i] && AllSound(types, vs[..i])
    ensures AllIntact(types, ts[..i - 1]) && Views(ts[..i - 1]) == vs[..i - 1] && AllSound(types, vs[..i - 1])
    ensures Intact(types, ts[i - 1]) && View(ts[i - 1]) == vs[i - 1] && Sound(types, vs[i - 1])
  {
    assert ts[..i][..i - 1] == ts[..i - 1] && vs[..i][..i - 1] == vs[..i - 1];
    assert Views(ts[..i]) == Views(ts[..i - 1]) + [View(ts[i - 1])];
    assert vs[..i] == vs[..i - 1] + [vs[i - 1]];
    SoundAt(types, vs[..i], i - 1);
  }

  lemma ReversedStep(types: Types, vs: seq<Tree>, i: nat, now: Int64, was: seq<Byte>)
    requires 0 < i <= |vs| && AllSound(types, vs[..i]) && AllSound(types, vs[..i - 1]) && Sound(types, vs[i - 1])
    ensures was + Saving(types, vs[i - 1], now) + SavingReversed(types, vs[..i - 1], now) ==
            was + SavingReversed(types, vs[..i], now)
  {
    assert vs[..i][..i - 1] == vs[..i - 1];
    Assoc(was, Saving(types, vs[i - 1], now), SavingReversed(types, vs[..i - 1], now));
  }

  /** The loop of saveItem over the children from back to front. */
  method SaveReversed(out: PropWriteStream, types: Types, ts: seq<Thing>, now: Int64)
    requires AllIntact(types, ts) && AllSound(types, Views(ts))
    modifies out
    ensures out.buffer == old(out.buffer) + SavingReversed(types, old(Views(ts)), now)
    decreases ts, 1
  {
    var i := |ts|;
    ghost var vs := Views(ts);
    ghost var total := out.buffer + SavingReversed(types, vs, now);
    assert ts[..i] == ts && vs[..i] == vs;
    while i > 0
      invariant 0 <= i <= |ts|
      invariant AllIntact(types, ts[..i]) && Views(ts[..i]) == vs[..i] && AllSound(types, vs[..i])
      invariant out.buffer + SavingReversed(types, vs[..i], now) == total
    {
      ReversedLast(out, types, ts, i, vs, now);
      i := i - 1;
    }
  }

  method ReversedLast(out: PropWriteStream, types: Types, ts: seq<Thing>, i: nat, ghost vs: seq<Tree>, now: Int64)
    requires 0 < i <= |ts| && |vs| == |ts|
    requires AllIntact(types, ts[..i]) && Views(ts[..i]) == vs[..i] && AllSound(types, vs[..i])
    modifies out
    ensures AllIntact(types, ts[..i - 1]) && Views(ts[..i - 1]) == vs[..i - 1] && AllSound(types, vs[..i - 1])
    ensures out.buffer + SavingReversed(types, vs[..i - 1], now) ==
            old(out.buffer) + SavingReversed(types, vs[..i], now)
    decreases ts, 0
  {
    LastOf(types, ts, i, vs);
    ghost var rest, bytes := ts[..i - 1], out.buffer;
    AllApart(out, rest);
    assert AllIntact(types, rest) && Views(rest) == vs[..i - 1] && out !in AllObjects(rest);
    SaveItem(out, types, ts[i - 1], now);
    assert AllIntact(types, rest) && Views(rest) == vs[..i - 1];
    assert out.buffer == bytes + Saving(types, vs[i - 1], now);
    ReversedStep(types, vs, i, now, bytes);
  }

  /** The loaded tree that item objects stand for. */
  ghost function LoadedView(t: Thing): Loaded
    reads Objects(t)
    decreases t
  {
    Loaded(t.id, t.item.View(), LoadedViews(t.children))
  }

  ghost function LoadedViews(ts: seq<Thing>): seq<Loaded>
    reads AllObjects(ts)
    decreases ts
  {
    if ts == [] then [] else LoadedViews(ts[..|ts| - 1]) + [LoadedView(ts[|ts| - 1])]
  }

  lemma {:induction false} InFront(t: Thing, ts: seq<Thing>)
    ensures AllObjects([t] + ts) == Objects(t) + AllObjects(ts)
    ensures LoadedViews([t] + ts) == [LoadedView(t)] + LoadedViews(ts)
    decreases |ts|
  {
    if ts == [] {
      assert [t] + ts == [t] && [t][..0] == [];
    } else {
      InFront(t, ts[..|ts| - 1]);
      assert ([t] + ts)[..|ts|] == [t] + ts[..|ts| - 1];
    }
  }

  method ReadId(stream: PropStream) returns (ok: bool, id: nat)
    requires stream.Valid()
    modifies stream
    ensures stream.Valid()
    ensures match ReadInt(UInt16, old(stream.Left()))
      case Short => !ok
      case Got(n, rest) => ok && id == n && stream.Left() == rest
    ensures ok ==> |stream.Left()| < |old(stream.Left())|
  {
    id := 0;
    var n;
    ok, n := stream.Read(2);
    if ok {
      id := U16(n);
    }
  }

  method LoadItem(stream: PropStream, types: Types, w: World) returns (ok: bool, t: Option<Thing>)
    requires stream.Valid()
    modifies stream
    ensures stream.Valid()
    ensures t.Some? ==> fresh(Objects(t.value))
    ensures match Loading(types, w, old(stream.Left()))
      case Bad => !ok
      case Good(v, rest) =>
        && ok && t.Some? == v.Some? && (t.Some? ==> LoadedView(t.value) == v.value)
        && stream.Left() == rest
    decreases |stream.Left()|, 0
  {
    t := None;
    var id;
    ok, id := ReadId(stream);
    if !ok || id !in types {
      return;
    }
    var item := new Item(types[id], 0);
    AttributesShrink(types[id], w, stream.Left(), Created(types[id], 0));
    ok := item.UnserializeAttr(stream, w);
    if !ok {
      return;
    }
    var children := [];
    if types[id].container {
      ok, children := LoadContainer(stream, types, w, item);
      if !ok {
        return;
      }
    }
    t := Some(Thing(id, item, [], children));
  }

  /** One item of a container, put in front of those before it. */
  method LoadChild(stream: PropStream, types: Types, w: World, children: seq<Thing>)
    returns (ok: bool, more: seq<Thing>)
    requires stream.Valid()
    modifies stream
    ensures stream.Valid()
    ensures forall o <- AllObjects(more) :: o in AllObjects(children) || fresh(o)
    ensures match Loading(types, w, old(stream.Left()))
      case Bad => !ok
      case Good(child, rest) =>
        && ok && stream.Left() == rest
        && LoadedViews(more) == if child.Some? then [child.value] + old(LoadedViews(children))
          else old(LoadedViews(children))
    decreases |stream.Left()|, 1
  {
    AllApart(stream, children);
    var t;
    ok, t := LoadItem(stream, types, w);
    more := children;
    if ok && t.Some? {
      InFront(t.value, children);
      more := [t.value] + children;
    }
  }

  lemma ContainerStep(types: Types, w: World, bs: seq<Byte>, n: nat, children: seq<Loaded>)
    requires n > 0
    ensures LoadingContainer(types, w, bs, n, children) ==
            match Loading(types, w, bs)
            case Bad => Bad
            case Good(child, rest) =>
              LoadingContainer(types, w, rest, n - 1, if child.Some? then [child.value] + children else children)
  {
  }

  /** The body of the loop of loadContainer. */
  method LoadNext(
      stream: PropStream, types: Types, w: World, container: Item, children: seq<Thing>, ghost all: Load<seq<Loaded>>)
    returns (ok: bool, more: seq<Thing>)
    requires stream.Valid() && container.serializationCount > 0 && container !in AllObjects(children)
    requires LoadingContainer(types, w, stream.Left(), container.serializationCount, LoadedViews(children)) == all
    modifies stream, container`serializationCount
    ensures stream.Valid()
    ensures ok ==>
            && |stream.Left()| <= |old(stream.Left())|
            && container.serializationCount == old(container.serializationCount) - 1
    ensures forall o <- AllObjects(more) :: o in AllObjects(children) || fresh(o)
    ensures !ok ==> all == Bad
    ensures ok ==> LoadingContainer(types, w, stream.Left(), container.serializationCount, LoadedViews(more)) == all
    decreases |stream.Left()|, 2
  {
    ContainerStep(types, w, stream.Left(), container.serializationCount, LoadedViews(children));
    ok, more := LoadChild(stream, types, w, children);
    if ok {
      assert container !in AllObjects(more);
      AllApart(stream, more);
      container.serializationCount := container.serializationCount - 1;
    }
  }

  method LoadContainer(stream: PropStream, types: Types, w: World, container: Item)
    returns (ok: bool, children: seq<Thing>)
    requires stream.Valid()
    modifies stream, container`serializationCount
    ensures stream.Valid()
    ensures fresh(AllObjects(children))
    ensures match LoadingContainer(types, w, old(stream.Left()), old(container.serializationCount), [])
      case Bad => !ok
      case Good(vs, rest) => ok && LoadedViews(children) == vs && stream.Left() == rest
    decreases |stream.Left()|, 3
  {
    children := [];
    ghost var all := LoadingContainer(types, w, stream.Left(), container.serializationCount, []);
    while container.serializationCount > 0
      invariant stream.Valid()
      invariant fresh(AllObjects(children))
      invariant LoadingContainer(types, w, stream.Left(), container.serializationCount, LoadedViews(children)) == all
      invariant |stream.Left()| <= |old(stream.Left())|
      decreases container.serializationCount
    {
      ok, children := LoadNext(stream, types, w, container, children, all);
      if !ok {
        return;
      }
    }
    AllApart(stream, children);
    ok := ReadEnd(stream);
  }

  /** The zero byte behind the last child. */
  method ReadEnd(stream: PropStream) returns (ok: bool)
    requires stream.Valid()
    modifies stream
    ensures stream.Valid()
    ensures var left := old(stream.Left());
            if left == [] || left[0] != 0 then !ok else ok && stream.Left() == left[1..]
  {
    ghost var left := stream.Left();
    var end;
    ok, end := stream.Read(1);
    if ok {
      assert FromBytes(left[..1]) == left[0];
      ok := end == 0;
    }
  }
}
