/**
 * The item codec inside the rows of an inventory (iologindata.cpp, saveItems and loadItems): a row holds the
 * type, the subtype and the attribute bytes of an item.
 */
module InventoryItems {
  import opened Common
  import opened Streams
  import opened AttributeStore
  import opened ItemCodec
  import HouseCodec
  import Inventory

  type Tree = HouseCodec.Tree

  type Types = HouseCodec.Types

  /** An item that is to be saved at a place. */
  datatype Root = Root(pid: nat, tree: Tree)

  /** A loaded item; a body of None is an item whose attributes could only be read in part. */
  datatype Loaded = Loaded(id: nat, body: Option<Body>, children: seq<Loaded>)

  ghost predicate Sound(types: Types, roots: seq<Root>) {
    forall k :: 0 <= k < |roots| ==> HouseCodec.Sound(types, roots[k].tree)
  }

  // ---------------------------------------------------------------- what a row holds

  ghost function RecordOf(types: Types, t: Tree, now: Int64): Inventory.Record
    requires HouseCodec.Sound(types, t)
  {
    var it := types[t.id];
    Inventory.Record(t.id, GetSubType(it, t.body), Serialized(it, t.body, now, t.order))
  }

  /** The tree of rows that an item tree is saved as. */
  ghost function Stored(types: Types, t: Tree, now: Int64): (r: Inventory.Tree)
    requires HouseCodec.Sound(types, t)
    ensures r.rec == RecordOf(types, t, now)
    decreases t
  {
    if types[t.id].container then Inventory.Box(RecordOf(types, t, now), StoredAll(types, t.children, now))
    else Inventory.Single(RecordOf(types, t, now))
  }

  ghost function StoredAll(types: Types, ts: seq<Tree>, now: Int64): (r: seq<Inventory.Tree>)
    requires HouseCodec.AllSound(types, ts)
    ensures |r| == |ts|
    decreases ts
  {
    if ts == [] then [] else [Stored(types, ts[0], now)] + StoredAll(types, ts[1..], now)
  }

  ghost function StoredRoots(types: Types, roots: seq<Root>, now: Int64): (r: seq<Inventory.Root>)
    requires Sound(types, roots)
    ensures |r| == |roots|
    ensures forall k :: 0 <= k < |r| ==> r[k] == Inventory.Root(roots[k].pid, Stored(types, roots[k].tree, now))
  {
    if roots == [] then []
    else [Inventory.Root(roots[0].pid, Stored(types, roots[0].tree, now))] + StoredRoots(types, roots[1..], now)
  }

  /** What the rows know of the types. */
  function RowTypes(types: Types): Inventory.Types {
    Inventory.Types(types.Keys, set id | id in types && types[id].container)
  }

  lemma {:induction false} StoredWellTyped(types: Types, t: Tree, now: Int64)
    requires HouseCodec.Sound(types, t)
    ensures Inventory.WellTyped(RowTypes(types), Stored(types, t, now))
    decreases t
  {
    if types[t.id].container {
      AllStoredWellTyped(types, t.children, now);
    }
  }

  lemma {:induction false} AllStoredWellTyped(types: Types, ts: seq<Tree>, now: Int64)
    requires HouseCodec.AllSound(types, ts)
    ensures forall i :: 0 <= i < |ts| ==> Inventory.WellTyped(RowTypes(types), StoredAll(types, ts, now)[i])
    decreases ts
  {
    if ts != [] {
      StoredWellTyped(types, ts[0], now);
      AllStoredWellTyped(types, ts[1..], now);
    }
  }

  // ---------------------------------------------------------------- what loading makes of it

  /** CreateItem with the stored subtype, and unserializeAttr on the stored bytes. */
  function Decoded(types: Types, w: World, rec: Inventory.Record): Option<Body>
    requires rec.itemtype in types
  {
    match Unserialized(types[rec.itemtype], w, rec.attributes, Created(types[rec.itemtype], U16(rec.count)))
    case Failed => None
    case Done(body, _, _) => Some(body)
  }

  ghost predicate Known(types: Types, t: Inventory.Tree) {
    t.rec.itemtype in types && (t.Box? ==> AllKnown(types, t.kids))
  }

  ghost predicate AllKnown(types: Types, ts: seq<Inventory.Tree>) {
    ts == [] || (Known(types, ts[0]) && AllKnown(types, ts[1..]))
  }

  ghost function Reading(types: Types, w: World, t: Inventory.Tree): Loaded
    requires Known(types, t)
    decreases t
  {
    Loaded(t.rec.itemtype, Decoded(types, w, t.rec), if t.Box? then ReadingAll(types, w, t.kids) else [])
  }

  ghost function ReadingAll(types: Types, w: World, ts: seq<Inventory.Tree>): seq<Loaded>
    requires AllKnown(types, ts)
    decreases ts
  {
    if ts == [] then [] else [Reading(types, w, ts[0])] + ReadingAll(types, w, ts[1..])
  }

  // ---------------------------------------------------------------- the round trip

  /** Every item in its normal form, but for those with a custom attribute that has no value. */
  ghost function NormalTree(types: Types, t: Tree, now: Int64): Loaded
    requires HouseCodec.Sound(types, t)
    decreases t
  {
    Loaded(t.id, NormalBody(types[t.id], t.body, now, t.order), NormalTrees(types, t.children, now))
  }

  ghost function NormalTrees(types: Types, ts: seq<Tree>, now: Int64): seq<Loaded>
    requires HouseCodec.AllSound(types, ts)
    decreases ts
  {
    if ts == [] then [] else [NormalTree(types, ts[0], now)] + NormalTrees(types, ts[1..], now)
  }

  ghost function NormalBody(it: ItemType, x: Body, now: Int64, order: seq<Text>): Option<Body>
    requires Enumerates(order, CustomIn(x.store))
  {
    if Blanks(CustomIn(x.store)) then None else Some(Normal(it, x, now, order, GetSubType(it, x)))
  }

  lemma SubTypeFits(it: ItemType, x: Body)
    ensures GetSubType(it, x) < 0x1_0000 && U16(GetSubType(it, x)) == GetSubType(it, x)
  {
  }

  /** A row gives back the normal form of its item, unless a custom attribute has no value. */
  lemma RecordReturns(types: Types, w: World, t: Tree, now: Int64)
    requires HouseCodec.Sound(types, t)
    ensures Decoded(types, w, RecordOf(types, t, now)) == NormalBody(types[t.id], t.body, now, t.order)
  {
    var it := types[t.id];
    var n, bytes := GetSubType(it, t.body), Serialized(it, t.body, now, t.order);
    SubTypeFits(it, t.body);
    AttributesReturn(it, w, t.body, now, t.order, n, []);
    assert bytes + [] == bytes;
  }

  lemma {:induction false} TreeReads(types: Types, w: World, t: Tree, now: Int64)
    requires HouseCodec.Sound(types, t)
    ensures Known(types, Stored(types, t, now)) && Reading(types, w, Stored(types, t, now)) == NormalTree(types, t, now)
    decreases t
  {
    RecordReturns(types, w, t, now);
    TreesRead(types, w, t.children, now);
  }

  lemma {:induction false} TreesRead(types: Types, w: World, ts: seq<Tree>, now: Int64)
    requires HouseCodec.AllSound(types, ts)
    ensures AllKnown(types, StoredAll(types, ts, now))
            && ReadingAll(types, w, StoredAll(types, ts, now)) == NormalTrees(types, ts, now)
    decreases ts
  {
    if ts != [] {
      TreeReads(types, w, ts[0], now);
      TreesRead(types, w, ts[1..], now);
      assert StoredAll(types, ts, now)[1..] == StoredAll(types, ts[1..], now);
    }
  }

  /** The trees at a place. */
  function TreesAt(roots: seq<Root>, p: nat): seq<Tree> {
    if roots == [] then [] else (if roots[0].pid == p then [roots[0].tree] else []) + TreesAt(roots[1..], p)
  }

  lemma {:induction false} StoredAt(types: Types, roots: seq<Root>, now: Int64, p: nat)
    requires Sound(types, roots)
    ensures HouseCodec.AllSound(types, TreesAt(roots, p))
    ensures Inventory.TreesAt(StoredRoots(types, roots, now), {p}) == StoredAll(types, TreesAt(roots, p), now)
  {
    if roots != [] {
      StoredAt(types, roots[1..], now, p);
      var stored := StoredRoots(types, roots, now);
      assert stored[1..] == StoredRoots(types, roots[1..], now);
      if roots[0].pid == p {
        assert TreesAt(roots, p)[1..] == TreesAt(roots[1..], p);
      } else {
        assert TreesAt(roots, p) == TreesAt(roots[1..], p);
      }
    }
  }

  /**
   * The inventory theorem: from whatever rows saving makes of a placeable forest, loading gives every place its
   * trees in their order, with every item in its normal form.
   */
  lemma ForestReturns(
      l: Inventory.Loader, types: Types, w: World, roots: seq<Root>, now: Int64, rows: seq<Inventory.Row>, p: nat)
    requires Sound(types, roots) && Inventory.Saves(StoredRoots(types, roots, now), rows)
    requires Inventory.Placeable(l, StoredRoots(types, roots, now))
    ensures HouseCodec.AllSound(types, TreesAt(roots, p))
    ensures var hi := Inventory.FIRST_SID + |rows|;
            var m := Inventory.MapOf(RowTypes(types), Inventory.Descending(rows));
            var loaded := Inventory.Loaded(l, RowTypes(types), m, p, hi);
            AllKnown(types, loaded) && ReadingAll(types, w, loaded) == NormalTrees(types, TreesAt(roots, p), now)
  {
    var stored := StoredRoots(types, roots, now);
    forall k | 0 <= k < |stored| ensures Inventory.WellTyped(RowTypes(types), stored[k].tree) {
      StoredWellTyped(types, roots[k].tree, now);
    }
    Inventory.SavedReturnsIff(l, RowTypes(types), stored, rows);
    StoredAt(types, roots, now, p);
    TreesRead(types, w, TreesAt(roots, p), now);
  }

  /** What loading puts at a place. */
  ghost function LoadedAt(l: Inventory.Loader, types: Types, rows: seq<Inventory.Row>, p: nat): seq<Inventory.Tree> {
    var m := Inventory.MapOf(RowTypes(types), Inventory.Descending(rows));
    Inventory.Loaded(l, RowTypes(types), m, p, Inventory.FIRST_SID + |rows|)
  }

  /** A place has its trees back in their order, with every item in its normal form. */
  ghost predicate Restored(
      l: Inventory.Loader, types: Types, w: World, roots: seq<Root>, now: Int64, rows: seq<Inventory.Row>, p: nat)
  {
    var loaded := LoadedAt(l, types, rows, p);
    && HouseCodec.AllSound(types, TreesAt(roots, p)) && AllKnown(types, loaded)
    && ReadingAll(types, w, loaded) == NormalTrees(types, TreesAt(roots, p), now)
  }

  /** Every place has its trees back if and only if the roots are placeable. */
  lemma ForestReturnsIff(
      l: Inventory.Loader, types: Types, w: World, roots: seq<Root>, now: Int64, rows: seq<Inventory.Row>)
    requires Sound(types, roots) && Inventory.Saves(StoredRoots(types, roots, now), rows)
    ensures (forall p: nat :: Restored(l, types, w, roots, now, rows, p)) <==>
            Inventory.Placeable(l, StoredRoots(types, roots, now))
  {
    var stored := StoredRoots(types, roots, now);
    if Inventory.Placeable(l, stored) {
      forall p: nat ensures Restored(l, types, w, roots, now, rows, p) {
        ForestReturns(l, types, w, roots, now, rows, p);
      }
    }
    if forall p: nat :: Restored(l, types, w, roots, now, rows, p) {
      forall p: nat ensures |LoadedAt(l, types, rows, p)| == |Inventory.TreesAt(stored, {p})| {
        assert Restored(l, types, w, roots, now, rows, p);
        StoredAt(types, roots, now, p);
        ReadingLength(types, w, LoadedAt(l, types, rows, p));
        NormalLength(types, TreesAt(roots, p), now);
      }
      Inventory.NumbersNeedPlaces(l, RowTypes(types), stored, rows);
    }
  }

  lemma {:induction false} ReadingLength(types: Types, w: World, ts: seq<Inventory.Tree>)
    requires AllKnown(types, ts)
    ensures |ReadingAll(types, w, ts)| == |ts|
  {
    if ts != [] {
      ReadingLength(types, w, ts[1..]);
    }
  }

  lemma {:induction false} NormalLength(types: Types, ts: seq<Tree>, now: Int64)
    requires HouseCodec.AllSound(types, ts)
    ensures |NormalTrees(types, ts, now)| == |ts|
  {
    if ts != [] {
      NormalLength(types, ts[1..], now);
    }
  }

  // ---------------------------------------------------------------- the code

  /** The part of saveItems that makes the row of one item: the stream is used for each of them. */
  method SaveRecord(id: nat, item: Item, out: PropWriteStream, now: Int64, order: seq<Text>)
    returns (rec: Inventory.Record)
    requires item.Valid() && forall k <- order :: k in CustomIn(item.View().store)
    modifies out
    ensures rec == Inventory.Record(id, GetSubType(item.it, item.View()), Serialized(item.it, item.View(), now, order))
  {
    out.Clear();
    item.SerializeAttr(out, now, order);
    var count := item.GetItemSubType();
    assert [] + Serialized(item.it, item.View(), now, order) == Serialized(item.it, item.View(), now, order);
    rec := Inventory.Record(id, count, out.buffer);
  }

  /** The part of loadItems that makes the item of one row; one whose attributes cannot be read is kept all the same. */
  method LoadRecord(types: Types, w: World, rec: Inventory.Record) returns (item: Option<Item>, ok: bool)
    ensures item.Some? <==> rec.itemtype in types
    ensures item.Some? ==> fresh(item.value) && item.value.Valid() && item.value.it == types[rec.itemtype]
    ensures item.Some? ==> (ok <==> Decoded(types, w, rec).Some?)
    ensures item.Some? && ok ==> item.value.View() == Decoded(types, w, rec).value
  {
    if rec.itemtype !in types {
      return None, false;
    }
    var stream := new PropStream(rec.attributes);
    var created := new Item(types[rec.itemtype], U16(rec.count));
    ok := created.UnserializeAttr(stream, w);
    item := Some(created);
  }
}
