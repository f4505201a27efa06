/** Moving a stack between two tiles (game.cpp, internalMoveItem). */
module StackMove {
  import opened Common
  import opened TileThings

  // ---------------------------------------------------------------- counting

  /** How many items of a type lie in a vector. */
  function CountOf(items: seq<Item>, t: ItemType): nat {
    if items == [] then 0 else (if items[0].t == t then items[0].count else 0) + CountOf(items[1..], t)
  }

  lemma {:induction false} CountConcat(a: seq<Item>, b: seq<Item>, t: ItemType)
    ensures CountOf(a + b, t) == CountOf(a, t) + CountOf(b, t)
  {
    if a == [] {
      assert a + b == b;
    } else {
      assert (a + b)[1..] == a[1..] + b;
      CountConcat(a[1..], b, t);
    }
  }

  lemma CountErase(items: seq<Item>, k: nat, t: ItemType)
    requires k < |items|
    ensures CountOf(Erase(items, k), t) == CountOf(items, t) - if items[k].t == t then items[k].count else 0
  {
    var a, b := items[..k], items[k + 1..];
    assert items == a + ([items[k]] + b) && ([items[k]] + b)[1..] == b;
    CountConcat(a, [items[k]] + b, t);
    CountConcat(a, b, t);
  }

  lemma CountUpdate(items: seq<Item>, k: nat, x: Item, t: ItemType)
    requires k < |items| && items[k].t == x.t
    ensures CountOf(items[k := x], t) == CountOf(items, t) + if x.t == t then x.count - items[k].count else 0
  {
    var a, b := items[..k], items[k + 1..];
    assert items == a + ([items[k]] + b) && items[k := x] == a + ([x] + b);
    assert ([items[k]] + b)[1..] == b && ([x] + b)[1..] == b;
    CountConcat(a, [items[k]] + b, t);
    CountConcat(a, [x] + b, t);
  }

  /** No stack is empty or larger than a hundred. */
  predicate Stacks(items: seq<Item>) {
    forall i :: 0 <= i < |items| && items[i].t.stackable ==> 1 <= items[i].count <= 100
  }

  /** The items that are moved here: stackable, and on a tile nothing but that. */
  predicate PlainStack(x: Item) {
    x.t.stackable && !x.t.groundTile && !x.t.alwaysOnTop && !x.t.magicField && !x.t.fluidContainer && !x.t.splash
      && x.kind.Plain?
  }

  // ---------------------------------------------------------------- the steps of the move

  lemma RemovedCount(s: State, x: Item, m: nat, t: ItemType)
    requires Inv(s) && OnTile(s, x) && s.ground != Some(x) && PlainStack(x) && 0 < m <= x.count && Stacks(s.items)
    ensures var s' := Removed(s, x, m);
            && CountOf(s'.items, t) == CountOf(s.items, t) - (if x.t == t then m else 0)
            && Stacks(s'.items) && |s'.items| <= |s.items| && s'.ground == s.ground
  {
    SpotIff(s, x);
    var k := Spot(s, x).k;
    ReducedIs(x, m);
    if Whole(s, x, m) {
      CountErase(s.items, k, t);
      var r := Erase(s.items, k);
      assert forall i :: 0 <= i < |r| ==> r[i] == if i < k then s.items[i] else s.items[i + 1];
    } else {
      CountUpdate(s.items, k, Reduced(x, m), t);
    }
  }

  lemma UpdatedCount(s: State, top: Item, n: nat, t: ItemType)
    requires Inv(s) && s.down > 0 && s.items[0] == top && top.count + n <= 100 && Stacks(s.items)
    requires top.t.stackable && !top.t.fluidContainer && !top.t.splash
    ensures var s' := Updated(s, top, top.t, top.count + n);
            && s'.items == s.items[0 := top.(count := top.count + n)]
            && s'.ground == s.ground && s'.down == s.down && s'.creatures == s.creatures
            && CountOf(s'.items, t) == CountOf(s.items, t) + (if top.t == t then n else 0)
            && Stacks(s'.items)
  {
    assert top in s.items && s.ground != Some(top);
    assert Spot(s, top) == At(0);
    CountUpdate(s.items, 0, top.(count := top.count + n), t);
  }

  lemma AddedCount(s: State, x: Item, t: ItemType)
    requires Inv(s) && PlainStack(x) && 1 <= x.count <= 100 && |s.items| < MAX_ITEMS && Stacks(s.items)
    ensures Added(s, x) == PutDown(s, x)
    ensures CountOf(Added(s, x).items, t) == CountOf(s.items, t) + (if x.t == t then x.count else 0)
    ensures Stacks(Added(s, x).items)
  {
    assert ([x] + s.items)[1..] == s.items;
  }

  // ---------------------------------------------------------------- the move

  const TILE_LIMIT := 0x3E8

  method TopDownItem(tile: Tile) returns (top: Option<Item>)
    requires Layout(tile.View())
    ensures top == if tile.downItemCount == 0 then None else Some(tile.items[0])
  {
    top := if tile.downItemCount == 0 then None else Some(tile.items[0]);
  }

  ghost function Together(a: Tile, b: Tile, t: ItemType): nat
    reads a, b
  {
    if a == b then CountOf(a.items, t) else CountOf(a.items, t) + CountOf(b.items, t)
  }

  ghost predicate Ready(tile: Tile)
    reads tile
  {
    Inv(tile.View()) && Stacks(tile.items)
  }

  /** What a step adds to the count of a type. */
  ghost predicate Counts(was: seq<Item>, now: seq<Item>, moved: ItemType, delta: int) {
    forall t: ItemType :: CountOf(now, t) == CountOf(was, t) + if t == moved then delta else 0
  }

  /** An item on top of which others may lie stays there when another one is taken. */
  lemma StillOnTop(s: State, x: Item, m: nat)
    requires Inv(s) && OnTile(s, x) && s.ground != Some(x) && PlainStack(x) && s.down > 0 && s.items[0] != x
    ensures var s' := Removed(s, x, m); s'.down > 0 && |s'.items| > 0 && s'.items[0] == s.items[0]
  {
    SpotIff(s, x);
  }

  method Take(tile: Tile, x: Item, m: nat, ghost id: nat)
    requires Ready(tile) && OnTile(tile.View(), x) && tile.ground != Some(x) && PlainStack(x) && 0 < m <= x.count
             && Absent(tile.View(), id)
    modifies tile
    ensures Ready(tile) && Absent(tile.View(), id) && tile.ground == old(tile.ground)
            && |tile.items| <= |old(tile.items)|
    ensures tile.View() == Removed(old(tile.View()), x, m)
    ensures Counts(old(tile.items), tile.items, x.t, 0 - m)
  {
    ghost var s := tile.View();
    forall t: ItemType ensures CountOf(Removed(s, x, m).items, t) == CountOf(s.items, t) - if x.t == t then m else 0 {
      RemovedCount(s, x, m, t);
    }
    RemovedCount(s, x, m, x.t);
    StillAbsent(s, x, m, id);
    RemovedSound(s, x, m);
    RemovedKeeps(s, x, m);
    tile.RemoveItem(x, m);
  }

  method Merge(tile: Tile, top: Item, n: nat, ghost id: nat)
    requires Ready(tile) && tile.downItemCount > 0 && tile.items[0] == top && top.count + n <= 100
             && Absent(tile.View(), id)
    requires top.t.stackable && !top.t.fluidContainer && !top.t.splash
    modifies tile
    ensures Ready(tile) && Absent(tile.View(), id) && |tile.items| == |old(tile.items)|
    ensures tile.items == old(tile.items)[0 := top.(count := top.count + n)]
    ensures Counts(old(tile.items), tile.items, top.t, n)
  {
    ghost var s := tile.View();
    forall t: ItemType ensures CountOf(Updated(s, top, top.t, top.count + n).items, t) ==
      CountOf(s.items, t) + if top.t == t then n else 0 {
      UpdatedCount(s, top, n, t);
    }
    UpdatedCount(s, top, n, top.t);
    MergedInv(s, top, n, id);
    tile.UpdateThing(top, top.t, top.count + n);
  }

  lemma MergedInv(s: State, top: Item, n: nat, id: nat)
    requires Inv(s) && s.down > 0 && s.items[0] == top && Absent(s, id)
    ensures var s' := Updated(s, top, top.t, top.count + n); Inv(s') && Absent(s', id)
  {
    var op := Update(top, top.t, top.count + n);
    ApplySound(s, op);
    LayoutIff(s, op);
    MembersAre(s, op);
    AbsentIs(s, id);
    AbsentIs(Apply(s, op), id);
    assert top in s.items && OnTile(s, top);
  }

  method Put(tile: Tile, x: Item)
    requires Ready(tile) && PlainStack(x) && 1 <= x.count <= 100 && |tile.items| < MAX_ITEMS
             && Absent(tile.View(), x.id)
    modifies tile
    ensures Ready(tile) && tile.items == [x] + old(tile.items) && Counts(old(tile.items), tile.items, x.t, x.count)
  {
    ghost var s := tile.View();
    forall t: ItemType ensures CountOf(Added(s, x).items, t) == CountOf(s.items, t) + if x.t == t then x.count else 0 {
      AddedCount(s, x, t);
    }
    AddedCount(s, x, x.t);
    AddedSound(s, x);
    AddedKeeps(s, x);
    tile.AddItem(x);
  }

  predicate OnTop(s: State, x: Item) {
    s.down > 0 && |s.items| > 0 && s.items[0] == x
  }

  /** What arrives: as much as fits on a like stack on top, and a copy with the rest in front of everything. */
  function Received(items: seq<Item>, down: nat, x: Item, count: nat, alike: bool, copyId: nat): seq<Item>
    requires down <= |items| && (alike && down > 0 ==> items[0].count <= 100)
  {
    var n := if alike && down > 0 then (if 100 - items[0].count < count then 100 - items[0].count else count) else 0;
    var merged := if alike && down > 0 then items[0 := items[0].(count := items[0].count + n)] else items;
    if count > n then [x.(id := copyId, count := count - n)] + merged else merged
  }

  /**
   * internalMoveItem for a stack on a tile. mayAdd is the answer of queryAdd behind its limit on
   * the number of items, alike that of equals for the item on top of the destination, and copyId
   * names the copy that is made of what does not fit on that item.
   */
  method MoveStack(from: Tile, to: Tile, x: Item, count: nat, mayAdd: bool, alike: bool, copyId: nat) returns (ok: bool)
    requires Ready(from) && Ready(to) && PlainStack(x) && from.ground != Some(x)
    requires Absent(from.View(), copyId) && Absent(to.View(), copyId)
    requires alike && to.downItemCount > 0 ==> to.items[0].t == x.t
    modifies from, to
    ensures Ready(from) && Ready(to)
    ensures forall t: ItemType :: Together(from, to, t) == old(Together(from, to, t))
    ensures ok <==>
            || OnTop(old(to.View()), x)
            || (|old(to.items)| < TILE_LIMIT && mayAdd && OnTile(old(from.View()), x) && 0 < count <= x.count
              && x.t.moveable && !x.unique)
    ensures !ok ==> from.View() == old(from.View()) && to.View() == old(to.View())
    ensures ok && from != to && !OnTop(old(to.View()), x) ==>
              && Counts(old(from.items), from.items, x.t, 0 - count)
              && Counts(old(to.items), to.items, x.t, count)
    ensures ok && from != to && !OnTop(old(to.View()), x) ==>
              from.View() == Removed(old(from.View()), x, count)
              && to.items == Received(old(to.items), old(to.downItemCount), x, count, alike, copyId)
  {
    var toItem := TopDownItem(to);
    if toItem == Some(x) {
      return true;
    }
    if |to.items| >= TILE_LIMIT || !mayAdd {
      return false;
    }
    var maxQueryCount := if count < 1 then 1 else count;
    var m := if count < maxQueryCount then count else maxQueryCount;
    var index := from.GetThingIndex(AnItem(x));
    FindableIff(from.View(), AnItem(x));
    if index == -1 || m == 0 || m > x.count || !x.t.moveable || x.unique {
      return false;
    }
    Carry(from, to, x, m, toItem, alike, copyId);
    ok := true;
  }

  /** The part of internalMoveItem that changes the tiles. */
  method Carry(from: Tile, to: Tile, x: Item, m: nat, toItem: Option<Item>, alike: bool, copyId: nat)
    requires Ready(from) && Ready(to) && PlainStack(x) && OnTile(from.View(), x) && from.ground != Some(x)
             && 0 < m <= x.count
    requires Absent(from.View(), copyId) && Absent(to.View(), copyId) && |to.items| < TILE_LIMIT
    requires toItem == (if to.downItemCount == 0 then None else Some(to.items[0])) && toItem != Some(x)
    requires alike && toItem.Some? ==> toItem.value.t == x.t
    modifies from, to
    ensures Ready(from) && Ready(to)
    ensures from == to ==> Counts(old(from.items), from.items, x.t, 0)
    ensures from != to ==> Counts(old(from.items), from.items, x.t, 0 - m) && Counts(old(to.items), to.items, x.t, m)
    ensures from != to ==> from.View() == Removed(old(from.View()), x, m)
    ensures from != to ==> to.items == Received(old(to.items), old(to.downItemCount), x, m, alike, copyId)
  {
    ghost var a := from.View();
    if from == to && toItem.Some? {
      StillOnTop(a, x, m);
    }
    InVector(a, x);
    Take(from, x, m, copyId);
    Deliver(to, x, m, toItem, alike, copyId);
  }

  method Deliver(to: Tile, x: Item, m: nat, toItem: Option<Item>, alike: bool, copyId: nat)
    requires Ready(to) && PlainStack(x) && 0 < m <= 100 && Absent(to.View(), copyId) && |to.items| < TILE_LIMIT
    requires toItem.Some? ==> to.downItemCount > 0 && to.items[0] == toItem.value
    requires alike && toItem.Some? ==> toItem.value.t == x.t
    modifies to
    ensures Ready(to) && Counts(old(to.items), to.items, x.t, m)
    ensures (toItem.Some? <==> old(to.downItemCount) > 0)
            ==> to.items == Received(old(to.items), old(to.downItemCount), x, m, alike, copyId)
  {
    var n := 0;
    if toItem.Some? && alike {
      n := if 100 - toItem.value.count < m then 100 - toItem.value.count else m;
      Merge(to, toItem.value, n, copyId);
    }
    var newCount := m - n;
    if newCount > 0 {
      Put(to, x.(id := copyId, count := newCount));
    }
  }

  lemma InVector(s: State, x: Item)
    requires OnTile(s, x) && s.ground != Some(x) && Stacks(s.items) && x.t.stackable
    ensures 1 <= x.count <= 100
  {
    var i :| 0 <= i < |s.items| && s.items[i] == x;
  }
}
