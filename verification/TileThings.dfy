/** The things on a tile (tile.cpp, tile.h): one vector for down and top items, and a cache of property flags. */
module TileThings {
  import opened Common

  // ---------------------------------------------------------------- items and their properties

  /** What the table of items says about the type with an id. */
  datatype ItemType = ItemType(
    id: nat, groundTile: bool, alwaysOnTop: bool, topOrder: nat, splash: bool, fluidContainer: bool, stackable: bool,
    charges: nat, mayBeReplaced: bool,
    blockSolid: bool, moveable: bool, blockPathFind: bool, magicField: bool, horizontal: bool, vertical: bool)

  /** The class of an item object, which stays when its type changes. */
  datatype Kind = Plain | TeleportItem | FieldItem | MailboxItem | TrashHolderItem | BedItem | DepotItem

  /** An item: the object that it is, and what is read from it. */
  datatype Item = Item(id: nat, kind: Kind, t: ItemType, count: nat, unique: bool)

  datatype Flag =
    | BLOCKSOLID | IMMOVABLEBLOCKSOLID | BLOCKPATH | NOFIELDBLOCKPATH | IMMOVABLEBLOCKPATH | IMMOVABLENOFIELDBLOCKPATH
    | TELEPORT | MAGICFIELD | MAILBOX | TRASHHOLDER | BED | DEPOT | SUPPORTS_HANGABLE

  /** Whether an item has the property, or is of the class, that a flag stands for. */
  predicate Shows(x: Item, f: Flag) {
    match f
    case BLOCKSOLID => x.t.blockSolid
    case IMMOVABLEBLOCKSOLID => x.t.blockSolid && (!x.t.moveable || x.unique)
    case BLOCKPATH => x.t.blockPathFind
    case NOFIELDBLOCKPATH => !x.t.magicField && x.t.blockPathFind
    case IMMOVABLEBLOCKPATH => x.t.blockPathFind && (!x.t.moveable || x.unique)
    case IMMOVABLENOFIELDBLOCKPATH => !x.t.magicField && x.t.blockPathFind && (!x.t.moveable || x.unique)
    case TELEPORT => x.kind.TeleportItem?
    case MAGICFIELD => x.kind.FieldItem?
    case MAILBOX => x.kind.MailboxItem?
    case TRASHHOLDER => x.kind.TrashHolderItem?
    case BED => x.kind.BedItem?
    case DEPOT => x.kind.DepotItem?
    case SUPPORTS_HANGABLE => x.t.horizontal || x.t.vertical
  }

  /** The flags that are cleared only when no other item has the property. */
  predicate Counted(f: Flag) {
    f in {BLOCKSOLID, IMMOVABLEBLOCKSOLID, BLOCKPATH, NOFIELDBLOCKPATH, IMMOVABLEBLOCKPATH, IMMOVABLENOFIELDBLOCKPATH}
  }

  // ---------------------------------------------------------------- the state of a tile

  datatype Thing = AnItem(item: Item) | ACreature(creature: nat)

  datatype State = State(ground: Option<Item>, items: seq<Item>, down: nat, creatures: seq<nat>, flags: set<Flag>)

  predicate OnTile(s: State, x: Item) {
    s.ground == Some(x) || x in s.items
  }

  predicate Someone(s: State, f: Flag) {
    (s.ground.Some? && Shows(s.ground.value, f)) || exists x <- s.items :: Shows(x, f)
  }

  /** Someone other than x. */
  predicate SomeoneBut(s: State, x: Item, f: Flag) {
    (s.ground.Some? && s.ground.value.id != x.id && Shows(s.ground.value, f))
      || exists y <- s.items :: y.id != x.id && Shows(y, f)
  }

  /** The down items stand before the top items, and their number is exact. */
  predicate Layout(s: State) {
    s.down <= |s.items| && forall i :: 0 <= i < |s.items| ==> (s.items[i].t.alwaysOnTop <==> s.down <= i)
  }

  predicate Sorted(s: State) {
    forall i, j :: s.down <= i < j < |s.items| ==> s.items[i].t.topOrder <= s.items[j].t.topOrder
  }

  predicate DistinctIds(items: seq<Item>) {
    forall i, j :: 0 <= i < j < |items| ==> items[i].id != items[j].id
  }

  predicate Absent(s: State, id: nat) {
    (s.ground.Some? ==> s.ground.value.id != id) && forall x <- s.items :: x.id != id
  }

  /** No thing stands on the tile twice. */
  predicate Distinct(s: State) {
    && DistinctIds(s.items)
    && (s.ground.Some? ==> forall x <- s.items :: x.id != s.ground.value.id)
    && forall i, j :: 0 <= i < j < |s.creatures| ==> s.creatures[i] != s.creatures[j]
  }

  /** What a flag says about the items on the tile. */
  predicate FlagSound(s: State, f: Flag) {
    if f == IMMOVABLEBLOCKPATH then f !in s.flags
    else if Counted(f) then f in s.flags <==> Someone(s, f)
    else f in s.flags ==> Someone(s, f)
  }

  ghost predicate FlagsSound(s: State) {
    forall f: Flag :: FlagSound(s, f)
  }

  /**
   * What holds whatever is done to a tile: a replaced or updated item may stand in the wrong part, but no flag is
   * wrong.
   */
  ghost predicate Sound(s: State) {
    s.down <= |s.items| && Distinct(s) && FlagsSound(s)
  }

  ghost predicate Inv(s: State) {
    Layout(s) && Sound(s)
  }

  // ---------------------------------------------------------------- positions

  function Size(s: State): nat
    requires s.down <= |s.items|
  {
    (if s.ground.Some? then 1 else 0) + |s.items| + |s.creatures|
  }

  /** The order in which a tile counts its things: ground, top items, creatures, down items. */
  function GetThing(s: State, index: nat): Option<Thing>
    requires s.down <= |s.items|
  {
    if s.ground.Some? && index == 0 then Some(AnItem(s.ground.value))
    else
      var i := index - if s.ground.Some? then 1 else 0;
      var top := |s.items| - s.down;
      if i < top then Some(AnItem(s.items[s.down + i]))
      else if i < top + |s.creatures| then Some(ACreature(s.creatures[i - top]))
      else if i - top - |s.creatures| < s.down then Some(AnItem(s.items[i - top - |s.creatures|]))
      else None
  }

  predicate Holds(s: State, x: Thing) {
    match x
    case AnItem(item) => OnTile(s, item)
    case ACreature(c) => c in s.creatures
  }

  lemma GetThingDefined(s: State, index: nat)
    requires s.down <= |s.items|
    ensures GetThing(s, index).Some? <==> index < Size(s)
    ensures index < Size(s) ==> Holds(s, GetThing(s, index).value)
  {
  }

  /** Different positions hold different things. */
  lemma GetThingInjective(s: State, i: nat, j: nat)
    requires Layout(s) && Distinct(s) && i < j < Size(s)
    ensures GetThing(s, i) != GetThing(s, j)
  {
  }

  // ---------------------------------------------------------------- the flag cache

  ghost predicate AfterSet(was: set<Flag>, now: set<Flag>, x: Item) {
    forall f: Flag :: f in now <==> f in was || (f != IMMOVABLEBLOCKPATH && Shows(x, f))
  }

  /** s is the tile whose other items are looked at. */
  ghost predicate AfterReset(was: set<Flag>, now: set<Flag>, x: Item, s: State) {
    forall f: Flag :: f in now <==> f in was && !(Shows(x, f) && (Counted(f) ==> !SomeoneBut(s, x, f)))
  }

  /** What setTileFlags does; it has no line for IMMOVABLEBLOCKPATH. */
  function SetFlags(s: State, x: Item): State {
    s.(flags := s.flags + set f: Flag | f != IMMOVABLEBLOCKPATH && Shows(x, f))
  }

  /** What resetTileFlags does. */
  function ResetFlags(s: State, x: Item): State {
    s.(flags := s.flags - set f: Flag | Shows(x, f) && (Counted(f) ==> !SomeoneBut(s, x, f)))
  }

  lemma SetIs(s: State, x: Item)
    ensures AfterSet(s.flags, SetFlags(s, x).flags, x)
  {
  }

  lemma ResetIs(s: State, x: Item)
    ensures AfterReset(s.flags, ResetFlags(s, x).flags, x, s)
  {
  }

  ghost predicate WithItem(s: State, s': State, x: Item) {
    forall y: Item :: OnTile(s', y) <==> OnTile(s, y) || y == x
  }

  ghost predicate WithoutItem(s: State, s': State, x: Item) {
    OnTile(s, x) && forall y: Item :: OnTile(s', y) <==> OnTile(s, y) && y != x
  }

  lemma SomeoneIs(s: State, f: Flag)
    ensures Someone(s, f) <==> exists y: Item :: OnTile(s, y) && Shows(y, f)
  {
    if Someone(s, f) {
      if s.ground.Some? && Shows(s.ground.value, f) {
        assert OnTile(s, s.ground.value);
      } else {
        var y :| y in s.items && Shows(y, f);
        assert OnTile(s, y);
      }
    }
  }

  lemma SomeoneButIs(s: State, x: Item, f: Flag)
    ensures SomeoneBut(s, x, f) <==> exists y: Item :: OnTile(s, y) && y.id != x.id && Shows(y, f)
  {
    if SomeoneBut(s, x, f) {
      if s.ground.Some? && s.ground.value.id != x.id && Shows(s.ground.value, f) {
        assert OnTile(s, s.ground.value);
      } else {
        var y :| y in s.items && y.id != x.id && Shows(y, f);
        assert OnTile(s, y);
      }
    }
  }

  lemma IdsAre(s: State, x: Item, y: Item)
    requires Distinct(s) && OnTile(s, x) && OnTile(s, y) && x.id == y.id
    ensures x == y
  {
  }

  lemma SetKeepsFlags(s: State, s': State, x: Item)
    requires FlagsSound(s) && WithItem(s, s', x) && AfterSet(s.flags, s'.flags, x)
    ensures FlagsSound(s')
  {
    forall f: Flag ensures FlagSound(s', f) {
      assert FlagSound(s, f);
      SomeoneIs(s, f);
      SomeoneIs(s', f);
      assert OnTile(s', x);
      if Someone(s, f) {
        var y :| OnTile(s, y) && Shows(y, f);
        assert OnTile(s', y);
      }
    }
  }

  lemma ResetKeepsFlags(s: State, s': State, x: Item)
    requires FlagsSound(s) && Distinct(s) && WithoutItem(s, s', x) && AfterReset(s.flags, s'.flags, x, s')
    ensures FlagsSound(s')
  {
    forall f: Flag ensures FlagSound(s', f) {
      ResetKeepsFlag(s, s', x, f);
    }
  }

  lemma ResetKeepsFlag(s: State, s': State, x: Item, f: Flag)
    requires FlagSound(s, f) && Distinct(s) && WithoutItem(s, s', x)
    requires f in s'.flags <==> f in s.flags && !(Shows(x, f) && (Counted(f) ==> !SomeoneBut(s', x, f)))
    ensures FlagSound(s', f)
  {
    SomeoneIs(s, f);
    SomeoneIs(s', f);
    SomeoneButIs(s', x, f);
    if Someone(s', f) {
      var y :| OnTile(s', y) && Shows(y, f);
      assert OnTile(s, y) && y != x;
      if y.id == x.id {
        IdsAre(s, x, y);
      }
    }
    if Someone(s, f) && !Shows(x, f) {
      var y :| OnTile(s, y) && Shows(y, f);
      assert OnTile(s', y);
    }
  }

  /** Replacing: x leaves and y comes; the items that are looked at in between may or may not count y. */
  lemma ReplaceKeepsFlags(s: State, m: State, s': State, x: Item, y: Item)
    requires FlagsSound(s) && Distinct(s) && Distinct(s') && OnTile(s, x)
    requires forall z: Item :: OnTile(s', z) <==> (OnTile(s, z) && z != x) || z == y
    requires forall z: Item :: OnTile(m, z) && z.id != x.id ==> OnTile(s', z)
    requires forall z: Item :: OnTile(s, z) && z != x ==> OnTile(m, z)
    requires AfterReset(s.flags, m.flags, x, m) && AfterSet(m.flags, s'.flags, y)
    ensures FlagsSound(s')
  {
    forall f: Flag ensures FlagSound(s', f) {
      assert FlagSound(s, f);
      SomeoneIs(s, f);
      SomeoneIs(s', f);
      SomeoneButIs(m, x, f);
      assert OnTile(s', y);
      if Someone(s', f) && !Shows(y, f) {
        var z :| OnTile(s', z) && Shows(z, f);
        assert OnTile(s, z) && z != x;
        if z.id == x.id {
          IdsAre(s, x, z);
        }
        assert OnTile(m, z);
      }
      if Someone(s, f) && !Shows(x, f) {
        var z :| OnTile(s, z) && Shows(z, f);
        assert OnTile(s', z);
      }
      if SomeoneBut(m, x, f) {
        var z :| OnTile(m, z) && z.id != x.id && Shows(z, f);
        assert OnTile(s', z);
      }
    }
  }

  // ---------------------------------------------------------------- when a flag is exact

  /** A flag is set exactly if someone shows it. */
  predicate Exact(s: State, f: Flag) {
    f in s.flags <==> Someone(s, f)
  }

  /** An uncounted flag is forgotten by removing an item exactly if another item shows it, too. */
  lemma TakeExactIff(s: State, s': State, x: Item, f: Flag)
    requires Distinct(s) && WithoutItem(s, s', x) && AfterReset(s.flags, s'.flags, x, s') && !Counted(f) && Exact(s, f)
    ensures Exact(s', f) <==> !(Shows(x, f) && SomeoneBut(s, x, f))
  {
    SomeoneIs(s, f);
    SomeoneIs(s', f);
    SomeoneButIs(s, x, f);
    if SomeoneBut(s, x, f) {
      var y :| OnTile(s, y) && y.id != x.id && Shows(y, f);
      assert OnTile(s', y);
    }
    if Someone(s', f) {
      var y :| OnTile(s', y) && Shows(y, f);
      if y.id == x.id {
        IdsAre(s, x, y);
      }
      assert SomeoneBut(s, x, f);
    }
  }

  /** An item that comes makes the flags exact that it shows, and leaves the others as they are. */
  lemma PutExactIff(s: State, s': State, x: Item, f: Flag)
    requires FlagSound(s, f) && WithItem(s, s', x) && AfterSet(s.flags, s'.flags, x) && f != IMMOVABLEBLOCKPATH
    ensures Exact(s', f) <==> Exact(s, f) || Shows(x, f)
  {
    SomeoneIs(s, f);
    SomeoneIs(s', f);
    assert OnTile(s', x);
    if Someone(s, f) {
      var y :| OnTile(s, y) && Shows(y, f);
      assert OnTile(s', y);
    }
  }

  /** An item that takes the place of another makes up for it if it shows the flag itself. */
  lemma SwapExactIff(s: State, m: State, s': State, x: Item, y: Item, f: Flag)
    requires Distinct(s) && OnTile(s, x) && !Counted(f) && Exact(s, f)
    requires forall z: Item :: OnTile(s', z) <==> (OnTile(s, z) && z != x) || z == y
    requires AfterReset(s.flags, m.flags, x, m) && AfterSet(m.flags, s'.flags, y)
    ensures Exact(s', f) <==> !(Shows(x, f) && !Shows(y, f) && SomeoneBut(s, x, f))
  {
    SomeoneIs(s, f);
    SomeoneIs(s', f);
    SomeoneButIs(s, x, f);
    assert OnTile(s', y);
    if SomeoneBut(s, x, f) {
      var z :| OnTile(s, z) && z.id != x.id && Shows(z, f);
      assert OnTile(s', z);
    }
    if Someone(s', f) && !Shows(y, f) {
      var z :| OnTile(s', z) && Shows(z, f);
      if z.id == x.id {
        IdsAre(s, x, z);
      }
      assert SomeoneBut(s, x, f);
    }
  }

  // ---------------------------------------------------------------- places in the vector

  function Insert<T>(items: seq<T>, k: nat, x: T): seq<T>
    requires k <= |items|
  {
    items[..k] + [x] + items[k..]
  }

  function Erase<T>(items: seq<T>, k: nat): seq<T>
    requires k < |items|
  {
    items[..k] + items[k + 1..]
  }

  /**
   * The first position from k on at which an item of the given order goes: before those of at least its order, or of a
   * greater one.
   */
  function TopPlace(items: seq<Item>, k: nat, order: nat, strict: bool): (r: nat)
    requires k <= |items|
    ensures k <= r <= |items|
    ensures forall j :: k <= j < r ==> items[j].t.topOrder <= order
    ensures forall j :: k <= j < r && !strict ==> items[j].t.topOrder < order
    ensures r < |items| ==> order <= items[r].t.topOrder && (strict ==> order < items[r].t.topOrder)
    decreases |items| - k
  {
    if k == |items| then k
    else if (if strict then items[k].t.topOrder > order else order <= items[k].t.topOrder) then k
    else TopPlace(items, k + 1, order, strict)
  }

  function FirstSplash(items: seq<Item>, k: nat): (r: nat)
    requires k <= |items|
    ensures k <= r <= |items|
    ensures r < |items| ==> items[r].t.splash
    ensures forall j :: k <= j < r ==> !items[j].t.splash
    decreases |items| - k
  {
    if k == |items| || items[k].t.splash then k else FirstSplash(items, k + 1)
  }

  /** The first field among the down items, or their number. */
  function FirstField(items: seq<Item>, k: nat, down: nat): (r: nat)
    requires k <= down <= |items|
    ensures k <= r <= down
    ensures r < down ==> items[r].kind.FieldItem?
    ensures forall j :: k <= j < r ==> !items[j].kind.FieldItem?
    decreases down - k
  {
    if k == down || items[k].kind.FieldItem? then k else FirstField(items, k + 1, down)
  }

  /** The position of an item in a range, or the end of the range. */
  function Position<T(==)>(items: seq<T>, k: nat, end: nat, x: T): (r: nat)
    requires k <= end <= |items|
    ensures k <= r <= end
    ensures r < end ==> items[r] == x
    ensures forall j :: k <= j < r ==> items[j] != x
    decreases end - k
  {
    if k == end || items[k] == x then k else Position(items, k + 1, end, x)
  }

  /** A place for an item: the ground, an index into the items, or nowhere. */
  datatype Slot = Ground | At(k: nat) | Nowhere

  predicate SlotIn(s: State, slot: Slot) {
    match slot
    case Ground => s.ground.Some?
    case At(k) => k < |s.items|
    case Nowhere => false
  }

  function Occupant(s: State, slot: Slot): Item
    requires SlotIn(s, slot)
  {
    if slot.Ground? then s.ground.value else s.items[slot.k]
  }

  /** Where the tile looks for an item: a top item only among the top items, and any other only among the down items. */
  function Spot(s: State, x: Item): (r: Slot)
    requires s.down <= |s.items|
    ensures !r.Nowhere? ==> SlotIn(s, r) && Occupant(s, r) == x
    ensures r.At? ==> s.ground != Some(x) && (x.t.alwaysOnTop <==> s.down <= r.k)
  {
    if s.ground == Some(x) then Ground
    else if x.t.alwaysOnTop then
      var k := Position(s.items, s.down, |s.items|, x);
      if k < |s.items| then At(k) else Nowhere
    else
      var k := Position(s.items, 0, s.down, x);
      if k < s.down then At(k) else Nowhere
  }

  /** With the parts of the vector in order, an item is found exactly if it is there. */
  lemma SpotIff(s: State, x: Item)
    requires Layout(s)
    ensures Spot(s, x).Nowhere? <==> !OnTile(s, x)
  {
    if OnTile(s, x) && s.ground != Some(x) {
      var i :| 0 <= i < |s.items| && s.items[i] == x;
      assert x.t.alwaysOnTop <==> s.down <= i;
    }
  }

  /** Where replaceThing puts its item. */
  function SlotOf(s: State, index: nat): (r: Slot)
    requires s.down <= |s.items|
    ensures !r.Nowhere? ==> SlotIn(s, r)
  {
    if s.ground.Some? && index == 0 then Ground
    else
      var i := index - if s.ground.Some? then 1 else 0;
      var top := |s.items| - s.down;
      if i < top then At(s.down + i)
      else if i < top + |s.creatures| then Nowhere
      else if i - top - |s.creatures| < s.down then At(i - top - |s.creatures|)
      else Nowhere
  }

  /** replaceThing replaces the item that getThing finds at the index, and nothing else. */
  lemma SlotIsPosition(s: State, index: nat)
    requires s.down <= |s.items|
    ensures var slot := SlotOf(s, index);
            if slot.Nowhere? then !GetThing(s, index).Some? || GetThing(s, index).value.ACreature?
            else GetThing(s, index) == Some(AnItem(Occupant(s, slot)))
  {
  }

  // ---------------------------------------------------------------- what the operations do

  /** An item in a place, whatever is there. */
  function Placed(s: State, slot: Slot, y: Item): (r: State)
    requires slot.At? ==> slot.k < |s.items|
    ensures r.flags == s.flags
  {
    match slot
    case Ground => s.(ground := Some(y))
    case At(k) => s.(items := s.items[k := y])
    case Nowhere => s
  }

  /** An item of the tile takes another shape: its flags are cleared before the change and set after it. */
  function Changed(s: State, slot: Slot, y: Item): State
    requires SlotIn(s, slot)
  {
    SetFlags(Placed(ResetFlags(s, Occupant(s, slot)), slot, y), y)
  }

  /** An item takes the place of another: the flags of the old one are cleared with the new one in place. */
  function Swapped(s: State, slot: Slot, y: Item): State
    requires SlotIn(s, slot)
  {
    SetFlags(ResetFlags(Placed(s, slot, y), Occupant(s, slot)), y)
  }

  /** The tile without the item at a position. */
  function Erased(s: State, k: nat): State
    requires k < |s.items|
  {
    s.(items := Erase(s.items, k), down := if k < s.down then s.down - 1 else s.down)
  }

  function Taken(s: State, slot: Slot): State
    requires SlotIn(s, slot)
  {
    ResetFlags(if slot.Ground? then s.(ground := None) else Erased(s, slot.k), Occupant(s, slot))
  }

  /** Whether removeThing takes the whole item off the tile. */
  predicate Whole(s: State, x: Item, count: nat) {
    s.ground == Some(x) || x.t.alwaysOnTop || !x.t.stackable || count == x.count
  }

  /** What is left of a stack: the difference in 32 bits, not below zero, and of that eight bits. */
  function Reduced(x: Item, count: nat): Item {
    var d := (x.count - count) % 0x1_0000_0000;
    x.(count := if d < 0x8000_0000 then d % 0x100 else 0)
  }

  lemma ReducedIs(x: Item, count: nat)
    requires count <= x.count < 0x100
    ensures Reduced(x, count) == x.(count := x.count - count)
  {
  }

  /** removeThing for an item: part of a stack, or the item. */
  function Removed(s: State, x: Item, count: nat): (r: State)
    requires s.down <= |s.items|
    ensures r.down <= |r.items|
  {
    var slot := Spot(s, x);
    if slot.Nowhere? then s
    else if Whole(s, x, count) then Taken(s, slot)
    else Placed(s, slot, Reduced(x, count))
  }

  /** An old splash makes room for a new one. */
  function Unsplashed(s: State): (r: State)
    requires s.down <= |s.items|
    ensures r.down <= |r.items|
  {
    var k := FirstSplash(s.items, s.down);
    if k < |s.items| then Removed(s, s.items[k], 1) else s
  }

  function PutDown(s: State, x: Item): State {
    SetFlags(s.(items := [x] + s.items, down := s.down + 1), x)
  }

  function PutTop(s: State, x: Item, strict: bool): State
    requires s.down <= |s.items|
  {
    SetFlags(s.(items := Insert(s.items, TopPlace(s.items, s.down, x.t.topOrder, strict), x)), x)
  }

  function PutGround(s: State, x: Item): State {
    if s.ground.Some? then Swapped(s, Ground, x) else SetFlags(s.(ground := Some(x)), x)
  }

  const MAX_ITEMS := 0xFFFF

  /** addThing for an item. */
  function Added(s: State, x: Item): (r: State)
    requires s.down <= |s.items|
    ensures r.down <= |r.items|
  {
    if |s.items| >= MAX_ITEMS then s
    else if x.t.groundTile then PutGround(s, x)
    else if x.t.alwaysOnTop then PutTop(if x.t.splash then Unsplashed(s) else s, x, false)
    else if x.t.magicField && FirstField(s.items, 0, s.down) < s.down then
      var field := s.items[FirstField(s.items, 0, s.down)];
      if field.t.mayBeReplaced then PutDown(Removed(s, field, 1), x) else s
    else PutDown(s, x)
  }

  /** internalAddThing for an item: it never replaces anything. */
  function InternallyAdded(s: State, x: Item): (r: State)
    requires s.down <= |s.items|
    ensures r.down <= |r.items|
  {
    if x.t.groundTile then (if s.ground.None? then SetFlags(s.(ground := Some(x)), x) else s)
    else if |s.items| >= MAX_ITEMS then s
    else if x.t.alwaysOnTop then PutTop(s, x, true)
    else PutDown(s, x)
  }

  /**
   * setID and setSubType: the number is a fluid, a count of eight bits, or a number of charges; only the count is kept
   * here.
   */
  function Retyped(x: Item, t: ItemType, n: nat): Item {
    if t.fluidContainer || t.splash then x.(t := t)
    else if !t.stackable && t.charges != 0 then x.(t := t)
    else x.(t := t, count := n % 0x100)
  }

  /** updateThing. */
  function Updated(s: State, x: Item, t: ItemType, n: nat): (r: State)
    requires s.down <= |s.items|
    ensures r.down <= |r.items|
  {
    var slot := Spot(s, x);
    if slot.Nowhere? then s else Changed(s, slot, Retyped(x, t, n))
  }

  /** replaceThing. */
  function Replaced(s: State, index: nat, y: Item): (r: State)
    requires s.down <= |s.items|
    ensures r.down <= |r.items|
  {
    var slot := SlotOf(s, index);
    if slot.Nowhere? then s else Swapped(s, slot, y)
  }

  function WithCreature(s: State, c: nat): State {
    s.(creatures := [c] + s.creatures)
  }

  function WithoutCreature(s: State, c: nat): State {
    var k := Position(s.creatures, 0, |s.creatures|, c);
    if k < |s.creatures| then s.(creatures := Erase(s.creatures, k)) else s
  }

  // ---------------------------------------------------------------- what each change keeps

  lemma InsertMembers(items: seq<Item>, k: nat, x: Item)
    requires k <= |items|
    ensures forall y: Item :: y in Insert(items, k, x) <==> y in items || y == x
  {
    var r := Insert(items, k, x);
    assert r[k] == x;
    forall y: Item | y in items ensures y in r {
      var i :| 0 <= i < |items| && items[i] == y;
      assert r[if i < k then i else i + 1] == y;
    }
  }

  lemma InsertKeepsIds(items: seq<Item>, k: nat, x: Item)
    requires k <= |items| && DistinctIds(items) && forall y <- items :: y.id != x.id
    ensures DistinctIds(Insert(items, k, x))
    ensures forall y: Item :: y in Insert(items, k, x) <==> y in items || y == x
  {
    InsertMembers(items, k, x);
    var r := Insert(items, k, x);
    forall i, j | 0 <= i < j < |r| ensures r[i].id != r[j].id {
      if i != k && j != k {
        assert r[i] == items[if i < k then i else i - 1] && r[j] == items[if j < k then j else j - 1];
      }
    }
  }

  lemma EraseKeepsIds(items: seq<Item>, k: nat)
    requires k < |items| && DistinctIds(items)
    ensures DistinctIds(Erase(items, k))
    ensures forall y: Item :: y in Erase(items, k) <==> y in items && y != items[k]
  {
    var r := Erase(items, k);
    assert forall i :: 0 <= i < k ==> r[i] == items[i];
    assert forall i :: k <= i < |r| ==> r[i] == items[i + 1];
    forall y: Item | y in items && y != items[k] ensures y in r {
      var i :| 0 <= i < |items| && items[i] == y;
      assert r[if i < k then i else i - 1] == y;
    }
  }

  /** A top item goes into the second part, in order. */
  lemma PutTopKeeps(s: State, x: Item, strict: bool)
    requires s.down <= |s.items| && Distinct(s) && Absent(s, x.id)
    ensures var s' := PutTop(s, x, strict);
            && Distinct(s') && WithItem(s, s', x)
            && (Layout(s) && x.t.alwaysOnTop ==> Layout(s'))
            && (Sorted(s) ==> Sorted(s'))
  {
    InsertKeepsIds(s.items, TopPlace(s.items, s.down, x.t.topOrder, strict), x);
    if Sorted(s) {
      InsertKeepsOrder(s, x, strict);
    }
    if Layout(s) && x.t.alwaysOnTop {
      InsertKeepsLayout(s, x, strict);
    }
  }

  lemma InsertKeepsLayout(s: State, x: Item, strict: bool)
    requires Layout(s) && x.t.alwaysOnTop
    ensures Layout(PutTop(s, x, strict))
  {
    var k := TopPlace(s.items, s.down, x.t.topOrder, strict);
    var r := PutTop(s, x, strict).items;
    forall i | 0 <= i < |r| ensures r[i].t.alwaysOnTop <==> s.down <= i {
      assert r[i] == if i < k then s.items[i] else if i == k then x else s.items[i - 1];
    }
  }

  lemma InsertKeepsOrder(s: State, x: Item, strict: bool)
    requires s.down <= |s.items| && Sorted(s)
    ensures Sorted(PutTop(s, x, strict))
  {
    var k := TopPlace(s.items, s.down, x.t.topOrder, strict);
    var r := PutTop(s, x, strict).items;
    forall i, j | s.down <= i < j < |r| ensures r[i].t.topOrder <= r[j].t.topOrder {
      if j <= k {
        assert r[i] == s.items[i] && r[j] == if j < k then s.items[j] else x;
      } else {
        assert r[j] == s.items[j - 1];
        if i < k {
          assert r[i] == s.items[i];
        } else if i > k {
          assert r[i] == s.items[i - 1];
        }
      }
    }
  }

  lemma PutDownKeeps(s: State, x: Item)
    requires s.down <= |s.items| && Distinct(s) && Absent(s, x.id)
    ensures var s' := PutDown(s, x);
            && Distinct(s') && WithItem(s, s', x)
            && (Layout(s) && !x.t.alwaysOnTop ==> Layout(s'))
            && (Sorted(s) ==> Sorted(s'))
  {
    InsertKeepsIds(s.items, 0, x);
    assert Insert(s.items, 0, x) == [x] + s.items;
  }

  lemma PutTopSound(s: State, x: Item, strict: bool)
    requires Sound(s) && Absent(s, x.id)
    ensures Sound(PutTop(s, x, strict))
  {
    PutTopKeeps(s, x, strict);
    PutTopFlags(s, x, strict);
    SetKeepsFlags(s, PutTop(s, x, strict), x);
  }

  lemma PutTopFlags(s: State, x: Item, strict: bool)
    requires s.down <= |s.items|
    ensures AfterSet(s.flags, PutTop(s, x, strict).flags, x)
  {
    SetIs(s.(items := Insert(s.items, TopPlace(s.items, s.down, x.t.topOrder, strict), x)), x);
  }

  lemma PutDownSound(s: State, x: Item)
    requires Sound(s) && Absent(s, x.id)
    ensures Sound(PutDown(s, x))
  {
    PutDownKeeps(s, x);
    PutDownFlags(s, x);
    SetKeepsFlags(s, PutDown(s, x), x);
  }

  lemma PutDownFlags(s: State, x: Item)
    ensures AfterSet(s.flags, PutDown(s, x).flags, x)
  {
    SetIs(s.(items := [x] + s.items, down := s.down + 1), x);
  }

  /** Taking any item off keeps the two parts, their count and the order, and takes only that item. */
  lemma TakenKeeps(s: State, slot: Slot)
    requires s.down <= |s.items| && Distinct(s) && SlotIn(s, slot)
    ensures var s' := Taken(s, slot);
            && s'.down <= |s'.items| && Distinct(s') && WithoutItem(s, s', Occupant(s, slot))
            && (Layout(s) ==> Layout(s'))
            && (Sorted(s) ==> Sorted(s'))
  {
    assert OnTile(s, Occupant(s, slot));
    if slot.At? {
      var r := Erase(s.items, slot.k);
      EraseKeepsIds(s.items, slot.k);
      assert forall i :: 0 <= i < slot.k ==> r[i] == s.items[i];
      assert forall i :: slot.k <= i < |r| ==> r[i] == s.items[i + 1];
    }
  }

  lemma TakenFlags(s: State, slot: Slot)
    requires SlotIn(s, slot)
    ensures AfterReset(s.flags, Taken(s, slot).flags, Occupant(s, slot), Taken(s, slot))
  {
    var raw := if slot.Ground? then s.(ground := None) else Erased(s, slot.k);
    ResetIs(raw, Occupant(s, slot));
    SameItems(raw, Taken(s, slot), Occupant(s, slot));
  }

  /** Who shows a flag depends on the items alone. */
  lemma SameItems(s: State, s': State, x: Item)
    requires s.ground == s'.ground && s.items == s'.items
    ensures forall f: Flag :: SomeoneBut(s, x, f) <==> SomeoneBut(s', x, f)
  {
  }

  lemma TakenSound(s: State, slot: Slot)
    requires Sound(s) && SlotIn(s, slot)
    ensures Sound(Taken(s, slot))
  {
    TakenKeeps(s, slot);
    TakenFlags(s, slot);
    ResetKeepsFlags(s, Taken(s, slot), Occupant(s, slot));
  }

  /** A place for an item that is new to the tile, or is the one in that place. */
  predicate Free(s: State, slot: Slot, id: nat)
    requires SlotIn(s, slot)
  {
    Absent(s, id) || Occupant(s, slot).id == id
  }

  lemma PlacedKeeps(s: State, slot: Slot, y: Item)
    requires s.down <= |s.items| && Distinct(s) && SlotIn(s, slot) && Free(s, slot, y.id)
    ensures Distinct(Placed(s, slot, y))
    ensures forall z: Item :: OnTile(Placed(s, slot, y), z) <==> (OnTile(s, z) && z != Occupant(s, slot)) || z == y
  {
    if slot.At? {
      var k, s' := slot.k, Placed(s, slot, y);
      forall z: Item ensures z in s'.items <==> (z in s.items && z != s.items[k]) || z == y {
        if z in s.items && z != s.items[k] {
          var i :| 0 <= i < |s.items| && s.items[i] == z;
          assert s'.items[i] == z;
        }
        assert s'.items[k] == y;
      }
    }
  }

  /** Whether an item may stand in a place without upsetting the two parts of the vector. */
  predicate Fits(s: State, slot: Slot, y: Item)
    requires !slot.Nowhere? ==> SlotIn(s, slot)
  {
    slot.At? ==> y.t.alwaysOnTop == s.items[slot.k].t.alwaysOnTop
  }

  /** Whether an item may stand between its neighbours among the top items. */
  predicate InOrder(s: State, slot: Slot, y: Item)
    requires !slot.Nowhere? ==> SlotIn(s, slot)
  {
    slot.At? && s.down <= slot.k ==>
      && (s.down < slot.k ==> s.items[slot.k - 1].t.topOrder <= y.t.topOrder)
      && (slot.k + 1 < |s.items| ==> y.t.topOrder <= s.items[slot.k + 1].t.topOrder)
  }

  lemma PlacedLayoutIff(s: State, slot: Slot, y: Item)
    requires Layout(s) && SlotIn(s, slot)
    ensures Layout(Placed(s, slot, y)) <==> Fits(s, slot, y)
  {
    if slot.At? && !Fits(s, slot, y) {
      assert Placed(s, slot, y).items[slot.k].t.alwaysOnTop <==> !(s.down <= slot.k);
    }
  }

  lemma PlacedSortedIff(s: State, slot: Slot, y: Item)
    requires s.down <= |s.items| && Sorted(s) && SlotIn(s, slot)
    ensures Sorted(Placed(s, slot, y)) <==> InOrder(s, slot, y)
  {
    if slot.At? && s.down <= slot.k {
      var k, items := slot.k, Placed(s, slot, y).items;
      if Sorted(Placed(s, slot, y)) {
        if s.down < k {
          assert items[k - 1].t.topOrder <= items[k].t.topOrder;
        }
        if k + 1 < |items| {
          assert items[k].t.topOrder <= items[k + 1].t.topOrder;
        }
      }
    }
  }

  lemma ChangedFlags(s: State, slot: Slot, y: Item)
    requires SlotIn(s, slot)
    ensures var x := Occupant(s, slot); var m := ResetFlags(s, x);
            AfterReset(s.flags, m.flags, x, m) && AfterSet(m.flags, Changed(s, slot, y).flags, y)
  {
    var x := Occupant(s, slot);
    var m := ResetFlags(s, x);
    ResetIs(s, x);
    SameItems(s, m, x);
    SetIs(Placed(m, slot, y), y);
  }

  lemma SwappedFlags(s: State, slot: Slot, y: Item)
    requires SlotIn(s, slot)
    ensures var x := Occupant(s, slot); var m := ResetFlags(Placed(s, slot, y), x);
            AfterReset(s.flags, m.flags, x, m) && AfterSet(m.flags, Swapped(s, slot, y).flags, y)
  {
    var x := Occupant(s, slot);
    var m := ResetFlags(Placed(s, slot, y), x);
    ResetIs(Placed(s, slot, y), x);
    SameItems(Placed(s, slot, y), m, x);
    SetIs(m, y);
  }

  lemma SameShapeMembers(s: State, s': State)
    requires s.ground == s'.ground && s.items == s'.items
    ensures forall z: Item :: OnTile(s, z) <==> OnTile(s', z)
  {
  }

  lemma ChangedSound(s: State, slot: Slot, y: Item)
    requires Sound(s) && SlotIn(s, slot) && Occupant(s, slot).id == y.id
    ensures Sound(Changed(s, slot, y))
  {
    var x := Occupant(s, slot);
    PlacedKeeps(s, slot, y);
    ChangedFlags(s, slot, y);
    SameShapeMembers(Placed(s, slot, y), Changed(s, slot, y));
    SameShapeMembers(s, ResetFlags(s, x));
    ReplaceKeepsFlags(s, ResetFlags(s, x), Changed(s, slot, y), x, y);
  }

  lemma SwappedSound(s: State, slot: Slot, y: Item)
    requires Sound(s) && SlotIn(s, slot) && Absent(s, y.id)
    ensures Sound(Swapped(s, slot, y))
  {
    var x := Occupant(s, slot);
    PlacedKeeps(s, slot, y);
    SwappedFlags(s, slot, y);
    SameShapeMembers(Placed(s, slot, y), Swapped(s, slot, y));
    SameShapeMembers(Placed(s, slot, y), ResetFlags(Placed(s, slot, y), x));
    ReplaceKeepsFlags(s, ResetFlags(Placed(s, slot, y), x), Swapped(s, slot, y), x, y);
  }

  /** A stack that gets smaller shows what it showed. */
  lemma ReducedSound(s: State, slot: Slot, count: nat)
    requires Sound(s) && SlotIn(s, slot)
    ensures var s' := Placed(s, slot, Reduced(Occupant(s, slot), count));
            Sound(s') && forall f: Flag :: Someone(s, f) <==> Someone(s', f)
  {
    var x := Occupant(s, slot);
    var y := Reduced(x, count);
    var s' := Placed(s, slot, y);
    PlacedKeeps(s, slot, y);
    forall f: Flag ensures Someone(s, f) <==> Someone(s', f) {
      SomeoneSwapped(s, s', x, y, f);
    }
    forall f: Flag ensures FlagSound(s', f) {
      assert FlagSound(s, f);
    }
  }

  lemma SomeoneSwapped(s: State, s': State, x: Item, y: Item, f: Flag)
    requires OnTile(s, x) && (Shows(x, f) <==> Shows(y, f))
    requires forall z: Item :: OnTile(s', z) <==> (OnTile(s, z) && z != x) || z == y
    ensures Someone(s, f) <==> Someone(s', f)
  {
    SomeoneIs(s, f);
    SomeoneIs(s', f);
    assert OnTile(s', y);
    if Someone(s, f) {
      var z :| OnTile(s, z) && Shows(z, f);
      assert z == x || OnTile(s', z);
    }
  }

  lemma RemovedSound(s: State, x: Item, count: nat)
    requires Sound(s)
    ensures Sound(Removed(s, x, count))
  {
    var slot := Spot(s, x);
    if !slot.Nowhere? {
      TakenSound(s, slot);
      ReducedSound(s, slot, count);
    }
  }

  lemma RemovedKeeps(s: State, x: Item, count: nat)
    requires s.down <= |s.items| && Distinct(s)
    ensures var s' := Removed(s, x, count);
            && (Layout(s) ==> Layout(s'))
            && (Sorted(s) ==> Sorted(s'))
  {
    var slot := Spot(s, x);
    if !slot.Nowhere? {
      TakenKeeps(s, slot);
    }
  }

  lemma AbsentIs(s: State, id: nat)
    ensures Absent(s, id) <==> forall z: Item :: OnTile(s, z) ==> z.id != id
  {
    if forall z: Item :: OnTile(s, z) ==> z.id != id {
      if s.ground.Some? {
        assert OnTile(s, s.ground.value);
      }
      forall x <- s.items ensures x.id != id {
        assert OnTile(s, x);
      }
    }
  }

  lemma StillAbsent(s: State, x: Item, count: nat, id: nat)
    requires s.down <= |s.items| && Distinct(s) && Absent(s, id)
    ensures Absent(Removed(s, x, count), id)
  {
    AbsentIs(s, id);
    AbsentIs(Removed(s, x, count), id);
    RemovedMembers(s, x, count);
  }

  /** The item itself, if the tile finds it. */
  function Found(s: State, x: Item): Option<Item>
    requires s.down <= |s.items|
  {
    if Spot(s, x).Nowhere? then None else Some(x)
  }

  function Left(s: State, x: Item, count: nat): set<Item>
    requires s.down <= |s.items|
  {
    if Spot(s, x).Nowhere? || Whole(s, x, count) then {} else {Reduced(x, count)}
  }

  ghost predicate Exchanged(s: State, s': State, leaving: Option<Item>, arriving: set<Item>) {
    forall z: Item :: OnTile(s', z) <==> (OnTile(s, z) && leaving != Some(z)) || z in arriving
  }

  lemma RemovedMembers(s: State, x: Item, count: nat)
    requires s.down <= |s.items| && Distinct(s)
    ensures Exchanged(s, Removed(s, x, count), Found(s, x), Left(s, x, count))
    ensures Found(s, x).Some? ==> OnTile(s, x)
  {
    var slot := Spot(s, x);
    if !slot.Nowhere? {
      if Whole(s, x, count) {
        TakenKeeps(s, slot);
      } else {
        PlacedKeeps(s, slot, Reduced(x, count));
      }
    }
  }

  // ---------------------------------------------------------------- operations and runs

  datatype Op =
    | Add(x: Item) | InternalAdd(x: Item) | Remove(x: Item, count: nat) | Update(x: Item, t: ItemType, n: nat)
    | Replace(index: nat, x: Item) | AddCreature(c: nat) | RemoveCreature(c: nat)

  function Apply(s: State, op: Op): (r: State)
    requires s.down <= |s.items|
    ensures r.down <= |r.items|
  {
    match op
    case Add(x) => Added(s, x)
    case InternalAdd(x) => InternallyAdded(s, x)
    case Remove(x, count) => Removed(s, x, count)
    case Update(x, t, n) => Updated(s, x, t, n)
    case Replace(index, x) => Replaced(s, index, x)
    case AddCreature(c) => WithCreature(s, c)
    case RemoveCreature(c) => WithoutCreature(s, c)
  }

  /** A thing that comes is not on the tile yet. */
  predicate Enabled(s: State, op: Op) {
    match op
    case Add(x) => Absent(s, x.id)
    case InternalAdd(x) => Absent(s, x.id)
    case Replace(_, x) => Absent(s, x.id)
    case AddCreature(c) => c !in s.creatures
    case _ => true
  }

  /** A full tile takes nothing, and a field that may not be replaced lets no other field in. */
  predicate Refused(s: State, x: Item)
    requires s.down <= |s.items|
  {
    || |s.items| >= MAX_ITEMS
    || (!x.t.groundTile && !x.t.alwaysOnTop && x.t.magicField
        && FirstField(s.items, 0, s.down) < s.down && !s.items[FirstField(s.items, 0, s.down)].t.mayBeReplaced)
  }

  /** The item that makes room for one that is added: the old ground, an old splash, or an old field. */
  function Displaced(s: State, x: Item): Option<Item>
    requires s.down <= |s.items|
  {
    if x.t.groundTile then s.ground
    else if x.t.alwaysOnTop then
      if x.t.splash && FirstSplash(s.items, s.down) < |s.items| then Some(s.items[FirstSplash(s.items, s.down)])
        else None
    else if x.t.magicField && FirstField(s.items, 0, s.down) < s.down then Some(s.items[FirstField(s.items, 0, s.down)])
    else None
  }

  function Leaving(s: State, op: Op): Option<Item>
    requires s.down <= |s.items|
  {
    match op
    case Add(x) => if Refused(s, x) || Displaced(s, x).None? then None else Found(s, Displaced(s, x).value)
    case Remove(x, _) => Found(s, x)
    case Update(x, _, _) => Found(s, x)
    case Replace(index, _) => if SlotOf(s, index).Nowhere? then None else Some(Occupant(s, SlotOf(s, index)))
    case _ => None
  }

  function Arriving(s: State, op: Op): set<Item>
    requires s.down <= |s.items|
  {
    match op
    case Add(x) => if Refused(s, x) then {} else {x} + if Displaced(s, x).None? then {}
      else Left(s, Displaced(s, x).value, 1)
    case InternalAdd(x) => if (if x.t.groundTile then s.ground.Some? else |s.items| >= MAX_ITEMS) then {} else {x}
    case Remove(x, count) => Left(s, x, count)
    case Update(x, t, n) => if Spot(s, x).Nowhere? then {} else {Retyped(x, t, n)}
    case Replace(index, x) => if SlotOf(s, index).Nowhere? then {} else {x}
    case _ => {}
  }

  /** An item comes onto a tile from which another one may have been taken before. */
  lemma Joined(s: State, s': State, s'': State, leaving: Option<Item>, arriving: set<Item>, x: Item)
    requires Exchanged(s, s', leaving, arriving) && WithItem(s', s'', x)
    ensures Exchanged(s, s'', leaving, {x} + arriving)
  {
  }

  lemma Untouched(s: State)
    ensures Exchanged(s, s, None, {})
  {
  }

  lemma AddedMembers(s: State, x: Item)
    requires s.down <= |s.items| && Distinct(s) && Absent(s, x.id)
    ensures Exchanged(s, Added(s, x), Leaving(s, Add(x)), Arriving(s, Add(x)))
  {
    var d := Displaced(s, x);
    if Refused(s, x) {
      Untouched(s);
    } else if x.t.groundTile {
      GroundMembers(s, x);
    } else {
      var s' := if d.None? then s else Removed(s, d.value, 1);
      if d.None? {
        Untouched(s);
      } else {
        RemovedMembers(s, d.value, 1);
        RemovedDistinct(s, d.value, 1);
        StillAbsent(s, d.value, 1, x.id);
      }
      var s'' := if x.t.alwaysOnTop then PutTop(s', x, false) else PutDown(s', x);
      PutTopKeeps(s', x, false);
      PutDownKeeps(s', x);
      Joined(s, s', s'', Leaving(s, Add(x)), if d.None? then {} else Left(s, d.value, 1), x);
    }
  }

  lemma GroundMembers(s: State, x: Item)
    requires s.down <= |s.items| && Distinct(s) && Absent(s, x.id)
    ensures Exchanged(s, PutGround(s, x), s.ground, {x})
  {
    if s.ground.Some? {
      PlacedKeeps(s, Ground, x);
      SameShapeMembers(Placed(s, Ground, x), Swapped(s, Ground, x));
    }
  }

  lemma RemovedDistinct(s: State, x: Item, count: nat)
    requires s.down <= |s.items| && Distinct(s)
    ensures Distinct(Removed(s, x, count))
  {
    var slot := Spot(s, x);
    if !slot.Nowhere? {
      TakenKeeps(s, slot);
      PlacedKeeps(s, slot, Reduced(x, count));
    }
  }

  /** Every operation takes at most one item off, brings just what it names, and touches nothing else. */
  lemma MembersAre(s: State, op: Op)
    requires s.down <= |s.items| && Distinct(s) && Enabled(s, op)
    ensures Exchanged(s, Apply(s, op), Leaving(s, op), Arriving(s, op))
  {
    match op
    case Add(x) => AddedMembers(s, x);
    case InternalAdd(x) =>
      PutTopKeeps(s, x, true);
      PutDownKeeps(s, x);
      GroundMembers(s, x);
    case Remove(x, count) => RemovedMembers(s, x, count);
    case Update(x, t, n) =>
      var slot := Spot(s, x);
      if !slot.Nowhere? {
        PlacedKeeps(s, slot, Retyped(x, t, n));
        SameShapeMembers(Placed(s, slot, Retyped(x, t, n)), Changed(s, slot, Retyped(x, t, n)));
      }
    case Replace(index, x) =>
      var slot := SlotOf(s, index);
      if !slot.Nowhere? {
        PlacedKeeps(s, slot, x);
        SameShapeMembers(Placed(s, slot, x), Swapped(s, slot, x));
      }
    case AddCreature(c) => SameShapeMembers(s, WithCreature(s, c));
    case RemoveCreature(c) => SameShapeMembers(s, WithoutCreature(s, c));
  }

  lemma PutGroundSound(s: State, x: Item)
    requires Sound(s) && Absent(s, x.id)
    ensures Sound(PutGround(s, x))
  {
    if s.ground.Some? {
      SwappedSound(s, Ground, x);
    } else {
      var raw := s.(ground := Some(x));
      SetIs(raw, x);
      SetKeepsFlags(s, SetFlags(raw, x), x);
    }
  }

  lemma AddedSound(s: State, x: Item)
    requires Sound(s) && Absent(s, x.id)
    ensures Sound(Added(s, x))
  {
    var d := Displaced(s, x);
    var s' := if d.None? then s else Removed(s, d.value, 1);
    if x.t.groundTile {
      PutGroundSound(s, x);
    } else {
      if d.Some? {
        RemovedSound(s, d.value, 1);
        StillAbsent(s, d.value, 1, x.id);
      }
      PutTopSound(s', x, false);
      PutDownSound(s', x);
    }
  }

  lemma CreaturesSound(s: State, s': State)
    requires Sound(s) && s' == s.(creatures := s'.creatures)
    requires forall i, j :: 0 <= i < j < |s'.creatures| ==> s'.creatures[i] != s'.creatures[j]
    ensures Sound(s')
  {
    forall f: Flag ensures FlagSound(s', f) {
      assert FlagSound(s, f);
    }
  }

  /** No operation makes a flag wrong or lets a thing stand on the tile twice. */
  lemma ApplySound(s: State, op: Op)
    requires Sound(s) && Enabled(s, op)
    ensures Sound(Apply(s, op))
  {
    match op
    case Add(x) => AddedSound(s, x);
    case InternalAdd(x) =>
      PutTopSound(s, x, true);
      PutDownSound(s, x);
      PutGroundSound(s, x);
    case Remove(x, count) => RemovedSound(s, x, count);
    case Update(x, t, n) =>
      var slot := Spot(s, x);
      if !slot.Nowhere? {
        ChangedSound(s, slot, Retyped(x, t, n));
      }
    case Replace(index, x) =>
      var slot := SlotOf(s, index);
      if !slot.Nowhere? {
        SwappedSound(s, slot, x);
      }
    case AddCreature(c) => CreaturesSound(s, WithCreature(s, c));
    case RemoveCreature(c) => CreaturesSound(s, WithoutCreature(s, c));
  }

  /** Whether an operation leaves every item in the part of the vector where it belongs. */
  predicate Fitting(s: State, op: Op)
    requires s.down <= |s.items|
  {
    match op
    case Update(x, t, n) => Fits(s, Spot(s, x), Retyped(x, t, n))
    case Replace(index, x) => Fits(s, SlotOf(s, index), x)
    case _ => true
  }

  predicate Ordering(s: State, op: Op)
    requires s.down <= |s.items|
  {
    match op
    case Update(x, t, n) => InOrder(s, Spot(s, x), Retyped(x, t, n))
    case Replace(index, x) => InOrder(s, SlotOf(s, index), x)
    case _ => true
  }

  lemma AddedKeeps(s: State, x: Item)
    requires s.down <= |s.items| && Distinct(s) && Absent(s, x.id)
    ensures Layout(s) ==> Layout(Added(s, x))
    ensures Sorted(s) ==> Sorted(Added(s, x))
  {
    var d := Displaced(s, x);
    if !x.t.groundTile {
      if d.Some? {
        RemovedKeeps(s, d.value, 1);
        RemovedDistinct(s, d.value, 1);
        StillAbsent(s, d.value, 1, x.id);
        PutKeeps(Removed(s, d.value, 1), x);
      } else {
        PutKeeps(s, x);
      }
    }
  }

  lemma PutKeeps(s: State, x: Item)
    requires s.down <= |s.items| && Distinct(s) && Absent(s, x.id)
    ensures var s' := if x.t.alwaysOnTop then PutTop(s, x, false) else PutDown(s, x);
            (Layout(s) ==> Layout(s')) && (Sorted(s) ==> Sorted(s'))
  {
    if x.t.alwaysOnTop {
      PutTopKeeps(s, x, false);
    } else {
      PutDownKeeps(s, x);
    }
  }

  /** The parts of the vector stay in order exactly if no item gets a type of the other part. */
  lemma LayoutIff(s: State, op: Op)
    requires Layout(s) && Distinct(s) && Enabled(s, op)
    ensures Layout(Apply(s, op)) <==> Fitting(s, op)
  {
    match op
    case Add(x) => AddedKeeps(s, x);
    case InternalAdd(x) =>
      PutTopKeeps(s, x, true);
      PutDownKeeps(s, x);
    case Remove(x, count) => RemovedKeeps(s, x, count);
    case Update(x, t, n) =>
      var slot := Spot(s, x);
      if !slot.Nowhere? {
        PlacedLayoutIff(s, slot, Retyped(x, t, n));
      }
    case Replace(index, x) =>
      var slot := SlotOf(s, index);
      if !slot.Nowhere? {
        PlacedLayoutIff(s, slot, x);
      }
    case _ =>
  }

  /** The top items stay sorted exactly if an item that changes in its place still stands between its neighbours. */
  lemma SortedIff(s: State, op: Op)
    requires s.down <= |s.items| && Distinct(s) && Enabled(s, op) && Sorted(s)
    ensures Sorted(Apply(s, op)) <==> Ordering(s, op)
  {
    match op
    case Add(x) => AddedKeeps(s, x);
    case InternalAdd(x) =>
      PutTopKeeps(s, x, true);
      PutDownKeeps(s, x);
    case Remove(x, count) => RemovedKeeps(s, x, count);
    case Update(x, t, n) =>
      var slot := Spot(s, x);
      if !slot.Nowhere? {
        PlacedSortedIff(s, slot, Retyped(x, t, n));
      }
    case Replace(index, x) =>
      var slot := SlotOf(s, index);
      if !slot.Nowhere? {
        PlacedSortedIff(s, slot, x);
      }
    case _ =>
  }

  /** Whether an operation clears an uncounted flag that an item still shows. */
  predicate Forgets(s: State, op: Op, f: Flag)
    requires s.down <= |s.items|
  {
    var x := Leaving(s, op);
    x.Some? && Shows(x.value, f) && SomeoneBut(s, x.value, f) && forall y <- Arriving(s, op) :: !Shows(y, f)
  }

  lemma RemovedExactIff(s: State, x: Item, count: nat, f: Flag)
    requires Sound(s) && !Counted(f) && Exact(s, f)
    ensures Exact(Removed(s, x, count), f) <==> !Forgets(s, Remove(x, count), f)
  {
    var slot := Spot(s, x);
    if !slot.Nowhere? {
      if Whole(s, x, count) {
        TakenKeeps(s, slot);
        TakenFlags(s, slot);
        TakeExactIff(s, Taken(s, slot), x, f);
      } else {
        ReducedSound(s, slot, count);
        assert Reduced(x, count) in Arriving(s, Remove(x, count));
      }
    }
  }

  lemma SwappedExactIff(s: State, slot: Slot, y: Item, f: Flag)
    requires Sound(s) && SlotIn(s, slot) && Absent(s, y.id) && !Counted(f) && Exact(s, f)
    ensures var x := Occupant(s, slot);
            Exact(Swapped(s, slot, y), f) <==> !(Shows(x, f) && !Shows(y, f) && SomeoneBut(s, x, f))
  {
    var x := Occupant(s, slot);
    PlacedKeeps(s, slot, y);
    SwappedFlags(s, slot, y);
    SameShapeMembers(Placed(s, slot, y), Swapped(s, slot, y));
    SwapExactIff(s, ResetFlags(Placed(s, slot, y), x), Swapped(s, slot, y), x, y, f);
  }

  lemma ChangedExactIff(s: State, slot: Slot, y: Item, f: Flag)
    requires Sound(s) && SlotIn(s, slot) && Occupant(s, slot).id == y.id && !Counted(f) && Exact(s, f)
    ensures var x := Occupant(s, slot);
            Exact(Changed(s, slot, y), f) <==> !(Shows(x, f) && !Shows(y, f) && SomeoneBut(s, x, f))
  {
    var x := Occupant(s, slot);
    PlacedKeeps(s, slot, y);
    ChangedFlags(s, slot, y);
    SameShapeMembers(Placed(s, slot, y), Changed(s, slot, y));
    SwapExactIff(s, ResetFlags(s, x), Changed(s, slot, y), x, y, f);
  }

  lemma PutTopExactIff(s: State, x: Item, strict: bool, f: Flag)
    requires Sound(s) && Absent(s, x.id) && !Counted(f)
    ensures Exact(PutTop(s, x, strict), f) <==> Exact(s, f) || Shows(x, f)
  {
    PutTopKeeps(s, x, strict);
    PutTopFlags(s, x, strict);
    assert FlagSound(s, f);
    PutExactIff(s, PutTop(s, x, strict), x, f);
  }

  lemma PutDownExactIff(s: State, x: Item, f: Flag)
    requires Sound(s) && Absent(s, x.id) && !Counted(f)
    ensures Exact(PutDown(s, x), f) <==> Exact(s, f) || Shows(x, f)
  {
    PutDownKeeps(s, x);
    PutDownFlags(s, x);
    assert FlagSound(s, f);
    PutExactIff(s, PutDown(s, x), x, f);
  }

  lemma PutGroundExactIff(s: State, x: Item, f: Flag)
    requires Sound(s) && Absent(s, x.id) && !Counted(f) && Exact(s, f)
    ensures Exact(PutGround(s, x), f) <==>
              !(s.ground.Some? && Shows(s.ground.value, f) && !Shows(x, f) && SomeoneBut(s, s.ground.value, f))
  {
    if s.ground.Some? {
      SwappedExactIff(s, Ground, x, f);
    } else {
      var raw := s.(ground := Some(x));
      SetIs(raw, x);
      assert FlagSound(s, f);
      PutExactIff(s, SetFlags(raw, x), x, f);
    }
  }

  lemma AddedExactIff(s: State, x: Item, f: Flag)
    requires Sound(s) && Absent(s, x.id) && !Counted(f) && Exact(s, f)
    ensures Exact(Added(s, x), f) <==> !Forgets(s, Add(x), f)
  {
    var d := Displaced(s, x);
    if Refused(s, x) {
    } else if x.t.groundTile {
      PutGroundExactIff(s, x, f);
    } else if d.None? {
      PutTopExactIff(s, x, false, f);
      PutDownExactIff(s, x, f);
    } else {
      AddedIs(s, x, d.value, f);
      DisplacingExactIff(s, d.value, x, f);
    }
  }

  lemma AddedIs(s: State, x: Item, d: Item, f: Flag)
    requires s.down <= |s.items| && !Refused(s, x) && !x.t.groundTile && Displaced(s, x) == Some(d)
    ensures var s' := Removed(s, d, 1); Added(s, x) == if x.t.alwaysOnTop then PutTop(s', x, false) else PutDown(s', x)
    ensures Forgets(s, Add(x), f) <==> Forgets(s, Remove(d, 1), f) && !Shows(x, f)
  {
    assert Arriving(s, Add(x)) == {x} + Arriving(s, Remove(d, 1));
    assert Leaving(s, Add(x)) == Leaving(s, Remove(d, 1));
  }

  lemma DisplacingExactIff(s: State, d: Item, x: Item, f: Flag)
    requires Sound(s) && Absent(s, x.id) && !Counted(f) && Exact(s, f)
    ensures var s' := Removed(s, d, 1);
            && (Exact(PutTop(s', x, false), f) <==> !Forgets(s, Remove(d, 1), f) || Shows(x, f))
            && (Exact(PutDown(s', x), f) <==> !Forgets(s, Remove(d, 1), f) || Shows(x, f))
  {
    RemovedExactIff(s, d, 1, f);
    RemovedSound(s, d, 1);
    StillAbsent(s, d, 1, x.id);
    PutTopExactIff(Removed(s, d, 1), x, false, f);
    PutDownExactIff(Removed(s, d, 1), x, f);
  }

  /** An operation leaves an uncounted flag exact if and only if it does not forget it. */
  lemma ExactIff(s: State, op: Op, f: Flag)
    requires Sound(s) && Enabled(s, op) && !Counted(f) && Exact(s, f)
    ensures Exact(Apply(s, op), f) <==> !Forgets(s, op, f)
  {
    match op
    case Add(x) => AddedExactIff(s, x, f);
    case InternalAdd(x) =>
      PutTopExactIff(s, x, true, f);
      PutDownExactIff(s, x, f);
      PutGroundExactIff(s, x, f);
    case Remove(x, count) => RemovedExactIff(s, x, count, f);
    case Update(x, t, n) =>
      var slot := Spot(s, x);
      if !slot.Nowhere? {
        ChangedExactIff(s, slot, Retyped(x, t, n), f);
      }
    case Replace(index, x) =>
      var slot := SlotOf(s, index);
      if !slot.Nowhere? {
        SwappedExactIff(s, slot, x, f);
      }
    case _ =>
  }

  /** In particular, when one of two teleports leaves, the flag is cleared although the other one is still there. */
  lemma TeleportForgotten(s: State, x: Item, y: Item)
    requires Inv(s) && OnTile(s, x) && OnTile(s, y) && x != y && x.kind.TeleportItem? && y.kind.TeleportItem?
             && !x.t.stackable
    ensures TELEPORT !in Removed(s, x, 1).flags && OnTile(Removed(s, x, 1), y)
  {
    SpotIff(s, x);
    RemovedMembers(s, x, 1);
    TakenFlags(s, Spot(s, x));
  }

  function Run(s: State, ops: seq<Op>): (r: State)
    requires s.down <= |s.items|
    ensures r.down <= |r.items|
    decreases |ops|
  {
    if ops == [] then s else Run(Apply(s, ops[0]), ops[1..])
  }

  predicate AllEnabled(s: State, ops: seq<Op>)
    requires s.down <= |s.items|
    decreases |ops|
  {
    ops == [] || (Enabled(s, ops[0]) && AllEnabled(Apply(s, ops[0]), ops[1..]))
  }

  predicate AllFitting(s: State, ops: seq<Op>)
    requires s.down <= |s.items|
    decreases |ops|
  {
    ops == [] || (Fitting(s, ops[0]) && AllFitting(Apply(s, ops[0]), ops[1..]))
  }

  predicate AllOrdering(s: State, ops: seq<Op>)
    requires s.down <= |s.items|
    decreases |ops|
  {
    ops == [] || (Ordering(s, ops[0]) && AllOrdering(Apply(s, ops[0]), ops[1..]))
  }

  predicate NeverForgets(s: State, ops: seq<Op>, f: Flag)
    requires s.down <= |s.items|
    decreases |ops|
  {
    ops == [] || (!Forgets(s, ops[0], f) && NeverForgets(Apply(s, ops[0]), ops[1..], f))
  }

  /**
   * Over any sequence of operations the counted flags stay exact, the others are set only if an item shows them, and
   * nothing stands on the tile twice; the parts of the vector and the order of the top items stay if every change fits.
   */
  lemma {:induction false} RunIsSound(s: State, ops: seq<Op>)
    requires Sound(s) && AllEnabled(s, ops)
    ensures Sound(Run(s, ops))
    ensures Layout(s) && AllFitting(s, ops) ==> Layout(Run(s, ops))
    ensures Sorted(s) && AllOrdering(s, ops) ==> Sorted(Run(s, ops))
    decreases |ops|
  {
    if ops != [] {
      ApplySound(s, ops[0]);
      if Layout(s) {
        LayoutIff(s, ops[0]);
      }
      if Sorted(s) {
        SortedIff(s, ops[0]);
      }
      RunIsSound(Apply(s, ops[0]), ops[1..]);
    }
  }

  /** An uncounted flag is exact after every operation of a run if and only if none of them forgets it. */
  lemma {:induction false} RunExactIff(s: State, ops: seq<Op>, f: Flag)
    requires Sound(s) && AllEnabled(s, ops) && !Counted(f) && Exact(s, f)
    ensures NeverForgets(s, ops, f) <==> forall i :: 0 <= i <= |ops| ==> Exact(Run(s, ops[..i]), f)
    decreases |ops|
  {
    if ops == [] {
      assert ops[..0] == [];
    } else {
      var s' := Apply(s, ops[0]);
      ApplySound(s, ops[0]);
      ExactIff(s, ops[0], f);
      assert Run(s, ops[..0]) == s;
      forall i | 1 <= i <= |ops| ensures Run(s, ops[..i]) == Run(s', ops[1..][..i - 1]) {
        assert ops[..i][1..] == ops[1..][..i - 1];
      }
      assert Run(s, ops[..1]) == Run(s', ops[1..][..0]) == s';
      if Exact(s', f) {
        RunExactIff(s', ops[1..], f);
        if forall i :: 0 <= i <= |ops| ==> Exact(Run(s, ops[..i]), f) {
          forall i | 0 <= i <= |ops[1..]| ensures Exact(Run(s', ops[1..][..i]), f) {
            assert Exact(Run(s, ops[..i + 1]), f);
          }
        }
      } else {
        assert !Exact(Run(s, ops[..1]), f);
      }
    }
  }

  // ---------------------------------------------------------------- the class

  ghost predicate SetSoFar(start: set<Flag>, now: set<Flag>, x: Item, done: set<Flag>) {
    forall f: Flag :: f in now <==> f in start || (f in done && Shows(x, f))
  }

  ghost predicate ResetSoFar(start: set<Flag>, now: set<Flag>, x: Item, s: State, done: set<Flag>) {
    forall f: Flag :: f in now <==> f in start && !(f in done && Shows(x, f) && (Counted(f) ==> !SomeoneBut(s, x, f)))
  }

  predicate Findable(s: State, thing: Thing)
    requires s.down <= |s.items|
  {
    match thing
    case AnItem(x) => !Spot(s, x).Nowhere?
    case ACreature(c) => c in s.creatures
  }

  /** With the parts of the vector in order, what is on the tile is what has an index. */
  lemma FindableIff(s: State, thing: Thing)
    requires Layout(s)
    ensures Findable(s, thing) <==> Holds(s, thing)
  {
    if thing.AnItem? {
      SpotIff(s, thing.item);
    }
  }

  lemma AtTop(s: State, k: nat)
    requires s.down <= k < |s.items|
    ensures GetThing(s, (if s.ground.Some? then 1 else 0) + k - s.down) == Some(AnItem(s.items[k]))
  {
  }

  lemma AtCreature(s: State, i: nat)
    requires s.down <= |s.items| && i < |s.creatures|
    ensures GetThing(s, (if s.ground.Some? then 1 else 0) + (|s.items| - s.down) + i) == Some(ACreature(s.creatures[i]))
  {
  }

  lemma AtDown(s: State, k: nat)
    requires k < s.down <= |s.items|
    ensures GetThing(s, (if s.ground.Some? then 1 else 0) + (|s.items| - s.down) + |s.creatures| + k) ==
            Some(AnItem(s.items[k]))
  {
  }

  class Tile {
    var ground: Option<Item>
    var items: seq<Item>
    var downItemCount: nat
    var creatures: seq<nat>
    var flags: set<Flag>

    ghost function View(): State
      reads this
    {
      State(ground, items, downItemCount, creatures, flags)
    }

    ghost predicate Valid()
      reads this
    {
      downItemCount <= |items|
    }

    constructor ()
      ensures Valid() && Inv(View()) && Sorted(View()) && Size(View()) == 0
    {
      ground, items, downItemCount, creatures, flags := None, [], 0, [], {};
    }

    /** hasProperty with an item that is not looked at. */
    method HasPropertyBut(x: Item, f: Flag) returns (r: bool)
      ensures r == SomeoneBut(View(), x, f)
    {
      if ground.Some? && ground.value.id != x.id && Shows(ground.value, f) {
        return true;
      }
      for i := 0 to |items|
        invariant forall j :: 0 <= j < i ==> items[j].id == x.id || !Shows(items[j], f)
      {
        if items[i].id != x.id && Shows(items[i], f) {
          assert items[i] in items;
          return true;
        }
      }
      return false;
    }

    method SetFlag(x: Item, f: Flag, ghost start: set<Flag>, ghost done: set<Flag>)
      requires SetSoFar(start, flags, x, done)
      modifies `flags
      ensures SetSoFar(start, flags, x, done + {f})
    {
      if Shows(x, f) {
        flags := flags + {f};
      }
    }

    method SetFour(x: Item, a: Flag, b: Flag, c: Flag, d: Flag, ghost start: set<Flag>, ghost done: set<Flag>)
      requires SetSoFar(start, flags, x, done)
      modifies `flags
      ensures SetSoFar(start, flags, x, done + {a, b, c, d})
    {
      SetFlag(x, a, start, done);
      SetFlag(x, b, start, done + {a});
      SetFlag(x, c, start, done + {a} + {b});
      SetFlag(x, d, start, done + {a} + {b} + {c});
    }

    /** setTileFlags has no line for IMMOVABLEBLOCKPATH. */
    method SetTileFlags(x: Item)
      modifies `flags
      ensures AfterSet(old(flags), flags, x) && View() == SetFlags(old(View()), x)
    {
      ghost var start, one := flags, {IMMOVABLEBLOCKSOLID, BLOCKPATH, NOFIELDBLOCKPATH, IMMOVABLENOFIELDBLOCKPATH};
      ghost var two := one + {TELEPORT, MAGICFIELD, MAILBOX, TRASHHOLDER};
      SetFour(x, IMMOVABLEBLOCKSOLID, BLOCKPATH, NOFIELDBLOCKPATH, IMMOVABLENOFIELDBLOCKPATH, start, {});
      SetFour(x, TELEPORT, MAGICFIELD, MAILBOX, TRASHHOLDER, start, one);
      SetFour(x, BLOCKSOLID, BED, DEPOT, SUPPORTS_HANGABLE, start, two);
      assert AfterSet(start, flags, x);
      SameFlags(start, flags, old(View()), x);
    }

    /** Clears a flag of which x may have been the last cause. */
    method ResetFlag(x: Item, f: Flag, ghost start: set<Flag>, ghost done: set<Flag>)
      requires ResetSoFar(start, flags, x, View(), done)
      modifies `flags
      ensures ResetSoFar(start, flags, x, View(), done + {f})
    {
      if Shows(x, f) {
        if Counted(f) {
          var other := HasPropertyBut(x, f);
          if other {
            return;
          }
        }
        flags := flags - {f};
      }
    }

    method ResetFour(x: Item, a: Flag, b: Flag, c: Flag, d: Flag, ghost start: set<Flag>, ghost done: set<Flag>)
      requires ResetSoFar(start, flags, x, View(), done)
      modifies `flags
      ensures ResetSoFar(start, flags, x, View(), done + {a, b, c, d})
    {
      ResetFlag(x, a, start, done);
      ResetFlag(x, b, start, done + {a});
      ResetFlag(x, c, start, done + {a} + {b});
      ResetFlag(x, d, start, done + {a} + {b} + {c});
    }

    method ResetTileFlags(x: Item)
      modifies `flags
      ensures AfterReset(old(flags), flags, x, View()) && View() == ResetFlags(old(View()), x)
    {
      ghost var start, one := flags, {BLOCKSOLID, IMMOVABLEBLOCKSOLID, BLOCKPATH, NOFIELDBLOCKPATH};
      ghost var two := one + {IMMOVABLEBLOCKPATH, IMMOVABLENOFIELDBLOCKPATH, TELEPORT, MAGICFIELD};
      ghost var three := two + {MAILBOX, TRASHHOLDER, BED, DEPOT};
      ResetFour(x, BLOCKSOLID, IMMOVABLEBLOCKSOLID, BLOCKPATH, NOFIELDBLOCKPATH, start, {});
      ResetFour(x, IMMOVABLEBLOCKPATH, IMMOVABLENOFIELDBLOCKPATH, TELEPORT, MAGICFIELD, start, one);
      ResetFour(x, MAILBOX, TRASHHOLDER, BED, DEPOT, start, two);
      ResetFlag(x, SUPPORTS_HANGABLE, start, three);
      assert AfterReset(start, flags, x, View());
      SameItems(old(View()), View(), x);
      OtherFlags(start, flags, old(View()), x);
    }

    /** getThingIndex finds a thing where getThing has it. */
    method GetThingIndex(thing: Thing) returns (index: int)
      requires Valid()
      ensures index == -1 <==> !Findable(View(), thing)
      ensures index != -1 ==> 0 <= index < Size(View()) && GetThing(View(), index) == Some(thing)
    {
      var n := -1;
      if ground.Some? {
        if thing == AnItem(ground.value) {
          return 0;
        }
        n := n + 1;
      }
      if thing.AnItem? && thing.item.t.alwaysOnTop {
        for i := downItemCount to |items|
          invariant n == (if ground.Some? then 0 else -1) + i - downItemCount
          invariant Position(items, i, |items|, thing.item) == Position(items, downItemCount, |items|, thing.item)
        {
          n := n + 1;
          if items[i] == thing.item {
            AtTop(View(), i);
            return n;
          }
        }
      } else {
        n := n + |items| - downItemCount;
      }
      ghost var m := n;
      if thing.ACreature? {
        for i := 0 to |creatures|
          invariant n == m + i
          invariant forall j :: 0 <= j < i ==> creatures[j] != thing.creature
        {
          n := n + 1;
          if creatures[i] == thing.creature {
            AtCreature(View(), i);
            return n;
          }
        }
      } else {
        n := n + |creatures|;
      }
      m := n;
      if thing.AnItem? && !thing.item.t.alwaysOnTop {
        for i := 0 to downItemCount
          invariant n == m + i
          invariant Position(items, i, downItemCount, thing.item) == Position(items, 0, downItemCount, thing.item)
        {
          n := n + 1;
          if items[i] == thing.item {
            AtDown(View(), i);
            return n;
          }
        }
      }
      return -1;
    }

    method GetThingAt(index: nat) returns (thing: Option<Thing>)
      requires Valid()
      ensures thing == GetThing(View(), index)
    {
      var i := index;
      if ground.Some? {
        if i == 0 {
          return Some(AnItem(ground.value));
        }
        i := i - 1;
      }
      var topItemSize := |items| - downItemCount;
      if i < topItemSize {
        return Some(AnItem(items[downItemCount + i]));
      }
      i := i - topItemSize;
      if i < |creatures| {
        return Some(ACreature(creatures[i]));
      }
      i := i - |creatures|;
      if i < downItemCount {
        return Some(AnItem(items[i]));
      }
      return None;
    }

    method Find(from: nat, end: nat, x: Item) returns (k: nat)
      requires from <= end <= |items|
      ensures k == Position(items, from, end, x)
    {
      k := from;
      while k < end && items[k] != x
        invariant from <= k <= end && Position(items, k, end, x) == Position(items, from, end, x)
      {
        k := k + 1;
      }
    }

    /** Erases the item at a position and adjusts the number of down items and the flags. */
    method TakeAt(k: nat)
      requires Valid() && k < |items|
      modifies this
      ensures Valid() && View() == Taken(old(View()), At(k))
    {
      ghost var s := View();
      var x := items[k];
      items := items[..k] + items[k + 1..];
      if k < downItemCount {
        downItemCount := downItemCount - 1;
      }
      assert View() == Erased(s, k);
      ResetTileFlags(x);
    }

    method RemoveItem(x: Item, count: nat)
      requires Valid()
      modifies this
      ensures Valid() && View() == Removed(old(View()), x, count)
    {
      ghost var s := View();
      var index := GetThingIndex(AnItem(x));
      if index == -1 {
        return;
      }
      if ground == Some(x) {
        ground := None;
        ResetTileFlags(x);
        return;
      }
      if x.t.alwaysOnTop {
        var k := Find(downItemCount, |items|, x);
        TakeAt(k);
      } else {
        var k := Find(0, downItemCount, x);
        if x.t.stackable && count != x.count {
          var difference := (x.count - count) % 0x1_0000_0000;
          var newCount := if difference < 0x8000_0000 then difference % 0x100 else 0;
          items := items[k := x.(count := newCount)];
        } else {
          TakeAt(k);
        }
      }
    }

    /** addThing for an item. */
    method AddItem(x: Item)
      requires Valid()
      modifies this
      ensures Valid() && View() == Added(old(View()), x)
    {
      if |items| >= MAX_ITEMS {
        return;
      }
      if x.t.groundTile {
        if ground.None? {
          ground := Some(x);
          SetTileFlags(x);
        } else {
          SwapGround(x);
        }
      } else if x.t.alwaysOnTop {
        if x.t.splash {
          RemoveSplash();
        }
        AddTop(x, false);
      } else {
        if x.t.magicField {
          var k := 0;
          while k < downItemCount && !items[k].kind.FieldItem?
            invariant k <= downItemCount && FirstField(items, k, downItemCount) == FirstField(items, 0, downItemCount)
          {
            k := k + 1;
          }
          if k < downItemCount {
            if !items[k].t.mayBeReplaced {
              return;
            }
            RemoveItem(items[k], 1);
          }
        }
        AddDown(x);
      }
    }

    method RemoveSplash()
      requires Valid()
      modifies this
      ensures Valid() && View() == Unsplashed(old(View()))
    {
      var k := downItemCount;
      while k < |items| && !items[k].t.splash
        invariant downItemCount <= k <= |items| && FirstSplash(items, k) == FirstSplash(items, downItemCount)
      {
        k := k + 1;
      }
      if k < |items| {
        RemoveItem(items[k], 1);
      }
    }

    method AddTop(x: Item, strict: bool)
      requires Valid()
      modifies this
      ensures Valid() && View() == PutTop(old(View()), x, strict)
    {
      ghost var s := View();
      var k := downItemCount;
      while k < |items| && !(if strict then items[k].t.topOrder > x.t.topOrder else x.t.topOrder <= items[k].t.topOrder)
        invariant downItemCount <= k <= |items|
        invariant TopPlace(items, k, x.t.topOrder, strict) == TopPlace(items, downItemCount, x.t.topOrder, strict)
      {
        k := k + 1;
      }
      items := items[..k] + [x] + items[k..];
      assert View() == s.(items := Insert(s.items, k, x));
      SetTileFlags(x);
    }

    method AddDown(x: Item)
      requires Valid()
      modifies this
      ensures Valid() && View() == PutDown(old(View()), x)
    {
      items := [x] + items;
      downItemCount := downItemCount + 1;
      SetTileFlags(x);
    }

    /** internalAddThing for an item. */
    method InternalAddItem(x: Item)
      requires Valid()
      modifies this
      ensures Valid() && View() == InternallyAdded(old(View()), x)
    {
      if x.t.groundTile {
        if ground.None? {
          ground := Some(x);
          SetTileFlags(x);
        }
        return;
      }
      if |items| >= MAX_ITEMS {
        return;
      }
      if x.t.alwaysOnTop {
        AddTop(x, true);
      } else {
        AddDown(x);
      }
    }

    method AddCreature(c: nat)
      modifies this
      ensures View() == WithCreature(old(View()), c)
    {
      creatures := [c] + creatures;
    }

    method RemoveCreature(c: nat)
      modifies this
      ensures View() == WithoutCreature(old(View()), c)
    {
      var k := 0;
      while k < |creatures| && creatures[k] != c
        invariant k <= |creatures| && Position(creatures, k, |creatures|, c) == Position(creatures, 0, |creatures|, c)
      {
        k := k + 1;
      }
      if k < |creatures| {
        creatures := creatures[..k] + creatures[k + 1..];
      }
    }

    /** updateThing changes the type of an item, and what its number stands for, in its place. */
    method UpdateThing(x: Item, t: ItemType, n: nat)
      requires Valid()
      modifies this
      ensures Valid() && View() == Updated(old(View()), x, t, n)
    {
      var index := GetThingIndex(AnItem(x));
      if index == -1 {
        return;
      }
      ResetTileFlags(x);
      var item := x.(t := t);
      if t.fluidContainer || t.splash {
      } else if t.stackable {
        item := item.(count := n % 0x100);
      } else if t.charges != 0 {
      } else {
        item := item.(count := n % 0x100);
      }
      if ground == Some(x) {
        ground := Some(item);
      } else if x.t.alwaysOnTop {
        var k := Find(downItemCount, |items|, x);
        items := items[k := item];
      } else {
        var k := Find(0, downItemCount, x);
        items := items[k := item];
      }
      SetTileFlags(item);
    }

    /** replaceThing puts its item where getThing finds one. */
    method ReplaceThing(index: nat, x: Item)
      requires Valid()
      modifies this
      ensures Valid() && View() == Replaced(old(View()), index, x)
    {
      var pos: int := index;
      if ground.Some? {
        if pos == 0 {
          SwapGround(x);
          return;
        }
        pos := pos - 1;
      }
      var topItemSize := |items| - downItemCount;
      if pos < topItemSize {
        SwapAt(downItemCount + pos, x);
        return;
      }
      pos := pos - topItemSize;
      if pos < |creatures| {
        return;
      }
      pos := pos - |creatures|;
      if pos < downItemCount {
        SwapAt(pos, x);
      }
    }

    method SwapGround(x: Item)
      requires Valid() && ground.Some?
      modifies this
      ensures Valid() && View() == Swapped(old(View()), Ground, x)
    {
      var oldItem := ground.value;
      ground := Some(x);
      ResetTileFlags(oldItem);
      SetTileFlags(x);
    }

    method SwapAt(k: nat, x: Item)
      requires Valid() && k < |items|
      modifies this
      ensures Valid() && View() == Swapped(old(View()), At(k), x)
    {
      var oldItem := items[k];
      items := items[k := x];
      ResetTileFlags(oldItem);
      SetTileFlags(x);
    }
  }

  lemma SameFlags(was: set<Flag>, now: set<Flag>, s: State, x: Item)
    requires was == s.flags && AfterSet(was, now, x)
    ensures now == SetFlags(s, x).flags
  {
    SetIs(s, x);
  }

  lemma OtherFlags(was: set<Flag>, now: set<Flag>, s: State, x: Item)
    requires was == s.flags && AfterReset(was, now, x, s)
    ensures now == ResetFlags(s, x).flags
  {
    ResetIs(s, x);
  }

  // ---------------------------------------------------------------- what adding a top item means

  /** Among top items of its order addThing puts the newest first and internalAddThing puts it last. */
  lemma AmongEquals(s: State, x: Item, strict: bool, y: Item)
    requires Layout(s) && Sorted(s) && y in s.items && y.t.alwaysOnTop && y.t.topOrder == x.t.topOrder
    ensures var items, k := PutTop(s, x, strict).items, TopPlace(s.items, s.down, x.t.topOrder, strict);
            && k < |items| && items[k] == x
            && if strict then y in items[..k] else y in items[k + 1..]
  {
    var i :| 0 <= i < |s.items| && s.items[i] == y;
    var k := TopPlace(s.items, s.down, x.t.topOrder, strict);
    EqualPlace(s, x, strict, i);
    InsertParts(s.items, k, x, i);
    assert PutTop(s, x, strict).items == Insert(s.items, k, x);
  }

  lemma EqualPlace(s: State, x: Item, strict: bool, i: nat)
    requires Layout(s) && Sorted(s) && i < |s.items| && s.items[i].t.alwaysOnTop
             && s.items[i].t.topOrder == x.t.topOrder
    ensures var k := TopPlace(s.items, s.down, x.t.topOrder, strict); if strict then i < k else k <= i
  {
    var k := TopPlace(s.items, s.down, x.t.topOrder, strict);
    assert s.down <= i;
    assert k < i ==> s.items[k].t.topOrder <= s.items[i].t.topOrder;
  }

  lemma InsertParts(items: seq<Item>, k: nat, x: Item, i: nat)
    requires k <= |items| && i < |items|
    ensures var r := Insert(items, k, x); r[k] == x && if i < k then items[i] in r[..k] else items[i] in r[k + 1..]
  {
    var r := Insert(items, k, x);
    if i < k {
      assert r[..k][i] == items[i];
    } else {
      assert r[k + 1..][i - k] == items[i];
    }
  }

  predicate Splashed(s: State, y: Item) {
    y in s.items && y.t.splash && y.t.alwaysOnTop
  }

  /** A tile with at most one splash has just the new one after a splash was added. */
  lemma OneSplash(s: State, x: Item)
    requires Inv(s) && Absent(s, x.id) && x.t.splash && x.t.alwaysOnTop && !x.t.groundTile && |s.items| < MAX_ITEMS
    requires forall y, z :: Splashed(s, y) && Splashed(s, z) ==> y == z
    ensures forall y :: Splashed(Added(s, x), y) <==> y == x
  {
    forall y ensures Splashed(Added(s, x), y) <==> y == x {
      SplashedMembers(s, x, y);
      if Splashed(s, y) {
        SplashFirst(s, y);
      }
    }
  }

  /** The items after a splash was added: all but the first splash, and the new one. */
  lemma SplashedMembers(s: State, x: Item, y: Item)
    requires Inv(s) && Absent(s, x.id) && x.t.splash && x.t.alwaysOnTop && !x.t.groundTile && |s.items| < MAX_ITEMS
    ensures y in Added(s, x).items <==> y == x || (y in s.items && Displaced(s, x) != Some(y))
  {
    var s' := Unsplashed(s);
    var d := Displaced(s, x);
    if d.Some? {
      SplashSpot(s, d.value);
      EraseKeepsIds(s.items, Spot(s, d.value).k);
    }
    InsertMembers(s'.items, TopPlace(s'.items, s'.down, x.t.topOrder, false), x);
  }

  lemma SplashSpot(s: State, d: Item)
    requires Inv(s) && FirstSplash(s.items, s.down) < |s.items| && d == s.items[FirstSplash(s.items, s.down)]
    ensures Spot(s, d).At? && Removed(s, d, 1).items == Erase(s.items, Spot(s, d).k)
  {
    SpotIff(s, d);
    assert d in s.items;
  }

  lemma SplashFirst(s: State, y: Item)
    requires Layout(s) && Splashed(s, y) && forall z, w :: Splashed(s, z) && Splashed(s, w) ==> z == w
    ensures FirstSplash(s.items, s.down) < |s.items| && s.items[FirstSplash(s.items, s.down)] == y
  {
    var i :| 0 <= i < |s.items| && s.items[i] == y;
    var k := FirstSplash(s.items, s.down);
    assert k <= i;
    assert Splashed(s, s.items[k]);
  }
}
