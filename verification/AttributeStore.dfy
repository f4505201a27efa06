/** The attribute store of an item (item.h, item.cpp): a vector of entries and a word with one bit per kind. */
module AttributeStore {
  import opened Common

  // ---------------------------------------------------------------- kinds and their bits

  /** A kind of attribute is one bit of a 32-bit word; it is named by the position of that bit. */
  type AttrType = k: nat | k < 32

  const ACTION_ID: AttrType := 0
  const UNIQUE_ID: AttrType := 1
  const DESCRIPTION: AttrType := 2
  const TEXT: AttrType := 3
  const DATE: AttrType := 4
  const WRITER: AttrType := 5
  const NAME: AttrType := 6
  const ARTICLE: AttrType := 7
  const PLURAL_NAME: AttrType := 8
  const WEIGHT: AttrType := 9
  const ATTACK: AttrType := 10
  const DEFENSE: AttrType := 11
  const EXTRA_DEFENSE: AttrType := 12
  const ARMOR: AttrType := 13
  const HIT_CHANCE: AttrType := 14
  const SHOOT_RANGE: AttrType := 15
  const OWNER: AttrType := 16
  const DURATION: AttrType := 17
  const DECAY_STATE: AttrType := 18
  const CORPSE_OWNER: AttrType := 19
  const CHARGES: AttrType := 20
  const FLUID_TYPE: AttrType := 21
  const DOOR_ID: AttrType := 22
  const SPECIAL: AttrType := 23
  const IMBUEMENT_SLOT: AttrType := 24
  const OPEN_CONTAINER: AttrType := 25
  const QUICKLOOT_CONTAINER: AttrType := 26
  const DURATION_TIMESTAMP: AttrType := 27
  const IMBUEMENT_TYPE: AttrType := 28
  const CUSTOM: AttrType := 31

  /** A 32-bit word, lowest bit first: or-ing a kind into it sets a bit, and-ing with its complement clears it. */
  type Word = w: seq<bool> | |w| == 32 witness EMPTY_WORD

  const EMPTY_WORD: seq<bool> := seq(32, _ => false)

  predicate IsInt(t: AttrType) {
    t in {ACTION_ID, UNIQUE_ID, DATE, WEIGHT, ATTACK, DEFENSE, EXTRA_DEFENSE, ARMOR, HIT_CHANCE, SHOOT_RANGE, OWNER,
          DURATION, DECAY_STATE, CORPSE_OWNER, CHARGES, FLUID_TYPE, DOOR_ID, IMBUEMENT_SLOT, OPEN_CONTAINER,
          QUICKLOOT_CONTAINER}
  }

  predicate IsStr(t: AttrType) {
    t in {DESCRIPTION, TEXT, WRITER, NAME, ARTICLE, PLURAL_NAME, SPECIAL}
  }

  predicate IsCustom(t: AttrType) {
    t == CUSTOM
  }

  // ---------------------------------------------------------------- the store as a map

  type Int64 = x: int | -0x8000_0000_0000_0000 <= x < 0x8000_0000_0000_0000

  type Text = seq<Byte>

  /** The eight bytes of a floating-point number, which no operation looks into. */
  type Raw8 = s: seq<Byte> | |s| == 8 witness [0, 0, 0, 0, 0, 0, 0, 0]

  datatype CustomValue = Blank | Words(text: Text) | Number(number: Int64) | Double(raw: Raw8) | Flag(flag: bool)

  datatype Value = IntV(integer: Int64) | StrV(text: Text) | CustomV(custom: map<Text, CustomValue>)

  type Store = map<AttrType, Value>

  /** What every store contains: only values of the class of their kind, and no empty string. */
  predicate Typed(t: AttrType, v: Value) {
    match v
    case IntV(_) => IsInt(t)
    case StrV(text) => IsStr(t) && text != []
    case CustomV(_) => IsCustom(t)
  }

  ghost predicate WellTyped(m: Store) {
    forall t <- m :: Typed(t, m[t])
  }

  datatype Op =
    | SetInt(t: AttrType, n: Int64)
    | IncreaseInt(t: AttrType, delta: Int64)
    | SetStr(t: AttrType, text: Text)
    | Remove(t: AttrType)
    | SetCustom(key: Text, value: CustomValue)
    | RemoveCustom(key: Text)

  function IntIn(m: Store, t: AttrType): Int64 {
    if IsInt(t) && t in m && m[t].IntV? then m[t].integer else 0
  }

  function StrIn(m: Store, t: AttrType): Text {
    if IsStr(t) && t in m && m[t].StrV? then m[t].text else []
  }

  function CustomIn(m: Store): map<Text, CustomValue> {
    if CUSTOM in m && m[CUSTOM].CustomV? then m[CUSTOM].custom else map[]
  }

  /** The sum must be representable: signed overflow has no defined result. */
  predicate Allowed(op: Op, m: Store) {
    op.IncreaseInt? ==> -0x8000_0000_0000_0000 <= IntIn(m, op.t) + op.delta < 0x8000_0000_0000_0000
  }

  function Lower(c: Byte): Byte {
    if 65 <= c <= 90 then c + 32 else c
  }

  function LowerCase(key: Text): (r: Text)
    ensures |r| == |key|
  {
    if key == [] then [] else [Lower(key[0])] + LowerCase(key[1..])
  }

  function PutCustom(m: Store, key: Text, value: CustomValue): Store {
    m[CUSTOM := CustomV(CustomIn(m)[LowerCase(key) := value])]
  }

  /** What each operation does to the map that the store stands for. */
  function Apply(op: Op, m: Store): Store
    requires Allowed(op, m)
  {
    match op
    case SetInt(t, n) => if IsInt(t) then m[t := IntV(n)] else m
    case IncreaseInt(t, delta) => if IsInt(t) then m[t := IntV(IntIn(m, t) + delta)] else m
    case SetStr(t, text) => if IsStr(t) && text != [] then m[t := StrV(text)] else m
    case Remove(t) => m - {t}
    case SetCustom(key, value) => PutCustom(m, key, value)
    case RemoveCustom(key) => if CUSTOM in m then m[CUSTOM := CustomV(CustomIn(m) - {LowerCase(key)})] else m
  }

  predicate AllAllowed(ops: seq<Op>, m: Store) {
    ops == [] || (Allowed(ops[0], m) && AllAllowed(ops[1..], Apply(ops[0], m)))
  }

  function ApplyAll(ops: seq<Op>, m: Store): Store
    requires AllAllowed(ops, m)
  {
    if ops == [] then m else ApplyAll(ops[1..], Apply(ops[0], m))
  }

  lemma ApplyTyped(op: Op, m: Store)
    requires Allowed(op, m) && WellTyped(m)
    ensures WellTyped(Apply(op, m))
  {
  }

  lemma {:induction false} RunTyped(ops: seq<Op>, m: Store)
    requires AllAllowed(ops, m) && WellTyped(m)
    ensures WellTyped(ApplyAll(ops, m))
  {
    if ops != [] {
      ApplyTyped(ops[0], m);
      RunTyped(ops[1..], Apply(ops[0], m));
    }
  }

  /** The two named kinds that no class admits are never stored, whatever is done to an empty store. */
  lemma NeverStored(ops: seq<Op>)
    requires AllAllowed(ops, map[])
    ensures DURATION_TIMESTAMP !in ApplyAll(ops, map[]) && IMBUEMENT_TYPE !in ApplyAll(ops, map[])
  {
    RunTyped(ops, map[]);
    var m := ApplyAll(ops, map[]);
    assert DURATION_TIMESTAMP in m ==> Typed(DURATION_TIMESTAMP, m[DURATION_TIMESTAMP]);
    assert IMBUEMENT_TYPE in m ==> Typed(IMBUEMENT_TYPE, m[IMBUEMENT_TYPE]);
  }

  // ---------------------------------------------------------------- the vector and the word

  datatype Attribute = Attribute(kind: AttrType, value: Value)

  predicate Holds(s: seq<Attribute>, t: AttrType) {
    exists i :: 0 <= i < |s| && s[i].kind == t
  }

  predicate Distinct(s: seq<Attribute>) {
    forall i, j :: 0 <= i < j < |s| ==> s[i].kind != s[j].kind
  }

  /** The vector holds the entries of the map, each once. */
  ghost predicate Lists(s: seq<Attribute>, m: Store) {
    && Distinct(s)
    && (forall i :: 0 <= i < |s| ==> s[i].kind in m && m[s[i].kind] == s[i].value)
    && (forall t <- m :: Holds(s, t))
  }

  /** A bit is set exactly if the map has the kind. */
  ghost predicate Marks(bits: Word, m: Store) {
    forall t: AttrType :: bits[t] <==> t in m
  }

  lemma ListsUpdate(s: seq<Attribute>, m: Store, i: nat, v: Value)
    requires Lists(s, m) && i < |s|
    ensures Lists(s[i := s[i].(value := v)], m[s[i].kind := v])
  {
    var s', m' := s[i := s[i].(value := v)], m[s[i].kind := v];
    forall t <- m' ensures Holds(s', t) {
      assert Holds(s, t);
      var j :| 0 <= j < |s| && s[j].kind == t;
      assert s'[j].kind == t;
    }
  }

  lemma ListsAppend(s: seq<Attribute>, m: Store, t: AttrType, v: Value)
    requires Lists(s, m) && t !in m
    ensures Lists(s + [Attribute(t, v)], m[t := v])
  {
    var s', m' := s + [Attribute(t, v)], m[t := v];
    forall u <- m' ensures Holds(s', u) {
      if u == t {
        assert s'[|s|].kind == t;
      } else {
        assert Holds(s, u);
        var j :| 0 <= j < |s| && s[j].kind == u;
        assert s'[j].kind == u;
      }
    }
  }

  /** The last entry takes the place of the removed one, which may be itself. */
  function SwapRemoved(s: seq<Attribute>, i: nat): seq<Attribute>
    requires i < |s|
  {
    s[i := s[|s| - 1]][..|s| - 1]
  }

  lemma ListsSwapRemove(s: seq<Attribute>, m: Store, i: nat)
    requires Lists(s, m) && i < |s|
    ensures Lists(SwapRemoved(s, i), m - {s[i].kind})
  {
    var s', m' := SwapRemoved(s, i), m - {s[i].kind};
    forall u <- m' ensures Holds(s', u) {
      assert Holds(s, u);
      var j :| 0 <= j < |s| && s[j].kind == u;
      if j == |s| - 1 {
        assert s'[i].kind == u;
      } else {
        assert s'[j].kind == u;
      }
    }
  }

  lemma Removed(bits: Word, m: Store, t: AttrType)
    requires Marks(bits, m) && WellTyped(m)
    ensures Marks(bits[t := false], m - {t}) && WellTyped(m - {t})
  {
  }

  lemma EraseKeeps(s: seq<Attribute>, bits: Word, m: Store, i: nat)
    requires Lists(s, m) && Marks(bits, m) && WellTyped(m) && i < |s|
    ensures var t := s[i].kind;
            && Lists(SwapRemoved(s, i), m - {t})
            && Marks(bits[t := false], m - {t})
            && WellTyped(m - {t})
  {
    ListsSwapRemove(s, m, i);
    Removed(bits, m, s[i].kind);
  }

  class ItemAttributes {
    var attributes: seq<Attribute>
    var attributeBits: Word
    /** The map that the two fields stand for. */
    ghost var store: Store

    ghost predicate Valid()
      reads this
    {
      Lists(attributes, store) && Marks(attributeBits, store) && WellTyped(store)
    }

    constructor ()
      ensures Valid() && store == map[]
    {
      attributes := [];
      attributeBits := EMPTY_WORD;
      store := map[];
    }

    method HasAttribute(t: AttrType) returns (r: bool)
      requires Valid()
      ensures r <==> t in store
    {
      r := attributeBits[t];
    }

    /** getExistingAttr: the index of the entry of a kind, or none. */
    method GetExistingAttr(t: AttrType) returns (k: Option<nat>)
      requires Valid()
      ensures match k
        case None => t !in store
        case Some(i) => i < |attributes| && attributes[i].kind == t && t in store && attributes[i].value == store[t]
    {
      if !attributeBits[t] {
        return None;
      }
      assert Holds(attributes, t);
      for i := 0 to |attributes|
        invariant forall j :: 0 <= j < i ==> attributes[j].kind != t
      {
        if attributes[i].kind == t {
          return Some(i);
        }
      }
      assert false;
      return None;
    }

    /**
     * getAttr followed by writing v through the reference it returns. The entry is
     * found if the bit of its kind is set, and appended otherwise.
     */
    method PutAttr(t: AttrType, v: Value)
      requires Valid() && Typed(t, v)
      modifies this
      ensures Valid() && store == old(store)[t := v]
    {
      var k := GetExistingAttr(t);
      match k {
        case Some(i) =>
          ListsUpdate(attributes, store, i, v);
          attributes := attributes[i := attributes[i].(value := v)];
        case None =>
          ListsAppend(attributes, store, t, v);
          attributeBits := attributeBits[t := true];
          attributes := attributes + [Attribute(t, v)];
      }
      store := store[t := v];
    }

    method SetIntAttr(t: AttrType, n: Int64)
      requires Valid()
      modifies this
      ensures Valid() && store == Apply(SetInt(t, n), old(store))
    {
      if IsInt(t) {
        PutAttr(t, IntV(n));
      }
    }

    method IncreaseIntAttr(t: AttrType, delta: Int64)
      requires Valid() && Allowed(IncreaseInt(t, delta), store)
      modifies this
      ensures Valid() && store == Apply(IncreaseInt(t, delta), old(store))
    {
      if IsInt(t) {
        var n := GetIntAttr(t);
        PutAttr(t, IntV(n + delta));
      }
    }

    method SetStrAttr(t: AttrType, text: Text)
      requires Valid()
      modifies this
      ensures Valid() && store == Apply(SetStr(t, text), old(store))
    {
      if !IsStr(t) || text == [] {
        return;
      }
      PutAttr(t, StrV(text));
    }

    method GetIntAttr(t: AttrType) returns (n: Int64)
      requires Valid()
      ensures n == IntIn(store, t)
    {
      if !IsInt(t) {
        return 0;
      }
      var k := GetExistingAttr(t);
      match k {
        case None => return 0;
        case Some(i) =>
          assert Typed(t, store[t]);
          return attributes[i].value.integer;
      }
    }

    method GetStrAttr(t: AttrType) returns (text: Text)
      requires Valid()
      ensures text == StrIn(store, t)
    {
      if !IsStr(t) {
        return [];
      }
      var k := GetExistingAttr(t);
      match k {
        case None => return [];
        case Some(i) =>
          assert Typed(t, store[t]);
          return attributes[i].value.text;
      }
    }

    /** removeAttribute: the last entry is moved into the place of the removed one. */
    method RemoveAttribute(t: AttrType)
      requires Valid()
      modifies this
      ensures Valid() && store == Apply(Remove(t), old(store))
    {
      if !attributeBits[t] {
        assert store - {t} == store;
        return;
      }
      assert Holds(attributes, t);
      var i := 0;
      while i < |attributes| && attributes[i].kind != t
        invariant i <= |attributes| && forall j :: 0 <= j < i ==> attributes[j].kind != t
      {
        i := i + 1;
      }
      EraseAt(i);
    }

    /** Puts the last entry in the place of an entry, drops the last entry and clears the bit. */
    method EraseAt(i: nat)
      requires Valid() && i < |attributes|
      modifies this
      ensures Valid() && store == old(store) - {old(attributes)[i].kind}
    {
      EraseKeeps(attributes, attributeBits, store, i);
      attributeBits := attributeBits[attributes[i].kind := false];
      store := store - {attributes[i].kind};
      attributes := SwapRemoved(attributes, i);
    }

    method GetCustomAttributeMap() returns (m: map<Text, CustomValue>)
      requires Valid()
      ensures m == CustomIn(store)
    {
      var k := GetExistingAttr(CUSTOM);
      match k {
        case None => return map[];
        case Some(i) =>
          assert Typed(CUSTOM, store[CUSTOM]);
          return attributes[i].value.custom;
      }
    }

    method SetCustomAttribute(key: Text, value: CustomValue)
      requires Valid()
      modifies this
      ensures Valid() && store == Apply(SetCustom(key, value), old(store))
    {
      var m := GetCustomAttributeMap();
      m := m - {LowerCase(key)};
      PutAttr(CUSTOM, CustomV(m[LowerCase(key) := value]));
      assert m[LowerCase(key) := value] == CustomIn(old(store))[LowerCase(key) := value];
    }

    method RemoveCustomAttribute(key: Text) returns (found: bool)
      requires Valid()
      modifies this
      ensures Valid() && store == Apply(RemoveCustom(key), old(store))
      ensures found <==> LowerCase(key) in CustomIn(old(store))
    {
      var present := HasAttribute(CUSTOM);
      if !present {
        return false;
      }
      var m := GetCustomAttributeMap();
      found := LowerCase(key) in m;
      PutAttr(CUSTOM, CustomV(m - {LowerCase(key)}));
    }
  }

  // ---------------------------------------------------------------- equals

  /** Two values that equals does not tell apart. */
  predicate SameValue(t: AttrType, v: Value, w: Value) {
    IsInt(t) || IsStr(t) ==> v == w
  }

  ghost predicate SameStore(a: Store, b: Store) {
    a.Keys == b.Keys && forall t <- a :: t in b && SameValue(t, a[t], b[t])
  }

  /** The meaning of equals: an id and perhaps a store. */
  datatype ItemView = ItemView(id: nat, store: Option<Store>)

  ghost predicate Equal(x: ItemView, y: ItemView) {
    && x.id == y.id
    && match (x.store, y.store)
       case (None, None) => true
       case (Some(a), Some(b)) => SameStore(a, b)
       case _ => false
  }

  lemma EqualIsEquivalence(x: ItemView, y: ItemView, z: ItemView)
    ensures Equal(x, x)
    ensures Equal(x, y) ==> Equal(y, x)
    ensures Equal(x, y) && Equal(y, z) ==> Equal(x, z)
  {
    if Equal(x, y) && Equal(y, z) && x.store.Some? {
      var a, b, c := x.store.value, y.store.value, z.store.value;
      forall t <- a ensures t in c && SameValue(t, a[t], c[t]) {
        assert t in b && SameValue(t, a[t], b[t]);
        assert SameValue(t, b[t], c[t]);
      }
    }
  }

  /** Custom attributes take no part: any two sets of them, even an empty one, are equal to equals. */
  lemma CustomNotCompared(id: nat, m: Store, c: map<Text, CustomValue>, d: map<Text, CustomValue>)
    ensures Equal(ItemView(id, Some(m[CUSTOM := CustomV(c)])), ItemView(id, Some(m[CUSTOM := CustomV(d)])))
  {
  }

  lemma BitsOfStores(x: Word, a: Store, y: Word, b: Store)
    requires Marks(x, a) && Marks(y, b)
    ensures x == y <==> a.Keys == b.Keys
  {
    if x == y {
      assert forall t: AttrType :: t in a <==> x[t];
      assert forall t: AttrType :: t in b <==> x[t];
    } else if a.Keys == b.Keys {
      assert forall t: AttrType :: t in a.Keys <==> t in b.Keys;
      assert forall t: AttrType :: x[t] == y[t];
    }
  }

  predicate Agrees(x: Attribute, m: Store) {
    x.kind in m && SameValue(x.kind, x.value, m[x.kind])
  }

  predicate Compatible(x: Attribute, y: Attribute) {
    x.kind == y.kind ==> SameValue(x.kind, x.value, y.value)
  }

  lemma AgreesWithAll(x: Attribute, s: seq<Attribute>, m: Store)
    requires Lists(s, m) && x.kind in m
    requires forall k :: 0 <= k < |s| ==> Compatible(x, s[k])
    ensures Agrees(x, m)
  {
    assert Holds(s, x.kind);
  }

  lemma AllAgree(s: seq<Attribute>, a: Store, b: Store)
    requires Lists(s, a) && a.Keys == b.Keys
    requires forall k :: 0 <= k < |s| ==> Agrees(s[k], b)
    ensures SameStore(a, b)
  {
    forall t <- a ensures t in b && SameValue(t, a[t], b[t]) {
      assert Holds(s, t);
      var i :| 0 <= i < |s| && s[i].kind == t;
      assert Agrees(s[i], b);
    }
  }

  lemma Differ(a: Store, b: Store, t: AttrType)
    requires t in a && t in b && !SameValue(t, a[t], b[t])
    ensures !SameStore(a, b)
  {
  }

  class AttributedItem {
    const id: nat
    var attributes: ItemAttributes?

    constructor (id: nat)
      ensures this.id == id && attributes == null
    {
      this.id := id;
      attributes := null;
    }

    ghost predicate Valid()
      reads this, attributes
    {
      attributes != null ==> attributes.Valid()
    }

    ghost function View(): ItemView
      reads this, attributes
    {
      ItemView(id, if attributes == null then None else Some(attributes.store))
    }

    /** equals compares the bits and then every pair of entries of the same kind, in whatever order they stand. */
    method Equals(other: AttributedItem?) returns (r: bool)
      requires Valid() && (other != null ==> other.Valid())
      ensures r <==> other != null && Equal(View(), other.View())
    {
      if other == null || id != other.id {
        return false;
      }
      if attributes == null {
        return other.attributes == null;
      }
      if other.attributes == null {
        return false;
      }
      var a, b := attributes, other.attributes;
      BitsOfStores(a.attributeBits, a.store, b.attributeBits, b.store);
      if a.attributeBits != b.attributeBits {
        return false;
      }
      for i := 0 to |a.attributes|
        invariant forall k :: 0 <= k < i ==> Agrees(a.attributes[k], b.store)
      {
        var x := a.attributes[i];
        assert x.kind in a.store.Keys && x.kind in b.store.Keys;
        assert Typed(x.kind, a.store[x.kind]) && x.value == a.store[x.kind];
        var alike := AgreesIn(x, b);
        if !alike {
          Differ(a.store, b.store, x.kind);
          return false;
        }
      }
      AllAgree(a.attributes, a.store, b.store);
      return true;
    }

    /** The inner loop: an entry and all entries of the other item. */
    static method AgreesIn(x: Attribute, b: ItemAttributes) returns (alike: bool)
      requires b.Valid() && Typed(x.kind, x.value) && x.kind in b.store
      ensures alike <==> Agrees(x, b.store)
    {
      for j := 0 to |b.attributes|
        invariant forall k :: 0 <= k < j ==> Compatible(x, b.attributes[k])
      {
        var y := b.attributes[j];
        if x.kind != y.kind {
          continue;
        }
        assert Typed(y.kind, y.value) && y.value == b.store[y.kind];
        if IsStr(x.kind) && x.value.text != y.value.text {
          return false;
        }
        if IsInt(x.kind) && x.value.integer != y.value.integer {
          return false;
        }
      }
      AgreesWithAll(x, b.attributes, b.store);
      return true;
    }
  }
}
