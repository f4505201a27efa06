/** The attribute codec of items (item.cpp): serializeAttr, readAttr and unserializeAttr. */
module ItemCodec {
  import opened Common
  import opened Streams
  import opened AttributeStore

  // ---------------------------------------------------------------- what an item is made of

  datatype ItemType = ItemType(stackable: bool, fluid: bool, charges: nat, moveable: bool, decayTime: nat,
    container: bool)

  /** The two fields that the codec saves: the stack count and the attributes. */
  datatype Body = Body(count: Byte, store: Store)

  /** Which unique ids other items hold already. */
  datatype World = World(taken: set<nat>)

  const DECAYING_TRUE := 1
  const DECAYING_PENDING := 2
  const DECAYING_STOPPING := 3

  function Max(a: int, b: int): int {
    if a < b then b else a
  }

  /** The integer types that the codec reads and writes. */
  datatype Int = UInt8 | UInt16 | UInt32 | UInt64 | SInt8 | SInt32 | SInt64

  function SizeOf(k: Int): nat {
    match k
    case UInt8 => 1
    case SInt8 => 1
    case UInt16 => 2
    case UInt32 => 4
    case SInt32 => 4
    case UInt64 => 8
    case SInt64 => 8
  }

  /** The value that a variable of the type holds when v is converted to it. */
  function Convert(k: Int, v: int): int {
    match k
    case UInt8 => U8(v)
    case UInt16 => U16(v)
    case UInt32 => v % 0x1_0000_0000
    case UInt64 => v % 0x1_0000_0000_0000_0000
    case SInt8 => if U8(v) >= 0x80 then U8(v) - 0x100 else U8(v)
    case SInt32 => I32(v)
    case SInt64 =>
      var u := v % 0x1_0000_0000_0000_0000;
      if u >= 0x8000_0000_0000_0000 then u - 0x1_0000_0000_0000_0000 else u
  }

  function U8(v: int): Byte { v % 0x100 }

  function U16(v: int): (r: nat)
    ensures r < 0x1_0000
  {
    v % 0x1_0000
  }

  function I32(v: int): (r: Int64)
    ensures -0x8000_0000 <= r < 0x8000_0000
  {
    var u := v % 0x1_0000_0000;
    if u >= 0x8000_0000 then u - 0x1_0000_0000 else u
  }

  lemma ConvertBounds(k: Int, v: int)
    ensures -0x8000_0000_0000_0000 <= Convert(k, v)
    ensures k != UInt64 ==> Convert(k, v) < 0x8000_0000_0000_0000
    ensures k != UInt64 && k != SInt64 ==> -0x8000_0000 <= Convert(k, v) < 0x1_0000_0000
  {
  }

  lemma ConvertTwice(k: Int, v: int)
    ensures Convert(k, Convert(k, v)) == Convert(k, v)
  {
  }

  function ReadInt(k: Int, bs: seq<Byte>): Read<int> {
    match ReadUnsigned(bs, SizeOf(k))
    case Short => Short
    case Got(n, rest) => Got(Convert(k, n), rest)
  }

  lemma ConvertUnsigned(k: Int, v: int)
    ensures Convert(k, Unsigned(v, SizeOf(k))) == Convert(k, v)
  {
    Powers();
    var p := Pow256(SizeOf(k));
    ConvertModulo(k, v, v % p);
  }

  /** A conversion looks at the value modulo the width of its type. */
  lemma ConvertModulo(k: Int, v: int, u: int)
    requires match k
             case UInt8 => U8(u) == U8(v)
             case SInt8 => U8(u) == U8(v)
             case UInt16 => U16(u) == U16(v)
             case UInt32 => u % 0x1_0000_0000 == v % 0x1_0000_0000
             case SInt32 => u % 0x1_0000_0000 == v % 0x1_0000_0000
             case UInt64 => u % 0x1_0000_0000_0000_0000 == v % 0x1_0000_0000_0000_0000
             case SInt64 => u % 0x1_0000_0000_0000_0000 == v % 0x1_0000_0000_0000_0000
    ensures Convert(k, u) == Convert(k, v)
  {
  }

  lemma Powers()
    ensures Pow256(1) == 0x100 && Pow256(2) == 0x1_0000 && Pow256(4) == 0x1_0000_0000
            && Pow256(8) == 0x1_0000_0000_0000_0000
  {
    assert Pow256(1) == 0x100 && Pow256(2) == 0x1_0000 && Pow256(3) == 0x100_0000 && Pow256(4) == 0x1_0000_0000;
    assert Pow256(5) == 0x100_0000_0000 && Pow256(6) == 0x1_0000_0000_0000 && Pow256(7) == 0x100_0000_0000_0000;
    assert Pow256(8) == 0x1_0000_0000_0000_0000;
  }

  /** An integer that is written and read with one type arrives converted to that type. */
  lemma WrittenInt(k: Int, v: int, rest: seq<Byte>)
    ensures ReadInt(k, ToBytes(v, SizeOf(k)) + rest) == Got(Convert(k, v), rest)
  {
    ReadWrittenInteger(v, SizeOf(k), rest);
    ConvertUnsigned(k, v);
  }

  function SetInt64(s: Store, t: AttrType, v: Int64): Store {
    s[t := IntV(v)]
  }

  function SetDuration(s: Store, v: int): Store {
    SetInt64(s, DURATION, Max(0, I32(v)))
  }

  /** The constructor that CreateItem chooses: a stackable item is never created empty. */
  function Created(it: ItemType, n: nat): Body
    requires n < 0x1_0000
  {
    var n := if it.container then 0 else if it.stackable && n == 0 then 1 else n;
    var x :=
      if it.fluid then Body(1, SetInt64(map[], FLUID_TYPE, n))
      else if it.stackable
        then (if n != 0 then Body(U8(n), map[]) else if it.charges != 0 then Body(U8(it.charges), map[])
        else Body(1, map[]))
      else if it.charges != 0 then Body(1, SetInt64(map[], CHARGES, if n != 0 then n else U16(it.charges)))
      else Body(1, map[]);
    var duration := it.decayTime * 1000 % 0x1_0000_0000;
    if duration != 0 then x.(store := SetDuration(x.store, duration)) else x
  }

  function SetSubType(it: ItemType, x: Body, n: nat): Body
    requires n < 0x1_0000
  {
    if it.fluid then x.(store := SetInt64(x.store, FLUID_TYPE, n))
    else if it.stackable then x.(count := U8(n))
    else if it.charges != 0 then x.(store := SetInt64(x.store, CHARGES, n))
    else x.(count := U8(n))
  }

  function GetCharges(x: Body): nat {
    U16(IntIn(x.store, CHARGES))
  }

  function GetSubType(it: ItemType, x: Body): nat {
    if it.fluid then U16(IntIn(x.store, FLUID_TYPE))
    else if it.stackable then x.count
    else if it.charges != 0 then GetCharges(x)
    else x.count
  }

  function Decaying(s: Store): Byte {
    U8(IntIn(s, DECAY_STATE))
  }

  /** getDuration: while an item decays, the time left is counted from a timestamp. */
  function GetDuration(s: Store, now: Int64): Int64 {
    if Decaying(s) == DECAYING_TRUE || Decaying(s) == DECAYING_STOPPING
    then Max(0, I32(IntIn(s, DURATION_TIMESTAMP) - now))
    else I32(IntIn(s, DURATION))
  }

  // ---------------------------------------------------------------- the saved kinds

  /** How a kind is laid out behind its tag. */
  datatype Form = Whole(kind: Int) | Str | Entries

  const ATTR_UNIQUE_ID: Byte := 5
  const ATTR_TELE_DEST: Byte := 8
  const ATTR_DEPOT_ID: Byte := 10
  const ATTR_RUNE_CHARGES: Byte := 12
  const ATTR_HOUSEDOORID: Byte := 14
  const ATTR_COUNT: Byte := 15
  const ATTR_SLEEPERGUID: Byte := 20
  const ATTR_SLEEPSTART: Byte := 21
  const ATTR_CHARGES: Byte := 22
  const ATTR_CONTAINER_ITEMS: Byte := 23

  /** The order in which serializeAttr writes the kinds that have a tag of their own. */
  const ORDER: seq<AttrType> := [
    ACTION_ID, TEXT, DATE, WRITER, DESCRIPTION, DURATION, DECAY_STATE, NAME, ARTICLE, PLURAL_NAME, WEIGHT, ATTACK,
      DEFENSE,
    EXTRA_DEFENSE, IMBUEMENT_SLOT, OPEN_CONTAINER, ARMOR, HIT_CHANCE, SHOOT_RANGE, SPECIAL, CUSTOM, QUICKLOOT_CONTAINER,
    IMBUEMENT_TYPE]

  predicate Saved(t: AttrType) {
    t == CUSTOM || (t <= IMBUEMENT_TYPE
      && t !in {UNIQUE_ID, OWNER, CORPSE_OWNER, CHARGES, FLUID_TYPE, DOOR_ID, DURATION_TIMESTAMP})
  }

  function TagOf(t: AttrType): Byte
    requires Saved(t)
  {
    if t == ACTION_ID then 4 else if t == TEXT then 6 else if t == DESCRIPTION then 7 else if t == DURATION then 16
    else if t == DECAY_STATE then 17 else if t == DATE then 18 else if t == WRITER then 19 else if t == NAME then 24
    else if t == ARTICLE then 25 else if t == PLURAL_NAME then 26 else if t == WEIGHT then 27
      else if t == ATTACK then 28
    else if t == DEFENSE then 29 else if t == EXTRA_DEFENSE then 30 else if t == ARMOR then 31
      else if t == HIT_CHANCE then 32
    else if t == SHOOT_RANGE then 33 else if t == SPECIAL then 34 else if t == IMBUEMENT_SLOT then 35
    else if t == OPEN_CONTAINER then 36 else if t == CUSTOM then 37 else if t == QUICKLOOT_CONTAINER then 38 else 39
  }

  function KindOf(tag: Byte): Option<AttrType> {
    if tag == 4 then Some(ACTION_ID) else if tag == 6 then Some(TEXT) else if tag == 7 then Some(DESCRIPTION)
    else if tag == 16 then Some(DURATION) else if tag == 17 then Some(DECAY_STATE) else if tag == 18 then Some(DATE)
    else if tag == 19 then Some(WRITER) else if tag == 24 then Some(NAME) else if tag == 25 then Some(ARTICLE)
    else if tag == 26 then Some(PLURAL_NAME) else if tag == 27 then Some(WEIGHT) else if tag == 28 then Some(ATTACK)
    else if tag == 29 then Some(DEFENSE) else if tag == 30 then Some(EXTRA_DEFENSE) else if tag == 31 then Some(ARMOR)
    else if tag == 32 then Some(HIT_CHANCE) else if tag == 33 then Some(SHOOT_RANGE)
      else if tag == 34 then Some(SPECIAL)
    else if tag == 35 then Some(IMBUEMENT_SLOT) else if tag == 36 then Some(OPEN_CONTAINER)
      else if tag == 37 then Some(CUSTOM)
    else if tag == 38 then Some(QUICKLOOT_CONTAINER) else if tag == 39 then Some(IMBUEMENT_TYPE) else None
  }

  /** No two kinds share a tag, and no kind has the tag of something else. */
  lemma TagsDistinct(t: AttrType)
    requires Saved(t)
    ensures KindOf(TagOf(t)) == Some(t)
    ensures TagOf(t) !in {0, 5, 8, 10, 12, 14, 15, 20, 21, 22, 23}
  {
  }

  function FormOf(t: AttrType): Form
    requires Saved(t)
  {
    if t == ACTION_ID then Whole(UInt16)
    else if t == DECAY_STATE || t == OPEN_CONTAINER || t == SHOOT_RANGE then Whole(UInt8)
    else if t == HIT_CHANCE then Whole(SInt8)
    else if t == DATE || t == WEIGHT || t == QUICKLOOT_CONTAINER then Whole(UInt32)
    else if t == CUSTOM then Entries
    else if IsStr(t) || t == IMBUEMENT_TYPE then Str
    else Whole(SInt32)
  }

  /** A list that names every saved kind once. */
  ghost predicate Complete(ts: seq<AttrType>) {
    && (forall t <- ts :: Saved(t))
    && (forall t: AttrType :: Saved(t) ==> t in ts)
    && (forall i, j :: 0 <= i < j < |ts| ==> ts[i] != ts[j])
  }

  lemma OrderComplete()
    ensures Complete(ORDER)
  {
    forall t: AttrType ensures Saved(t) <==> t in ORDER {
    }
  }

  // ---------------------------------------------------------------- writing

  /** The integer that is written for a kind, if one is. */
  function IntToWrite(it: ItemType, s: Store, t: AttrType, now: Int64): Option<int> {
    if t == ACTION_ID then
      if it.moveable && U16(IntIn(s, t)) != 0 then Some(U16(IntIn(s, t))) else None
    else if t == DATE then
      if IntIn(s, t) != 0 then Some(IntIn(s, t)) else None
    else if t == DECAY_STATE then
      if Decaying(s) == DECAYING_TRUE || Decaying(s) == DECAYING_PENDING then Some(Decaying(s)) else None
    else if t in s then
      Some(if t == DURATION then GetDuration(s, now) else IntIn(s, t))
    else None
  }

  function StrToWrite(s: Store, t: AttrType): Option<Text> {
    if t == TEXT || t == WRITER || t == DESCRIPTION then
      if StrIn(s, t) != [] then Some(StrIn(s, t)) else None
    else if t in s then Some(StrIn(s, t)) else None
  }

  /** The position of the alternative that a custom value holds, and the value itself. */
  function ValueBytes(v: CustomValue): seq<Byte> {
    match v
    case Blank => [0]
    case Words(text) => [1] + StringBytes(text)
    case Number(number) => [2] + ToBytes(number, SizeOf(SInt64))
    case Double(raw) => [3] + raw
    case Flag(flag) => [4] + [if flag then 1 else 0]
  }

  function EntriesBytes(order: seq<Text>, m: map<Text, CustomValue>): seq<Byte>
    requires forall k <- order :: k in m
  {
    if order == [] then [] else StringBytes(order[0]) + ValueBytes(m[order[0]]) + EntriesBytes(order[1..], m)
  }

  /** The keys of a hash map in the order in which it happens to yield them. */
  ghost predicate Enumerates(order: seq<Text>, m: map<Text, CustomValue>) {
    && (forall k <- order :: k in m)
    && (forall k <- m :: k in order)
    && |order| < 0x1_0000_0000_0000_0000
  }

  function KindBytes(it: ItemType, s: Store, now: Int64, order: seq<Text>, t: AttrType): seq<Byte>
    requires Saved(t) && forall k <- order :: k in CustomIn(s)
  {
    match FormOf(t)
    case Whole(k) => (match IntToWrite(it, s, t, now) case None => []
      case Some(v) => [TagOf(t)] + ToBytes(v, SizeOf(k)))
    case Str => (match StrToWrite(s, t) case None => [] case Some(text) => [TagOf(t)] + StringBytes(text))
    case Entries => if t in s then [TagOf(t)] + (ToBytes(|order|, SizeOf(UInt64)) + EntriesBytes(order, CustomIn(s)))
      else []
  }

  function KindsBytes(it: ItemType, s: Store, now: Int64, order: seq<Text>, ts: seq<AttrType>): seq<Byte>
    requires (forall t <- ts :: Saved(t)) && forall k <- order :: k in CustomIn(s)
  {
    if ts == [] then [] else KindBytes(it, s, now, order, ts[0]) + KindsBytes(it, s, now, order, ts[1..])
  }

  function CountBytes(it: ItemType, x: Body): seq<Byte> {
    if it.stackable || it.fluid then [ATTR_COUNT] + ToBytes(GetSubType(it, x), SizeOf(UInt8)) else []
  }

  function ChargesBytes(x: Body): seq<Byte> {
    if GetCharges(x) != 0 then [ATTR_CHARGES] + ToBytes(GetCharges(x), SizeOf(UInt16)) else []
  }

  function Serialized(it: ItemType, x: Body, now: Int64, order: seq<Text>): seq<Byte>
    requires forall k <- order :: k in CustomIn(x.store)
  {
    OrderComplete();
    CountBytes(it, x) + ChargesBytes(x) + KindsBytes(it, x.store, now, order, ORDER)
  }

  // ---------------------------------------------------------------- reading

  /** What the setter of a kind does with an integer that was read. */
  function AsRead(t: AttrType, v: int): int {
    if t == ACTION_ID then Max(100, v)
    else if t == DATE then I32(v)
    else if t == DURATION then Max(0, I32(v))
    else if t == DECAY_STATE then DECAYING_PENDING
    else v
  }

  function PutInt(s: Store, t: AttrType, v: int): Store
    requires -0x8000_0000 <= v < 0x1_0000_0000
  {
    if t == DECAY_STATE && v == 0 then s else SetInt64(s, t, AsRead(t, v))
  }

  function PutStr(s: Store, t: AttrType, text: Text): Store {
    if IsStr(t) && text != [] then s[t := StrV(text)] else s
  }

  function ReadValue(bs: seq<Byte>): Read<CustomValue> {
    if bs == [] then Short
    else if bs[0] == 1 then
      match StringAt(bs[1..]) case Short => Short case Got(text, rest) => Got(Words(text), rest)
    else if bs[0] == 2 then
      (match ReadInt(SInt64, bs[1..])
       case Short => Short
       case Got(n, rest) =>
         ConvertBoundsOf(SInt64, bs[1..]);
         Got(Number(n), rest))
    else if bs[0] == 3 then
      match ReadBytes(bs[1..], 8) case Short => Short case Got(raw, rest) => Got(Double(raw), rest)
    else if bs[0] == 4 then
      match ReadInt(UInt8, bs[1..]) case Short => Short case Got(n, rest) => Got(Flag(n != 0), rest)
    else Short
  }

  lemma ConvertBoundsOf(k: Int, bs: seq<Byte>)
    requires ReadInt(k, bs).Got?
    ensures var v := ReadInt(k, bs).value;
            && -0x8000_0000_0000_0000 <= v
            && (k != UInt64 ==> v < 0x8000_0000_0000_0000)
            && (k != UInt64 && k != SInt64 ==> -0x8000_0000 <= v < 0x1_0000_0000)
  {
    ConvertBounds(k, FromBytes(bs[..SizeOf(k)]));
  }

  datatype Entry = Entry(key: Text, value: CustomValue)

  function ReadEntry(bs: seq<Byte>): Read<Entry> {
    match StringAt(bs)
    case Short => Short
    case Got(key, rest) =>
      match ReadValue(rest)
      case Short => Short
      case Got(v, rest') => Got(Entry(key, v), rest')
  }

  function Prepend(es: seq<Entry>, r: Read<seq<Entry>>): Read<seq<Entry>> {
    match r case Short => Short case Got(fs, rest) => Got(es + fs, rest)
  }

  /** n entries, unless the bytes run out or a value is not of a known kind. */
  function EntryList(bs: seq<Byte>, n: nat): Read<seq<Entry>>
    decreases n
  {
    if n == 0 then Got([], bs)
    else match ReadEntry(bs) case Short => Short case Got(e, rest) => Prepend([e], EntryList(rest, n - 1))
  }

  /** Setting custom attributes one after the other. */
  function PutAll(es: seq<Entry>, s: Store): Store {
    if es == [] then s else PutCustom(PutAll(es[..|es| - 1], s), es[|es| - 1].key, es[|es| - 1].value)
  }

  function ReadEntries(bs: seq<Byte>, n: nat, s: Store): Read<Store> {
    match EntryList(bs, n) case Short => Short case Got(es, rest) => Got(PutAll(es, s), rest)
  }

  function ReadKind(t: AttrType, bs: seq<Byte>, s: Store): Read<Store>
    requires Saved(t)
  {
    match FormOf(t)
    case Whole(k) =>
      (match ReadInt(k, bs) case Short => Short case Got(v, rest) => ConvertBoundsOf(k, bs); Got(PutInt(s, t, v), rest))
    case Str =>
      (match StringAt(bs) case Short => Short case Got(text, rest) => Got(PutStr(s, t, text), rest))
    case Entries =>
      (match ReadInt(UInt64, bs) case Short => Short case Got(n, rest) => ReadEntries(rest, n, s))
  }

  datatype AttrRead = Continue(body: Body, rest: seq<Byte>) | End(size: nat, rest: seq<Byte>) | Error

  /** readAttr for plain items and containers. */
  function ReadAttr(it: ItemType, w: World, tag: Byte, bs: seq<Byte>, x: Body): AttrRead {
    if tag == ATTR_COUNT || tag == ATTR_RUNE_CHARGES || tag == ATTR_CHARGES then
      match ReadInt(if tag == ATTR_CHARGES then UInt16 else UInt8, bs)
      case Short => Error
      case Got(n, rest) => Continue(SetSubType(it, x, n), rest)
    else if tag == ATTR_UNIQUE_ID then
      match ReadInt(UInt16, bs)
      case Short => Error
      case Got(n, rest) =>
        Continue(if UNIQUE_ID in x.store || n in w.taken then x else x.(store := SetInt64(x.store, UNIQUE_ID, n)), rest)
    else if SkippedBytes(tag).Some? then
      match ReadBytes(bs, SkippedBytes(tag).value)
      case Short => Error
      case Got(_, rest) => Continue(x, rest)
    else if tag == ATTR_CONTAINER_ITEMS then
      if !it.container then Error
      else match ReadInt(UInt32, bs) case Short => Error case Got(n, rest) => End(n, rest)
    else
      match KindOf(tag)
      case None => Error
      case Some(t) => match ReadKind(t, bs, x.store) case Short => Error
        case Got(s, rest) => Continue(x.(store := s), rest)
  }

  /** Attributes of item classes that the item no longer belongs to. */
  function SkippedBytes(tag: Byte): Option<nat> {
    if tag == ATTR_DEPOT_ID then Some(2)
    else if tag == ATTR_HOUSEDOORID then Some(1)
    else if tag == ATTR_SLEEPERGUID || tag == ATTR_SLEEPSTART then Some(4)
    else if tag == ATTR_TELE_DEST then Some(5)
    else None
  }

  lemma ValueShrinks(bs: seq<Byte>)
    ensures ReadValue(bs).Got? ==> |ReadValue(bs).rest| <= |bs|
  {
  }

  lemma EntryShrinks(bs: seq<Byte>)
    ensures ReadEntry(bs).Got? ==> |ReadEntry(bs).rest| <= |bs|
  {
    if StringAt(bs).Got? {
      ValueShrinks(StringAt(bs).rest);
    }
  }

  lemma {:induction false} EntriesShrink(bs: seq<Byte>, n: nat)
    ensures EntryList(bs, n).Got? ==> |EntryList(bs, n).rest| <= |bs|
    decreases n
  {
    if n > 0 && ReadEntry(bs).Got? {
      EntryShrinks(bs);
      EntriesShrink(ReadEntry(bs).rest, n - 1);
    }
  }

  lemma KindShrinks(t: AttrType, bs: seq<Byte>, s: Store)
    requires Saved(t)
    ensures ReadKind(t, bs, s).Got? ==> |ReadKind(t, bs, s).rest| <= |bs|
  {
    if FormOf(t).Entries? && ReadInt(UInt64, bs).Got? {
      EntriesShrink(ReadInt(UInt64, bs).rest, ReadInt(UInt64, bs).value);
    }
  }

  lemma AttrShrinks(it: ItemType, w: World, tag: Byte, bs: seq<Byte>, x: Body)
    ensures ReadAttr(it, w, tag, bs, x).Continue? ==> |ReadAttr(it, w, tag, bs, x).rest| <= |bs|
  {
    if KindOf(tag).Some? {
      KindShrinks(KindOf(tag).value, bs, x.store);
    }
  }

  /** How reading ends: at a zero byte or the end of the bytes, at the children of a container, or in failure. */
  datatype Outcome = Done(body: Body, size: Option<nat>, rest: seq<Byte>) | Failed

  function Unserialized(it: ItemType, w: World, bs: seq<Byte>, x: Body): Outcome
    decreases |bs|
  {
    if bs == [] then Done(x, None, [])
    else if bs[0] == 0 then Done(x, None, bs[1..])
    else
      AttrShrinks(it, w, bs[0], bs[1..], x);
      match ReadAttr(it, w, bs[0], bs[1..], x)
      case Error => Failed
      case End(n, rest) => Done(x, Some(n), rest)
      case Continue(y, rest) => Unserialized(it, w, rest, y)
  }

  // ---------------------------------------------------------------- one kind, there and back

  predicate Blanks(m: map<Text, CustomValue>) {
    exists k <- m :: m[k].Blank?
  }

  function KeptValue(v: CustomValue): CustomValue {
    match v
    case Words(text) => Words(Kept(text))
    case _ => v
  }

  /** The custom attributes as they are read back: strings that are too long come back empty. */
  function KeptEntries(order: seq<Text>, m: map<Text, CustomValue>): (es: seq<Entry>)
    requires forall k <- order :: k in m
    ensures |es| == |order|
  {
    if order == [] then [] else [Entry(Kept(order[0]), KeptValue(m[order[0]]))] + KeptEntries(order[1..], m)
  }

  /** The store after reading what was written for one kind of s into the store y. */
  function Effect(it: ItemType, s: Store, now: Int64, order: seq<Text>, t: AttrType, y: Store): Store
    requires Saved(t) && forall k <- order :: k in CustomIn(s)
  {
    match FormOf(t)
    case Whole(k) =>
      (match IntToWrite(it, s, t, now)
       case None => y
       case Some(v) =>
         ConvertBounds(k, v);
         PutInt(y, t, Convert(k, v)))
    case Str => (match StrToWrite(s, t) case None => y case Some(text) => PutStr(y, t, Kept(text)))
    case Entries => if t in s then PutAll(KeptEntries(order, CustomIn(s)), y) else y
  }

  lemma Assoc<T>(a: seq<T>, b: seq<T>, c: seq<T>)
    ensures a + b + c == a + (b + c)
  {
  }

  lemma Behind(b: Byte, bs: seq<Byte>, rest: seq<Byte>)
    ensures [b] + bs + rest == [b] + (bs + rest) && ([b] + bs + rest)[0] == b && ([b] + bs + rest)[1..] == bs + rest
  {
  }

  lemma NumberReturns(number: Int64, rest: seq<Byte>)
    ensures ReadInt(SInt64, ToBytes(number, SizeOf(SInt64)) + rest) == Got(number, rest)
  {
    WrittenInt(SInt64, number, rest);
    Fits(number);
  }

  lemma Fits(number: Int64)
    ensures Convert(SInt64, number) == number
  {
  }

  lemma ValueReturns(v: CustomValue, rest: seq<Byte>)
    ensures ReadValue(ValueBytes(v) + rest) == if v.Blank? then Short else Got(KeptValue(v), rest)
  {
    match v
    case Blank =>
    case Words(text) =>
      Behind(1, StringBytes(text), rest);
      ReadWrittenString(text, rest);
    case Number(number) =>
      Behind(2, ToBytes(number, SizeOf(SInt64)), rest);
      NumberReturns(number, rest);
    case Double(raw) =>
      Behind(3, raw, rest);
      assert (raw + rest)[..8] == raw && (raw + rest)[8..] == rest;
    case Flag(flag) =>
      var b := if flag then 1 else 0;
      Behind(4, [b], rest);
      assert ([b] + rest)[..1] == [b] && ([b] + rest)[1..] == rest;
      assert FromBytes([b]) == b + 256 * FromBytes([b][1..]);
  }

  predicate AnyBlank(order: seq<Text>, m: map<Text, CustomValue>)
    requires forall k <- order :: k in m
  {
    order != [] && (m[order[0]].Blank? || AnyBlank(order[1..], m))
  }

  lemma {:induction false} AnyBlankIff(order: seq<Text>, m: map<Text, CustomValue>)
    requires forall k <- order :: k in m
    ensures AnyBlank(order, m) <==> exists k <- order :: m[k].Blank?
  {
    if order != [] {
      AnyBlankIff(order[1..], m);
      assert order == [order[0]] + order[1..];
    }
  }

  lemma EntryReturns(key: Text, v: CustomValue, tail: seq<Byte>)
    ensures ReadEntry(StringBytes(key) + (ValueBytes(v) + tail)) ==
            if v.Blank? then Short else Got(Entry(Kept(key), KeptValue(v)), tail)
  {
    ReadWrittenString(key, ValueBytes(v) + tail);
    ValueReturns(v, tail);
  }

  lemma EntriesAssoc(order: seq<Text>, m: map<Text, CustomValue>, rest: seq<Byte>)
    requires order != [] && forall k <- order :: k in m
    ensures EntriesBytes(order, m) + rest ==
            StringBytes(order[0]) + (ValueBytes(m[order[0]]) + (EntriesBytes(order[1..], m) + rest))
  {
    var a, b, c := StringBytes(order[0]), ValueBytes(m[order[0]]), EntriesBytes(order[1..], m);
    Assoc(a + b, c, rest);
    Assoc(a, b, c + rest);
  }

  /** The written entries are read back unless one of them is blank, which makes reading fail. */
  lemma {:induction false} EntriesReturn(order: seq<Text>, m: map<Text, CustomValue>, rest: seq<Byte>)
    requires forall k <- order :: k in m
    ensures EntryList(EntriesBytes(order, m) + rest, |order|) ==
            if AnyBlank(order, m) then Short else Got(KeptEntries(order, m), rest)
    decreases |order|
  {
    if order == [] {
      assert EntriesBytes(order, m) + rest == rest;
    } else {
      EntriesAssoc(order, m, rest);
      EntryReturns(order[0], m[order[0]], EntriesBytes(order[1..], m) + rest);
      EntriesReturn(order[1..], m, rest);
    }
  }

  /** The payload of a kind is read back as its effect. */
  lemma PayloadReturns(t: AttrType, k: Int, v: int, y: Store, rest: seq<Byte>)
    requires Saved(t) && FormOf(t) == Whole(k)
    ensures -0x8000_0000 <= Convert(k, v) < 0x1_0000_0000
    ensures ReadKind(t, ToBytes(v, SizeOf(k)) + rest, y) == Got(PutInt(y, t, Convert(k, v)), rest)
  {
    ConvertBounds(k, v);
    WrittenInt(k, v, rest);
  }

  /** Reading goes on behind an attribute that was read. */
  lemma Step(it: ItemType, w: World, t: AttrType, payload: seq<Byte>, rest: seq<Byte>, y: Body)
    requires Saved(t)
    ensures Unserialized(it, w, [TagOf(t)] + payload + rest, y) ==
            match ReadKind(t, payload + rest, y.store)
            case Short => Failed
            case Got(s, rest') => Unserialized(it, w, rest', y.(store := s))
  {
    TagsDistinct(t);
    Behind(TagOf(t), payload, rest);
  }

  lemma IntReturns(it: ItemType, w: World, t: AttrType, k: Int, v: int, y: Body, rest: seq<Byte>)
    requires Saved(t) && FormOf(t) == Whole(k)
    ensures -0x8000_0000 <= Convert(k, v) < 0x1_0000_0000
    ensures Unserialized(it, w, [TagOf(t)] + ToBytes(v, SizeOf(k)) + rest, y) ==
            Unserialized(it, w, rest, y.(store := PutInt(y.store, t, Convert(k, v))))
  {
    Step(it, w, t, ToBytes(v, SizeOf(k)), rest, y);
    PayloadReturns(t, k, v, y.store, rest);
  }

  lemma StrReturns(it: ItemType, w: World, t: AttrType, text: Text, y: Body, rest: seq<Byte>)
    requires Saved(t) && FormOf(t).Str?
    ensures Unserialized(it, w, [TagOf(t)] + StringBytes(text) + rest, y) ==
            Unserialized(it, w, rest, y.(store := PutStr(y.store, t, Kept(text))))
  {
    Step(it, w, t, StringBytes(text), rest, y);
    StrPayload(t, text, y.store, rest);
  }

  lemma StrPayload(t: AttrType, text: Text, y: Store, rest: seq<Byte>)
    requires Saved(t) && FormOf(t).Str?
    ensures ReadKind(t, StringBytes(text) + rest, y) == Got(PutStr(y, t, Kept(text)), rest)
  {
    ReadWrittenString(text, rest);
  }

  lemma ReadCustom(bs: seq<Byte>, n: nat, bytes: seq<Byte>, y: Store)
    requires ReadInt(UInt64, bs) == Got(n, bytes)
    ensures ReadKind(CUSTOM, bs, y) == ReadEntries(bytes, n, y)
  {
    assert FormOf(CUSTOM) == Entries;
  }

  lemma CustomPayload(order: seq<Text>, m: map<Text, CustomValue>, y: Store, rest: seq<Byte>)
    requires (forall k <- order :: k in m) && |order| < 0x1_0000_0000_0000_0000
    ensures ReadKind(CUSTOM, ToBytes(|order|, SizeOf(UInt64)) + EntriesBytes(order, m) + rest, y) ==
            if AnyBlank(order, m) then Short else Got(PutAll(KeptEntries(order, m), y), rest)
  {
    var head, bytes := ToBytes(|order|, SizeOf(UInt64)), EntriesBytes(order, m);
    WrittenInt(UInt64, |order|, bytes + rest);
    Assoc(head, bytes, rest);
    ReadCustom(head + bytes + rest, |order|, bytes + rest, y);
    EntriesReturn(order, m, rest);
  }

  lemma CustomReturns(it: ItemType, w: World, order: seq<Text>, m: map<Text, CustomValue>, y: Body, rest: seq<Byte>)
    requires Enumerates(order, m)
    ensures Unserialized(it, w, [TagOf(CUSTOM)] + (ToBytes(|order|, SizeOf(UInt64)) + EntriesBytes(order, m)) + rest,
            y) ==
            if Blanks(m) then Failed else Unserialized(it, w, rest, y.(store := PutAll(KeptEntries(order, m), y.store)))
  {
    Step(it, w, CUSTOM, ToBytes(|order|, SizeOf(UInt64)) + EntriesBytes(order, m), rest, y);
    CustomPayload(order, m, y.store, rest);
    AnyBlankIff(order, m);
  }

  /** What was written for a kind is read back as its effect, unless it is a custom attribute without a value. */
  lemma KindReturns(
      it: ItemType, w: World, s: Store, now: Int64, order: seq<Text>, t: AttrType, y: Body, rest: seq<Byte>)
    requires Saved(t) && Enumerates(order, CustomIn(s))
    ensures Unserialized(it, w, KindBytes(it, s, now, order, t) + rest, y) ==
            if t == CUSTOM && Blanks(CustomIn(s)) then Failed
            else Unserialized(it, w, rest, y.(store := Effect(it, s, now, order, t, y.store)))
  {
    match FormOf(t)
    case Whole(_) => WholeReturns(it, w, s, now, order, t, y, rest);
    case Str => TextReturns(it, w, s, now, order, t, y, rest);
    case Entries =>
      assert t == CUSTOM;
      assert [] + rest == rest;
      if t in s {
        CustomReturns(it, w, order, CustomIn(s), y, rest);
      }
  }

  lemma WholeReturns(
      it: ItemType, w: World, s: Store, now: Int64, order: seq<Text>, t: AttrType, y: Body, rest: seq<Byte>)
    requires Saved(t) && FormOf(t).Whole? && forall k <- order :: k in CustomIn(s)
    ensures Unserialized(it, w, KindBytes(it, s, now, order, t) + rest, y) ==
            Unserialized(it, w, rest, y.(store := Effect(it, s, now, order, t, y.store)))
  {
    assert [] + rest == rest;
    if IntToWrite(it, s, t, now).Some? {
      IntReturns(it, w, t, FormOf(t).kind, IntToWrite(it, s, t, now).value, y, rest);
    }
  }

  lemma TextReturns(
      it: ItemType, w: World, s: Store, now: Int64, order: seq<Text>, t: AttrType, y: Body, rest: seq<Byte>)
    requires Saved(t) && FormOf(t).Str? && forall k <- order :: k in CustomIn(s)
    ensures Unserialized(it, w, KindBytes(it, s, now, order, t) + rest, y) ==
            Unserialized(it, w, rest, y.(store := Effect(it, s, now, order, t, y.store)))
  {
    assert [] + rest == rest;
    if StrToWrite(s, t).Some? {
      StrReturns(it, w, t, StrToWrite(s, t).value, y, rest);
    }
  }

  // ---------------------------------------------------------------- all kinds

  function Effects(it: ItemType, s: Store, now: Int64, order: seq<Text>, ts: seq<AttrType>, y: Store): Store
    requires (forall t <- ts :: Saved(t)) && forall k <- order :: k in CustomIn(s)
  {
    if ts == [] then y else Effects(it, s, now, order, ts[1..], Effect(it, s, now, order, ts[0], y))
  }

  lemma {:induction false} KindsReturn(
      it: ItemType, w: World, s: Store, now: Int64, order: seq<Text>, ts: seq<AttrType>, y: Body, rest: seq<Byte>)
    requires (forall t <- ts :: Saved(t)) && Enumerates(order, CustomIn(s))
    ensures Unserialized(it, w, KindsBytes(it, s, now, order, ts) + rest, y) ==
            if CUSTOM in ts && Blanks(CustomIn(s)) then Failed
            else Unserialized(it, w, rest, y.(store := Effects(it, s, now, order, ts, y.store)))
    decreases |ts|
  {
    if ts == [] {
      assert KindsBytes(it, s, now, order, ts) + rest == rest;
    } else {
      var tail := KindsBytes(it, s, now, order, ts[1..]);
      Assoc(KindBytes(it, s, now, order, ts[0]), tail, rest);
      KindReturns(it, w, s, now, order, ts[0], y, tail + rest);
      KindsReturn(it, w, s, now, order, ts[1..], y.(store := Effect(it, s, now, order, ts[0], y.store)), rest);
      assert CUSTOM in ts <==> CUSTOM == ts[0] || CUSTOM in ts[1..];
    }
  }

  /** The store after reading the count and the charges of x. */
  function AfterSubType(it: ItemType, x: Body, y: Body): Body {
    var y := if it.stackable || it.fluid then SetSubType(it, y, U8(GetSubType(it, x))) else y;
    if GetCharges(x) != 0 then SetSubType(it, y, GetCharges(x)) else y
  }

  lemma SubTypeStep(it: ItemType, w: World, tag: Byte, k: Int, v: int, y: Body, rest: seq<Byte>)
    requires (tag == ATTR_COUNT && k == UInt8) || (tag == ATTR_CHARGES && k == UInt16)
    ensures 0 <= Convert(k, v) < 0x1_0000
    ensures Unserialized(it, w, [tag] + ToBytes(v, SizeOf(k)) + rest, y) ==
            Unserialized(it, w, rest, SetSubType(it, y, Convert(k, v)))
  {
    Behind(tag, ToBytes(v, SizeOf(k)), rest);
    WrittenInt(k, v, rest);
  }

  lemma CountReturns(it: ItemType, w: World, x: Body, y: Body, rest: seq<Byte>)
    ensures Unserialized(it, w, CountBytes(it, x) + rest, y) ==
            Unserialized(it, w, rest, if it.stackable || it.fluid then SetSubType(it, y, U8(GetSubType(it, x))) else y)
  {
    if it.stackable || it.fluid {
      SubTypeStep(it, w, ATTR_COUNT, UInt8, GetSubType(it, x), y, rest);
    } else {
      assert [] + rest == rest;
    }
  }

  lemma ChargesReturn(it: ItemType, w: World, x: Body, y: Body, rest: seq<Byte>)
    ensures Unserialized(it, w, ChargesBytes(x) + rest, y) ==
            Unserialized(it, w, rest, if GetCharges(x) != 0 then SetSubType(it, y, GetCharges(x)) else y)
  {
    if GetCharges(x) != 0 {
      SubTypeStep(it, w, ATTR_CHARGES, UInt16, GetCharges(x), y, rest);
      ConvertTwice(UInt16, IntIn(x.store, CHARGES));
    } else {
      assert [] + rest == rest;
    }
  }

  lemma SubTypeReturns(it: ItemType, w: World, x: Body, y: Body, rest: seq<Byte>)
    ensures Unserialized(it, w, CountBytes(it, x) + ChargesBytes(x) + rest, y) ==
            Unserialized(it, w, rest, AfterSubType(it, x, y))
  {
    var y' := if it.stackable || it.fluid then SetSubType(it, y, U8(GetSubType(it, x))) else y;
    Assoc(CountBytes(it, x), ChargesBytes(x), rest);
    CountReturns(it, w, x, y, ChargesBytes(x) + rest);
    ChargesReturn(it, w, x, y', rest);
  }

  // ---------------------------------------------------------------- the normal form

  /** The custom attributes after setting some: keys are put in lower case. */
  function FoldMap(es: seq<Entry>, c: map<Text, CustomValue>): map<Text, CustomValue> {
    if es == [] then c else FoldMap(es[..|es| - 1], c)[LowerCase(es[|es| - 1].key) := es[|es| - 1].value]
  }

  /** The value that comes back for a kind with a tag of its own, if one does. */
  function Back(it: ItemType, s: Store, now: Int64, order: seq<Text>, t: AttrType): Option<Value>
    requires Saved(t) && forall k <- order :: k in CustomIn(s)
  {
    match FormOf(t)
    case Whole(k) => (match IntToWrite(it, s, t, now) case None => None case Some(v) => IntBack(t, v))
    case Str => (match StrToWrite(s, t) case None => None
      case Some(text) => if IsStr(t) && Kept(text) != [] then Some(StrV(Kept(text))) else None)
    case Entries => if t in s && order != [] then Some(CustomV(FoldMap(KeptEntries(order, CustomIn(s)), map[])))
      else None
  }

  function IntBack(t: AttrType, v: int): Option<Value>
    requires Saved(t) && FormOf(t).Whole?
  {
    ConvertBounds(FormOf(t).kind, v);
    var r := Convert(FormOf(t).kind, v);
    if t == DECAY_STATE && r == 0 then None else Some(IntV(AsRead(t, r)))
  }

  function Update(s: Store, t: AttrType, v: Option<Value>): Store {
    match v case None => s case Some(v) => s[t := v]
  }

  function Lookup(s: Store, t: AttrType): Option<Value> {
    if t in s then Some(s[t]) else None
  }

  lemma {:induction false} PutAllIs(es: seq<Entry>, y: Store)
    ensures PutAll(es, y) == if es == [] then y else y[CUSTOM := CustomV(FoldMap(es, CustomIn(y)))]
  {
    if es != [] {
      PutAllIs(es[..|es| - 1], y);
    }
  }

  lemma EffectIsUpdate(it: ItemType, s: Store, now: Int64, order: seq<Text>, t: AttrType, y: Store)
    requires Saved(t) && (forall k <- order :: k in CustomIn(s)) && (t == CUSTOM ==> CUSTOM !in y)
    ensures Effect(it, s, now, order, t, y) == Update(y, t, Back(it, s, now, order, t))
  {
    if t == CUSTOM {
      PutAllIs(KeptEntries(order, CustomIn(s)), y);
    }
  }

  /** Every kind in the list is what came back for it, and every other kind is as before. */
  lemma {:induction false} EffectsAt(
      it: ItemType, s: Store, now: Int64, order: seq<Text>, ts: seq<AttrType>, y: Store, t: AttrType)
    requires (forall t <- ts :: Saved(t)) && forall k <- order :: k in CustomIn(s)
    requires CUSTOM in ts ==> CUSTOM !in y
    requires forall i, j :: 0 <= i < j < |ts| ==> ts[i] != ts[j]
    ensures Lookup(Effects(it, s, now, order, ts, y), t) ==
            if t in ts && Back(it, s, now, order, t).Some? then Back(it, s, now, order, t) else Lookup(y, t)
    decreases |ts|
  {
    if ts != [] {
      EffectIsUpdate(it, s, now, order, ts[0], y);
      var y' := Effect(it, s, now, order, ts[0], y);
      assert y' == Update(y, ts[0], Back(it, s, now, order, ts[0]));
      assert CUSTOM in ts[1..] ==> ts[0] != CUSTOM;
      EffectsAt(it, s, now, order, ts[1..], y', t);
      assert t in ts <==> t == ts[0] || t in ts[1..];
    }
  }

  /** The default duration that a new item of the type starts with. */
  function DefaultDuration(it: ItemType): Option<Value> {
    var d := it.decayTime * 1000 % 0x1_0000_0000;
    if d == 0 then None else Some(IntV(Max(0, I32(d))))
  }

  function CreatedSubType(it: ItemType, n: nat): nat {
    if it.container then 0 else n
  }

  /** For each kind, what an item holds after it was saved and read into a new item of its type. */
  function NormalAt(it: ItemType, x: Body, now: Int64, order: seq<Text>, n: nat, t: AttrType): Option<Value>
    requires n < 0x1_0000 && forall k <- order :: k in CustomIn(x.store)
  {
    var c := GetCharges(x);
    if t == FLUID_TYPE then
      if it.fluid then Some(IntV(if c != 0 then c else U8(GetSubType(it, x)))) else None
    else if t == CHARGES then
      if it.fluid || it.stackable || it.charges == 0 then None
      else if c != 0 then Some(IntV(c))
      else if CreatedSubType(it, n) != 0 then Some(IntV(n))
      else Some(IntV(U16(it.charges)))
    else if !Saved(t) then None
    else if t == DURATION && DURATION !in x.store then DefaultDuration(it)
    else Back(it, x.store, now, order, t)
  }

  function NormalCount(it: ItemType, x: Body): Byte {
    var c := GetCharges(x);
    if it.fluid then 1
    else if it.stackable then (if c != 0 then U8(c) else x.count)
    else if it.charges != 0 then 1
    else if c != 0 then U8(c)
    else 1
  }

  function Normal(it: ItemType, x: Body, now: Int64, order: seq<Text>, n: nat): Body
    requires n < 0x1_0000 && forall k <- order :: k in CustomIn(x.store)
  {
    Body(NormalCount(it, x),
      map t: AttrType | NormalAt(it, x, now, order, n, t).Some? :: NormalAt(it, x, now, order, n, t).value)
  }

  function Result(it: ItemType, x: Body, now: Int64, order: seq<Text>, ts: seq<AttrType>, n: nat): Body
    requires n < 0x1_0000 && (forall k <- order :: k in CustomIn(x.store)) && forall t <- ts :: Saved(t)
  {
    var y := AfterSubType(it, x, Created(it, n));
    y.(store := Effects(it, x.store, now, order, ts, y.store))
  }

  lemma AfterSubTypeAt(it: ItemType, x: Body, n: nat, t: AttrType)
    requires n < 0x1_0000
    ensures AfterSubType(it, x, Created(it, n)).count == NormalCount(it, x)
    ensures Lookup(AfterSubType(it, x, Created(it, n)).store, t) ==
            if t == FLUID_TYPE || t == CHARGES then NormalAt(it, x, 0, [], n, t)
            else if t == DURATION then DefaultDuration(it) else None
  {
  }

  lemma SameLookups(a: Store, b: Store)
    requires forall t: AttrType :: Lookup(a, t) == Lookup(b, t)
    ensures a == b
  {
    forall t: AttrType ensures (t in a <==> t in b) && (t in a ==> a[t] == b[t]) {
      assert Lookup(a, t) == Lookup(b, t);
    }
  }

  lemma NormalLookup(it: ItemType, x: Body, now: Int64, order: seq<Text>, n: nat, t: AttrType)
    requires n < 0x1_0000 && forall k <- order :: k in CustomIn(x.store)
    ensures Lookup(Normal(it, x, now, order, n).store, t) == NormalAt(it, x, now, order, n, t)
  {
  }

  lemma ResultAt(it: ItemType, x: Body, now: Int64, order: seq<Text>, ts: seq<AttrType>, n: nat, t: AttrType)
    requires n < 0x1_0000 && (forall k <- order :: k in CustomIn(x.store)) && Complete(ts)
    ensures Lookup(Result(it, x, now, order, ts, n).store, t) == NormalAt(it, x, now, order, n, t)
  {
    var y := AfterSubType(it, x, Created(it, n));
    AfterSubTypeAt(it, x, n, CUSTOM);
    AfterSubTypeAt(it, x, n, t);
    EffectsAt(it, x.store, now, order, ts, y.store, t);
    if t == DURATION && DURATION in x.store {
      assert Back(it, x.store, now, order, t).Some?;
    }
  }

  lemma ResultIsNormal(it: ItemType, x: Body, now: Int64, order: seq<Text>, ts: seq<AttrType>, n: nat)
    requires n < 0x1_0000 && (forall k <- order :: k in CustomIn(x.store)) && Complete(ts)
    ensures Result(it, x, now, order, ts, n) == Normal(it, x, now, order, n)
  {
    var a, b := Result(it, x, now, order, ts, n), Normal(it, x, now, order, n);
    forall t: AttrType ensures Lookup(a.store, t) == Lookup(b.store, t) {
      ResultAt(it, x, now, order, ts, n, t);
      NormalLookup(it, x, now, order, n, t);
    }
    SameLookups(a.store, b.store);
    AfterSubTypeAt(it, x, n, CUSTOM);
  }

  /**
   * The codec theorem: reading what serializeAttr wrote into a new item of the type
   * arrives at the normal form of the item just behind the written bytes, whatever follows
   * them; it fails exactly if a custom attribute has no value.
   */
  lemma AttributesReturn(it: ItemType, w: World, x: Body, now: Int64, order: seq<Text>, n: nat, rest: seq<Byte>)
    requires n < 0x1_0000 && Enumerates(order, CustomIn(x.store))
    ensures Unserialized(it, w, Serialized(it, x, now, order) + rest, Created(it, n)) ==
            if Blanks(CustomIn(x.store)) then Failed else Unserialized(it, w, rest, Normal(it, x, now, order, n))
  {
    OrderComplete();
    TripReturns(it, w, x, now, order, ORDER, n, rest);
    ResultIsNormal(it, x, now, order, ORDER, n);
  }

  lemma TripReturns(
      it: ItemType, w: World, x: Body, now: Int64, order: seq<Text>, ts: seq<AttrType>, n: nat, rest: seq<Byte>)
    requires n < 0x1_0000 && Enumerates(order, CustomIn(x.store)) && Complete(ts)
    ensures Unserialized(it, w, CountBytes(it, x) + ChargesBytes(x) + KindsBytes(it, x.store, now, order, ts) + rest,
            Created(it, n)) ==
            if Blanks(CustomIn(x.store)) then Failed else Unserialized(it, w, rest, Result(it, x, now, order, ts, n))
  {
    var kinds := KindsBytes(it, x.store, now, order, ts);
    Assoc(CountBytes(it, x) + ChargesBytes(x), kinds, rest);
    SubTypeReturns(it, w, x, Created(it, n), kinds + rest);
    KindsReturn(it, w, x.store, now, order, ts, AfterSubType(it, x, Created(it, n)), rest);
  }

  /** At the zero byte that ends the attributes of an item nothing of what follows is consumed. */
  lemma EndReturns(it: ItemType, w: World, y: Body, rest: seq<Byte>)
    ensures Unserialized(it, w, [0] + rest, y) == Done(y, None, rest)
  {
    assert ([0] + rest)[1..] == rest;
  }

  /** The number of children stops the reading of the attributes of a container. */
  lemma ChildrenReturn(it: ItemType, w: World, y: Body, size: nat, rest: seq<Byte>)
    requires it.container && size < 0x1_0000_0000
    ensures Unserialized(it, w, [ATTR_CONTAINER_ITEMS] + ToBytes(size, SizeOf(UInt32)) + rest, y) ==
            Done(y, Some(size), rest)
  {
    Behind(ATTR_CONTAINER_ITEMS, ToBytes(size, SizeOf(UInt32)), rest);
    SizeReturns(size, rest);
  }

  lemma SizeReturns(size: nat, rest: seq<Byte>)
    requires size < 0x1_0000_0000
    ensures ReadInt(UInt32, ToBytes(size, SizeOf(UInt32)) + rest) == Got(size, rest)
  {
    WrittenInt(UInt32, size, rest);
    SizeFits(size);
  }

  lemma SizeFits(size: nat)
    requires size < 0x1_0000_0000
    ensures Convert(UInt32, size) == size
  {
  }

  // ---------------------------------------------------------------- a second trip

  predicate Clean(m: map<Text, CustomValue>) {
    forall k <- m :: LowerCase(Kept(k)) == k && KeptValue(m[k]) == m[k]
  }

  lemma {:induction false} LowerTwice(k: Text)
    ensures LowerCase(LowerCase(k)) == LowerCase(k)
  {
    if k != [] {
      LowerTwice(k[1..]);
      assert LowerCase(k)[1..] == LowerCase(k[1..]);
    }
  }

  predicate KeptOnes(es: seq<Entry>) {
    forall i :: 0 <= i < |es|
      ==> LowerCase(Kept(LowerCase(es[i].key))) == LowerCase(es[i].key) && KeptValue(es[i].value) == es[i].value
  }

  lemma KeptTwice(k: Text, v: CustomValue)
    ensures LowerCase(Kept(LowerCase(Kept(k)))) == LowerCase(Kept(k)) && KeptValue(KeptValue(v)) == KeptValue(v)
  {
    LowerTwice(Kept(k));
  }

  lemma {:induction false} EntriesKept(order: seq<Text>, m: map<Text, CustomValue>)
    requires forall k <- order :: k in m
    ensures KeptOnes(KeptEntries(order, m))
    ensures forall i :: 0 <= i < |order| ==> KeptEntries(order, m)[i] == Entry(Kept(order[i]), KeptValue(m[order[i]]))
  {
    if order != [] {
      EntriesKept(order[1..], m);
      KeptTwice(order[0], m[order[0]]);
    }
  }

  lemma {:induction false} FoldIsClean(es: seq<Entry>)
    requires KeptOnes(es)
    ensures Clean(FoldMap(es, map[]))
    ensures es != [] ==> FoldMap(es, map[]) != map[]
  {
    if es != [] {
      FoldIsClean(es[..|es| - 1]);
      assert LowerCase(es[|es| - 1].key) in FoldMap(es, map[]);
    }
  }

  /** Setting entries that agree with a map and are not changed on the way yields the part of the map that they name. */
  lemma {:induction false} FoldAgrees(es: seq<Entry>, m: map<Text, CustomValue>)
    requires forall i ::
               0 <= i < |es| ==>
               es[i].key in m && LowerCase(es[i].key) == es[i].key && es[i].value == m[es[i].key]
    ensures var c := FoldMap(es, map[]);
            && (forall k <- c :: k in m && c[k] == m[k])
            && (forall i :: 0 <= i < |es| ==> es[i].key in c)
  {
    if es != [] {
      FoldAgrees(es[..|es| - 1], m);
    }
  }

  lemma CleanEntries(order: seq<Text>, m: map<Text, CustomValue>)
    requires (forall k <- order :: k in m) && Clean(m)
    ensures forall i ::
              0 <= i < |order| ==>
              KeptEntries(order, m)[i] == Entry(order[i], m[order[i]]) && LowerCase(order[i]) == order[i]
  {
    EntriesKept(order, m);
    forall i | 0 <= i < |order|
      ensures KeptEntries(order, m)[i] == Entry(order[i], m[order[i]]) && LowerCase(order[i]) == order[i] {
      assert order[i] in m;
      CleanKey(order[i], m[order[i]]);
    }
  }

  lemma CleanFold(order: seq<Text>, m: map<Text, CustomValue>)
    requires Enumerates(order, m) && Clean(m)
    ensures FoldMap(KeptEntries(order, m), map[]) == m
  {
    CleanEntries(order, m);
    FoldsTo(order, m, KeptEntries(order, m));
  }

  lemma FoldsTo(order: seq<Text>, m: map<Text, CustomValue>, es: seq<Entry>)
    requires Enumerates(order, m) && |es| == |order|
    requires forall i :: 0 <= i < |order| ==> es[i] == Entry(order[i], m[order[i]]) && LowerCase(order[i]) == order[i]
    ensures FoldMap(es, map[]) == m
  {
    FoldAgrees(es, m);
    forall k <- m ensures k in FoldMap(es, map[]) {
      var i :| 0 <= i < |order| && order[i] == k;
      assert es[i].key == k;
    }
  }

  lemma CleanKey(k: Text, v: CustomValue)
    requires LowerCase(Kept(k)) == k && KeptValue(v) == v
    ensures Kept(k) == k && LowerCase(k) == k
  {
  }

  lemma NothingEnumerated(order: seq<Text>, m: map<Text, CustomValue>)
    requires Enumerates(order, m)
    ensures order == [] ==> m == map[]
  {
  }

  /** The items whose charges or date a second trip does not preserve. */
  predicate Unstable(it: ItemType, x: Body) {
    var c := GetCharges(x);
    || (it.fluid && c >= 0x100)
    || (!it.fluid && !it.stackable && it.charges == 0 && c != 0 && U8(c) != 1)
    || (IntIn(x.store, DATE) != 0 && IntIn(x.store, DATE) % 0x1_0000_0000 == 0)
  }

  lemma NormalInt(it: ItemType, x: Body, now: Int64, order: seq<Text>, n: nat, t: AttrType)
    requires n < 0x1_0000 && (forall k <- order :: k in CustomIn(x.store)) && IsInt(t)
    ensures var s := Normal(it, x, now, order, n).store;
            match NormalAt(it, x, now, order, n, t)
            case None => t !in s && IntIn(s, t) == 0
            case Some(v) => v.IntV? && t in s && s[t] == v && IntIn(s, t) == v.integer
  {
    NormalLookup(it, x, now, order, n, t);
  }

  lemma NormalStr(it: ItemType, x: Body, now: Int64, order: seq<Text>, n: nat, t: AttrType)
    requires n < 0x1_0000 && (forall k <- order :: k in CustomIn(x.store)) && IsStr(t)
    ensures var s := Normal(it, x, now, order, n).store;
            match NormalAt(it, x, now, order, n, t)
            case None => t !in s && StrIn(s, t) == []
            case Some(v) => v.StrV? && v.text != [] && |v.text| <= MAX_STRING && t in s && StrIn(s, t) == v.text
  {
    NormalLookup(it, x, now, order, n, t);
  }

  lemma NormalCustom(it: ItemType, x: Body, now: Int64, order: seq<Text>, n: nat)
    requires n < 0x1_0000 && (forall k <- order :: k in CustomIn(x.store))
    ensures var s := Normal(it, x, now, order, n).store;
            if CUSTOM in x.store && order != [] then
              CUSTOM in s && s[CUSTOM] == CustomV(CustomIn(s))
                && CustomIn(s) == FoldMap(KeptEntries(order, CustomIn(x.store)), map[]) && CustomIn(s) != map[]
                && Clean(CustomIn(s))
            else CUSTOM !in s
  {
    NormalLookup(it, x, now, order, n, CUSTOM);
    CustomAt(it, x, now, order, n);
    var s := Normal(it, x, now, order, n).store;
    if CUSTOM in x.store && order != [] {
      var m := FoldMap(KeptEntries(order, CustomIn(x.store)), map[]);
      FoundCustom(s, m);
      KeptFold(order, CustomIn(x.store));
    }
  }

  lemma FoundCustom(s: Store, m: map<Text, CustomValue>)
    requires Lookup(s, CUSTOM) == Some(CustomV(m))
    ensures CUSTOM in s && s[CUSTOM] == CustomV(m) && CustomIn(s) == m
  {
  }

  lemma KeptFold(order: seq<Text>, m: map<Text, CustomValue>)
    requires order != [] && forall k <- order :: k in m
    ensures var f := FoldMap(KeptEntries(order, m), map[]); f != map[] && Clean(f)
  {
    EntriesKept(order, m);
    FoldIsClean(KeptEntries(order, m));
  }

  lemma CustomAt(it: ItemType, x: Body, now: Int64, order: seq<Text>, n: nat)
    requires n < 0x1_0000 && (forall k <- order :: k in CustomIn(x.store))
    ensures NormalAt(it, x, now, order, n, CUSTOM) ==
            if CUSTOM in x.store && order != []
              then Some(CustomV(FoldMap(KeptEntries(order, CustomIn(x.store)), map[]))) else None
  {
    assert FormOf(CUSTOM) == Entries;
  }

  /** An item that holds exactly what came back for a kind. */
  predicate HoldsBack(s': Store, t: AttrType, b: Option<Value>) {
    match b
    case None => t !in s' && IntIn(s', t) == 0
    case Some(v) => v.IntV? && t in s' && IntIn(s', t) == v.integer
  }

  lemma PlainTwice(
      it: ItemType, s: Store, now: Int64, s': Store, now': Int64, order: seq<Text>, order': seq<Text>, t: AttrType)
    requires (forall k <- order :: k in CustomIn(s)) && (forall k <- order' :: k in CustomIn(s'))
    requires Saved(t) && IsInt(t) && t != ACTION_ID && t != DATE && t != DURATION && t != DECAY_STATE
    requires HoldsBack(s', t, Back(it, s, now, order, t))
    ensures Back(it, s', now', order', t) == Back(it, s, now, order, t)
  {
    if t in s {
      ConvertTwice(FormOf(t).kind, IntIn(s, t));
    }
  }

  lemma SpecialTwice(
      it: ItemType, s: Store, now: Int64, s': Store, now': Int64, order: seq<Text>, order': seq<Text>, t: AttrType)
    requires (forall k <- order :: k in CustomIn(s)) && (forall k <- order' :: k in CustomIn(s'))
    requires t == ACTION_ID || t == DATE || t == DECAY_STATE
    requires HoldsBack(s', t, Back(it, s, now, order, t))
    ensures Back(it, s', now', order', t) == if t == DATE && IntIn(s', DATE) == 0 then None
            else Back(it, s, now, order, t)
  {
    if t == ACTION_ID {
    } else if t == DATE {
    } else {
      DecayBack(it, s, now, order);
    }
  }

  lemma DurationTwice(s': Store, now': Int64)
    requires 0 <= IntIn(s', DURATION) < 0x8000_0000
             && (IntIn(s', DECAY_STATE) == 0 || IntIn(s', DECAY_STATE) == DECAYING_PENDING)
    requires DURATION in s'
    ensures GetDuration(s', now') == IntIn(s', DURATION)
    ensures IntBack(DURATION, GetDuration(s', now')) == Some(IntV(IntIn(s', DURATION)))
  {
  }

  lemma DecayBack(it: ItemType, s: Store, now: Int64, order: seq<Text>)
    requires forall k <- order :: k in CustomIn(s)
    ensures Back(it, s, now, order, DECAY_STATE) in {None, Some(IntV(DECAYING_PENDING))}
  {
  }

  lemma DurationAt(it: ItemType, x: Body, now: Int64, order: seq<Text>, n: nat)
    requires n < 0x1_0000 && (forall k <- order :: k in CustomIn(x.store))
    ensures var b := NormalAt(it, x, now, order, n, DURATION);
            b.Some? ==> b.value.IntV? && 0 <= b.value.integer < 0x8000_0000
    ensures DURATION in x.store ==> NormalAt(it, x, now, order, n, DURATION).Some?
    ensures DURATION !in x.store ==> NormalAt(it, x, now, order, n, DURATION) == DefaultDuration(it)
  {
  }

  lemma IntTwice(
      it: ItemType, x: Body, now: Int64, order: seq<Text>, n: nat, now': Int64, order': seq<Text>, t: AttrType)
    requires n < 0x1_0000 && (forall k <- order :: k in CustomIn(x.store)) && IsInt(t) && Saved(t)
    requires forall k <- order' :: k in CustomIn(Normal(it, x, now, order, n).store)
    ensures var y := Normal(it, x, now, order, n);
            NormalAt(it, y, now', order', n, t) ==
            if t == DATE && IntIn(y.store, DATE) == 0 then None else NormalAt(it, x, now, order, n, t)
  {
    var s, s' := x.store, Normal(it, x, now, order, n).store;
    NormalInt(it, x, now, order, n, t);
    if t == DURATION {
      DurationAt(it, x, now, order, n);
      DecayBack(it, s, now, order);
      NormalInt(it, x, now, order, n, DECAY_STATE);
      if t in s' {
        DurationTwice(s', now');
      }
    } else if t == ACTION_ID || t == DATE || t == DECAY_STATE {
      SpecialTwice(it, s, now, s', now', order, order', t);
    } else {
      PlainTwice(it, s, now, s', now', order, order', t);
    }
  }

  /** What comes back for a kind on the second trip. */
  lemma SecondTripAt(
      it: ItemType, x: Body, now: Int64, order: seq<Text>, n: nat, now': Int64, order': seq<Text>, t: AttrType)
    requires n < 0x1_0000 && (forall k <- order :: k in CustomIn(x.store))
    requires Enumerates(order', CustomIn(Normal(it, x, now, order, n).store))
    ensures var y := Normal(it, x, now, order, n);
            NormalAt(it, y, now', order', n, t) ==
            if t == FLUID_TYPE && it.fluid then Some(IntV(U8(IntIn(y.store, FLUID_TYPE))))
            else if t == DATE && IntIn(y.store, DATE) == 0 then None
            else NormalAt(it, x, now, order, n, t)
  {
    var y := Normal(it, x, now, order, n);
    if t == CUSTOM {
      CustomTwice(it, x, now, order, n, now', order');
    } else if t == FLUID_TYPE || t == CHARGES {
      SubTypeTwice(it, x, now, order, n, now', order', t);
    } else if Saved(t) && IsStr(t) {
      NormalStr(it, x, now, order, n, t);
    } else if Saved(t) && IsInt(t) {
      IntTwice(it, x, now, order, n, now', order', t);
    }
  }

  lemma CustomTwice(it: ItemType, x: Body, now: Int64, order: seq<Text>, n: nat, now': Int64, order': seq<Text>)
    requires n < 0x1_0000 && (forall k <- order :: k in CustomIn(x.store))
    requires Enumerates(order', CustomIn(Normal(it, x, now, order, n).store))
    ensures NormalAt(it, Normal(it, x, now, order, n), now', order', n, CUSTOM) ==
            NormalAt(it, x, now, order, n, CUSTOM)
  {
    var s := Normal(it, x, now, order, n).store;
    NormalCustom(it, x, now, order, n);
    if CUSTOM in s {
      NothingEnumerated(order', CustomIn(s));
      CleanFold(order', CustomIn(s));
    }
  }

  lemma Within16(v: int)
    ensures 0 <= v < 0x1_0000 ==> U16(v) == v
    ensures U8(U16(v)) == U8(v)
  {
    var q, r := v / 0x1_0000, v % 0x1_0000;
    assert v == 0x100 * (0x100 * q + r / 0x100) + r % 0x100;
    UniqueRemainder(v, 0x100, 0x100 * q + r / 0x100, r % 0x100);
  }

  /** The charges after one trip, as a number. */
  lemma NormalCharges(it: ItemType, x: Body, now: Int64, order: seq<Text>, n: nat)
    requires n < 0x1_0000 && forall k <- order :: k in CustomIn(x.store)
    ensures var b := NormalAt(it, x, now, order, n, CHARGES);
            && (b.Some? ==> b.value.IntV? && 0 <= b.value.integer < 0x1_0000)
            && GetCharges(Normal(it, x, now, order, n)) == if b.Some? then b.value.integer else 0
  {
    NormalInt(it, x, now, order, n, CHARGES);
    Within16(IntIn(Normal(it, x, now, order, n).store, CHARGES));
  }

  /** Charges of a new item of a type that carries them, the second time the same as the first. */
  lemma SubTypeTwice(
      it: ItemType, x: Body, now: Int64, order: seq<Text>, n: nat, now': Int64, order': seq<Text>, t: AttrType)
    requires n < 0x1_0000 && (forall k <- order :: k in CustomIn(x.store)) && (t == FLUID_TYPE || t == CHARGES)
    requires forall k <- order' :: k in CustomIn(Normal(it, x, now, order, n).store)
    ensures var y := Normal(it, x, now, order, n);
            NormalAt(it, y, now', order', n, t) ==
            if t == FLUID_TYPE && it.fluid then Some(IntV(U8(IntIn(y.store, FLUID_TYPE))))
              else NormalAt(it, x, now, order, n, t)
  {
    NormalCharges(it, x, now, order, n);
    Within16(IntIn(Normal(it, x, now, order, n).store, FLUID_TYPE));
  }

  lemma SecondTripStore(
      it: ItemType, x: Body, now: Int64, order: seq<Text>, n: nat, now': Int64, order': seq<Text>, t: AttrType)
    requires n < 0x1_0000 && (forall k <- order :: k in CustomIn(x.store))
    requires Enumerates(order', CustomIn(Normal(it, x, now, order, n).store))
    ensures var y := Normal(it, x, now, order, n);
            Lookup(Normal(it, y, now', order', n).store, t) ==
            if t == FLUID_TYPE && it.fluid then Some(IntV(U8(IntIn(y.store, FLUID_TYPE))))
            else if t == DATE && IntIn(y.store, DATE) == 0 then None
            else Lookup(y.store, t)
  {
    var y := Normal(it, x, now, order, n);
    SecondTripAt(it, x, now, order, n, now', order', t);
    NormalLookup(it, x, now, order, n, t);
    NormalLookup(it, y, now', order', n, t);
  }

  /** The fluid of a fluid container fits one byte, if its charges do. */
  lemma FluidFits(it: ItemType, x: Body, now: Int64, order: seq<Text>, n: nat)
    requires n < 0x1_0000 && (forall k <- order :: k in CustomIn(x.store)) && it.fluid
    ensures var y := Normal(it, x, now, order, n);
            && Lookup(y.store, FLUID_TYPE) == Some(IntV(IntIn(y.store, FLUID_TYPE)))
            && (U8(IntIn(y.store, FLUID_TYPE)) == IntIn(y.store, FLUID_TYPE) <==> GetCharges(x) < 0x100)
  {
    NormalInt(it, x, now, order, n, FLUID_TYPE);
  }

  /** The date is stored, and as zero, exactly if it is a nonzero multiple of two to the power of 32. */
  lemma DateFits(it: ItemType, x: Body, now: Int64, order: seq<Text>, n: nat)
    requires n < 0x1_0000 && forall k <- order :: k in CustomIn(x.store)
    ensures var y := Normal(it, x, now, order, n);
            DATE in y.store && IntIn(y.store, DATE) == 0 <==>
            IntIn(x.store, DATE) != 0 && IntIn(x.store, DATE) % 0x1_0000_0000 == 0
  {
    NormalInt(it, x, now, order, n, DATE);
  }

  lemma CountFits(it: ItemType, x: Body, now: Int64, order: seq<Text>, n: nat)
    requires n < 0x1_0000 && forall k <- order :: k in CustomIn(x.store)
    ensures var y := Normal(it, x, now, order, n);
            NormalCount(it, y) != y.count <==>
            !it.fluid && !it.stackable && it.charges == 0 && GetCharges(x) != 0 && U8(GetCharges(x)) != 1
  {
    NormalInt(it, x, now, order, n, CHARGES);
  }

  /**
   * Saving and loading once more changes nothing, exactly if the charges and the date fit the fields they are read
   * into.
   */
  lemma SecondTripIff(it: ItemType, x: Body, now: Int64, order: seq<Text>, n: nat, now': Int64, order': seq<Text>)
    requires n < 0x1_0000 && (forall k <- order :: k in CustomIn(x.store))
    requires Enumerates(order', CustomIn(Normal(it, x, now, order, n).store))
    ensures var y := Normal(it, x, now, order, n);
            Normal(it, y, now', order', n) == y <==> !Unstable(it, x)
  {
    var y := Normal(it, x, now, order, n);
    var z := Normal(it, y, now', order', n);
    CountFits(it, x, now, order, n);
    DateFits(it, x, now, order, n);
    SecondTripStore(it, x, now, order, n, now', order', DATE);
    SecondTripStore(it, x, now, order, n, now', order', FLUID_TYPE);
    if it.fluid {
      FluidFits(it, x, now, order, n);
    }
    if !Unstable(it, x) {
      forall t: AttrType ensures Lookup(z.store, t) == Lookup(y.store, t) {
        SecondTripStore(it, x, now, order, n, now', order', t);
      }
      SameLookups(z.store, y.store);
    }
  }

  /**
   * The timestamp of a running duration is never stored, so the time left that is saved for
   * a decaying item is the negated clock: it does not depend on how long the item still had.
   */
  lemma RunningDurationLost(it: ItemType, x: Body, now: Int64, order: seq<Text>, n: nat)
    requires n < 0x1_0000 && forall k <- order :: k in CustomIn(x.store)
    requires DURATION in x.store && Decaying(x.store) in {DECAYING_TRUE, DECAYING_STOPPING}
    ensures NormalAt(it, x, now, order, n, DURATION) == Some(IntV(Max(0, I32(0 - now))))
  {
    assert IntIn(x.store, DURATION_TIMESTAMP) == 0;
    var left := Max(0, I32(0 - now));
    assert IntToWrite(it, x.store, DURATION, now) == Some(left);
    SmallStays(left);
    assert IntBack(DURATION, left) == Some(IntV(left));
  }

  /** What fits 31 bits passes through 32 bits unchanged. */
  lemma SmallStays(v: int)
    requires 0 <= v < 0x8000_0000
    ensures Convert(UInt32, v) == v && Convert(SInt32, v) == v && I32(v) == v
  {
  }

  // ---------------------------------------------------------------- what comes back unchanged

  /** A value that its kind can save: within the width of its field and the range of its setter. */
  predicate Savable(it: ItemType, s: Store, t: AttrType)
    requires t in s && Saved(t)
  {
    match s[t]
    case IntV(v) =>
      IsInt(t) &&
      (if t == ACTION_ID then it.moveable && 100 <= v < 0x1_0000
       else if t == DATE then v != 0 && I32(v) == v
       else if t == DURATION then 0 <= v < 0x8000_0000 && Decaying(s) != DECAYING_TRUE
         && Decaying(s) != DECAYING_STOPPING
       else if t == DECAY_STATE then v == DECAYING_PENDING
       else FormOf(t).Whole? && Convert(FormOf(t).kind, v) == v)
    case StrV(text) => IsStr(t) && 0 < |text| <= MAX_STRING
    case CustomV(m) => t == CUSTOM && m != map[] && Clean(m)
  }

  /** A savable value comes back as it was. */
  lemma SavableReturns(it: ItemType, x: Body, now: Int64, order: seq<Text>, n: nat, t: AttrType)
    requires n < 0x1_0000 && Enumerates(order, CustomIn(x.store)) && t in x.store && Saved(t) && Savable(it, x.store, t)
    ensures NormalAt(it, x, now, order, n, t) == Some(x.store[t])
  {
    if t == CUSTOM {
      NothingEnumerated(order, CustomIn(x.store));
      CleanFold(order, CustomIn(x.store));
    } else if IsInt(t) {
      SavableInt(it, x.store, now, order, t);
    }
  }

  /** A running duration that happens to be what the clock makes of it. */
  predicate Coincides(s: Store, now: Int64, t: AttrType)
    requires t in s
  {
    t == DURATION && Decaying(s) in {DECAYING_TRUE, DECAYING_STOPPING} && s[t] == IntV(Max(0, I32(0 - now)))
  }

  /**
   * A value comes back as it was exactly if it is savable, or the duration of a decaying item and what the clock makes
   * of it.
   */
  lemma SavableIff(it: ItemType, x: Body, now: Int64, order: seq<Text>, n: nat, t: AttrType)
    requires n < 0x1_0000 && Enumerates(order, CustomIn(x.store)) && t in x.store && Saved(t)
    ensures NormalAt(it, x, now, order, n, t) == Some(x.store[t])
            <==> Savable(it, x.store, t) || Coincides(x.store, now, t)
  {
    if Savable(it, x.store, t) {
      SavableReturns(it, x, now, order, n, t);
    } else if t == DURATION && Decaying(x.store) in {DECAYING_TRUE, DECAYING_STOPPING} {
      RunningDurationLost(it, x, now, order, n);
    } else if t == CUSTOM {
      CustomAt(it, x, now, order, n);
      if order != [] {
        KeptFold(order, CustomIn(x.store));
      }
    } else if t == DURATION {
      DurationAt(it, x, now, order, n);
    } else if IsInt(t) {
      UnsavableInt(it, x.store, now, order, t);
    }
  }

  lemma UnsavableInt(it: ItemType, s: Store, now: Int64, order: seq<Text>, t: AttrType)
    requires (forall k <- order :: k in CustomIn(s)) && t in s && Saved(t) && IsInt(t) && t != DURATION
             && !Savable(it, s, t)
    ensures Back(it, s, now, order, t) != Some(s[t])
  {
    if s[t].IntV? {
      var v := s[t].integer;
      assert IntIn(s, t) == v;
      if t == ACTION_ID {
        SameWithin16(v);
      }
    }
  }

  lemma SameWithin16(v: int)
    ensures Max(100, Convert(UInt16, U16(v))) == v ==> 100 <= v < 0x1_0000
  {
  }

  /** In particular, a duration comes back exactly if the item is not decaying, or by coincidence. */
  lemma DurationReturnsIff(it: ItemType, x: Body, now: Int64, order: seq<Text>, n: nat, v: Int64)
    requires n < 0x1_0000 && Enumerates(order, CustomIn(x.store)) && DURATION in x.store && x.store[DURATION] == IntV(v)
    requires 0 <= v < 0x8000_0000
    ensures NormalAt(it, x, now, order, n, DURATION) == Some(IntV(v)) <==>
            Decaying(x.store) !in {DECAYING_TRUE, DECAYING_STOPPING} || v == Max(0, I32(0 - now))
  {
    SavableIff(it, x, now, order, n, DURATION);
  }

  lemma SavableInt(it: ItemType, s: Store, now: Int64, order: seq<Text>, t: AttrType)
    requires (forall k <- order :: k in CustomIn(s)) && t in s && Saved(t) && IsInt(t) && Savable(it, s, t)
    ensures Back(it, s, now, order, t) == Some(s[t])
  {
    var v := s[t].integer;
    assert IntIn(s, t) == v;
    if t == ACTION_ID {
      Within16(v);
    } else if t == DURATION {
      SmallStays(v);
      assert GetDuration(s, now) == v;
    }
  }

  /** A decaying item waits for its decay to be started again, and what has no tag is gone. */
  lemma DecayingWaits(it: ItemType, x: Body, now: Int64, order: seq<Text>, n: nat)
    requires n < 0x1_0000 && forall k <- order :: k in CustomIn(x.store)
    ensures Decaying(x.store) == DECAYING_TRUE
            ==> NormalAt(it, x, now, order, n, DECAY_STATE) == Some(IntV(DECAYING_PENDING))
    ensures Decaying(x.store) == DECAYING_STOPPING ==> NormalAt(it, x, now, order, n, DECAY_STATE) == None
    ensures forall t: AttrType ::
              t in {UNIQUE_ID, OWNER, CORPSE_OWNER, DOOR_ID} ==>
              NormalAt(it, x, now, order, n, t) == None
  {
  }

  /** The count, the fluid and the charges are those that an item of the type has. */
  predicate ProperSubType(it: ItemType, x: Body) {
    && (if it.fluid then FLUID_TYPE in x.store && x.store[FLUID_TYPE].IntV? && 0 <= x.store[FLUID_TYPE].integer < 0x100
        else FLUID_TYPE !in x.store)
    && (if it.fluid || it.stackable || it.charges == 0 then CHARGES !in x.store
        else CHARGES in x.store && x.store[CHARGES].IntV? && 0 < x.store[CHARGES].integer < 0x1_0000)
    && (it.fluid || !it.stackable ==> x.count == 1)
  }

  /** An item of which everything can be saved comes back exactly as it was. */
  lemma ExactReturn(it: ItemType, x: Body, now: Int64, order: seq<Text>, n: nat)
    requires n < 0x1_0000 && Enumerates(order, CustomIn(x.store)) && ProperSubType(it, x)
    requires forall t <- x.store :: t == FLUID_TYPE || t == CHARGES || (Saved(t) && Savable(it, x.store, t))
    requires it.decayTime * 1000 % 0x1_0000_0000 != 0 ==> DURATION in x.store
    ensures Normal(it, x, now, order, n) == x
  {
    forall t: AttrType ensures Lookup(Normal(it, x, now, order, n).store, t) == Lookup(x.store, t) {
      NormalLookup(it, x, now, order, n, t);
      if t == FLUID_TYPE || t == CHARGES {
        ProperReturns(it, x, now, order, n, t);
      } else if t in x.store {
        SavableReturns(it, x, now, order, n, t);
      } else if Saved(t) {
        AbsentStays(it, x, now, order, n, t);
      }
    }
    SameLookups(Normal(it, x, now, order, n).store, x.store);
  }

  lemma ProperReturns(it: ItemType, x: Body, now: Int64, order: seq<Text>, n: nat, t: AttrType)
    requires n < 0x1_0000 && (forall k <- order :: k in CustomIn(x.store)) && ProperSubType(it, x)
             && (t == FLUID_TYPE || t == CHARGES)
    ensures NormalAt(it, x, now, order, n, t) == Lookup(x.store, t) && NormalCount(it, x) == x.count
  {
  }

  lemma AbsentStays(it: ItemType, x: Body, now: Int64, order: seq<Text>, n: nat, t: AttrType)
    requires n < 0x1_0000 && (forall k <- order :: k in CustomIn(x.store)) && Saved(t) && t !in x.store
    ensures NormalAt(it, x, now, order, n, t) == if t == DURATION then DefaultDuration(it) else None
  {
  }

  // ---------------------------------------------------------------- the class

  datatype Verdict = CONTINUE | END | ERROR

  class Item {
    const it: ItemType
    var count: Byte
    const attributes: ItemAttributes
    /** The number of children a container is still to load. */
    var serializationCount: nat

    ghost predicate Valid()
      reads this, attributes
    {
      attributes.Valid()
    }

    ghost function View(): Body
      reads this, attributes
    {
      Body(count, attributes.store)
    }

    /** CreateItem with the constructor that it calls. */
    constructor (it: ItemType, n: nat)
      requires n < 0x1_0000
      ensures Valid() && View() == Created(it, n) && this.it == it && serializationCount == 0 && fresh(attributes)
    {
      var n := if it.container then 0 else if it.stackable && n == 0 then 1 else n;
      var store := new ItemAttributes();
      var c: Byte := 1;
      if it.fluid {
        store.SetIntAttr(FLUID_TYPE, n);
      } else if it.stackable {
        if n != 0 {
          c := U8(n);
        } else if it.charges != 0 {
          c := U8(it.charges);
        }
      } else if it.charges != 0 {
        store.SetIntAttr(CHARGES, if n != 0 then n else U16(it.charges));
      }
      var duration := it.decayTime * 1000 % 0x1_0000_0000;
      if duration != 0 {
        store.SetIntAttr(DURATION, Max(0, I32(duration)));
      }
      this.it, count, attributes, serializationCount := it, c, store, 0;
    }

    method SetItemSubType(n: nat)
      requires Valid() && n < 0x1_0000
      modifies this, attributes
      ensures Valid() && View() == SetSubType(it, old(View()), n) && serializationCount == old(serializationCount)
    {
      if it.fluid {
        attributes.SetIntAttr(FLUID_TYPE, n);
      } else if it.stackable {
        count := U8(n);
      } else if it.charges != 0 {
        attributes.SetIntAttr(CHARGES, n);
      } else {
        count := U8(n);
      }
    }

    method GetItemSubType() returns (n: nat)
      requires Valid()
      ensures n == GetSubType(it, View())
    {
      if it.fluid {
        var v := attributes.GetIntAttr(FLUID_TYPE);
        return U16(v);
      } else if it.stackable {
        return count;
      } else if it.charges != 0 {
        var v := attributes.GetIntAttr(CHARGES);
        return U16(v);
      }
      return count;
    }

    method GetItemDuration(now: Int64) returns (d: Int64)
      requires Valid()
      ensures d == GetDuration(attributes.store, now)
    {
      var state := attributes.GetIntAttr(DECAY_STATE);
      if U8(state) == DECAYING_TRUE || U8(state) == DECAYING_STOPPING {
        var stamp := attributes.GetIntAttr(DURATION_TIMESTAMP);
        d := Max(0, I32(stamp - now));
      } else {
        d := attributes.GetIntAttr(DURATION);
        d := I32(d);
      }
    }

    /** The integer of a kind with the condition under which serializeAttr writes it. */
    method ValueToWrite(t: AttrType, now: Int64) returns (v: Option<int>)
      requires Valid()
      ensures v == IntToWrite(it, attributes.store, t, now)
    {
      var n := attributes.GetIntAttr(t);
      if t == ACTION_ID {
        return if it.moveable && U16(n) != 0 then Some(U16(n)) else None;
      } else if t == DATE {
        return if n != 0 then Some(n) else None;
      } else if t == DECAY_STATE {
        return if U8(n) == DECAYING_TRUE || U8(n) == DECAYING_PENDING then Some(U8(n)) else None;
      }
      var present := attributes.HasAttribute(t);
      if !present {
        return None;
      }
      if t == DURATION {
        var d := GetItemDuration(now);
        return Some(d);
      }
      return Some(n);
    }

    method WriteCustom(out: PropWriteStream, order: seq<Text>, m: map<Text, CustomValue>)
      requires forall k <- order :: k in m
      modifies out
      ensures out.buffer == old(out.buffer) + EntriesBytes(order, m)
    {
      assert order[0..] == order;
      for i := 0 to |order|
        invariant out.buffer + EntriesBytes(order[i..], m) == old(out.buffer) + EntriesBytes(order, m)
      {
        var v := m[order[i]];
        ghost var was := out.buffer;
        assert order[i..][0] == order[i] && order[i..][1..] == order[i + 1..];
        out.WriteString(order[i]);
        WriteValue(out, v);
        Join4(was, StringBytes(order[i]), ValueBytes(v), EntriesBytes(order[i + 1..], m));
      }
      assert order[|order|..] == [];
    }

    method WriteValue(out: PropWriteStream, v: CustomValue)
      modifies out
      ensures out.buffer == old(out.buffer) + ValueBytes(v)
    {
      ghost var was := out.buffer;
      match v {
        case Blank => WriteByte(out, 0);
        case Words(text) =>
          WriteByte(out, 1);
          out.WriteString(text);
          Assoc(was, [1], StringBytes(text));
        case Number(number) =>
          WriteByte(out, 2);
          out.Write(number, SizeOf(SInt64));
          Assoc(was, [2], ToBytes(number, SizeOf(SInt64)));
        case Double(raw) =>
          WriteByte(out, 3);
          out.Append(raw);
          Assoc(was, [3], raw);
        case Flag(flag) =>
          WriteByte(out, 4);
          WriteByte(out, if flag then 1 else 0);
          Assoc(was, [4], [if flag then 1 else 0]);
      }
    }

    method WriteWhole(out: PropWriteStream, t: AttrType, k: Int, now: Int64)
      requires Valid() && Saved(t)
      modifies out
      ensures match IntToWrite(it, attributes.store, t, now)
        case None => out.buffer == old(out.buffer)
        case Some(v) => out.buffer == old(out.buffer) + ([TagOf(t)] + ToBytes(v, SizeOf(k)))
    {
      ghost var was := out.buffer;
      var v := ValueToWrite(t, now);
      if v.Some? {
        WriteByte(out, TagOf(t));
        out.Write(v.value, SizeOf(k));
        Assoc(was, [TagOf(t)], ToBytes(v.value, SizeOf(k)));
      }
    }

    method WriteStr(out: PropWriteStream, t: AttrType)
      requires Valid() && Saved(t)
      modifies out
      ensures match StrToWrite(attributes.store, t)
        case None => out.buffer == old(out.buffer)
        case Some(text) => out.buffer == old(out.buffer) + ([TagOf(t)] + StringBytes(text))
    {
      ghost var was := out.buffer;
      var present := attributes.HasAttribute(t);
      var text := attributes.GetStrAttr(t);
      if if t == TEXT || t == WRITER || t == DESCRIPTION then text != [] else present {
        WriteByte(out, TagOf(t));
        out.WriteString(text);
        Assoc(was, [TagOf(t)], StringBytes(text));
      }
    }

    method WriteEntries(out: PropWriteStream, order: seq<Text>)
      requires Valid() && forall k <- order :: k in CustomIn(attributes.store)
      modifies out
      ensures out.buffer == old(out.buffer) + if CUSTOM in attributes.store
              then [TagOf(CUSTOM)] +
              (ToBytes(|order|, SizeOf(UInt64)) + EntriesBytes(order, CustomIn(attributes.store))) else []
    {
      ghost var was := out.buffer;
      var present := attributes.HasAttribute(CUSTOM);
      if present {
        var m := attributes.GetCustomAttributeMap();
        WriteByte(out, TagOf(CUSTOM));
        out.Write(|order|, SizeOf(UInt64));
        WriteCustom(out, order, m);
        Join4(was, [TagOf(CUSTOM)], ToBytes(|order|, SizeOf(UInt64)), EntriesBytes(order, m));
        Assoc([TagOf(CUSTOM)], ToBytes(|order|, SizeOf(UInt64)), EntriesBytes(order, m));
      }
    }

    /** The block of serializeAttr for one kind. */
    method WriteKind(out: PropWriteStream, t: AttrType, now: Int64, order: seq<Text>)
      requires Valid() && Saved(t) && forall k <- order :: k in CustomIn(attributes.store)
      modifies out
      ensures out.buffer == old(out.buffer) + KindBytes(it, attributes.store, now, order, t)
    {
      assert out.buffer + [] == out.buffer;
      match FormOf(t) {
        case Whole(k) => WriteWhole(out, t, k, now);
        case Str => WriteStr(out, t);
        case Entries =>
          assert t == CUSTOM;
          WriteEntries(out, order);
      }
    }

    method WriteByte(out: PropWriteStream, b: Byte)
      modifies out
      ensures out.buffer == old(out.buffer) + [b]
    {
      out.Write(b, 1);
      assert ToBytes(b, 1) == [b];
    }

    /** serializeAttr: the count, the charges, and then the blocks of the kinds in their fixed order. */
    method SerializeAttr(out: PropWriteStream, now: Int64, order: seq<Text>)
      requires Valid() && forall k <- order :: k in CustomIn(attributes.store)
      modifies out
      ensures out.buffer == old(out.buffer) + Serialized(it, View(), now, order)
    {
      if it.stackable || it.fluid {
        var n := GetItemSubType();
        WriteByte(out, ATTR_COUNT);
        out.Write(n, SizeOf(UInt8));
      }
      ghost var counted := out.buffer;
      assert counted == old(out.buffer) + CountBytes(it, View());
      var charges := attributes.GetIntAttr(CHARGES);
      if U16(charges) != 0 {
        WriteByte(out, ATTR_CHARGES);
        out.Write(U16(charges), SizeOf(UInt16));
      }
      assert out.buffer == counted + ChargesBytes(View());
      ghost var head := out.buffer;
      OrderComplete();
      WriteKinds(out, ORDER, now, order);
      Join4(old(out.buffer), CountBytes(it, View()), ChargesBytes(View()),
        KindsBytes(it, attributes.store, now, order, ORDER));
    }

    method WriteKinds(out: PropWriteStream, ts: seq<AttrType>, now: Int64, order: seq<Text>)
      requires Valid() && (forall t <- ts :: Saved(t)) && forall k <- order :: k in CustomIn(attributes.store)
      modifies out
      ensures out.buffer == old(out.buffer) + KindsBytes(it, attributes.store, now, order, ts)
    {
      assert ts[0..] == ts;
      for i := 0 to |ts|
        invariant out.buffer + KindsBytes(it, attributes.store, now, order, ts[i..]) ==
          old(out.buffer) + KindsBytes(it, attributes.store, now, order, ts)
      {
        ghost var was := out.buffer;
        assert ts[i..][0] == ts[i] && ts[i..][1..] == ts[i + 1..];
        WriteKind(out, ts[i], now, order);
        Assoc(was, KindBytes(it, attributes.store, now, order, ts[i]),
          KindsBytes(it, attributes.store, now, order, ts[i + 1..]));
      }
      assert ts[|ts|..] == [];
    }

    method ReadInteger(k: Int, stream: PropStream) returns (ok: bool, v: int)
      requires stream.Valid()
      modifies stream
      ensures stream.Valid()
      ensures match ReadInt(k, old(stream.Left()))
        case Short => !ok
        case Got(n, rest) => ok && v == n && stream.Left() == rest
      ensures |stream.Left()| <= |old(stream.Left())|
    {
      v := 0;
      var n;
      ok, n := stream.Read(SizeOf(k));
      if ok {
        v := Convert(k, n);
      }
    }

    method ReadCustomValue(stream: PropStream) returns (v: Option<CustomValue>)
      requires stream.Valid()
      modifies stream
      ensures stream.Valid()
      ensures match ReadValue(old(stream.Left()))
        case Short => v == None
        case Got(value, rest) => v == Some(value) && stream.Left() == rest
    {
      ghost var bs := stream.Left();
      var ok, pos := stream.Read(1);
      if !ok {
        return None;
      }
      assert FromBytes(bs[..1]) == bs[0];
      if pos == 1 {
        var ok, text := stream.ReadString();
        return if ok then Some(Words(text)) else None;
      } else if pos == 2 {
        ghost var was := stream.Left();
        var ok, n := ReadInteger(SInt64, stream);
        if ok {
          ConvertBoundsOf(SInt64, was);
          return Some(Number(n));
        }
      } else if pos == 3 {
        var ok, raw := stream.Take(8);
        return if ok then Some(Double(raw)) else None;
      } else if pos == 4 {
        var ok, n := ReadInteger(UInt8, stream);
        return if ok then Some(Flag(n != 0)) else None;
      }
      return None;
    }

    /** One custom attribute: its key, its value, and setting it. */
    method ReadCustomEntry(stream: PropStream) returns (ok: bool)
      requires Valid() && stream.Valid()
      modifies attributes, stream
      ensures Valid() && stream.Valid()
      ensures match ReadEntry(old(stream.Left()))
        case Short => !ok
        case Got(e, rest) =>
          && ok && stream.Left() == rest
          && attributes.store == PutCustom(old(attributes.store), e.key, e.value)
    {
      var key;
      ok, key := stream.ReadString();
      if !ok {
        return;
      }
      var v := ReadCustomValue(stream);
      if v.None? {
        return false;
      }
      attributes.SetCustomAttribute(key, v.value);
    }

    /** The loop over custom attributes, which stops at the first one that cannot be read. */
    method ReadCustom(n: nat, stream: PropStream) returns (ok: bool)
      requires Valid() && stream.Valid()
      modifies attributes, stream
      ensures Valid() && stream.Valid()
      ensures match ReadEntries(old(stream.Left()), n, old(attributes.store))
        case Short => !ok
        case Got(s, rest) => ok && attributes.store == s && stream.Left() == rest
    {
      ghost var all := ReadEntries(stream.Left(), n, attributes.store);
      for i := 0 to n
        invariant Valid() && stream.Valid()
        invariant ReadEntries(stream.Left(), n - i, attributes.store) == all
      {
        NextEntry(stream.Left(), n - i, attributes.store);
        ok := ReadCustomEntry(stream);
        if !ok {
          return;
        }
      }
      return true;
    }

    /** The setter of an integer kind. */
    method StoreInt(t: AttrType, v: int)
      requires Valid() && IsInt(t) && -0x8000_0000 <= v < 0x1_0000_0000
      modifies attributes
      ensures Valid() && attributes.store == PutInt(old(attributes.store), t, v)
    {
      if t == ACTION_ID {
        attributes.SetIntAttr(t, if v < 100 then 100 else v);
      } else if t == DATE {
        attributes.SetIntAttr(t, I32(v));
      } else if t == DURATION {
        attributes.SetIntAttr(t, Max(0, I32(v)));
      } else if t == DECAY_STATE {
        if v != 0 {
          attributes.SetIntAttr(t, DECAYING_PENDING);
        }
      } else {
        attributes.SetIntAttr(t, v);
      }
    }

    method ReadSaved(t: AttrType, stream: PropStream) returns (ok: bool)
      requires Valid() && stream.Valid() && Saved(t)
      modifies attributes, stream
      ensures Valid() && stream.Valid()
      ensures match ReadKind(t, old(stream.Left()), old(attributes.store))
        case Short => !ok
        case Got(s, rest) => ok && attributes.store == s && stream.Left() == rest
    {
      ghost var bs := stream.Left();
      match FormOf(t) {
        case Whole(k) =>
          var v;
          ok, v := ReadInteger(k, stream);
          if ok {
            ConvertBoundsOf(k, bs);
            StoreInt(t, v);
          }
        case Str =>
          var text;
          ok, text := stream.ReadString();
          if ok {
            attributes.SetStrAttr(t, text);
          }
        case Entries =>
          var n;
          ok, n := ReadInteger(UInt64, stream);
          if ok {
            ok := ReadCustom(n, stream);
          }
      }
    }

    method ReadAttribute(tag: Byte, stream: PropStream, w: World) returns (r: Verdict)
      requires Valid() && stream.Valid()
      modifies this, attributes, stream
      ensures Valid() && stream.Valid()
      ensures match ReadAttr(it, w, tag, old(stream.Left()), old(View()))
        case Error => r == ERROR
        case End(n, rest) => r == END && serializationCount == n && View() == old(View()) && stream.Left() == rest
        case Continue(y, rest) =>
          r == CONTINUE && View() == y && stream.Left() == rest && serializationCount == old(serializationCount)
    {
      if tag == ATTR_COUNT || tag == ATTR_RUNE_CHARGES || tag == ATTR_CHARGES {
        var ok, n := ReadInteger(if tag == ATTR_CHARGES then UInt16 else UInt8, stream);
        if !ok {
          return ERROR;
        }
        SetItemSubType(n);
      } else if tag == ATTR_UNIQUE_ID {
        var ok, n := ReadInteger(UInt16, stream);
        if !ok {
          return ERROR;
        }
        var present := attributes.HasAttribute(UNIQUE_ID);
        if !present && n !in w.taken {
          attributes.SetIntAttr(UNIQUE_ID, n);
        }
      } else if SkippedBytes(tag).Some? {
        var ok := stream.Skip(SkippedBytes(tag).value);
        if !ok {
          return ERROR;
        }
      } else if tag == ATTR_CONTAINER_ITEMS {
        if !it.container {
          return ERROR;
        }
        var ok, n := ReadInteger(UInt32, stream);
        if !ok {
          return ERROR;
        }
        serializationCount := n;
        return END;
      } else {
        match KindOf(tag) {
          case None => return ERROR;
          case Some(t) =>
            var ok := ReadSaved(t, stream);
            if !ok {
              return ERROR;
            }
        }
      }
      return CONTINUE;
    }

    method UnserializeAttr(stream: PropStream, w: World) returns (ok: bool)
      requires Valid() && stream.Valid()
      modifies this, attributes, stream
      ensures Valid() && stream.Valid()
      ensures match Unserialized(it, w, old(stream.Left()), old(View()))
        case Failed => !ok
        case Done(y, size, rest) =>
          && ok && View() == y && stream.Left() == rest
          && serializationCount == if size.Some? then size.value else old(serializationCount)
    {
      while true
        invariant Valid() && stream.Valid() && serializationCount == old(serializationCount)
        invariant Unserialized(it, w, stream.Left(), View()) == Unserialized(it, w, old(stream.Left()), old(View()))
        decreases |stream.Left()|
      {
        ghost var bs, x := stream.Left(), View();
        var ok', tag := stream.Read(1);
        if !ok' {
          return true;
        }
        assert FromBytes(bs[..1]) == bs[0];
        if tag == 0 {
          return true;
        }
        AttrShrinks(it, w, bs[0], bs[1..], x);
        var r := ReadAttribute(tag, stream, w);
        if r == ERROR {
          return false;
        } else if r == END {
          return true;
        }
      }
    }
  }

  lemma {:induction false} PutFirst(e: Entry, es: seq<Entry>, s: Store)
    ensures PutAll([e] + es, s) == PutAll(es, PutCustom(s, e.key, e.value))
  {
    if es == [] {
      assert [e] + es == [e] && [e][..0] == [];
    } else {
      assert ([e] + es)[..|es|] == [e] + es[..|es| - 1];
      PutFirst(e, es[..|es| - 1], s);
    }
  }

  /** Reading entries goes on behind the first one. */
  lemma NextEntry(bs: seq<Byte>, k: nat, s: Store)
    requires k > 0
    ensures ReadEntries(bs, k, s) ==
            match ReadEntry(bs)
            case Short => Short
            case Got(e, rest) => ReadEntries(rest, k - 1, PutCustom(s, e.key, e.value))
  {
    if ReadEntry(bs).Got? {
      var Got(e, rest) := ReadEntry(bs);
      var r := EntryList(rest, k - 1);
      if r.Got? {
        PutFirst(e, r.value, s);
      }
    }
  }

  lemma Join4(a: seq<Byte>, b: seq<Byte>, c: seq<Byte>, d: seq<Byte>)
    ensures a + b + c + d == a + (b + c + d)
  {
  }
}
