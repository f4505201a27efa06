/** Taking and giving money (game.cpp): removeMoney, addMoney, and getWorth of item.cpp. */
module Money {
  import opened Common

  // ---------------------------------------------------------------- coins

  /** A stack of items with the worth of one of them; stacks of anything but coins are worth nothing. */
  datatype Stack = Stack(unit: nat, count: nat)

  const GOLD := 1
  const PLATINUM := 100
  const CRYSTAL := 10000

  function Worth(s: Stack): nat {
    s.unit * s.count
  }

  /** The worth of all stacks. */
  function Total(coins: seq<Stack>): nat {
    if coins == [] then 0 else Worth(coins[0]) + Total(coins[1..])
  }

  lemma {:induction false} TotalConcat(a: seq<Stack>, b: seq<Stack>)
    ensures Total(a + b) == Total(a) + Total(b)
  {
    if a == [] {
      assert a + b == b;
    } else {
      assert (a + b)[1..] == a[1..] + b;
      TotalConcat(a[1..], b);
    }
  }

  lemma {:induction false} TotalUpdate(coins: seq<Stack>, i: nat, s: Stack)
    requires i < |coins|
    ensures Total(coins[i := s]) == Total(coins) - Worth(coins[i]) + Worth(s)
  {
    if i == 0 {
      assert coins[0 := s][1..] == coins[1..];
    } else {
      assert coins[i := s][1..] == coins[1..][i - 1 := s];
      TotalUpdate(coins[1..], i - 1, s);
    }
  }

  // ---------------------------------------------------------------- giving

  function U8(v: int): nat { v % 0x100 }

  function U16(v: int): nat { v % 0x1_0000 }

  function U32(v: int): nat { v % 0x1_0000_0000 }

  /** Stacks of at most a hundred crystal coins. */
  function Crystals(n: nat): seq<Stack> {
    if n == 0 then [] else
      var count := if n < 100 then n else 100;
      [Stack(CRYSTAL, count)] + Crystals(n - count)
  }

  /** The count of a stack that CreateItem makes: no stackable item is created with a count of zero. */
  function CreatedCount(count: nat): nat {
    U8(if U16(count) == 0 then 1 else U16(count))
  }

  /** What addMoney makes coins of behind the crystal coins, after a product of 32 bits. */
  function Rest(money: nat): (r: nat)
    ensures r <= money
  {
    var product := U32(money / CRYSTAL) * CRYSTAL;
    ProductFits(money);
    money - U32(product)
  }

  lemma ProductFits(money: nat)
    ensures U32(U32(money / CRYSTAL) * CRYSTAL) <= money
  {
    var q := money / CRYSTAL;
    assert U32(q) <= q && U32(q) * CRYSTAL <= q * CRYSTAL <= money;
  }

  /** The coins that addMoney creates, with the widths of its variables. */
  function Change(money: nat): seq<Stack> {
    Crystals(U32(money / CRYSTAL)) + SmallChange(Rest(money))
  }

  function SmallChange(rest: nat): seq<Stack> {
    var platinum := U16(rest / PLATINUM);
    StackOf(PLATINUM, platinum) + StackOf(GOLD, rest - platinum * PLATINUM)
  }

  /** No stack for no coins. */
  function StackOf(unit: nat, count: nat): seq<Stack> {
    if count == 0 then [] else [Stack(unit, CreatedCount(count))]
  }

  predicate FullStack(s: Stack) {
    1 <= s.count <= 100
  }

  lemma {:induction false} CrystalsExact(n: nat)
    ensures Total(Crystals(n)) == n * CRYSTAL && forall s <- Crystals(n) :: FullStack(s)
  {
    if n > 0 {
      var count := if n < 100 then n else 100;
      CrystalsExact(n - count);
      assert Crystals(n)[1..] == Crystals(n - count);
    }
  }

  lemma Division(a: nat, b: nat, q: nat, r: nat)
    requires r < b && a == b * q + r
    ensures a / b == q && a % b == r
  {
    Between(b, a / b as int - q as int, r as int - (a % b) as int);
  }

  lemma Between(b: int, d: int, m: int)
    requires b * d == m && -b < m < b
    ensures d == 0
  {
    if d >= 1 {
      Grows(b, d);
    } else if d <= -1 {
      Falls(b, d);
    }
  }

  lemma Grows(b: int, d: int)
    requires b > 0 && d >= 1
    ensures b * d >= b
  {
  }

  lemma Falls(b: int, d: int)
    requires b > 0 && d <= -1
    ensures b * d <= -b
  {
  }

  /** Sixteen bits of the platinum coins are kept, and of the gold that is left just the part below a platinum coin. */
  lemma SmallChangeParts(rest: nat)
    ensures var p, s := rest / PLATINUM, rest % PLATINUM;
            && U8(U16(p)) == p % 0x100
            && (var gold := rest - U16(p) * PLATINUM; U16(gold) == s && (gold == 0 <==> s == 0 && p < 0x1_0000))
  {
    var p, s := rest / PLATINUM, rest % PLATINUM;
    var j, u := p / 0x1_0000, p % 0x1_0000;
    Division(p, 0x100, 0x100 * j + u / 0x100, u % 0x100);
    Division(u, 0x100, u / 0x100, u % 0x100);
    var gold := rest - u * PLATINUM;
    assert gold == 0x1_0000 * (PLATINUM * j) + s;
    Division(gold, 0x1_0000, PLATINUM * j, s);
  }

  /** What the coins below a crystal coin are worth; a gold stack that would be empty gets one coin. */
  function SmallWorth(rest: nat): nat {
    var p, s := rest / PLATINUM, rest % PLATINUM;
    PLATINUM * (p % 0x100) + if s == 0 && p >= 0x1_0000 then 1 else s
  }

  lemma OneStack(unit: nat, count: nat)
    ensures Total(StackOf(unit, count)) == if count == 0 then 0 else unit * CreatedCount(count)
  {
    if count != 0 {
      assert Total(StackOf(unit, count)) == Worth(StackOf(unit, count)[0]) + Total([]);
    }
  }

  lemma SmallTotal(rest: nat)
    ensures Total(SmallChange(rest)) == SmallWorth(rest)
  {
    var p := rest / PLATINUM;
    var gold := rest - U16(p) * PLATINUM;
    TotalConcat(StackOf(PLATINUM, U16(p)), StackOf(GOLD, gold));
    PlatinumTotal(rest);
    GoldTotal(rest);
  }

  lemma PlatinumTotal(rest: nat)
    ensures Total(StackOf(PLATINUM, U16(rest / PLATINUM))) == PLATINUM * (rest / PLATINUM % 0x100)
  {
    SmallChangeParts(rest);
    OneStack(PLATINUM, U16(rest / PLATINUM));
  }

  lemma GoldTotal(rest: nat)
    ensures var p, s := rest / PLATINUM, rest % PLATINUM;
            Total(StackOf(GOLD, rest - U16(p) * PLATINUM)) == if s == 0 && p >= 0x1_0000 then 1 else s
  {
    SmallChangeParts(rest);
    var p, s := rest / PLATINUM, rest % PLATINUM;
    OneStack(GOLD, rest - U16(p) * PLATINUM);
    assert U8(s) == s && U8(1) == 1;
  }

  lemma ChangeTotal(money: nat)
    ensures Total(Change(money)) == U32(money / CRYSTAL) * CRYSTAL + SmallWorth(Rest(money))
  {
    CrystalsExact(U32(money / CRYSTAL));
    SmallTotal(Rest(money));
    TotalConcat(Crystals(U32(money / CRYSTAL)), SmallChange(Rest(money)));
  }

  /** How often the product of the crystal coins overflows 32 bits. */
  function Overflows(money: nat): nat {
    money / CRYSTAL * CRYSTAL / 0x1_0000_0000
  }

  lemma RestIs(money: nat)
    requires money / CRYSTAL < 0x1_0000_0000
    ensures Rest(money) == money % CRYSTAL + Overflows(money) * 0x1_0000_0000
  {
    assert U32(money / CRYSTAL) == money / CRYSTAL;
    var product := money / CRYSTAL * CRYSTAL;
    assert product == product / 0x1_0000_0000 * 0x1_0000_0000 + U32(product);
    assert money == product + money % CRYSTAL;
  }

  /** What overflows comes back unchanged if it is a whole number of platinum coins, and a multiple of 256 of them. */
  lemma SmallExactIff(r: nat, k: nat)
    requires r < CRYSTAL
    ensures SmallWorth(r + k * 0x1_0000_0000) == r <==> k == 0 || (k % 25 == 0 && r % PLATINUM != 0)
  {
    var rest := r + k * 0x1_0000_0000;
    if k == 0 {
      Division(r / PLATINUM, 0x100, 0, r / PLATINUM);
    } else if k % 25 == 0 {
      var m := k / 25;
      Division(rest, PLATINUM, m * 0x4000_0000 + r / PLATINUM, r % PLATINUM);
      Division(rest / PLATINUM, 0x100, m * 0x40_0000, r / PLATINUM);
    } else if SmallWorth(rest) == r {
      SmallExactMeans(r, k);
    }
  }

  lemma SmallExactMeans(r: nat, k: nat)
    requires SmallWorth(r + k * 0x1_0000_0000) == r
    ensures k % 25 == 0
  {
    var rest := r + k * 0x1_0000_0000;
    var p, s := rest / PLATINUM, rest % PLATINUM;
    var h := p - p % 0x100;
    assert rest == PLATINUM * p + s;
    Hundreds(h, if s == 0 && p >= 0x1_0000 then 1 else 0, k);
  }

  /** Both sides are multiples of four, so nothing is left, and of 25. */
  lemma Hundreds(h: nat, e: nat, k: nat)
    requires PLATINUM * h - e == k * 0x1_0000_0000 && e <= 1
    ensures e == 0 && k % 25 == 0
  {
    assert e == 4 * (25 * h - k * 0x4000_0000);
    assert 25 * (h - k * 42949672) == k * 24;
    assert k == 25 * (k - (h - k * 42949672));
  }

  /**
   * addMoney is exact if and only if the crystal coins fit 32 bits and their worth overflows 32 bits not at all, or a
   * multiple of 25 times and the amount is no whole number of platinum coins.
   */
  lemma ChangeExactIff(money: nat)
    ensures Total(Change(money)) == money <==>
            && money / CRYSTAL < 0x1_0000_0000
            && (Overflows(money) == 0 || (Overflows(money) % 25 == 0 && money % PLATINUM != 0))
  {
    ChangeTotal(money);
    if money / CRYSTAL < 0x1_0000_0000 {
      FittingIff(money);
      LowPart(money);
    } else {
      TooMany(money);
    }
  }

  lemma FittingIff(money: nat)
    requires money / CRYSTAL < 0x1_0000_0000
    ensures var k, r := Overflows(money), money % CRYSTAL;
            U32(money / CRYSTAL) * CRYSTAL + SmallWorth(Rest(money)) == money <==>
            k == 0 || (k % 25 == 0 && r % PLATINUM != 0)
  {
    var q, r := money / CRYSTAL, money % CRYSTAL;
    assert U32(q) == q && money == q * CRYSTAL + r;
    RestIs(money);
    SmallExactIff(r, Overflows(money));
  }

  lemma LowPart(money: nat)
    ensures money % CRYSTAL % PLATINUM == money % PLATINUM
  {
    var q, r := money / CRYSTAL, money % CRYSTAL;
    Division(money, PLATINUM, PLATINUM * q + r / PLATINUM, r % PLATINUM);
  }

  lemma TooMany(money: nat)
    requires money / CRYSTAL >= 0x1_0000_0000
    ensures U32(money / CRYSTAL) * CRYSTAL + SmallWorth(Rest(money)) < money
  {
    var q := money / CRYSTAL;
    assert U32(q) <= q - 0x1_0000_0000;
    assert SmallWorth(Rest(money)) <= PLATINUM * 0xFF + 99;
  }

  /** A gold stack is always a full stack in this sense; the platinum stack keeps the low byte of its coins. */
  lemma SmallStacks(rest: nat)
    ensures var p := rest / PLATINUM;
            && (U16(p) != 0 ==> Stack(PLATINUM, p % 0x100) in SmallChange(rest))
            && forall s <- SmallChange(rest) :: FullStack(s) || (U16(p) != 0 && s == Stack(PLATINUM, p % 0x100))
  {
    SmallChangeParts(rest);
    var platinum := U16(rest / PLATINUM);
    var gold := rest - platinum * PLATINUM;
    var b, c := StackOf(PLATINUM, platinum), StackOf(GOLD, gold);
    if platinum != 0 {
      assert b[0] == Stack(PLATINUM, platinum % 0x100);
      assert (b + c)[0] == b[0];
    }
    if gold != 0 {
      assert 1 <= CreatedCount(gold) < 100;
      assert FullStack(c[0]);
    }
  }

  /** No gold stack is empty or too large; a platinum stack is, exactly by the low byte of its coins. */
  lemma FullStacksIff(money: nat)
    ensures var p := Rest(money) / PLATINUM;
            && ((forall s <- Change(money) :: FullStack(s)) <==> U16(p) == 0 || 1 <= p % 0x100 <= 100)
            && ((exists s <- Change(money) :: s.count == 0) <==> U16(p) != 0 && p % 0x100 == 0)
  {
    var p := Rest(money) / PLATINUM;
    SmallStacks(Rest(money));
    CrystalsExact(U32(money / CRYSTAL));
    if U16(p) != 0 {
      var s := Stack(PLATINUM, p % 0x100);
      assert s in Change(money);
      assert FullStack(s) <==> 1 <= p % 0x100 <= 100;
    }
  }

  /** The first amount whose crystal coins are worth more than a 32-bit product can hold. */
  const OVERFLOW := 4294970000

  /** Below the first overflow addMoney creates full stacks that are worth exactly the amount. */
  lemma ChangeExact(money: nat)
    requires money < OVERFLOW
    ensures Total(Change(money)) == money && forall s <- Change(money) :: FullStack(s)
  {
    assert money / CRYSTAL <= 429496 && Overflows(money) == 0;
    ChangeExactIff(money);
    RestIs(money);
    FullStacksIff(money);
    var p := Rest(money) / PLATINUM;
    assert p < 100;
    Division(p, 0x100, 0, p);
  }

  /** At the first overflow 4096 gold pieces too many are created. */
  lemma ChangeOverflows()
    ensures Total(Change(OVERFLOW)) == OVERFLOW + 4096
  {
    ChangeTotal(OVERFLOW);
    Division(OVERFLOW, CRYSTAL, 429497, 0);
    Division(OVERFLOW, 0x1_0000_0000, 1, 2704);
    RestIs(OVERFLOW);
    Division(0x1_0000_0000, PLATINUM, 42949672, 96);
    Division(42949672, 0x100, 167772, 40);
  }

  // ---------------------------------------------------------------- what a cylinder holds

  /** An item that is no container, by the number of its stack, or a container. */
  datatype Node = Leaf(stack: nat) | Box(kids: seq<Node>)

  /** The stacks at any depth. */
  function Leaves(ns: seq<Node>): seq<nat>
    decreases ns
  {
    if ns == [] then []
    else (match ns[0] case Leaf(k) => [k] case Box(kids) => Leaves(kids)) + Leaves(ns[1..])
  }

  predicate InRange(ids: seq<nat>, coins: seq<Stack>) {
    forall i :: 0 <= i < |ids| ==> ids[i] < |coins|
  }

  function WorthOf(ids: seq<nat>, coins: seq<Stack>): nat
    requires InRange(ids, coins)
  {
    if ids == [] then 0 else Worth(coins[ids[0]]) + WorthOf(ids[1..], coins)
  }

  predicate NoDuplicates(ids: seq<nat>) {
    forall i, j :: 0 <= i < j < |ids| ==> ids[i] != ids[j]
  }

  function Weight(ns: seq<Node>): nat
    decreases ns
  {
    if ns == [] then 0 else 1 + (match ns[0] case Leaf(_) => 0 case Box(kids) => Weight(kids)) + Weight(ns[1..])
  }

  lemma {:induction false} WorthConcat(a: seq<nat>, b: seq<nat>, coins: seq<Stack>)
    requires InRange(a + b, coins)
    ensures InRange(a, coins) && InRange(b, coins)
    ensures WorthOf(a + b, coins) == WorthOf(a, coins) + WorthOf(b, coins)
  {
    assert forall i :: 0 <= i < |a| ==> (a + b)[i] == a[i];
    assert forall i :: 0 <= i < |b| ==> (a + b)[|a| + i] == b[i];
    if a == [] {
      assert a + b == b;
    } else {
      assert (a + b)[1..] == a[1..] + b;
      WorthConcat(a[1..], b, coins);
    }
  }

  lemma {:induction false} LeavesConcat(a: seq<Node>, b: seq<Node>)
    ensures Leaves(a + b) == Leaves(a) + Leaves(b) && Weight(a + b) == Weight(a) + Weight(b)
    decreases |a|
  {
    if a == [] {
      assert a + b == b;
    } else {
      assert (a + b)[1..] == a[1..] + b;
      LeavesConcat(a[1..], b);
    }
  }

  function Drop(ids: seq<nat>, j: nat): seq<nat>
    requires j < |ids|
  {
    ids[..j] + ids[j + 1..]
  }

  lemma DropBag(ids: seq<nat>, j: nat)
    requires j < |ids|
    ensures multiset(Drop(ids, j)) == multiset(ids) - multiset{ids[j]}
  {
    assert ids == ids[..j] + [ids[j]] + ids[j + 1..];
  }

  lemma DropWorth(ids: seq<nat>, j: nat, coins: seq<Stack>)
    requires j < |ids| && InRange(ids, coins)
    ensures InRange(Drop(ids, j), coins) && WorthOf(ids, coins) == Worth(coins[ids[j]]) + WorthOf(Drop(ids, j), coins)
  {
    var a, b := ids[..j], ids[j + 1..];
    assert ids == a + ([ids[j]] + b);
    WorthConcat(a, [ids[j]] + b, coins);
    WorthConcat(a, b, coins);
    assert ([ids[j]] + b)[1..] == b;
  }

  lemma BagIn(a: seq<nat>, b: seq<nat>, coins: seq<Stack>)
    requires multiset(a) == multiset(b) && InRange(a, coins)
    ensures InRange(b, coins)
  {
    forall i | 0 <= i < |b| ensures b[i] < |coins| {
      assert b[i] in multiset(b);
      assert b[i] in a;
    }
  }

  /** Sums do not depend on the order. */
  lemma {:induction false} WorthOfPermutation(a: seq<nat>, b: seq<nat>, coins: seq<Stack>)
    requires multiset(a) == multiset(b) && InRange(a, coins)
    ensures InRange(b, coins) && WorthOf(a, coins) == WorthOf(b, coins)
    decreases |a|
  {
    BagIn(a, b, coins);
    if a == [] {
      assert |b| == |multiset(b)| == 0;
    } else {
      assert a[0] in multiset(b);
      var j :| 0 <= j < |b| && b[j] == a[0];
      DropBag(a, 0);
      DropBag(b, j);
      DropWorth(a, 0, coins);
      DropWorth(b, j, coins);
      WorthOfPermutation(Drop(a, 0), Drop(b, j), coins);
    }
  }

  lemma DistinctPart(found: seq<nat>, other: multiset<nat>, all: seq<nat>)
    requires NoDuplicates(all) && multiset(found) + other == multiset(all)
    ensures NoDuplicates(found) && forall k <- found :: k in all
  {
    forall k <- found ensures k in all {
      assert k in multiset(found);
      assert k in multiset(all);
    }
    forall i, j | 0 <= i < j < |found| ensures found[i] != found[j] {
      if found[i] == found[j] {
        assert found == found[..i] + [found[i]] + found[i + 1..j] + [found[j]] + found[j + 1..];
        assert multiset(found)[found[i]] >= 2;
        assert multiset(all)[found[i]] >= 2;
        OnceOnly(all, found[i]);
      }
    }
  }

  lemma {:induction false} OnceOnly(all: seq<nat>, k: nat)
    requires NoDuplicates(all)
    ensures multiset(all)[k] <= 1
  {
    if all != [] {
      assert all == [all[0]] + all[1..];
      OnceOnly(all[1..], k);
      if all[0] == k {
        assert k !in all[1..];
        assert k !in multiset(all[1..]);
      }
    }
  }

  /** Every stack is of coins or worth nothing. */
  predicate Coins(coins: seq<Stack>) {
    forall i :: 0 <= i < |coins| ==> coins[i].unit in {0, GOLD, PLATINUM, CRYSTAL}
  }

  // ---------------------------------------------------------------- taking

  predicate Worthless(ids: seq<nat>, coins: seq<Stack>) {
    InRange(ids, coins) && forall i :: 0 <= i < |ids| ==> Worth(coins[ids[i]]) == 0
  }

  /** An entry of the multimap from worth to stack. */
  datatype Entry = Entry(worth: nat, stack: nat)

  predicate Ascending(m: seq<Entry>) {
    forall i, j :: 0 <= i < j < |m| ==> m[i].worth <= m[j].worth
  }

  predicate Genuine(e: Entry, coins: seq<Stack>) {
    e.stack < |coins| && e.worth == Worth(coins[e.stack]) && e.worth > 0
  }

  predicate AllGenuine(m: seq<Entry>, coins: seq<Stack>) {
    forall i :: 0 <= i < |m| ==> Genuine(m[i], coins)
  }

  function Stacks(m: seq<Entry>): seq<nat> {
    if m == [] then [] else [m[0].stack] + Stacks(m[1..])
  }

  predicate DistinctStacks(m: seq<Entry>) {
    forall i, j :: 0 <= i < j < |m| ==> m[i].stack != m[j].stack
  }

  predicate Names(m: seq<Entry>, k: nat) {
    exists i :: 0 <= i < |m| && m[i].stack == k
  }

  lemma {:induction false} StacksAt(m: seq<Entry>, i: nat)
    requires i < |m|
    ensures |Stacks(m)| == |m| && Stacks(m)[i] == m[i].stack
  {
    if i > 0 {
      StacksAt(m[1..], i - 1);
    } else {
      StacksLength(m);
    }
  }

  lemma {:induction false} StacksLength(m: seq<Entry>)
    ensures |Stacks(m)| == |m|
  {
    if m != [] {
      StacksLength(m[1..]);
    }
  }

  lemma {:induction false} StacksConcat(a: seq<Entry>, b: seq<Entry>)
    ensures Stacks(a + b) == Stacks(a) + Stacks(b)
  {
    if a == [] {
      assert a + b == b;
    } else {
      assert (a + b)[1..] == a[1..] + b;
      StacksConcat(a[1..], b);
    }
  }

  lemma DistinctEntries(m: seq<Entry>)
    requires NoDuplicates(Stacks(m))
    ensures DistinctStacks(m)
  {
    forall i, j | 0 <= i < j < |m| ensures m[i].stack != m[j].stack {
      StacksAt(m, i);
      StacksAt(m, j);
    }
  }

  function Sum(m: seq<Entry>): nat {
    if m == [] then 0 else m[0].worth + Sum(m[1..])
  }

  lemma {:induction false} SumConcat(a: seq<Entry>, b: seq<Entry>)
    ensures Sum(a + b) == Sum(a) + Sum(b)
  {
    if a == [] {
      assert a + b == b;
    } else {
      assert (a + b)[1..] == a[1..] + b;
      SumConcat(a[1..], b);
    }
  }

  lemma {:induction false} SumIsWorth(m: seq<Entry>, coins: seq<Stack>)
    requires AllGenuine(m, coins)
    ensures InRange(Stacks(m), coins) && Sum(m) == WorthOf(Stacks(m), coins)
  {
    if m != [] {
      SumIsWorth(m[1..], coins);
      StacksLength(m);
      assert Stacks(m)[1..] == Stacks(m[1..]);
    }
  }

  /** Whether a stack was not touched or taken whole. */
  predicate KeptOrTaken(was: Stack, now: Stack) {
    now == was || now == was.(count := 0)
  }

  predicate OnlySplit(was: seq<Stack>, now: seq<Stack>, s: nat)
    requires |was| <= |now|
  {
    forall k :: 0 <= k < |was| && k != s ==> KeptOrTaken(was[k], now[k])
  }

  /** No stack but one is split. */
  ghost predicate AtMostOneSplit(was: seq<Stack>, now: seq<Stack>) {
    && |was| <= |now|
    && exists s: nat :: OnlySplit(was, now, s)
  }

  class Cylinder {
    const things: seq<Node>
    var coins: seq<Stack>
    /** The bank balance of a player; None for a cylinder that is not one. */
    var balance: Option<nat>

    ghost predicate Valid()
      reads this
    {
      NoDuplicates(Leaves(things)) && InRange(Leaves(things), coins) && Coins(coins)
    }

    /** The worth of the coins held at any depth. */
    ghost function Held(): nat
      requires Valid()
      reads this
    {
      WorthOf(Leaves(things), coins)
    }

    ghost function Bank(): nat
      reads this
    {
      if balance.Some? then balance.value else 0
    }

    constructor (things: seq<Node>, coins: seq<Stack>, balance: Option<nat>)
      requires NoDuplicates(Leaves(things)) && InRange(Leaves(things), coins) && Coins(coins)
      ensures Valid() && this.things == things && this.coins == coins && this.balance == balance
    {
      this.things, this.coins, this.balance := things, coins, balance;
    }

    /** emplace: behind every entry of at most the same worth. */
    method Emplace(m: seq<Entry>, e: Entry) returns (r: seq<Entry>)
      requires Ascending(m)
      ensures Ascending(r) && exists i :: 0 <= i <= |m| && r == m[..i] + [e] + m[i..]
    {
      var i := |m|;
      while i > 0 && m[i - 1].worth > e.worth
        invariant 0 <= i <= |m|
        invariant forall j :: i <= j < |m| ==> m[j].worth > e.worth
      {
        i := i - 1;
      }
      r := m[..i] + [e] + m[i..];
    }

    /** The first half of removeMoney: all stacks that are worth something, found breadth first. */
    method Collect() returns (moneyCount: nat, moneyMap: seq<Entry>)
      requires Valid()
      ensures Ascending(moneyMap) && AllGenuine(moneyMap, coins) && DistinctStacks(moneyMap)
      ensures moneyCount == Held() == Sum(moneyMap)
    {
      moneyCount, moneyMap := 0, [];
      var queue := things;
      ghost var worthless: seq<nat> := [];
      while queue != []
        invariant Gathered(moneyMap, moneyCount, worthless, queue, things, coins)
        decreases Weight(queue)
      {
        match queue[0] {
          case Box(kids) =>
            BoxStep(Stacks(moneyMap), worthless, queue, things);
            LeavesConcat(queue[1..], kids);
            queue := queue[1..] + kids;
          case Leaf(k) =>
            LeafStep(Stacks(moneyMap), worthless, queue, things, coins);
            var worth := Worth(coins[k]);
            if worth != 0 {
              ghost var was := moneyMap;
              moneyMap := Emplace(moneyMap, Entry(worth, k));
              CoinStep(was, moneyMap, moneyCount, worthless, queue, things, coins, k);
              moneyCount := moneyCount + worth;
            } else {
              WorthlessStep(moneyMap, moneyCount, worthless, queue, things, coins, k);
              worthless := worthless + [k];
            }
            queue := queue[1..];
        }
      }
      Complete(moneyMap, worthless, things, coins);
    }

    /** addMoney: the loop makes full stacks of crystal coins. */
    method AddMoney(money: nat)
      requires Valid()
      modifies `coins
      ensures Valid() && coins == old(coins) + Change(money)
    {
      if money == 0 {
        assert Change(0) == [];
        return;
      }
      ChangeCoins(money);
      var crystalCoins: int := U32(money / CRYSTAL);
      var rest: int := money - U32(crystalCoins * CRYSTAL);
      ghost var withCrystals := coins + Crystals(crystalCoins);
      while crystalCoins > 0
        invariant 0 <= crystalCoins && coins + Crystals(crystalCoins) == withCrystals
      {
        var count := if crystalCoins < 100 then crystalCoins else 100;
        OneMore(coins, Stack(CRYSTAL, count), Crystals(crystalCoins - count));
        coins := coins + [Stack(CRYSTAL, count)];
        crystalCoins := crystalCoins - count;
      }
      assert coins == withCrystals by {
        assert coins + [] == coins;
      }
      var platinumCoins := U16(rest / PLATINUM);
      ghost var b := StackOf(PLATINUM, platinumCoins);
      ghost var c := StackOf(GOLD, rest - platinumCoins * PLATINUM);
      if platinumCoins != 0 {
        coins := coins + [Stack(PLATINUM, CreatedCount(platinumCoins))];
        rest := rest - platinumCoins * PLATINUM;
      }
      assert coins == withCrystals + b;
      if rest != 0 {
        coins := coins + [Stack(GOLD, CreatedCount(rest))];
      }
      assert coins == withCrystals + b + c;
      Appended(old(coins), Crystals(U32(money / CRYSTAL)), b, c);
      JoinCoins(old(coins), Change(money));
      InRangeGrows(Leaves(things), old(coins), Change(money));
    }

    /** internalRemoveItem for a stack that may be removed. */
    method RemoveItem(k: nat, count: nat)
      requires Valid() && k < |coins| && count <= coins[k].count
      modifies `coins
      ensures Valid() && coins == Reduced(old(coins), k, count)
    {
      coins := coins[k := coins[k].(count := coins[k].count - count)];
    }

    /**
     * removeMoney succeeds exactly if the coins held at any depth and the usable balance cover the
     * price. Then the wealth falls by exactly the price and at most one stack is split.
     */
    method RemoveMoney(price: nat, useBalance: bool) returns (ok: bool)
      requires Valid()
      modifies this
      ensures Valid()
      ensures ok <==> price <= old(Held()) + if useBalance then old(Bank()) else 0
      ensures !ok ==> coins == old(coins) && balance == old(balance)
      ensures ok ==> Total(coins) + Bank() == Total(old(coins)) + old(Bank()) - price
      ensures AtMostOneSplit(old(coins), coins)
      ensures price <= old(Held()) ==> balance == old(balance)
    {
      assert OnlySplit(coins, coins, 0);
      if price == 0 {
        return true;
      }
      var moneyCount, moneyMap := Collect();
      var usable := if useBalance && balance.Some? then balance.value else 0;
      if moneyCount + usable < price {
        return false;
      }
      var money := price;
      ghost var was := coins;
      assert moneyMap[0..] == moneyMap;
      for i := 0 to |moneyMap|
        invariant Valid() && balance == old(balance) && DistinctStacks(moneyMap)
        invariant Paying(was, coins, moneyMap[i..], moneyCount, price, money)
      {
        assert moneyMap[i..][0] == moneyMap[i] && moneyMap[i..][1..] == moneyMap[i + 1..];
        assert moneyMap[i..] == [moneyMap[i]] + moneyMap[i + 1..] && !Names(moneyMap[i + 1..], moneyMap[i].stack);
        var done;
        money, done := Pay(moneyMap[i], moneyMap[i + 1..], was, moneyCount, price, money);
        if done {
          return true;
        }
      }
      assert OnlySplit(was, coins, 0);
      if useBalance && balance.Some? && balance.value >= money {
        balance := Some(balance.value - money);
      }
      return true;
    }

    /** The body of the loop: one entry is taken whole, or split, or pays the rest. */
    method Pay(
        e: Entry, ghost rest: seq<Entry>, ghost was: seq<Stack>, ghost moneyCount: nat, ghost price: nat, money: nat)
      returns (left: nat, done: bool)
      requires Valid() && Paying(was, coins, [e] + rest, moneyCount, price, money) && !Names(rest, e.stack)
      modifies `coins
      ensures Valid()
      ensures !done ==> Paying(was, coins, rest, moneyCount, price, left)
      ensures done ==> Total(coins) == Total(was) - price && AtMostOneSplit(was, coins) && price <= moneyCount
    {
      var item := coins[e.stack];
      left, done := money, true;
      Taking(was, coins, e, rest, moneyCount, price, money);
      if e.worth < money {
        RemoveItem(e.stack, item.count);
        left, done := money - e.worth, false;
      } else if e.worth > money {
        Split(e, was, price, money);
      } else {
        RemoveItem(e.stack, item.count);
      }
    }

    /** A stack that is worth more than what is to be paid: the change is given before the coins are taken. */
    method Split(e: Entry, ghost was: seq<Stack>, ghost price: nat, money: nat)
      requires Valid() && e.stack < |coins| && e.worth == Worth(coins[e.stack]) && 0 < money < e.worth && money <= price
      requires |coins| == |was| && Total(coins) == Total(was) - (price - money)
      requires forall k :: 0 <= k < |was| ==> KeptOrTaken(was[k], coins[k])
      modifies `coins
      ensures Valid() && Total(coins) == Total(was) - price && AtMostOneSplit(was, coins)
    {
      var item := coins[e.stack];
      UnitWorth(item, money);
      var worth := e.worth / item.count;
      var removeCount := (money + worth - 1) / worth;
      Splitting(was, coins, e.stack, price, money, removeCount);
      AddMoney(worth * removeCount - money);
      RemoveItem(e.stack, removeCount);
    }
  }

  function Reduced(coins: seq<Stack>, k: nat, count: nat): seq<Stack>
    requires k < |coins| && count <= coins[k].count
  {
    coins[k := coins[k].(count := coins[k].count - count)]
  }

  /** money of the price is still to be paid, with the entries that are left. */
  ghost predicate Paying(was: seq<Stack>, coins: seq<Stack>, left: seq<Entry>, moneyCount: nat, price: nat, money: nat)
  {
    && 0 < money <= price
    && price - money == moneyCount - Sum(left)
    && |coins| == |was|
    && Total(coins) == Total(was) - (price - money)
    && AllGenuine(left, coins)
    && forall k :: 0 <= k < |was| ==> KeptOrTaken(was[k], coins[k])
  }

  /** A stack that is taken whole pays its worth. */
  lemma Taking(was: seq<Stack>, coins: seq<Stack>, e: Entry, rest: seq<Entry>, moneyCount: nat, price: nat, money: nat)
    requires Paying(was, coins, [e] + rest, moneyCount, price, money) && !Names(rest, e.stack)
    ensures e.stack < |coins| && e.worth == Worth(coins[e.stack]) && moneyCount >= price - money + e.worth
    ensures var coins' := Reduced(coins, e.stack, coins[e.stack].count);
            && Total(coins') == Total(coins) - e.worth
            && OnlySplit(was, coins', 0)
            && (e.worth < money ==> Paying(was, coins', rest, moneyCount, price, money - e.worth))
  {
    FirstEntry(e, rest, coins);
    EmptyStack(coins, e.stack);
    EmptyKept(was, coins, e.stack);
    StillGenuine(coins, e, rest);
  }

  lemma FirstEntry(e: Entry, rest: seq<Entry>, coins: seq<Stack>)
    requires AllGenuine([e] + rest, coins)
    ensures Genuine(e, coins) && Sum([e] + rest) == e.worth + Sum(rest)
  {
    assert ([e] + rest)[0] == e && ([e] + rest)[1..] == rest;
  }

  lemma EmptyStack(coins: seq<Stack>, k: nat)
    requires k < |coins|
    ensures Total(Reduced(coins, k, coins[k].count)) == Total(coins) - Worth(coins[k])
  {
    TotalUpdate(coins, k, coins[k].(count := 0));
  }

  lemma EmptyKept(was: seq<Stack>, coins: seq<Stack>, k: nat)
    requires |was| == |coins| && k < |coins| && forall j :: 0 <= j < |was| ==> KeptOrTaken(was[j], coins[j])
    ensures var coins' := Reduced(coins, k, coins[k].count);
            forall j :: 0 <= j < |was| ==> KeptOrTaken(was[j], coins'[j])
  {
  }

  lemma StillGenuine(coins: seq<Stack>, e: Entry, rest: seq<Entry>)
    requires AllGenuine([e] + rest, coins) && !Names(rest, e.stack) && e.stack < |coins|
    ensures AllGenuine(rest, Reduced(coins, e.stack, coins[e.stack].count))
  {
    forall i | 0 <= i < |rest| ensures Genuine(rest[i], Reduced(coins, e.stack, coins[e.stack].count)) {
      assert Genuine(([e] + rest)[i + 1], coins);
    }
  }

  /** The worth of one coin and the number of coins to take from a stack that is worth more than what is to be paid. */
  lemma UnitWorth(s: Stack, money: nat)
    requires 0 < money < Worth(s) && s.unit in {0, GOLD, PLATINUM, CRYSTAL}
    ensures s.count > 0 && s.unit > 0 && Worth(s) / s.count == s.unit
    ensures var n := (money + s.unit - 1) / s.unit;
            1 <= n <= s.count && 0 <= s.unit * n - money < s.unit
  {
    if s.unit == GOLD {
    } else if s.unit == PLATINUM {
    } else {
    }
    Quotient(s.unit, s.count);
  }

  lemma Quotient(u: nat, c: nat)
    requires c > 0
    ensures u * c / c == u
  {
    Division(u * c, c, u, 0);
  }

  /** Splitting a stack pays what is to be paid: the change is what was taken too much. */
  lemma Splitting(was: seq<Stack>, coins: seq<Stack>, k: nat, price: nat, money: nat, n: nat)
    requires |coins| == |was| && k < |coins| && n <= coins[k].count && coins[k].unit in {0, GOLD, PLATINUM, CRYSTAL}
    requires forall j :: 0 <= j < |was| ==> KeptOrTaken(was[j], coins[j])
    requires money <= price && Total(coins) == Total(was) - (price - money)
    requires 0 <= coins[k].unit * n - money < coins[k].unit
    ensures var more := coins + Change(coins[k].unit * n - money);
            && |more| >= |coins| && more[k] == coins[k]
            && Total(Reduced(more, k, n)) == Total(was) - price && AtMostOneSplit(was, Reduced(more, k, n))
    ensures Coins(coins) ==> Coins(coins + Change(coins[k].unit * n - money))
  {
    var c := coins[k].unit * n - money;
    var more := coins + Change(c);
    assert c < OVERFLOW;
    ChangeExact(c);
    ChangeCoins(c);
    TotalConcat(coins, Change(c));
    ReducedTotal(more, k, n);
    assert OnlySplit(was, Reduced(more, k, n), k);
  }

  lemma ReducedTotal(coins: seq<Stack>, k: nat, n: nat)
    requires k < |coins| && n <= coins[k].count
    ensures Total(Reduced(coins, k, n)) == Total(coins) - coins[k].unit * n
  {
    TotalUpdate(coins, k, coins[k].(count := coins[k].count - n));
    WorthLess(coins[k], n);
  }

  lemma WorthLess(s: Stack, n: nat)
    requires n <= s.count
    ensures Worth(s.(count := s.count - n)) == Worth(s) - s.unit * n
  {
  }

  lemma {:induction false} CrystalCoins(n: nat)
    ensures Coins(Crystals(n))
  {
    if n > 0 {
      CrystalCoins(n - if n < 100 then n else 100);
    }
  }

  lemma Appended(a: seq<Stack>, b: seq<Stack>, c: seq<Stack>, d: seq<Stack>)
    ensures a + b + c + d == a + (b + (c + d))
  {
  }

  lemma OneMore(a: seq<Stack>, s: Stack, b: seq<Stack>)
    ensures a + ([s] + b) == a + [s] + b
  {
  }

  lemma InRangeGrows(ids: seq<nat>, a: seq<Stack>, b: seq<Stack>)
    requires InRange(ids, a)
    ensures InRange(ids, a + b)
  {
  }

  lemma JoinCoins(a: seq<Stack>, b: seq<Stack>)
    requires Coins(a) && Coins(b)
    ensures Coins(a + b)
  {
  }

  lemma ChangeCoins(money: nat)
    ensures Coins(Change(money))
  {
    CrystalCoins(U32(money / CRYSTAL));
    JoinCoins(Crystals(U32(money / CRYSTAL)), SmallChange(Rest(money)));
  }

  /** Every leaf is found, or worthless, or still ahead. */
  ghost predicate Pending(found: seq<nat>, worthless: seq<nat>, queue: seq<Node>, things: seq<Node>) {
    multiset(found) + multiset(worthless) + multiset(Leaves(queue)) == multiset(Leaves(things))
  }

  /** The state of the search: entries in order and genuine, their sum, and what is still ahead. */
  ghost predicate Gathered(
      m: seq<Entry>, count: nat, worthless: seq<nat>, queue: seq<Node>, things: seq<Node>, coins: seq<Stack>)
  {
    && Ascending(m) && AllGenuine(m, coins) && count == Sum(m)
    && Worthless(worthless, coins) && Pending(Stacks(m), worthless, queue, things)
  }

  /** When nothing is ahead, the entries are all that is worth something, each once. */
  lemma Complete(m: seq<Entry>, worthless: seq<nat>, things: seq<Node>, coins: seq<Stack>)
    requires AllGenuine(m, coins) && Worthless(worthless, coins) && Pending(Stacks(m), worthless, [], things)
    requires NoDuplicates(Leaves(things)) && InRange(Leaves(things), coins)
    ensures DistinctStacks(m) && Sum(m) == WorthOf(Leaves(things), coins)
  {
    DistinctPart(Stacks(m), multiset(worthless), Leaves(things));
    DistinctEntries(m);
    SumIsWorth(m, coins);
    AllFound(Stacks(m), worthless, Leaves(things), coins);
  }

  lemma BoxStep(found: seq<nat>, worthless: seq<nat>, queue: seq<Node>, things: seq<Node>)
    requires queue != [] && queue[0].Box? && Pending(found, worthless, queue, things)
    ensures Pending(found, worthless, queue[1..] + queue[0].kids, things)
  {
    LeavesConcat(queue[1..], queue[0].kids);
    assert multiset(Leaves(queue)) == multiset(Leaves(queue[0].kids)) + multiset(Leaves(queue[1..]));
  }

  lemma LeafStep(found: seq<nat>, worthless: seq<nat>, queue: seq<Node>, things: seq<Node>, coins: seq<Stack>)
    requires queue != [] && queue[0].Leaf? && Pending(found, worthless, queue, things) && InRange(Leaves(things), coins)
    ensures var k := queue[0].stack;
            && k < |coins|
            && Pending(found, worthless + [k], queue[1..], things)
            && forall r: seq<nat> ::
                 multiset(r) == multiset(found) + multiset{k} ==>
                 Pending(r, worthless, queue[1..], things)
  {
    var k := queue[0].stack;
    FirstLeaf(queue, k);
    var all := Leaves(things);
    assert k in multiset(all);
    assert k in all;
    assert multiset(worthless + [k]) == multiset(worthless) + multiset{k};
  }

  lemma FirstLeaf(queue: seq<Node>, k: nat)
    requires queue != [] && queue[0] == Leaf(k)
    ensures multiset(Leaves(queue)) == multiset{k} + multiset(Leaves(queue[1..]))
  {
    assert Leaves(queue) == [k] + Leaves(queue[1..]);
  }

  lemma InsertSum(m: seq<Entry>, i: nat, e: Entry)
    requires i <= |m|
    ensures Sum(m[..i] + [e] + m[i..]) == Sum(m) + e.worth
  {
    assert m == m[..i] + m[i..];
    SumConcat(m[..i] + [e], m[i..]);
    SumConcat(m[..i], [e]);
    SumConcat(m[..i], m[i..]);
    assert Sum([e]) == e.worth + Sum([e][1..]);
  }

  lemma InsertStacks(m: seq<Entry>, i: nat, e: Entry)
    requires i <= |m|
    ensures multiset(Stacks(m[..i] + [e] + m[i..])) == multiset(Stacks(m)) + multiset{e.stack}
  {
    var a, b := m[..i], m[i..];
    assert m == a + b;
    StacksConcat(a, b);
    StacksConcat(a + [e], b);
    StacksConcat(a, [e]);
    assert Stacks([e]) == [e.stack] + Stacks([e][1..]) == [e.stack];
    InsertBag(Stacks(a), Stacks(b), e.stack);
  }

  lemma InsertBag(a: seq<nat>, b: seq<nat>, k: nat)
    ensures multiset(a + [k] + b) == multiset(a + b) + multiset{k}
  {
  }

  lemma Inserted(was: seq<Entry>, now: seq<Entry>, e: Entry, coins: seq<Stack>)
    requires AllGenuine(was, coins) && Genuine(e, coins)
    requires exists i :: 0 <= i <= |was| && now == was[..i] + [e] + was[i..]
    ensures AllGenuine(now, coins) && Sum(now) == Sum(was) + e.worth
    ensures multiset(Stacks(now)) == multiset(Stacks(was)) + multiset{e.stack}
  {
    var i :| 0 <= i <= |was| && now == was[..i] + [e] + was[i..];
    InsertSum(was, i, e);
    InsertStacks(was, i, e);
    InsertGenuine(was, i, e, coins);
  }

  lemma InsertGenuine(m: seq<Entry>, i: nat, e: Entry, coins: seq<Stack>)
    requires i <= |m| && AllGenuine(m, coins) && Genuine(e, coins)
    ensures AllGenuine(m[..i] + [e] + m[i..], coins)
  {
    var r := m[..i] + [e] + m[i..];
    forall j | 0 <= j < |r| ensures Genuine(r[j], coins) {
      assert r[j] == if j < i then m[j] else if j == i then e else m[j - 1];
    }
  }

  lemma CoinStep(
      was: seq<Entry>, now: seq<Entry>, count: nat, worthless: seq<nat>, queue: seq<Node>, things: seq<Node>,
      coins: seq<Stack>, k: nat)
    requires Gathered(was, count, worthless, queue, things, coins) && InRange(Leaves(things), coins)
    requires queue != [] && queue[0] == Leaf(k) && k < |coins| && Worth(coins[k]) != 0 && Ascending(now)
    requires exists i :: 0 <= i <= |was| && now == was[..i] + [Entry(Worth(coins[k]), k)] + was[i..]
    ensures Gathered(now, count + Worth(coins[k]), worthless, queue[1..], things, coins)
  {
    LeafStep(Stacks(was), worthless, queue, things, coins);
    Inserted(was, now, Entry(Worth(coins[k]), k), coins);
  }

  lemma WorthlessStep(
      m: seq<Entry>, count: nat, worthless: seq<nat>, queue: seq<Node>, things: seq<Node>, coins: seq<Stack>, k: nat)
    requires Gathered(m, count, worthless, queue, things, coins) && InRange(Leaves(things), coins)
    requires queue != [] && queue[0] == Leaf(k) && k < |coins| && Worth(coins[k]) == 0
    ensures Gathered(m, count, worthless + [k], queue[1..], things, coins)
  {
    LeafStep(Stacks(m), worthless, queue, things, coins);
  }

  lemma {:induction false} Nothing(ids: seq<nat>, coins: seq<Stack>)
    requires Worthless(ids, coins)
    ensures WorthOf(ids, coins) == 0
  {
    if ids != [] {
      Nothing(ids[1..], coins);
    }
  }

  lemma AllFound(found: seq<nat>, worthless: seq<nat>, all: seq<nat>, coins: seq<Stack>)
    requires multiset(found) + multiset(worthless) == multiset(all) && InRange(all, coins)
    requires Worthless(worthless, coins)
    ensures InRange(found, coins) && WorthOf(found, coins) == WorthOf(all, coins)
  {
    assert multiset(found + worthless) == multiset(all);
    WorthOfPermutation(all, found + worthless, coins);
    WorthConcat(found, worthless, coins);
    Nothing(worthless, coins);
  }
}
