/**
  Lifetime of creatures (game.cpp): placing and removing them, the ten check lists that are swept in turn, and
  the release queue that is emptied by cleanup.
*/
module CreatureLifetime {

  const EVENT_CREATURECOUNT := 10

  /**
    `tile` tells whether the creature has ever been put on the map, `removed` whether it has been taken off again;
    `held` counts the references of other owners (spawns, targets, masters, connections).
   */
  datatype Creature = Creature(
    refs: int, freed: bool, tile: bool, removed: bool, inCheckVector: bool, creatureCheck: bool, held: nat)

  datatype State = State(creatures: map<nat, Creature>, lists: seq<seq<nat>>, toRelease: seq<nat>)

  datatype Op =
    | Create(c: nat)
    | Place(c: nat, bucket: nat, check: bool)
    | Remove(c: nat)
    | AddCheck(c: nat, bucket: nat)
    | RemoveCheck(c: nat)
    | Hold(c: nat)
    | Drop(c: nat)
    | Cleanup

  // ---------------------------------------------------------------- the operations, on values

  predicate Alive(s: State, c: nat) {
    c in s.creatures && !s.creatures[c].freed
  }

  function Set(s: State, c: nat, x: Creature): State {
    s.(creatures := s.creatures[c := x])
  }

  function AddCreatureCheck(s: State, c: nat, bucket: nat): State
    requires c in s.creatures && bucket < |s.lists|
  {
    var x := s.creatures[c].(creatureCheck := true);
    if x.inCheckVector then Set(s, c, x)
    else Set(s, c, x.(inCheckVector := true, refs := x.refs + 1)).(lists := s.lists[bucket := s.lists[bucket] + [c]])
  }

  function RemoveCreatureCheck(s: State, c: nat): State
    requires c in s.creatures
  {
    var x := s.creatures[c];
    if x.inCheckVector then Set(s, c, x.(creatureCheck := false)) else s
  }

  function Release(s: State, c: nat): State {
    s.(toRelease := s.toRelease + [c])
  }

  function PlaceCreature(s: State, c: nat, bucket: nat, check: bool): State
    requires c in s.creatures && bucket < |s.lists|
  {
    var x := s.creatures[c];
    if x.tile then s
    else
      var s1 := Set(s, c, x.(tile := true, refs := x.refs + 1));
      if check then AddCreatureCheck(s1, c, bucket) else s1
  }

  function RemoveCreature(s: State, c: nat): State
    requires c in s.creatures
  {
    var x := s.creatures[c];
    if x.removed then s else RemoveCreatureCheck(Release(Set(s, c, x.(removed := true)), c), c)
  }

  /** decrementReferenceCounter: the last reference deletes the creature. */
  function Decrement(s: State, c: nat): State
    requires c in s.creatures
  {
    var x := s.creatures[c];
    Set(s, c, x.(refs := x.refs - 1, freed := x.freed || x.refs == 1))
  }

  function DecrementAll(s: State, cs: seq<nat>): State
    requires forall i :: 0 <= i < |cs| ==> cs[i] in s.creatures
    decreases |cs|
  {
    if cs == [] then s else DecrementAll(Decrement(s, cs[0]), cs[1..])
  }

  function CleanedUp(s: State): State
    requires forall i :: 0 <= i < |s.toRelease| ==> s.toRelease[i] in s.creatures
  {
    DecrementAll(s, s.toRelease).(toRelease := [])
  }

  /** What a caller has to respect: it only names creatures that it can reach. */
  predicate Legal(s: State, op: Op) {
    match op
    case Create(c) => c !in s.creatures
    case Cleanup => forall i :: 0 <= i < |s.toRelease| ==> s.toRelease[i] in s.creatures
    case Place(c, bucket, _) => Alive(s, c) && bucket < |s.lists|
    case AddCheck(c, bucket) => Alive(s, c) && bucket < |s.lists|
    case Remove(c) => Alive(s, c) && s.creatures[c].tile
    case RemoveCheck(c) => Alive(s, c)
    case Hold(c) => Alive(s, c)
    case Drop(c) => Alive(s, c) && s.creatures[c].held > 0
  }

  function Perform(s: State, op: Op): State
    requires Legal(s, op)
  {
    match op
    case Create(c) => Set(s, c, Creature(0, false, false, false, false, false, 0))
    case Cleanup => CleanedUp(s)
    case Place(c, bucket, check) => PlaceCreature(s, c, bucket, check)
    case AddCheck(c, bucket) => AddCreatureCheck(s, c, bucket)
    case Remove(c) => RemoveCreature(s, c)
    case RemoveCheck(c) => RemoveCreatureCheck(s, c)
    case Hold(c) => var x := s.creatures[c]; Set(s, c, x.(held := x.held + 1, refs := x.refs + 1))
    case Drop(c) => var x := s.creatures[c]; Decrement(Set(s, c, x.(held := x.held - 1)), c)
  }

  /** A callback: any sequence of operations; one that is not legal when its turn comes does not happen. */
  function PerformAll(s: State, ops: seq<Op>): State
    decreases |ops|
  {
    if ops == [] then s else PerformAll(if Legal(s, ops[0]) then Perform(s, ops[0]) else s, ops[1..])
  }

  // ---------------------------------------------------------------- the invariant

  function Total(lists: seq<seq<nat>>): multiset<nat> {
    if lists == [] then multiset{} else multiset(lists[0]) + Total(lists[1..])
  }

  function Bit(b: bool): nat {
    if b then 1 else 0
  }

  /** The references a creature must have: the map, its place in a check list, pending releases, other owners. */
  function Owed(s: State, c: nat): nat
    requires c in s.creatures
  {
    var x := s.creatures[c];
    Bit(x.tile && !x.removed) + Bit(x.inCheckVector) + multiset(s.toRelease)[c] + x.held
  }

  ghost predicate Counted(s: State, c: nat)
    requires c in s.creatures
  {
    s.creatures[c].refs == Owed(s, c) && (s.creatures[c].freed ==> Owed(s, c) == 0)
      && (s.creatures[c].removed ==> s.creatures[c].tile)
  }

  /** Creature c is in as many check lists as its flag says, and queued only if it exists. */
  ghost predicate Listed(s: State, c: nat) {
    Total(s.lists)[c] == Bit(c in s.creatures && s.creatures[c].inCheckVector) &&
    (multiset(s.toRelease)[c] > 0 ==> c in s.creatures)
  }

  ghost predicate Inv(s: State) {
    |s.lists| == EVENT_CREATURECOUNT && (forall c :: c in s.creatures ==> Counted(s, c))
      && forall c: nat :: Listed(s, c)
  }

  lemma {:induction false} TotalUpdate(lists: seq<seq<nat>>, b: nat, l: seq<nat>)
    requires b < |lists|
    ensures multiset(lists[b]) <= Total(lists)
    ensures Total(lists[b := l]) == Total(lists) - multiset(lists[b]) + multiset(l)
  {
    if b > 0 {
      TotalUpdate(lists[1..], b - 1, l);
      assert lists[b := l][1..] == lists[1..][b - 1 := l];
    } else {
      assert lists[b := l][1..] == lists[1..];
    }
  }

  lemma TotalPush(lists: seq<seq<nat>>, b: nat, c: nat)
    requires b < |lists|
    ensures Total(lists[b := lists[b] + [c]]) == Total(lists) + multiset{c}
  {
    TotalUpdate(lists, b, lists[b] + [c]);
  }

  /** An operation that concerns one creature only. */
  lemma OneInv(s: State, s': State, c: nat)
    requires Inv(s) && |s'.lists| == |s.lists| && s'.creatures.Keys == s.creatures.Keys + {c}
    requires Counted(s', c) && Listed(s', c)
    requires forall d :: d in s.creatures && d != c ==> s'.creatures[d] == s.creatures[d]
    requires forall d :: d != c ==> multiset(s'.toRelease)[d] == multiset(s.toRelease)[d]
    requires forall d :: d != c ==> Total(s'.lists)[d] == Total(s.lists)[d]
    ensures Inv(s')
  {
    forall d | d in s'.creatures ensures Counted(s', d) {
      if d != c {
        assert Counted(s, d);
      }
    }
    forall d: nat ensures Listed(s', d) {
      assert Listed(s, d);
    }
  }

  lemma AddCheckInv(s: State, c: nat, bucket: nat)
    requires Inv(s) && Alive(s, c) && bucket < |s.lists|
    ensures Inv(AddCreatureCheck(s, c, bucket))
  {
    assert Counted(s, c) && Listed(s, c);
    TotalPush(s.lists, bucket, c);
    OneInv(s, AddCreatureCheck(s, c, bucket), c);
  }

  lemma {:induction false} DecrementAllOf(s: State, cs: seq<nat>, c: nat)
    requires forall i :: 0 <= i < |cs| ==> cs[i] in s.creatures
    requires c in s.creatures && multiset(cs)[c] <= s.creatures[c].refs
    ensures var s', x, n := DecrementAll(s, cs), s.creatures[c], multiset(cs)[c];
      c in s'.creatures && s'.creatures[c] == x.(refs := x.refs - n, freed := x.freed || (n > 0 && x.refs == n))
    decreases |cs|
  {
    if cs != [] {
      assert cs == [cs[0]] + cs[1..];
      DecrementAllOf(Decrement(s, cs[0]), cs[1..], c);
    }
  }

  lemma DecrementStep(s: State, cs: seq<nat>, i: nat)
    requires i < |cs| && forall j :: 0 <= j < |cs| ==> cs[j] in s.creatures
    ensures Decrement(s, cs[i]).creatures.Keys == s.creatures.Keys
    ensures DecrementAll(s, cs[i..]) == DecrementAll(Decrement(s, cs[i]), cs[i + 1..])
  {
    assert cs[i..][0] == cs[i] && cs[i..][1..] == cs[i + 1..];
  }

  lemma DecrementAllRest(s: State, cs: seq<nat>)
    requires forall i :: 0 <= i < |cs| ==> cs[i] in s.creatures
    ensures var s' := DecrementAll(s, cs);
      s'.creatures.Keys == s.creatures.Keys && s'.lists == s.lists && s'.toRelease == s.toRelease
    decreases |cs|
  {
  }

  /** Emptying the queue deletes exactly the queued creatures to which no other reference is left. */
  lemma CleanupFacts(s: State)
    requires Inv(s)
    ensures Legal(s, Cleanup) && Inv(CleanedUp(s)) && CleanedUp(s).lists == s.lists && CleanedUp(s).toRelease == []
    ensures CleanedUp(s).creatures.Keys == s.creatures.Keys
    ensures forall c :: c in s.creatures ==>
      var x, x' := s.creatures[c], CleanedUp(s).creatures[c];
      x'.refs == x.refs - multiset(s.toRelease)[c] &&
      x' == x.(refs := x'.refs, freed := x'.freed) &&
      (x'.freed <==> x.freed || (c in s.toRelease && x'.refs == 0))
  {
    forall i | 0 <= i < |s.toRelease| ensures s.toRelease[i] in s.creatures {
      assert Listed(s, s.toRelease[i]);
    }
    DecrementAllRest(s, s.toRelease);
    forall c | c in s.creatures ensures CleanedOne(s, c) && Counted(CleanedUp(s), c) {
      CleanedOneIs(s, c);
    }
    forall c: nat ensures Listed(CleanedUp(s), c) {
      CleanedListed(s, c);
    }
    forall c | c in s.creatures ensures c in s.toRelease <==> multiset(s.toRelease)[c] > 0 {
    }
  }

  /** What emptying the queue does to one creature. */
  ghost predicate CleanedOne(s: State, c: nat)
    requires Legal(s, Cleanup) && c in s.creatures && CleanedUp(s).creatures.Keys == s.creatures.Keys
  {
    var x, n := s.creatures[c], multiset(s.toRelease)[c];
    n <= x.refs && CleanedUp(s).creatures[c] == x.(refs := x.refs - n, freed := x.freed || (n > 0 && x.refs == n))
  }

  lemma CleanedOneIs(s: State, c: nat)
    requires Inv(s) && Legal(s, Cleanup) && c in s.creatures && CleanedUp(s).creatures.Keys == s.creatures.Keys
    requires CleanedUp(s).toRelease == []
    ensures CleanedOne(s, c) && Counted(CleanedUp(s), c)
  {
    assert Counted(s, c);
    DecrementAllOf(s, s.toRelease, c);
  }

  lemma CleanedListed(s: State, c: nat)
    requires Inv(s) && Legal(s, Cleanup)
    requires CleanedUp(s).creatures.Keys == s.creatures.Keys && CleanedUp(s).lists == s.lists
             && CleanedUp(s).toRelease == []
    ensures Listed(CleanedUp(s), c)
  {
    assert Listed(s, c);
    if c in s.creatures {
      assert CleanedUp(s).creatures[c].inCheckVector == s.creatures[c].inCheckVector by {
        CleanedOneIs(s, c);
      }
    }
  }

  lemma RemoveInv(s: State, c: nat)
    requires Inv(s) && Alive(s, c) && s.creatures[c].tile
    ensures Inv(RemoveCreature(s, c))
  {
    assert Counted(s, c) && Listed(s, c);
    if !s.creatures[c].removed {
      var s' := RemoveCreature(s, c);
      assert multiset(s'.toRelease)[c] == multiset(s.toRelease)[c] + 1;
      OneInv(s, s', c);
    }
  }

  lemma TileInv(s: State, c: nat)
    requires Inv(s) && Alive(s, c) && !s.creatures[c].tile
    ensures var x := s.creatures[c]; Inv(Set(s, c, x.(tile := true, refs := x.refs + 1)))
  {
    assert Counted(s, c) && Listed(s, c);
    var x := s.creatures[c];
    OneInv(s, Set(s, c, x.(tile := true, refs := x.refs + 1)), c);
  }

  lemma PlaceInv(s: State, c: nat, bucket: nat, check: bool)
    requires Inv(s) && Alive(s, c) && bucket < |s.lists|
    ensures Inv(PlaceCreature(s, c, bucket, check))
  {
    var x := s.creatures[c];
    if !x.tile {
      TileInv(s, c);
      var s' := Set(s, c, x.(tile := true, refs := x.refs + 1));
      assert Alive(s', c) && s'.lists == s.lists;
      if check {
        AddCheckInv(s', c, bucket);
      }
    }
  }

  lemma OwnerInv(s: State, op: Op)
    requires Inv(s) && Legal(s, op) && (op.Create? || op.RemoveCheck? || op.Hold? || op.Drop?)
    ensures Inv(Perform(s, op))
  {
    assert Listed(s, op.c) && (op.c in s.creatures ==> Counted(s, op.c));
    OneInv(s, Perform(s, op), op.c);
  }

  /** Every operation keeps the references counted and the flags in step with the lists. */
  lemma PerformInv(s: State, op: Op)
    requires Inv(s) && Legal(s, op)
    ensures Inv(Perform(s, op))
  {
    match op
    case Cleanup => CleanupFacts(s);
    case Place(c, bucket, check) => PlaceInv(s, c, bucket, check);
    case AddCheck(c, bucket) => AddCheckInv(s, c, bucket);
    case Remove(c) => RemoveInv(s, c);
    case _ => OwnerInv(s, op);
  }

  /** The lists only grow at their end. */
  ghost predicate Grown(s: State, s': State) {
    |s'.lists| == |s.lists| && forall b :: 0 <= b < |s.lists| ==> s.lists[b] <= s'.lists[b]
  }

  lemma {:induction false} PerformAllInv(s: State, ops: seq<Op>)
    requires Inv(s)
    ensures Inv(PerformAll(s, ops)) && Grown(s, PerformAll(s, ops))
    decreases |ops|
  {
    if ops != [] {
      if Legal(s, ops[0]) {
        PerformInv(s, ops[0]);
        if ops[0].Cleanup? {
          CleanupFacts(s);
        }
        PerformAllInv(Perform(s, ops[0]), ops[1..]);
      } else {
        PerformAllInv(s, ops[1..]);
      }
    }
  }

  // ---------------------------------------------------------------- the sweep

  /** An inactive creature leaves its list: the last one takes its place, its reference is released. */
  function Dropped(s: State, b: nat, it: nat): State
    requires b < |s.lists| && it < |s.lists[b]| && s.lists[b][it] in s.creatures
  {
    var l := s.lists[b];
    var c, last := l[it], |l| - 1;
    Release(Set(s, c, s.creatures[c].(inCheckVector := false)), c).(lists := s.lists[b := l[it := l[last]][..last]])
  }

  lemma Occurrences(l: seq<nat>, i: nat, j: nat)
    requires i < |l| && j < |l| && i != j
    ensures multiset(l)[l[i]] >= if l[i] == l[j] then 2 else 1
  {
    var lo, hi := if i < j then i else j, if i < j then j else i;
    assert l == l[..lo] + [l[lo]] + l[lo + 1..hi] + [l[hi]] + l[hi + 1..];
  }

  /** Whoever is in a list exists, is in no other place of it, and has not been deleted. */
  lemma InList(s: State, b: nat, i: nat)
    requires Inv(s) && b < |s.lists| && i < |s.lists[b]|
    ensures var c := s.lists[b][i]; c in s.creatures && s.creatures[c].inCheckVector && !s.creatures[c].freed
    ensures forall j :: 0 <= j < |s.lists[b]| && j != i ==> s.lists[b][j] != s.lists[b][i]
  {
    var l, c := s.lists[b], s.lists[b][i];
    TotalUpdate(s.lists, b, l);
    assert c in multiset(l) && Listed(s, c);
    assert Counted(s, c);
    forall j | 0 <= j < |l| && j != i ensures l[j] != c {
      Occurrences(l, i, j);
    }
  }

  lemma DropContents(l: seq<nat>, it: nat)
    requires it < |l|
    ensures multiset(l[it := l[|l| - 1]][..|l| - 1]) == multiset(l) - multiset{l[it]}
  {
    var last := |l| - 1;
    assert l == l[..last] + [l[last]];
    if it < last {
      assert l[it := l[last]][..last] == l[..last][it := l[last]];
      assert multiset(l[..last][it := l[last]]) == multiset(l[..last]) - multiset{l[it]} + multiset{l[last]};
    } else {
      assert l[it := l[last]][..last] == l[..last];
    }
  }

  lemma TotalDrop(lists: seq<seq<nat>>, b: nat, it: nat)
    requires b < |lists| && it < |lists[b]|
    ensures var l := lists[b];
      Total(lists[b := l[it := l[|l| - 1]][..|l| - 1]]) == Total(lists) - multiset{l[it]}
  {
    var l := lists[b];
    DropContents(l, it);
    TotalUpdate(lists, b, l[it := l[|l| - 1]][..|l| - 1]);
    assert l[it] in multiset(l);
  }

  lemma DroppedInv(s: State, b: nat, it: nat)
    requires Inv(s) && b < |s.lists| && it < |s.lists[b]|
    ensures s.lists[b][it] in s.creatures && Inv(Dropped(s, b, it))
  {
    var c := s.lists[b][it];
    InList(s, b, it);
    var s' := Dropped(s, b, it);
    DroppedOne(s, s', c, b, it);
    OneInv(s, s', c);
  }

  /** The place in the list becomes a pending release. */
  lemma DroppedOne(s: State, s': State, c: nat, b: nat, it: nat)
    requires Inv(s) && b < |s.lists| && it < |s.lists[b]| && s.lists[b][it] == c && c in s.creatures
             && s.creatures[c].inCheckVector
    requires s' == Dropped(s, b, it)
    ensures Counted(s', c) && Listed(s', c)
    ensures forall d :: d != c ==> multiset(s'.toRelease)[d] == multiset(s.toRelease)[d]
    ensures forall d :: d != c ==> Total(s'.lists)[d] == Total(s.lists)[d]
  {
    DroppedLists(s, b, it, c);
    Queued(s.toRelease, c);
    assert s'.toRelease == s.toRelease + [c];
    OneMore(multiset(s.toRelease), multiset(s'.toRelease), c);
    OneLess(Total(s.lists), Total(s'.lists), c);
    assert Listed(s, c) && Counted(s, c);
    DroppedCounted(s, s', c);
  }

  lemma OneMore(m: multiset<nat>, m': multiset<nat>, c: nat)
    requires m' == m + multiset{c}
    ensures m'[c] == m[c] + 1 && forall d :: d != c ==> m'[d] == m[d]
  {
  }

  lemma OneLess(m: multiset<nat>, m': multiset<nat>, c: nat)
    requires m' == m - multiset{c}
    ensures m'[c] == (if m[c] == 0 then 0 else m[c] - 1) && forall d :: d != c ==> m'[d] == m[d]
  {
  }

  lemma DroppedLists(s: State, b: nat, it: nat, c: nat)
    requires b < |s.lists| && it < |s.lists[b]| && s.lists[b][it] == c && c in s.creatures
    ensures Total(Dropped(s, b, it).lists) == Total(s.lists) - multiset{c}
  {
    TotalDrop(s.lists, b, it);
  }

  lemma DroppedCounted(s: State, s': State, c: nat)
    requires c in s.creatures && Counted(s, c) && s.creatures[c].inCheckVector && c in s'.creatures
    requires s'.creatures[c] == s.creatures[c].(inCheckVector := false)
             && multiset(s'.toRelease)[c] == multiset(s.toRelease)[c] + 1
    ensures Counted(s', c)
  {
  }

  lemma Queued(l: seq<nat>, c: nat)
    ensures multiset(l + [c]) == multiset(l) + multiset{c}
  {
  }

  /** What the callbacks of one creature do. */
  function First(script: seq<seq<Op>>): seq<Op> {
    if script == [] then [] else script[0]
  }

  function Rest(script: seq<seq<Op>>): seq<seq<Op>> {
    if script == [] then [] else script[1..]
  }

  /**
    The sweep of list b from position `it` on: `script` holds what the callbacks of each thinking creature do.
    The result also lists the creatures that thought, in order.
   */
  ghost function SweepFrom(s: State, b: nat, it: nat, end: nat, script: seq<seq<Op>>): (r: (State, seq<nat>))
    requires Inv(s) && b < |s.lists| && it <= end <= |s.lists[b]|
    ensures Inv(r.0)
    decreases end - it
  {
    if it == end then
      CleanupFacts(s);
      (CleanedUp(s), [])
    else
      InList(s, b, it);
      var c := s.lists[b][it];
      if s.creatures[c].creatureCheck then
        PerformAllInv(s, First(script));
        var r := SweepFrom(PerformAll(s, First(script)), b, it + 1, end, Rest(script));
        (r.0, [c] + r.1)
      else
        DroppedInv(s, b, it);
        SweepFrom(Dropped(s, b, it), b, it, end - 1, script)
  }

  ghost function Swept(s: State, b: nat, script: seq<seq<Op>>): (r: (State, seq<nat>))
    requires Inv(s) && b < |s.lists|
    ensures Inv(r.0)
  {
    SweepFrom(s, b, 0, |s.lists[b]|, script)
  }

  lemma Present(s: State, b: nat, i: nat)
    requires Inv(s) && b < |s.lists| && i < |s.lists[b]|
    ensures s.lists[b][i] in s.creatures
  {
    InList(s, b, i);
  }

  /** One turn of the sweep for an active creature. */
  lemma SweepThinks(s: State, b: nat, it: nat, end: nat, script: seq<seq<Op>>)
    requires Inv(s) && b < |s.lists| && it < end <= |s.lists[b]| && s.lists[b][it] in s.creatures
             && s.creatures[s.lists[b][it]].creatureCheck
    ensures var s' := PerformAll(s, First(script));
            && Inv(s') && |s'.lists| == |s.lists| && |s.lists[b]| <= |s'.lists[b]|
            && SweepFrom(s, b, it, end, script).0 == SweepFrom(s', b, it + 1, end, Rest(script)).0
            && SweepFrom(s, b, it, end, script).1 == [s.lists[b][it]] + SweepFrom(s', b, it + 1, end, Rest(script)).1
  {
    InList(s, b, it);
    PerformAllInv(s, First(script));
  }

  /** One turn of the sweep for an inactive creature. */
  lemma SweepDrops(s: State, b: nat, it: nat, end: nat, script: seq<seq<Op>>)
    requires Inv(s) && b < |s.lists| && it < end <= |s.lists[b]| && s.lists[b][it] in s.creatures
             && !s.creatures[s.lists[b][it]].creatureCheck
    ensures var s' := Dropped(s, b, it);
            && Inv(s') && |s'.lists| == |s.lists| && |s'.lists[b]| == |s.lists[b]| - 1
            && SweepFrom(s, b, it, end, script) == SweepFrom(s', b, it, end - 1, script)
  {
    InList(s, b, it);
    DroppedInv(s, b, it);
  }

  /** The end of the sweep. */
  lemma SweepEnds(s: State, b: nat, it: nat, script: seq<seq<Op>>)
    requires Inv(s) && b < |s.lists| && it <= |s.lists[b]|
    ensures SweepFrom(s, b, it, it, script).0.lists == s.lists && SweepFrom(s, b, it, it, script).1 == []
  {
    CleanupFacts(s);
  }

  lemma OneMoreThinker(l: seq<nat>, l': seq<nat>, it: nat, rest: seq<nat>, swept: seq<nat>)
    requires it < |l| && l <= l' && l'[..it + 1] + rest <= swept
    ensures l[..it] + ([l[it]] + rest) <= swept
  {
    assert l'[..it + 1] == l[..it] + [l[it]];
    assert l[..it] + ([l[it]] + rest) == l[..it] + [l[it]] + rest;
  }

  /** Those that thought stay in front of the list, in the order in which they thought. */
  lemma {:induction false} ThinkersStay(
      s: State, b: nat, it: nat, end: nat, script: seq<seq<Op>>, swept: (State, seq<nat>))
    requires Inv(s) && b < |s.lists| && it <= end <= |s.lists[b]| && swept == SweepFrom(s, b, it, end, script)
    ensures b < |swept.0.lists| && s.lists[b][..it] + swept.1 <= swept.0.lists[b]
    decreases end - it
  {
    if it == end {
      SweepEnds(s, b, it, script);
      assert s.lists[b][..it] + [] == s.lists[b][..it];
    } else {
      Present(s, b, it);
      var c := s.lists[b][it];
      if s.creatures[c].creatureCheck {
        SweepThinks(s, b, it, end, script);
        var s' := PerformAll(s, First(script));
        var rest := SweepFrom(s', b, it + 1, end, Rest(script));
        ThinkersStay(s', b, it + 1, end, Rest(script), rest);
        PerformAllInv(s, First(script));
        OneMoreThinker(s.lists[b], s'.lists[b], it, rest.1, swept.0.lists[b]);
      } else {
        SweepDrops(s, b, it, end, script);
        ThinkersStay(Dropped(s, b, it), b, it, end - 1, script, swept);
        assert Dropped(s, b, it).lists[b][..it] == s.lists[b][..it];
      }
    }
  }

  /** No creature thinks twice in a sweep, whatever the callbacks do. */
  lemma ThinksAtMostOnce(s: State, b: nat, script: seq<seq<Op>>, i: nat, j: nat)
    requires Inv(s) && b < |s.lists| && i < j < |Swept(s, b, script).1|
    ensures Swept(s, b, script).1[i] != Swept(s, b, script).1[j]
  {
    var r := Swept(s, b, script);
    ThinkersStay(s, b, 0, |s.lists[b]|, script, r);
    assert s.lists[b][..0] + r.1 == r.1;
    InList(r.0, b, i);
  }

  /** Nothing an operation does may put a creature into list b. */
  predicate NoAdds(ops: seq<Op>, b: nat) {
    forall i :: 0 <= i < |ops| ==>
      !(ops[i].AddCheck? && ops[i].bucket == b) && !(ops[i].Place? && ops[i].check && ops[i].bucket == b)
  }

  /** Whether an operation is one on the check list entry of creature c. */
  predicate Concerns(op: Op, c: nat) {
    (op.Place? || op.Remove? || op.AddCheck? || op.RemoveCheck?) && op.c == c
  }

  predicate NoneConcerns(ops: seq<Op>, c: nat) {
    forall i :: 0 <= i < |ops| ==> !Concerns(ops[i], c)
  }

  predicate ScriptLeaves(script: seq<seq<Op>>, b: nat, c: nat) {
    forall k :: 0 <= k < |script| ==> NoAdds(script[k], b) && NoneConcerns(script[k], c)
  }

  lemma UndisturbedOp(s: State, op: Op, b: nat, c: nat)
    requires Inv(s) && Legal(s, op) && b < |s.lists| && c in s.creatures && NoAdds([op], b) && !Concerns(op, c)
    ensures var s' := Perform(s, op);
      && |s'.lists| == |s.lists| && s'.lists[b] == s.lists[b]
      && c in s'.creatures && s'.creatures[c].creatureCheck == s.creatures[c].creatureCheck
  {
    assert !(op.AddCheck? && op.bucket == b) && !(op.Place? && op.check && op.bucket == b) by {
      assert [op][0] == op;
    }
    if op.Cleanup? {
      CleanupFacts(s);
    }
  }

  lemma {:induction false} Undisturbed(s: State, ops: seq<Op>, b: nat, c: nat)
    requires Inv(s) && b < |s.lists| && c in s.creatures && NoAdds(ops, b) && NoneConcerns(ops, c)
    ensures var s' := PerformAll(s, ops);
      && Inv(s') && |s'.lists| == |s.lists| && s'.lists[b] == s.lists[b]
      && c in s'.creatures && s'.creatures[c].creatureCheck == s.creatures[c].creatureCheck
    decreases |ops|
  {
    if ops != [] {
      if Legal(s, ops[0]) {
        PerformInv(s, ops[0]);
        UndisturbedOp(s, ops[0], b, c);
        Undisturbed(Perform(s, ops[0]), ops[1..], b, c);
      } else {
        Undisturbed(s, ops[1..], b, c);
      }
    }
  }

  lemma DropMembers(l: seq<nat>, it: nat, c: nat)
    requires it < |l|
    ensures var l' := l[it := l[|l| - 1]][..|l| - 1];
      c in l[it..] <==> c == l[it] || c in l'[it..]
  {
    var last := |l| - 1;
    var l' := l[it := l[last]][..last];
    if it < last {
      assert l[it..] == [l[it]] + l[it + 1..last] + [l[last]];
      assert l'[it..] == [l[last]] + l[it + 1..last];
    } else {
      assert l[it..] == [l[it]] && l'[it..] == [];
    }
  }

  lemma TailMembers(l: seq<nat>, it: nat, c: nat)
    requires it < |l|
    ensures c in l[it..] <==> c == l[it] || c in l[it + 1..]
  {
    assert l[it..] == [l[it]] + l[it + 1..];
  }

  lemma TailDistinct(s: State, b: nat, it: nat)
    requires Inv(s) && b < |s.lists| && it < |s.lists[b]|
    ensures s.lists[b][it] !in s.lists[b][it + 1..]
  {
    InList(s, b, it);
  }

  /** Dropping an inactive creature leaves the active members of the rest of the list as they are. */
  lemma DroppedMember(s: State, b: nat, it: nat, c: nat)
    requires Inv(s) && b < |s.lists| && it < |s.lists[b]| && c in s.creatures
    ensures s.lists[b][it] in s.creatures && Inv(Dropped(s, b, it))
    ensures var s' := Dropped(s, b, it);
      && |s'.lists| == |s.lists| && |s'.lists[b]| == |s.lists[b]| - 1
      && c in s'.creatures && s'.creatures[c].creatureCheck == s.creatures[c].creatureCheck
      && (c in s.lists[b][it..] <==> c == s.lists[b][it] || c in s'.lists[b][it..])
  {
    DroppedInv(s, b, it);
    DropMembers(s.lists[b], it, c);
  }

  /**
   * A creature that the callbacks leave alone, in a list to which they add nothing, thinks exactly when it is active.
   */
  lemma {:induction false} ThinksFrom(s: State, b: nat, it: nat, script: seq<seq<Op>>, c: nat, swept: (State, seq<nat>))
    requires Inv(s) && b < |s.lists| && it <= |s.lists[b]| && c in s.creatures && ScriptLeaves(script, b, c)
    requires swept == SweepFrom(s, b, it, |s.lists[b]|, script)
    ensures c in swept.1 <==> c in s.lists[b][it..] && s.creatures[c].creatureCheck
    decreases |s.lists[b]| - it
  {
    var l := s.lists[b];
    if it < |l| {
      Present(s, b, it);
      TailMembers(l, it, c);
      if s.creatures[l[it]].creatureCheck {
        SweepThinks(s, b, it, |l|, script);
        Undisturbed(s, First(script), b, c);
        var s' := PerformAll(s, First(script));
        ThinksFrom(s', b, it + 1, Rest(script), c, SweepFrom(s', b, it + 1, |l|, Rest(script)));
      } else {
        SweepDrops(s, b, it, |l|, script);
        DroppedMember(s, b, it, c);
        ThinksFrom(Dropped(s, b, it), b, it, script, c, swept);
      }
    }
  }

  lemma ThinksIffActive(s: State, b: nat, script: seq<seq<Op>>, c: nat)
    requires Inv(s) && b < |s.lists| && c in s.creatures && ScriptLeaves(script, b, c)
    ensures c in Swept(s, b, script).1 <==> c in s.lists[b] && s.creatures[c].creatureCheck
  {
    ThinksFrom(s, b, 0, script, c, Swept(s, b, script));
    assert s.lists[b][0..] == s.lists[b];
  }

  /** Three creatures in list 0, the one in the middle inactive, and a fourth that is in no list. */
  function Example(): State {
    State(
      map[
        0 := Creature(1, false, false, false, true, true, 0), 1 := Creature(1, false, false, false, true, false, 0),
        2 := Creature(1, false, false, false, true, true, 0), 3 := Creature(0, false, false, false, false, false, 0)],
      [[0, 1, 2]] + seq(EVENT_CREATURECOUNT - 1, _ => []), [])
  }

  lemma TotalOfEmpty(lists: seq<seq<nat>>)
    requires forall b :: 0 <= b < |lists| ==> lists[b] == []
    ensures Total(lists) == multiset{}
  {
  }

  lemma ExampleInv()
    ensures Inv(Example())
  {
    var s := Example();
    assert s.lists[1..] == seq(EVENT_CREATURECOUNT - 1, _ => []);
    TotalOfEmpty(s.lists[1..]);
    assert Total(s.lists) == multiset([0, 1, 2]) == multiset{0, 1, 2};
    forall c | c in s.creatures ensures Counted(s, c) {
      assert c == 0 || c == 1 || c == 2 || c == 3;
    }
    forall c: nat ensures Listed(s, c) {
      assert multiset(s.toRelease)[c] == 0;
    }
  }

  lemma ExampleSteps(s1: State, s2: State)
    requires Inv(s1) && s1.lists[0] == [0, 1, 2, 3]
    requires 1 in s1.creatures && !s1.creatures[1].creatureCheck && 3 in s1.creatures && s1.creatures[3].creatureCheck
    requires s2 == Dropped(s1, 0, 1)
    ensures SweepFrom(s1, 0, 1, 3, []).1 == [3]
  {
    DroppedInv(s1, 0, 1);
    assert s2.lists[0] == [0, 3, 2];
    assert PerformAll(s2, []) == s2 && SweepFrom(s2, 0, 2, 2, []).1 == [];
  }

  /** Without the condition that nothing is added to the list, an active creature can miss its turn. */
  lemma AddedCreatureTakesTurn()
    ensures var s, script := Example(), [[AddCheck(3, 0)]];
      Inv(s) && 2 in s.lists[0] && s.creatures[2].creatureCheck && NoneConcerns(script[0], 2)
        && 2 !in Swept(s, 0, script).1
  {
    ExampleInv();
    var s, ops := Example(), [AddCheck(3, 0)];
    var s1 := ExampleCallback();
    ExampleSteps(s1, Dropped(s1, 0, 1));
    assert First([ops]) == ops && Rest([ops]) == [];
    assert Swept(s, 0, [ops]).1 == [0] + SweepFrom(s1, 0, 1, 3, []).1;
  }

  /** The first creature thinks, and its callback adds the fourth one to the list. */
  lemma ExampleCallback() returns (s1: State)
    ensures Inv(Example()) && s1 == PerformAll(Example(), [AddCheck(3, 0)])
    ensures Inv(s1) && s1.lists[0] == [0, 1, 2, 3]
    ensures 1 in s1.creatures && !s1.creatures[1].creatureCheck && 3 in s1.creatures && s1.creatures[3].creatureCheck
  {
    ExampleInv();
    var s, ops := Example(), [AddCheck(3, 0)];
    PerformAllInv(s, ops);
    s1 := AddCreatureCheck(s, 3, 0);
    assert PerformAll(s, ops) == PerformAll(s1, []) == s1;
  }

  /** A creature that is off the map, inactive, and on its way to being deleted. */
  ghost predicate Leaving(s: State, b: nat, it: nat, c: nat) {
    Inv(s) && b < |s.lists| && it <= |s.lists[b]| && c in s.creatures &&
    var x := s.creatures[c];
    && x.removed && !x.creatureCheck && x.held == 0
    && (x.freed || x.inCheckVector || c in s.toRelease) && (x.inCheckVector ==> c in s.lists[b][it..])
  }

  predicate NoHolds(ops: seq<Op>, c: nat) {
    forall i :: 0 <= i < |ops| ==> ops[i] != Hold(c)
  }

  lemma {:induction false} StillLeaving(s: State, ops: seq<Op>, b: nat, it: nat, c: nat)
    requires Leaving(s, b, it, c) && NoAdds(ops, b) && NoneConcerns(ops, c) && NoHolds(ops, c)
    ensures Leaving(PerformAll(s, ops), b, it, c) && PerformAll(s, ops).lists[b] == s.lists[b]
    decreases |ops|
  {
    if ops != [] {
      if Legal(s, ops[0]) {
        LegalLeaving(s, ops[0], b, it, c);
        StillLeaving(Perform(s, ops[0]), ops[1..], b, it, c);
      } else {
        StillLeaving(s, ops[1..], b, it, c);
      }
    }
  }

  lemma PassedLeaving(s: State, b: nat, it: nat, c: nat)
    requires Leaving(s, b, it, c) && it < |s.lists[b]| && (s.lists[b][it] in s.creatures ==> s.lists[b][it] != c)
    ensures Leaving(s, b, it + 1, c)
  {
    TailMembers(s.lists[b], it, c);
  }

  lemma DroppedLeaving(s: State, b: nat, it: nat, c: nat)
    requires Leaving(s, b, it, c) && it < |s.lists[b]|
    ensures s.lists[b][it] in s.creatures && Leaving(Dropped(s, b, it), b, it, c)
  {
    DroppedMember(s, b, it, c);
    TailDistinct(s, b, it);
  }

  lemma LegalLeaving(s: State, op: Op, b: nat, it: nat, c: nat)
    requires Leaving(s, b, it, c) && Legal(s, op) && NoAdds([op], b) && !Concerns(op, c) && op != Hold(c)
    ensures Leaving(Perform(s, op), b, it, c) && Perform(s, op).lists[b] == s.lists[b]
  {
    PerformInv(s, op);
    UndisturbedOp(s, op, b, c);
    if op.Cleanup? {
      CleanupFacts(s);
      assert Counted(s, c);
    }
  }

  /** The release that is left is the last one, and it deletes the creature. */
  lemma LeavesAtEnd(s: State, b: nat, script: seq<seq<Op>>, c: nat)
    requires Inv(s) && b < |s.lists| && Leaving(s, b, |s.lists[b]|, c)
    ensures var s' := SweepFrom(s, b, |s.lists[b]|, |s.lists[b]|, script).0; c in s'.creatures && s'.creatures[c].freed
  {
    CleanupFacts(s);
    assert Counted(s, c);
  }

  ghost predicate ScriptQuiet(script: seq<seq<Op>>, b: nat, c: nat) {
    ScriptLeaves(script, b, c) && forall k :: 0 <= k < |script| ==> NoHolds(script[k], c)
  }

  lemma QuietParts(script: seq<seq<Op>>, b: nat, c: nat)
    requires ScriptQuiet(script, b, c)
    ensures ScriptQuiet(Rest(script), b, c)
    ensures NoAdds(First(script), b) && NoneConcerns(First(script), c) && NoHolds(First(script), c)
  {
  }

  lemma LeavesThinking(s: State, b: nat, it: nat, script: seq<seq<Op>>, c: nat)
    requires Leaving(s, b, it, c) && ScriptQuiet(script, b, c) && it < |s.lists[b]|
    requires s.lists[b][it] in s.creatures && s.creatures[s.lists[b][it]].creatureCheck
    ensures var s' := PerformAll(s, First(script)); Leaving(s', b, it + 1, c) && |s'.lists[b]| == |s.lists[b]|
  {
    QuietParts(script, b, c);
    StillLeaving(s, First(script), b, it, c);
    PassedLeaving(PerformAll(s, First(script)), b, it, c);
  }

  lemma LeavesDropping(s: State, b: nat, it: nat, c: nat)
    requires Leaving(s, b, it, c) && it < |s.lists[b]| && s.lists[b][it] in s.creatures
    ensures var s' := Dropped(s, b, it); Leaving(s', b, it, c) && |s'.lists[b]| == |s.lists[b]| - 1
  {
    DroppedLeaving(s, b, it, c);
  }

  /** One turn of the sweep brings a leaving creature nearer to its end. */
  lemma LeavesTurn(s: State, b: nat, it: nat, script: seq<seq<Op>>, c: nat)
    returns (s': State, it': nat, script': seq<seq<Op>>)
    requires Leaving(s, b, it, c) && ScriptQuiet(script, b, c) && it < |s.lists[b]|
    ensures Leaving(s', b, it', c) && ScriptQuiet(script', b, c) && |s'.lists[b]| - it' < |s.lists[b]| - it
    ensures SweepFrom(s, b, it, |s.lists[b]|, script).0 == SweepFrom(s', b, it', |s'.lists[b]|, script').0
  {
    Present(s, b, it);
    var end := |s.lists[b]|;
    if s.creatures[s.lists[b][it]].creatureCheck {
      SweepThinks(s, b, it, end, script);
      LeavesThinking(s, b, it, script, c);
      QuietParts(script, b, c);
      s', it', script' := PerformAll(s, First(script)), it + 1, Rest(script);
    } else {
      SweepDrops(s, b, it, end, script);
      LeavesDropping(s, b, it, c);
      s', it', script' := Dropped(s, b, it), it, script;
    }
  }

  lemma {:induction false} LeavesFrom(s: State, b: nat, it: nat, script: seq<seq<Op>>, c: nat, swept: State)
    requires Leaving(s, b, it, c) && ScriptQuiet(script, b, c) && swept == SweepFrom(s, b, it, |s.lists[b]|, script).0
    ensures c in swept.creatures && swept.creatures[c].freed
    decreases |s.lists[b]| - it
  {
    if it == |s.lists[b]| {
      LeavesAtEnd(s, b, script, c);
    } else {
      var s', it', script' := LeavesTurn(s, b, it, script, c);
      LeavesFrom(s', b, it', script', c, swept);
    }
  }

  /**
   * After its removal a creature that nobody else holds is deleted by the next sweep of its list, and not before it has
   * left the list.
   */
  lemma RemovedIsDeleted(s: State, b: nat, script: seq<seq<Op>>, c: nat)
    requires Inv(s) && b < |s.lists| && c in s.lists[b] && c in s.creatures && s.creatures[c].tile
             && s.creatures[c].held == 0
    requires ScriptQuiet(script, b, c)
    requires !s.creatures[c].removed
    ensures var s1 := RemoveCreature(s, c);
      Inv(s1) && Alive(s1, c) && c in Swept(s1, b, script).0.creatures && Swept(s1, b, script).0.creatures[c].freed
  {
    var i :| 0 <= i < |s.lists[b]| && s.lists[b][i] == c;
    InList(s, b, i);
    RemoveInv(s, c);
    var s1 := RemoveCreature(s, c);
    assert s1.lists[b][0..] == s1.lists[b];
    LeavesFrom(s1, b, 0, script, c, Swept(s1, b, script).0);
  }

  // ---------------------------------------------------------------- whole runs

  datatype Action = Do(op: Op) | Sweep(b: nat, script: seq<seq<Op>>)

  function Start(): State {
    State(map[], seq(EVENT_CREATURECOUNT, _ => []), [])
  }

  ghost function After(s: State, run: seq<Action>): (s': State)
    requires Inv(s)
    ensures Inv(s')
    decreases |run|
  {
    if run == [] then s
    else
      match run[0]
      case Do(op) =>
        (if Legal(s, op) then PerformInv(s, op); After(Perform(s, op), run[1..]) else After(s, run[1..]))
      case Sweep(b, script) =>
        if b < |s.lists| then After(Swept(s, b, script).0, run[1..]) else After(s, run[1..])
  }

  /**
   * In every run: references are counted exactly, and who is in a check list is there once and has not been deleted.
   */
  lemma EveryRunIsSafe(run: seq<Action>)
    ensures Inv(Start())
    ensures var s := After(Start(), run);
      && (forall c :: c in s.creatures ==> s.creatures[c].refs == Owed(s, c))
      && (forall c :: c in s.creatures && s.creatures[c].freed ==> c !in s.toRelease && s.creatures[c].held == 0)
      && (forall b, i :: 0 <= b < |s.lists| && 0 <= i < |s.lists[b]| ==> Alive(s, s.lists[b][i]))
      && (forall c: nat :: Total(s.lists)[c] == Bit(c in s.creatures && s.creatures[c].inCheckVector))
  {
    TotalOfEmpty(Start().lists);
    assert Inv(Start());
    var s := After(Start(), run);
    InvMeans(s);
  }

  lemma InvMeans(s: State)
    requires Inv(s)
    ensures forall c :: c in s.creatures ==> s.creatures[c].refs == Owed(s, c)
    ensures forall c :: c in s.creatures && s.creatures[c].freed ==> c !in s.toRelease && s.creatures[c].held == 0
    ensures forall b, i :: 0 <= b < |s.lists| && 0 <= i < |s.lists[b]| ==> Alive(s, s.lists[b][i])
    ensures forall c: nat :: Total(s.lists)[c] == Bit(c in s.creatures && s.creatures[c].inCheckVector)
  {
    forall c | c in s.creatures
      ensures s.creatures[c].refs == Owed(s, c) && (s.creatures[c].freed ==> Owed(s, c) == 0) {
      assert Counted(s, c);
    }
    forall b, i | 0 <= b < |s.lists| && 0 <= i < |s.lists[b]| ensures Alive(s, s.lists[b][i]) {
      InList(s, b, i);
    }
    forall c: nat ensures Total(s.lists)[c] == Bit(c in s.creatures && s.creatures[c].inCheckVector) {
      assert Listed(s, c);
    }
  }

  // ---------------------------------------------------------------- the code

  /** A sweep that has come some way: those that thought so far come first. */
  ghost function Prepend(thought: seq<nat>, r: (State, seq<nat>)): (State, seq<nat>) {
    (r.0, thought + r.1)
  }

  lemma PrependFacts(thought: seq<nat>, c: nat, r: (State, seq<nat>))
    ensures Prepend([], r) == r && Prepend(thought, (r.0, [])) == (r.0, thought)
    ensures Prepend(thought, (r.0, [c] + r.1)) == Prepend(thought + [c], r)
  {
    assert [] + r.1 == r.1 && thought + [] == thought && r == (r.0, r.1);
    assert thought + ([c] + r.1) == thought + [c] + r.1;
  }

  class Game {
    var creatures: map<nat, Creature>
    var checkCreatureLists: seq<seq<nat>>
    var toReleaseCreatures: seq<nat>

    ghost function Model(): State
      reads this
    {
      State(creatures, checkCreatureLists, toReleaseCreatures)
    }

    constructor ()
      ensures Model() == Start() && Inv(Model())
    {
      creatures := map[];
      checkCreatureLists := seq(EVENT_CREATURECOUNT, _ => []);
      toReleaseCreatures := [];
      new;
      TotalOfEmpty(checkCreatureLists);
    }

    method AddCheckOf(c: nat, bucket: nat)
      requires c in creatures && bucket < |checkCreatureLists|
      modifies this
      ensures Model() == AddCreatureCheck(old(Model()), c, bucket)
    {
      creatures := creatures[c := creatures[c].(creatureCheck := true)];
      if creatures[c].inCheckVector {
        return;
      }
      creatures := creatures[c := creatures[c].(inCheckVector := true)];
      checkCreatureLists := checkCreatureLists[bucket := checkCreatureLists[bucket] + [c]];
      creatures := creatures[c := creatures[c].(refs := creatures[c].refs + 1)];
    }

    method RemoveCheckOf(c: nat)
      requires c in creatures
      modifies this
      ensures Model() == RemoveCreatureCheck(old(Model()), c)
    {
      if creatures[c].inCheckVector {
        creatures := creatures[c := creatures[c].(creatureCheck := false)];
      }
    }

    method ReleaseCreature(c: nat)
      modifies this
      ensures Model() == Release(old(Model()), c)
    {
      toReleaseCreatures := toReleaseCreatures + [c];
    }

    /** placeCreature, or internalPlaceCreature without the check; a creature that has a tile is refused. */
    method PlaceCreatureAt(c: nat, bucket: nat, check: bool) returns (ok: bool)
      requires c in creatures && bucket < |checkCreatureLists|
      modifies this
      ensures Model() == PlaceCreature(old(Model()), c, bucket, check) && ok == !old(creatures[c].tile)
    {
      if creatures[c].tile {
        return false;
      }
      creatures := creatures[c := creatures[c].(tile := true, refs := creatures[c].refs + 1)];
      if check {
        AddCheckOf(c, bucket);
      }
      ok := true;
    }

    method RemoveCreatureOf(c: nat) returns (ok: bool)
      requires c in creatures
      modifies this
      ensures Model() == RemoveCreature(old(Model()), c) && ok == !old(creatures[c].removed)
    {
      if creatures[c].removed {
        return false;
      }
      creatures := creatures[c := creatures[c].(removed := true)];
      ReleaseCreature(c);
      RemoveCheckOf(c);
      ok := true;
    }

    method DecrementReferenceCounter(c: nat)
      requires c in creatures
      modifies this
      ensures Model() == Decrement(old(Model()), c)
    {
      var x := creatures[c].(refs := creatures[c].refs - 1);
      creatures := creatures[c := if x.refs == 0 then x.(freed := true) else x];
    }

    method Cleanup()
      requires Inv(Model())
      modifies this
      ensures Legal(old(Model()), Op.Cleanup) && Model() == CleanedUp(old(Model())) && Inv(Model())
    {
      CleanupFacts(Model());
      ghost var s := Model();
      for i := 0 to |toReleaseCreatures|
        invariant toReleaseCreatures == s.toRelease && creatures.Keys == s.creatures.Keys
        invariant DecrementAll(Model(), toReleaseCreatures[i..]) == DecrementAll(s, s.toRelease)
      {
        DecrementStep(Model(), toReleaseCreatures, i);
        DecrementReferenceCounter(toReleaseCreatures[i]);
      }
      toReleaseCreatures := [];
    }

    /** One operation of a callback. */
    method Act(op: Op)
      requires Inv(Model())
      modifies this
      ensures Model() == (if Legal(old(Model()), op) then Perform(old(Model()), op) else old(Model())) && Inv(Model())
    {
      if !Legal(State(creatures, checkCreatureLists, toReleaseCreatures), op) {
        return;
      }
      PerformInv(Model(), op);
      match op
      case Create(c) => creatures := creatures[c := Creature(0, false, false, false, false, false, 0)];
      case Cleanup => Cleanup();
      case Place(c, bucket, check) => var _ := PlaceCreatureAt(c, bucket, check);
      case AddCheck(c, bucket) => AddCheckOf(c, bucket);
      case Remove(c) => var _ := RemoveCreatureOf(c);
      case RemoveCheck(c) => RemoveCheckOf(c);
      case Hold(c) => creatures :=
        creatures[c := creatures[c].(held := creatures[c].held + 1, refs := creatures[c].refs + 1)];
      case Drop(c) =>
        creatures := creatures[c := creatures[c].(held := creatures[c].held - 1)];
        DecrementReferenceCounter(c);
    }

    /** onThink, onAttacking and executeConditions, or onDeath, of one creature. */
    method Callbacks(ops: seq<Op>)
      requires Inv(Model())
      modifies this
      ensures Model() == PerformAll(old(Model()), ops) && Inv(Model())
    {
      ghost var s := Model();
      for i := 0 to |ops|
        invariant Inv(Model()) && PerformAll(Model(), ops[i..]) == PerformAll(s, ops)
      {
        assert ops[i..][0] == ops[i] && ops[i..][1..] == ops[i + 1..];
        Act(ops[i]);
      }
      assert ops[|ops|..] == [];
    }

    method CheckCreatures(index: nat, script: seq<seq<Op>>) returns (thought: seq<nat>)
      requires Inv(Model()) && index < EVENT_CREATURECOUNT
      modifies this
      ensures (Model(), thought) == Swept(old(Model()), index, script) && Inv(Model())
    {
      ghost var s := Model();
      var it, end := 0, |checkCreatureLists[index]|;
      var todo := script;
      thought := [];
      PrependFacts([], 0, Swept(s, index, script));
      while it < end
        invariant Inv(Model()) && it <= end <= |checkCreatureLists[index]|
        invariant Swept(s, index, script) == Prepend(thought, SweepFrom(Model(), index, it, end, todo))
        decreases end - it
      {
        InList(Model(), index, it);
        var c := checkCreatureLists[index][it];
        if creatures[c].creatureCheck {
          PerformAllInv(Model(), First(todo));
          PrependFacts(thought, c, SweepFrom(PerformAll(Model(), First(todo)), index, it + 1, end, Rest(todo)));
          Callbacks(First(todo));
          thought, todo := thought + [c], Rest(todo);
          it := it + 1;
        } else {
          DroppedInv(Model(), index, it);
          DropAt(index, it);
          end := end - 1;
        }
      }
      PrependFacts(thought, 0, SweepFrom(Model(), index, it, end, todo));
      Cleanup();
    }

    /** The branch of checkCreatures for an inactive creature. */
    method DropAt(index: nat, it: nat)
      requires index < |checkCreatureLists| && it < |checkCreatureLists[index]|
               && checkCreatureLists[index][it] in creatures
      modifies this
      ensures Model() == Dropped(old(Model()), index, it)
    {
      var l := checkCreatureLists[index];
      var c := l[it];
      creatures := creatures[c := creatures[c].(inCheckVector := false)];
      ReleaseCreature(c);
      checkCreatureLists := checkCreatureLists[index := l[it := l[|l| - 1]][..|l| - 1]];
    }
  }
}