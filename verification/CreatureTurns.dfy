/** Which creatures are sure of their turn in the sweep of a check list (game.cpp, checkCreatures). */
module CreatureTurns {
  import opened CreatureLifetime

  predicate Active(s: State, c: nat) {
    c in s.creatures && s.creatures[c].creatureCheck
  }

  /** A list without its head, whose place the last one takes. */
  function Beheaded(l: seq<nat>): seq<nat>
    requires l != []
  {
    l[0 := l[|l| - 1]][..|l| - 1]
  }

  /** The list once the inactive creatures that come to its head are dropped. */
  function Led(s: State, l: seq<nat>): seq<nat>
    decreases |l|
  {
    if l == [] || Active(s, l[0]) then l else Led(s, Beheaded(l))
  }

  /** The first creature that thinks, and the one behind it. */
  predicate FirstTwo(l: seq<nat>, c: nat) {
    (|l| > 0 && l[0] == c) || (|l| > 1 && l[1] == c)
  }

  /** The callbacks of a sweep do nothing to the check list entry of c. */
  predicate LeavesAlone(script: seq<seq<Op>>, c: nat) {
    forall k :: 0 <= k < |script| ==> NoneConcerns(script[k], c)
  }

  ghost predicate AlwaysThinks(s: State, b: nat, c: nat)
    requires Inv(s) && b < |s.lists|
  {
    forall script :: LeavesAlone(script, c) ==> c in Swept(s, b, script).1
  }

  // ---------------------------------------------------------------- the head of the list

  ghost predicate SameChecks(s: State, s': State) {
    s'.creatures.Keys == s.creatures.Keys && forall c :: Active(s', c) <==> Active(s, c)
  }

  lemma {:induction false} LedSame(s: State, s': State, l: seq<nat>)
    requires SameChecks(s, s')
    ensures Led(s, l) == Led(s', l)
    decreases |l|
  {
    if l != [] && !Active(s, l[0]) {
      LedSame(s, s', Beheaded(l));
    }
  }

  /** Every sweep of a list starts like one of the list that is led by an active creature. */
  lemma {:induction false} LedState(s: State, b: nat) returns (t: State)
    requires Inv(s) && b < |s.lists|
    ensures Inv(t) && |t.lists| == |s.lists| && SameChecks(s, t)
    ensures t.lists[b] == Led(s, s.lists[b]) && (t.lists[b] == [] || Active(t, t.lists[b][0]))
    ensures forall script :: Swept(s, b, script) == Swept(t, b, script)
    decreases |s.lists[b]|
  {
    var l := s.lists[b];
    if l == [] || Active(s, l[0]) {
      t := s;
    } else {
      Present(s, b, 0);
      DroppedInv(s, b, 0);
      var s' := Dropped(s, b, 0);
      LedSame(s, s', Beheaded(l));
      t := LedState(s', b);
      forall script ensures Swept(s, b, script) == Swept(t, b, script) {
        SweepDrops(s, b, 0, |l|, script);
        assert Swept(s', b, script) == Swept(t, b, script);
      }
    }
  }

  // ---------------------------------------------------------------- the first two think

  lemma KeepsCheck(s: State, op: Op, c: nat)
    requires Inv(s) && Legal(s, op) && c in s.creatures && !Concerns(op, c)
    ensures c in Perform(s, op).creatures && Perform(s, op).creatures[c].creatureCheck == s.creatures[c].creatureCheck
  {
    if op.Cleanup? {
      CleanupFacts(s);
    }
  }

  lemma {:induction false} StaysActive(s: State, ops: seq<Op>, c: nat)
    requires Inv(s) && Active(s, c) && NoneConcerns(ops, c)
    ensures Active(PerformAll(s, ops), c)
    decreases |ops|
  {
    if ops != [] {
      if Legal(s, ops[0]) {
        PerformInv(s, ops[0]);
        KeepsCheck(s, ops[0], c);
        StaysActive(Perform(s, ops[0]), ops[1..], c);
      } else {
        StaysActive(s, ops[1..], c);
      }
    }
  }

  lemma FirstTwoThink(s: State, b: nat, script: seq<seq<Op>>, c: nat)
    requires Inv(s) && b < |s.lists| && s.lists[b] != [] && Active(s, s.lists[b][0])
    requires Active(s, c) && FirstTwo(s.lists[b], c) && LeavesAlone(script, c)
    ensures c in Swept(s, b, script).1
  {
    var l := s.lists[b];
    SweepThinks(s, b, 0, |l|, script);
    if l[0] != c {
      var ops := First(script);
      var s' := PerformAll(s, ops);
      PerformAllInv(s, ops);
      StaysActive(s, ops, c);
      assert s'.lists[b][1] == c;
      SweepThinks(s', b, 1, |l|, Rest(script));
    }
  }

  // ---------------------------------------------------------------- every other can be overtaken

  /** k new creatures are put into list b and deactivated again. */
  function Crowd(m: nat, k: nat, b: nat): seq<Op>
    decreases k
  {
    if k == 0 then [] else [Create(m)] + ([AddCheck(m, b)] + ([RemoveCheck(m)] + Crowd(m + 1, k - 1, b)))
  }

  lemma {:induction false} CrowdLeavesAlone(m: nat, k: nat, b: nat, c: nat)
    requires c < m
    ensures NoneConcerns(Crowd(m, k, b), c)
    decreases k
  {
    if k > 0 {
      CrowdLeavesAlone(m + 1, k - 1, b, c);
    }
  }

  predicate Below(s: State, m: nat) {
    forall c <- s.creatures :: c < m
  }

  lemma {:induction false} Bounded(ids: set<nat>) returns (m: nat)
    ensures forall c <- ids :: c < m
  {
    if ids == {} {
      m := 0;
    } else {
      var c :| c in ids;
      var rest := ids - {c};
      m := Bounded(rest);
      assert ids == rest + {c};
      m := if m <= c then c + 1 else m;
    }
  }

  lemma PerformFirst(s: State, op: Op, ops: seq<Op>)
    requires Legal(s, op)
    ensures PerformAll(s, [op] + ops) == PerformAll(Perform(s, op), ops)
  {
    assert ([op] + ops)[1..] == ops;
  }

  /** Whether the tail of list b has k creatures more, all of them inactive, and nothing else has changed. */
  ghost predicate Crowded(s: State, s': State, b: nat, k: nat)
    requires b < |s.lists|
  {
    && |s'.lists| == |s.lists| && |s'.lists[b]| == |s.lists[b]| + k && s.lists[b] <= s'.lists[b]
    && (forall c <- s.creatures :: c in s'.creatures && s'.creatures[c] == s.creatures[c])
    && forall i :: |s.lists[b]| <= i < |s'.lists[b]| ==> !Active(s', s'.lists[b][i])
  }

  /** One new creature. */
  function Joined(s: State, b: nat, m: nat): State
    requires b < |s.lists|
  {
    Set(s, m, Creature(1, false, false, false, true, false, 0)).(lists := s.lists[b := s.lists[b] + [m]])
  }

  lemma JoinedIs(s: State, b: nat, m: nat, ops: seq<Op>)
    requires Inv(s) && b < |s.lists| && m !in s.creatures
    ensures Inv(Joined(s, b, m)) && Crowded(s, Joined(s, b, m), b, 1)
    ensures PerformAll(s, [Create(m)] + ([AddCheck(m, b)] + ([RemoveCheck(m)] + ops))) ==
            PerformAll(Joined(s, b, m), ops)
  {
    var s1 := Perform(s, Create(m));
    PerformInv(s, Create(m));
    PerformFirst(s, Create(m), [AddCheck(m, b)] + ([RemoveCheck(m)] + ops));
    var s2 := Perform(s1, AddCheck(m, b));
    PerformInv(s1, AddCheck(m, b));
    PerformFirst(s1, AddCheck(m, b), [RemoveCheck(m)] + ops);
    var s3 := Perform(s2, RemoveCheck(m));
    PerformInv(s2, RemoveCheck(m));
    PerformFirst(s2, RemoveCheck(m), ops);
    assert s3.creatures == Joined(s, b, m).creatures;
  }

  lemma {:induction false} CrowdComes(s: State, b: nat, m: nat, k: nat)
    requires Inv(s) && b < |s.lists| && Below(s, m)
    ensures Crowded(s, PerformAll(s, Crowd(m, k, b)), b, k)
    decreases k
  {
    if k > 0 {
      JoinedIs(s, b, m, Crowd(m + 1, k - 1, b));
      var s1 := Joined(s, b, m);
      CrowdComes(s1, b, m + 1, k - 1);
      CrowdedTwice(s, s1, PerformAll(s1, Crowd(m + 1, k - 1, b)), b, m, k - 1);
    }
  }

  lemma CrowdedTwice(s: State, s1: State, s': State, b: nat, m: nat, k: nat)
    requires b < |s.lists| && Crowded(s, s1, b, 1) && Crowded(s1, s', b, k)
    requires s1 == Joined(s, b, m)
    ensures Crowded(s, s', b, k + 1)
  {
    var n := |s.lists[b]|;
    assert s1.lists[b][n] == m && s'.lists[b][n] == m && !Active(s1, m);
    forall i | n <= i < |s'.lists[b]| ensures !Active(s', s'.lists[b][i]) {
      if i > n {
        assert |s1.lists[b]| <= i;
      }
    }
  }

  /** From position one on all are dropped, if those that take the places of the dropped ones are inactive, too. */
  lemma {:induction false} AllDropped(s: State, b: nat, end: nat)
    requires Inv(s) && b < |s.lists| && 1 <= end <= |s.lists[b]| && (end > 1 ==> !Active(s, s.lists[b][1]))
    requires forall i :: |s.lists[b]| - end < i < |s.lists[b]| ==> !Active(s, s.lists[b][i])
    ensures SweepFrom(s, b, 1, end, []).1 == []
    decreases end
  {
    if end == 1 {
      SweepEnds(s, b, 1, []);
    } else {
      Present(s, b, 1);
      SweepDrops(s, b, 1, end, []);
      var s' := Dropped(s, b, 1);
      DroppedTail(s, b, end);
      AllDropped(s', b, end - 1);
    }
  }

  lemma DroppedTail(s: State, b: nat, end: nat)
    requires Inv(s) && b < |s.lists| && 2 <= end <= |s.lists[b]| && s.lists[b][1] in s.creatures
    requires forall i :: |s.lists[b]| - end < i < |s.lists[b]| ==> !Active(s, s.lists[b][i])
    ensures var s' := Dropped(s, b, 1);
            && (end > 2 ==> !Active(s', s'.lists[b][1]))
            && forall i :: |s'.lists[b]| - (end - 1) < i < |s'.lists[b]| ==> !Active(s', s'.lists[b][i])
  {
    var l, s' := s.lists[b], Dropped(s, b, 1);
    var l' := s'.lists[b];
    assert forall i :: 0 <= i < |l'| ==> l'[i] == if i == 1 then l[|l| - 1] else l[i];
    assert forall c :: Active(s', c) <==> Active(s, c);
  }

  /**
   * A creature that is not among the first two: the callback of the first deactivates the second and brings a crowd.
   */
  lemma Overtaken(s: State, b: nat, c: nat) returns (script: seq<seq<Op>>)
    requires Inv(s) && b < |s.lists| && c in s.creatures && (s.lists[b] == [] || Active(s, s.lists[b][0]))
    requires !FirstTwo(s.lists[b], c)
    ensures LeavesAlone(script, c) && c !in Swept(s, b, script).1
  {
    var l := s.lists[b];
    if c !in l {
      script := [];
      ThinksIffActive(s, b, [], c);
    } else {
      var m := Bounded(s.creatures.Keys);
      var ops := [RemoveCheck(l[1])] + Crowd(m, |l|, b);
      script := [ops];
      CrowdLeavesAlone(m, |l|, b, c);
      assert First(script) == ops && Rest(script) == [];
      SweepThinks(s, b, 0, |l|, script);
      CrowdTakesTurns(s, b, m);
    }
  }

  lemma CrowdTakesTurns(s: State, b: nat, m: nat)
    requires Inv(s) && b < |s.lists| && |s.lists[b]| > 1 && Below(s, m)
    ensures var l := s.lists[b];
            var s' := PerformAll(s, [RemoveCheck(l[1])] + Crowd(m, |l|, b));
            Inv(s') && b < |s'.lists| && |l| <= |s'.lists[b]| && SweepFrom(s', b, 1, |l|, []).1 == []
  {
    var l := s.lists[b];
    var d := l[1];
    InList(s, b, 1);
    PerformInv(s, RemoveCheck(d));
    PerformFirst(s, RemoveCheck(d), Crowd(m, |l|, b));
    var s1 := Perform(s, RemoveCheck(d));
    assert s1.lists == s.lists && !Active(s1, d);
    CrowdComes(s1, b, m, |l|);
    PerformAllInv(s1, Crowd(m, |l|, b));
    var s' := PerformAll(s1, Crowd(m, |l|, b));
    assert s'.lists[b][1] == d && !Active(s', d);
    AllDropped(s', b, |l|);
  }

  // ---------------------------------------------------------------- the theorem

  /**
   * Whatever the callbacks do that leave a creature alone, it thinks in the sweep if and only if it is active and, once
   * the inactive creatures at the head of its list are dropped, it is the first of the list or the second.
   */
  lemma TurnIsSureIff(s: State, b: nat, c: nat)
    requires Inv(s) && b < |s.lists| && c in s.creatures
    ensures AlwaysThinks(s, b, c) <==> Active(s, c) && FirstTwo(Led(s, s.lists[b]), c)
  {
    var t := LedState(s, b);
    if !Active(s, c) {
      ThinksIffActive(s, b, [], c);
      assert LeavesAlone([], c);
    } else if FirstTwo(t.lists[b], c) {
      forall script | LeavesAlone(script, c) ensures c in Swept(s, b, script).1 {
        FirstTwoThink(t, b, script, c);
        assert Swept(s, b, script) == Swept(t, b, script);
      }
    } else {
      var script := Overtaken(t, b, c);
      assert Swept(s, b, script) == Swept(t, b, script);
    }
  }
}
