/** Choosing and removing the items of a market offer (game.cpp, getMarketItemList and playerCreateMarketOffer). */
module Market {
  import opened Common

  /**
   * An item in a depot. standard says of a container whether its type is one and it has the capacity
   * of its type; marketable is the answer of hasMarketAttributes.
   */
  datatype Item = Item(id: nat, wareId: nat, count: Byte, marketable: bool, container: bool, standard: bool,
    kids: seq<Item>)

  /** A container that holds something is searched and not offered itself. */
  predicate Searched(x: Item) {
    x.container && x.kids != []
  }

  predicate Eligible(x: Item, ware: nat) {
    !Searched(x) && x.wareId == ware && (x.container ==> x.standard) && x.marketable
  }

  // ---------------------------------------------------------------- what is there

  /** The eligible items at any depth. */
  function Wares(items: seq<Item>, ware: nat): seq<Item>
    decreases items
  {
    if items == [] then []
    else
      (if Searched(items[0]) then Wares(items[0].kids, ware) else if Eligible(items[0], ware) then [items[0]] else []) +
      Wares(items[1..], ware)
  }

  function Sum(items: seq<Item>): nat {
    if items == [] then 0 else items[0].count + Sum(items[1..])
  }

  /** What the containers that wait to be searched hold. */
  function Waiting(queue: seq<seq<Item>>, ware: nat): seq<Item> {
    if queue == [] then [] else Wares(queue[0], ware) + Waiting(queue[1..], ware)
  }

  function Weight(items: seq<Item>): nat
    decreases items
  {
    if items == [] then 0 else 1 + Weight(items[0].kids) + Weight(items[1..])
  }

  function QueueWeight(queue: seq<seq<Item>>): nat {
    if queue == [] then 0 else 1 + Weight(queue[0]) + QueueWeight(queue[1..])
  }

  lemma {:induction false} SumConcat(a: seq<Item>, b: seq<Item>)
    ensures Sum(a + b) == Sum(a) + Sum(b)
  {
    if a == [] {
      assert a + b == b;
    } else {
      assert (a + b)[1..] == a[1..] + b;
      SumConcat(a[1..], b);
    }
  }

  lemma {:induction false} WaitingConcat(a: seq<seq<Item>>, b: seq<Item>, ware: nat)
    ensures Waiting(a + [b], ware) == Waiting(a, ware) + Wares(b, ware)
    ensures QueueWeight(a + [b]) == QueueWeight(a) + 1 + Weight(b)
  {
    if a == [] {
      assert a + [b] == [b] && [b][1..] == [];
      assert Waiting([b], ware) == Wares(b, ware) + Waiting([], ware);
    } else {
      WaitingConcat(a[1..], b, ware);
      TailOf(a, b);
      Assoc(Wares(a[0], ware), Waiting(a[1..], ware), Wares(b, ware));
    }
  }

  lemma TailOf(a: seq<seq<Item>>, b: seq<Item>)
    requires a != []
    ensures a + [b] != [] && (a + [b])[0] == a[0] && (a + [b])[1..] == a[1..] + [b]
  {
  }

  lemma Assoc(a: seq<Item>, b: seq<Item>, c: seq<Item>)
    ensures a + (b + c) == a + b + c
  {
  }

  /** All wares are chosen, or still ahead in the container at hand, or in one that waits. */
  ghost predicate Accounted(chosen: seq<Item>, todo: seq<Item>, queue: seq<seq<Item>>, all: seq<Item>, ware: nat) {
    && multiset(chosen) + multiset(Wares(todo, ware)) + multiset(Waiting(queue, ware)) == multiset(all)
    && Sum(chosen) + Sum(Wares(todo, ware)) + Sum(Waiting(queue, ware)) == Sum(all)
  }

  lemma NextContainer(chosen: seq<Item>, queue: seq<seq<Item>>, all: seq<Item>, ware: nat)
    requires queue != [] && Accounted(chosen, [], queue, all, ware)
    ensures Accounted(chosen, queue[0], queue[1..], all, ware)
  {
    SumConcat(Wares(queue[0], ware), Waiting(queue[1..], ware));
    assert multiset(Waiting(queue, ware)) == multiset(Wares(queue[0], ware)) + multiset(Waiting(queue[1..], ware));
  }

  lemma NextSearched(chosen: seq<Item>, todo: seq<Item>, queue: seq<seq<Item>>, all: seq<Item>, ware: nat)
    requires todo != [] && Searched(todo[0]) && Accounted(chosen, todo, queue, all, ware)
    ensures Accounted(chosen, todo[1..], queue + [todo[0].kids], all, ware)
  {
    var kids, rest := Wares(todo[0].kids, ware), Wares(todo[1..], ware);
    assert Wares(todo, ware) == kids + rest;
    WaitingConcat(queue, todo[0].kids, ware);
    SumConcat(Waiting(queue, ware), kids);
    SumConcat(kids, rest);
    Bags(kids, rest);
    Bags(Waiting(queue, ware), kids);
  }

  lemma NextEligible(chosen: seq<Item>, todo: seq<Item>, queue: seq<seq<Item>>, all: seq<Item>, ware: nat)
    requires todo != [] && Eligible(todo[0], ware) && Accounted(chosen, todo, queue, all, ware)
    ensures Accounted([todo[0]] + chosen, todo[1..], queue, all, ware)
    ensures Sum([todo[0]] + chosen) == todo[0].count + Sum(chosen)
  {
    var x, rest := todo[0], Wares(todo[1..], ware);
    assert Wares(todo, ware) == [x] + rest;
    assert ([x] + chosen)[1..] == chosen && ([x] + rest)[1..] == rest;
    Bags([x], rest);
    Bags([x], chosen);
  }

  lemma NextOther(chosen: seq<Item>, todo: seq<Item>, queue: seq<seq<Item>>, all: seq<Item>, ware: nat)
    requires todo != [] && !Searched(todo[0]) && !Eligible(todo[0], ware) && Accounted(chosen, todo, queue, all, ware)
    ensures Accounted(chosen, todo[1..], queue, all, ware)
  {
    assert Wares(todo, ware) == [] + Wares(todo[1..], ware) == Wares(todo[1..], ware);
  }

  lemma Bags(a: seq<Item>, b: seq<Item>)
    ensures multiset(a + b) == multiset(a) + multiset(b)
  {
  }

  lemma WeightAt(items: seq<Item>, i: nat)
    requires i < |items|
    ensures Weight(items[i..]) == 1 + Weight(items[i].kids) + Weight(items[i + 1..])
  {
    assert items[i..][0] == items[i] && items[i..][1..] == items[i + 1..];
  }

  // ---------------------------------------------------------------- choosing

  /** The largest amount for which a sum of stacks that reaches it fits 16 bits. */
  const LIMIT := 0x1_0000 - 0xFF

  /** Fewer than the amount, or nothing at all: an amount of zero is reached only by a ware. */
  predicate Short(items: seq<Item>, amount: nat) {
    items == [] || Sum(items) < amount
  }

  /**
   * getMarketItemList returns nothing exactly if there are no wares or fewer than the amount; otherwise it
   * returns wares of the depot, each once, that reach the amount, and without the last one found they would
   * not. So for an amount of zero it returns a single ware. The 16-bit counter does not wrap.
   */
  method GetMarketItemList(ware: nat, sufficientCount: nat, locker: seq<Item>) returns (itemList: seq<Item>)
    requires sufficientCount <= LIMIT
    ensures itemList == [] <==> Short(Wares(locker, ware), sufficientCount)
    ensures multiset(itemList) <= multiset(Wares(locker, ware))
    ensures itemList != [] ==> Sum(itemList) >= sufficientCount && Short(itemList[1..], sufficientCount)
  {
    itemList := [];
    var count := 0;
    var containers := [locker];
    ghost var all := Wares(locker, ware);
    assert Waiting([locker], ware) == Wares(locker, ware) + Waiting([locker][1..], ware);
    assert Wares(locker, ware) + [] == Wares(locker, ware);
    while containers != []
      invariant Accounted(itemList, [], containers, all, ware)
      invariant count == Sum(itemList) && Short(itemList, sufficientCount)
      decreases QueueWeight(containers)
    {
      var container := containers[0];
      NextContainer(itemList, containers, all, ware);
      containers := containers[1..];
      var found;
      found, itemList, count, containers := Search(container, ware, sufficientCount, itemList, count, containers, all);
      if found {
        return;
      }
    }
    AllShort(itemList, all, sufficientCount, ware);
    itemList := [];
  }

  lemma AllShort(chosen: seq<Item>, all: seq<Item>, amount: nat, ware: nat)
    requires Accounted(chosen, [], [], all, ware) && Short(chosen, amount)
    ensures Short(all, amount)
  {
    if chosen == [] {
      assert |all| == |multiset(all)| == 0;
    }
  }

  /** A search that has not found enough yet, with the wares and the containers that are still ahead. */
  ghost predicate Searching(
      chosen: seq<Item>, count: nat, todo: seq<Item>, queue: seq<seq<Item>>, all: seq<Item>, ware: nat, amount: nat,
      bound: nat)
  {
    && Accounted(chosen, todo, queue, all, ware)
    && count == Sum(chosen) && Short(chosen, amount) && amount <= LIMIT
    && Weight(todo) + QueueWeight(queue) <= bound
  }

  lemma StepSearched(
      chosen: seq<Item>, count: nat, container: seq<Item>, i: nat, queue: seq<seq<Item>>, all: seq<Item>, ware: nat,
      amount: nat, bound: nat)
    requires i < |container| && Searched(container[i])
             && Searching(chosen, count, container[i..], queue, all, ware, amount, bound)
    ensures Searching(chosen, count, container[i + 1..], queue + [container[i].kids], all, ware, amount, bound)
  {
    assert container[i..][0] == container[i] && container[i..][1..] == container[i + 1..];
    NextSearched(chosen, container[i..], queue, all, ware);
    WaitingConcat(queue, container[i].kids, ware);
    WeightAt(container, i);
  }

  lemma StepOther(
      chosen: seq<Item>, count: nat, container: seq<Item>, i: nat, queue: seq<seq<Item>>, all: seq<Item>, ware: nat,
      amount: nat, bound: nat)
    requires i < |container| && !Searched(container[i]) && !Eligible(container[i], ware)
    requires Searching(chosen, count, container[i..], queue, all, ware, amount, bound)
    ensures Searching(chosen, count, container[i + 1..], queue, all, ware, amount, bound)
  {
    assert container[i..][0] == container[i] && container[i..][1..] == container[i + 1..];
    NextOther(chosen, container[i..], queue, all, ware);
    WeightAt(container, i);
  }

  lemma StepEligible(
      chosen: seq<Item>, count: nat, container: seq<Item>, i: nat, queue: seq<seq<Item>>, all: seq<Item>, ware: nat,
      amount: nat, bound: nat, more: seq<Item>, total: nat)
    requires i < |container| && Eligible(container[i], ware)
             && Searching(chosen, count, container[i..], queue, all, ware, amount, bound)
    requires more == [container[i]] + chosen && total == (count + container[i].count) % 0x1_0000
    ensures total >= amount ==> Reached(more, all, amount)
    ensures total < amount ==> Searching(more, total, container[i + 1..], queue, all, ware, amount, bound)
  {
    EligibleNext(chosen, container, i, queue, all, ware, more);
    if total >= amount {
      EnoughReached(more, chosen, container[i + 1..], queue, all, ware, amount);
    } else {
      WeightAt(container, i);
    }
  }

  lemma EligibleNext(
      chosen: seq<Item>, container: seq<Item>, i: nat, queue: seq<seq<Item>>, all: seq<Item>, ware: nat,
      more: seq<Item>)
    requires i < |container| && Eligible(container[i], ware) && Accounted(chosen, container[i..], queue, all, ware)
    requires more == [container[i]] + chosen
    ensures more != [] && more[1..] == chosen && Sum(more) == container[i].count + Sum(chosen)
    ensures Accounted(more, container[i + 1..], queue, all, ware)
  {
    assert container[i..][0] == container[i] && container[i..][1..] == container[i + 1..];
    NextEligible(chosen, container[i..], queue, all, ware);
  }

  lemma EnoughReached(
      more: seq<Item>, chosen: seq<Item>, todo: seq<Item>, queue: seq<seq<Item>>, all: seq<Item>, ware: nat,
      amount: nat)
    requires Accounted(more, todo, queue, all, ware) && more != [] && more[1..] == chosen
    requires Sum(more) >= amount && Short(chosen, amount)
    ensures Reached(more, all, amount)
  {
    Enough(more, todo, queue, all, ware);
  }

  /** The wares that were found reach the amount, and without the last of them they do not. */
  ghost predicate Reached(chosen: seq<Item>, all: seq<Item>, amount: nat) {
    && !Short(all, amount) && multiset(chosen) <= multiset(all)
    && chosen != [] && Sum(chosen) >= amount && Short(chosen[1..], amount)
  }

  /** The loop over the items of one container. */
  method Search(
      container: seq<Item>, ware: nat, sufficientCount: nat, chosen: seq<Item>, counted: nat, waiting: seq<seq<Item>>,
      ghost all: seq<Item>)
    returns (found: bool, itemList: seq<Item>, count: nat, containers: seq<seq<Item>>)
    requires sufficientCount <= LIMIT && counted == Sum(chosen) && Short(chosen, sufficientCount)
    requires Accounted(chosen, container, waiting, all, ware)
    ensures !found ==> Searching(itemList, count, [], containers, all, ware, sufficientCount,
            Weight(container) + QueueWeight(waiting))
    ensures found ==> Reached(itemList, all, sufficientCount)
  {
    found, itemList, count, containers := false, chosen, counted, waiting;
    ghost var bound := Weight(container) + QueueWeight(waiting);
    assert container[0..] == container;
    for i := 0 to |container|
      invariant !found && Searching(itemList, count, container[i..], containers, all, ware, sufficientCount, bound)
    {
      found, itemList, count, containers :=
        Look(container, i, ware, sufficientCount, itemList, count, containers, all, bound);
      if found {
        return;
      }
    }
    assert container[|container|..] == [];
  }

  /** The body of that loop; only a ware that is added can be the last one. */
  method Look(
      container: seq<Item>, i: nat, ware: nat, sufficientCount: nat, chosen: seq<Item>, counted: nat,
      waiting: seq<seq<Item>>, ghost all: seq<Item>, ghost bound: nat)
    returns (found: bool, itemList: seq<Item>, count: nat, containers: seq<seq<Item>>)
    requires i < |container| && Searching(chosen, counted, container[i..], waiting, all, ware, sufficientCount, bound)
    ensures found ==> Reached(itemList, all, sufficientCount)
    ensures !found ==> Searching(itemList, count, container[i + 1..], containers, all, ware, sufficientCount, bound)
  {
    found, itemList, count, containers := false, chosen, counted, waiting;
    var item := container[i];
    if item.container && item.kids != [] {
      StepSearched(chosen, counted, container, i, waiting, all, ware, sufficientCount, bound);
      containers := containers + [item.kids];
      return;
    }
    if item.wareId != ware || (item.container && !item.standard) || !item.marketable {
      StepOther(chosen, counted, container, i, waiting, all, ware, sufficientCount, bound);
      return;
    }
    assert Eligible(item, ware);
    itemList := [item] + itemList;
    count := (count + item.count) % 0x1_0000;
    StepEligible(chosen, counted, container, i, waiting, all, ware, sufficientCount, bound, itemList, count);
    found := count >= sufficientCount;
  }

  lemma Enough(chosen: seq<Item>, todo: seq<Item>, queue: seq<seq<Item>>, all: seq<Item>, ware: nat)
    requires Accounted(chosen, todo, queue, all, ware)
    ensures Sum(chosen) <= Sum(all) && multiset(chosen) <= multiset(all)
  {
  }

  // ---------------------------------------------------------------- removing

  /** How much is taken from each item of a list. */
  function Taken(items: seq<Item>, amount: nat): (r: seq<nat>)
    ensures |r| == |items|
  {
    if items == [] then []
    else
      var n := if amount < items[0].count then amount else items[0].count;
      [n] + Taken(items[1..], amount - n)
  }

  function Total(ns: seq<nat>): nat {
    if ns == [] then 0 else ns[0] + Total(ns[1..])
  }

  /** From a list that reaches the amount exactly the amount is taken, and never more than an item has. */
  lemma {:induction false} TakenExact(items: seq<Item>, amount: nat)
    ensures Total(Taken(items, amount)) == if Sum(items) < amount then Sum(items) else amount
    ensures forall i :: 0 <= i < |items| ==> Taken(items, amount)[i] <= items[i].count
  {
    if items != [] {
      var n := if amount < items[0].count then amount else items[0].count;
      TakenExact(items[1..], amount - n);
      assert Taken(items, amount)[1..] == Taken(items[1..], amount - n);
    }
  }

  lemma {:induction false} Singles(items: seq<Item>)
    requires forall i :: 0 <= i < |items| ==> items[i].count == 1
    ensures Sum(items) == |items|
  {
    if items != [] {
      Singles(items[1..]);
    }
  }

  /** The loop that removes the chosen items: stacks in part, other items whole. */
  method RemoveListed(items: seq<Item>, stackable: bool, amount: nat) returns (removed: seq<nat>)
    ensures removed == if stackable then Taken(items, amount) else Whole(items)
  {
    removed := [];
    var tmpAmount: nat := amount;
    ghost var all, rest := Rest(items, 0, stackable, amount), Rest(items, 0, stackable, amount);
    RestStarts(items, stackable, amount);
    for i := 0 to |items|
      invariant Joined(removed, rest, all) && rest == Rest(items, i, stackable, tmpAmount)
    {
      RestStep(items, i, stackable, tmpAmount);
      var n := items[i].count;
      if stackable {
        var removeCount := if tmpAmount < items[i].count then tmpAmount else items[i].count;
        tmpAmount := tmpAmount - removeCount;
        n := removeCount;
      }
      JoinNext(removed, n, Rest(items, i + 1, stackable, tmpAmount), all);
      removed, rest := removed + [n], Rest(items, i + 1, stackable, tmpAmount);
    }
    RestEnds(items, stackable, tmpAmount);
    JoinEnds(removed, all);
  }

  /** What was removed, followed by what is still to be removed, is what the whole list gives. */
  ghost predicate Joined(removed: seq<nat>, rest: seq<nat>, all: seq<nat>) {
    removed + rest == all
  }

  lemma JoinNext(removed: seq<nat>, n: nat, rest: seq<nat>, all: seq<nat>)
    requires Joined(removed, [n] + rest, all)
    ensures Joined(removed + [n], rest, all)
  {
    assert removed + ([n] + rest) == removed + [n] + rest;
  }

  lemma JoinEnds(removed: seq<nat>, all: seq<nat>)
    requires Joined(removed, [], all)
    ensures removed == all
  {
    assert removed + [] == removed;
  }

  /** What the items from position i on give. */
  function Rest(items: seq<Item>, i: nat, stackable: bool, amount: nat): seq<nat>
    requires i <= |items|
  {
    if stackable then Taken(items[i..], amount) else Whole(items[i..])
  }

  lemma RestStarts(items: seq<Item>, stackable: bool, amount: nat)
    ensures Rest(items, 0, stackable, amount) == if stackable then Taken(items, amount) else Whole(items)
    ensures Joined([], Rest(items, 0, stackable, amount), Rest(items, 0, stackable, amount))
  {
    assert items[0..] == items;
    assert [] + Rest(items, 0, stackable, amount) == Rest(items, 0, stackable, amount);
  }

  lemma RestStep(items: seq<Item>, i: nat, stackable: bool, left: nat)
    requires i < |items|
    ensures var n := if !stackable then items[i].count else if left < items[i].count then left else items[i].count;
            Rest(items, i, stackable, left) == [n] + Rest(items, i + 1, stackable, if stackable then left - n else left)
  {
    assert items[i..][0] == items[i] && items[i..][1..] == items[i + 1..];
  }

  lemma RestEnds(items: seq<Item>, stackable: bool, left: nat)
    ensures Rest(items, |items|, stackable, left) == []
  {
    assert items[|items|..] == [];
  }

  function Whole(items: seq<Item>): seq<nat> {
    if items == [] then [] else [items[0].count] + Whole(items[1..])
  }

  lemma {:induction false} WholeTotal(items: seq<Item>)
    ensures Total(Whole(items)) == Sum(items)
  {
    if items != [] {
      WholeTotal(items[1..]);
      assert Whole(items)[1..] == Whole(items[1..]);
    }
  }

  /**
   * Choosing and removing together: the amount leaves the depot, no more and no less, or nothing does; but for
   * an amount of zero of a ware that does not stack one leaves, if there is one.
   */
  method TakeOffered(ware: nat, stackable: bool, amount: nat, locker: seq<Item>)
    returns (ok: bool, chosen: seq<Item>, removed: seq<nat>)
    requires amount <= LIMIT
    requires !stackable ==> forall x <- Wares(locker, ware) :: x.count == 1
    ensures ok <==> amount <= Sum(Wares(locker, ware))
    ensures |removed| == |chosen| && multiset(chosen) <= multiset(Wares(locker, ware))
    ensures forall i :: 0 <= i < |chosen| ==> removed[i] <= chosen[i].count
    ensures Total(removed) ==
            if !ok then 0 else if amount == 0 && !stackable && Wares(locker, ware) != [] then 1 else amount
  {
    chosen := GetMarketItemList(ware, amount, locker);
    ok, removed := chosen != [] || amount == 0, [];
    if !ok {
      return;
    }
    removed := RemoveListed(chosen, stackable, amount);
    if stackable {
      TakenExact(chosen, amount);
    } else {
      forall i | 0 <= i < |chosen| ensures chosen[i].count == 1 {
        assert chosen[i] in multiset(chosen);
        assert chosen[i] in multiset(Wares(locker, ware));
      }
      WholeTotal(chosen);
      WholeAt(chosen);
      Singles(chosen);
      if chosen != [] {
        Singles(chosen[1..]);
      }
    }
  }

  lemma {:induction false} WholeAt(items: seq<Item>)
    ensures |Whole(items)| == |items| && forall i :: 0 <= i < |items| ==> Whole(items)[i] == items[i].count
  {
    if items != [] {
      WholeAt(items[1..]);
    }
  }
}
