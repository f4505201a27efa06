/** Trade between two players (game.cpp): request, accept and close. */
module Trade {
  import opened Common

  datatype TradeState = NONE | INITIATED | ACCEPT | ACKNOWLEDGE | TRANSFER

  /** The trade fields of a player. */
  datatype Player = Player(tradeState: TradeState, tradePartner: Option<nat>, tradeItem: Option<nat>)

  const IDLE := Player(NONE, None, None)

  type Players = map<nat, Player>

  /** Which item holds which, at any depth; it does not change while items are offered. */
  type Holding = set<(nat, nat)>

  // ---------------------------------------------------------------- the invariant

  predicate Mutual(ps: Players, p: nat, q: nat) {
    q in ps && q != p && ps[q].tradePartner == Some(p)
  }

  predicate SomeOffer(ps: Players, p: nat, q: nat)
    requires p in ps && q in ps
  {
    ps[p].tradeItem.Some? || ps[q].tradeItem.Some?
  }

  /** The state of one player agrees with its partner and its offer. */
  predicate Sane(ps: Players, p: nat)
    requires p in ps
  {
    var x := ps[p];
    && x.tradeState != TRANSFER
    && (x.tradeState == NONE <==> x.tradePartner == None)
    && (x.tradePartner.Some? ==> Mutual(ps, p, x.tradePartner.value) && SomeOffer(ps, p, x.tradePartner.value))
    && (x.tradeState == NONE || x.tradeState == ACKNOWLEDGE ==> x.tradeItem == None)
    && (x.tradeState == INITIATED ==> x.tradeItem.Some?)
  }

  predicate Offers(ps: Players, p: nat, item: nat) {
    p in ps && ps[p].tradeItem == Some(item)
  }

  predicate Apart(h: Holding, i: nat, j: nat) {
    (i, j) !in h && (j, i) !in h
  }

  /** The table of offered items lists exactly the offers, and no offered item holds another one. */
  predicate Listed(ps: Players, items: map<nat, nat>, h: Holding) {
    && (forall i <- items :: Offers(ps, items[i], i))
    && (forall p <- ps :: ps[p].tradeItem.Some? ==> ps[p].tradeItem.value in items && items[ps[p].tradeItem.value] == p)
    && (forall i, j :: i in items && j in items && i != j ==> Apart(h, i, j))
  }

  predicate Inv(ps: Players, items: map<nat, nat>, h: Holding) {
    (forall p <- ps :: Sane(ps, p)) && Listed(ps, items, h)
  }

  /** Whether an item may be offered beside those that are. */
  predicate Offerable(items: map<nat, nat>, h: Holding, item: nat) {
    item !in items && forall i <- items :: Apart(h, item, i)
  }

  // ---------------------------------------------------------------- the steps on the players

  predicate MayStart(ps: Players, p: nat, q: nat)
    requires p in ps && q in ps
  {
    && (ps[p].tradeState == NONE || (ps[p].tradeState == ACKNOWLEDGE && ps[p].tradePartner == Some(q)))
    && (ps[q].tradeState == NONE || ps[q].tradePartner == Some(p))
  }

  function Started(ps: Players, p: nat, q: nat, item: nat): Players
    requires p in ps && q in ps
  {
    var ps' := ps[p := Player(INITIATED, Some(q), Some(item))];
    if ps'[q].tradeState == NONE then ps'[q := Player(ACKNOWLEDGE, Some(p), ps'[q].tradeItem)] else ps'
  }

  function Without(items: map<nat, nat>, item: Option<nat>): map<nat, nat> {
    if item.Some? then items - {item.value} else items
  }

  /** Both players are idle again and their offers are off the table. */
  function Closed(ps: Players, p: nat): Players
    requires p in ps && (ps[p].tradePartner.Some? ==> ps[p].tradePartner.value in ps)
  {
    var q := ps[p].tradePartner;
    if q.Some? then ps[p := IDLE][q.value := IDLE] else ps[p := IDLE]
  }

  function Unlisted(ps: Players, items: map<nat, nat>, p: nat): map<nat, nat>
    requires p in ps && (ps[p].tradePartner.Some? ==> ps[p].tradePartner.value in ps)
  {
    var rest := Without(items, ps[p].tradeItem);
    if ps[p].tradePartner.Some? then Without(rest, ps[ps[p].tradePartner.value].tradeItem) else rest
  }

  // ---------------------------------------------------------------- what the steps keep

  lemma StartKeeps(ps: Players, items: map<nat, nat>, h: Holding, p: nat, q: nat, item: nat)
    requires Inv(ps, items, h) && p in ps && q in ps && p != q && MayStart(ps, p, q) && Offerable(items, h, item)
    ensures Inv(Started(ps, p, q, item), items[item := p], h)
  {
    var ps', items' := Started(ps, p, q, item), items[item := p];
    StartedSane(ps, p, q, item);
    forall i <- items' ensures Offers(ps', items'[i], i) {
      if i != item {
        assert Offers(ps, items[i], i);
      }
    }
    forall i, j | i in items' && j in items' && i != j ensures Apart(h, i, j) {
      if i != item && j != item {
        assert i in items && j in items;
      }
    }
  }

  lemma StartedSane(ps: Players, p: nat, q: nat, item: nat)
    requires (forall r <- ps :: Sane(ps, r)) && p in ps && q in ps && p != q && MayStart(ps, p, q)
    ensures forall r <- Started(ps, p, q, item) :: Sane(Started(ps, p, q, item), r)
    ensures ps[p].tradeItem == None && Started(ps, p, q, item)[q].tradeItem == ps[q].tradeItem
  {
    assert Sane(ps, p) && Sane(ps, q);
    forall r <- Started(ps, p, q, item) ensures Sane(Started(ps, p, q, item), r) {
      assert Sane(ps, r);
    }
  }

  lemma CloseKeeps(ps: Players, items: map<nat, nat>, h: Holding, p: nat)
    requires Inv(ps, items, h) && p in ps
    ensures ps[p].tradePartner.Some? ==> ps[p].tradePartner.value in ps
    ensures Inv(Closed(ps, p), Unlisted(ps, items, p), h)
  {
    assert Sane(ps, p);
    ClosedSane(ps, p);
    var ps', items' := Closed(ps, p), Unlisted(ps, items, p);
    forall i <- items' ensures Offers(ps', items'[i], i) {
      assert Offers(ps, items[i], i);
    }
  }

  lemma ClosedSane(ps: Players, p: nat)
    requires (forall r <- ps :: Sane(ps, r)) && p in ps && (ps[p].tradePartner.Some? ==> ps[p].tradePartner.value in ps)
    ensures forall r <- Closed(ps, p) :: Sane(Closed(ps, p), r)
  {
    assert Sane(ps, p);
    forall r <- Closed(ps, p) ensures Sane(Closed(ps, p), r) {
      assert Sane(ps, r);
      if ps[r].tradePartner.Some? {
        assert Sane(ps, ps[r].tradePartner.value);
      }
    }
  }

  lemma AcceptKeeps(ps: Players, items: map<nat, nat>, h: Holding, p: nat)
    requires Inv(ps, items, h) && p in ps && ps[p].tradeState in {INITIATED, ACKNOWLEDGE}
    ensures Inv(ps[p := ps[p].(tradeState := ACCEPT)], items, h)
  {
    var ps' := ps[p := ps[p].(tradeState := ACCEPT)];
    assert Sane(ps, p);
    forall r <- ps' ensures Sane(ps', r) {
      assert Sane(ps, r);
    }
    forall i <- items ensures Offers(ps', items[i], i) {
      assert Offers(ps, items[i], i);
    }
  }

  // ---------------------------------------------------------------- whole steps and runs

  datatype State = State(players: Players, tradeItems: map<nat, nat>)

  ghost predicate Safe(s: State, h: Holding) {
    Inv(s.players, s.tradeItems, h)
  }

  predicate Partnered(ps: Players, p: nat) {
    p in ps && (ps[p].tradePartner.Some? ==> ps[p].tradePartner.value in ps)
  }

  function CloseOne(s: State, p: nat): State {
    if Partnered(s.players, p) then State(Closed(s.players, p), Unlisted(s.players, s.tradeItems, p)) else s
  }

  function CloseAll(s: State, cs: seq<nat>): State {
    if cs == [] then s else CloseOne(CloseAll(s, cs[..|cs| - 1]), cs[|cs| - 1])
  }

  datatype Step =
    | Request(p: nat, q: nat, item: nat)
    | Accept(p: nat, reachable: bool, agreed: bool, closers: seq<nat>)
    | Close(p: nat)

  /** The state after a step. */
  function Do(s: State, step: Step, h: Holding): State {
    match step
    case Request(p, q, item) =>
      if p in s.players && q in s.players && p != q && Offerable(s.tradeItems, h, item) && MayStart(s.players, p, q)
      then State(Started(s.players, p, q, item), s.tradeItems[item := p])
      else s
    case Accept(p, reachable, agreed, closers) =>
      if !(p in s.players && s.players[p].tradeState in {INITIATED, ACKNOWLEDGE} && Partnered(s.players, p)
        && s.players[p].tradePartner.Some? && reachable) then s
      else if s.players[s.players[p].tradePartner.value].tradeState != ACCEPT then
        s.(players := s.players[p := s.players[p].(tradeState := ACCEPT)])
      else if !agreed then CloseOne(s, p)
      else CloseAll(CloseOne(s, p), closers)
    case Close(p) => CloseOne(s, p)
  }

  function DoAll(s: State, steps: seq<Step>, h: Holding): State
    decreases |steps|
  {
    if steps == [] then s else DoAll(Do(s, steps[0], h), steps[1..], h)
  }

  lemma CloseOneKeeps(s: State, p: nat, h: Holding)
    requires Safe(s, h)
    ensures Safe(CloseOne(s, p), h)
    ensures p in s.players ==> Partnered(s.players, p)
  {
    if p in s.players {
      CloseKeeps(s.players, s.tradeItems, h, p);
    }
  }

  lemma {:induction false} CloseAllKeeps(s: State, cs: seq<nat>, h: Holding)
    requires Safe(s, h)
    ensures Safe(CloseAll(s, cs), h)
  {
    if cs != [] {
      CloseAllKeeps(s, cs[..|cs| - 1], h);
      CloseOneKeeps(CloseAll(s, cs[..|cs| - 1]), cs[|cs| - 1], h);
    }
  }

  lemma DoKeeps(s: State, step: Step, h: Holding)
    requires Safe(s, h)
    ensures Safe(Do(s, step, h), h)
  {
    match step
    case Request(p, q, item) =>
      if p in s.players && q in s.players && p != q && Offerable(s.tradeItems, h, item) && MayStart(s.players, p, q) {
        StartKeeps(s.players, s.tradeItems, h, p, q, item);
      }
    case Accept(p, _, _, closers) =>
      CloseOneKeeps(s, p, h);
      CloseAllKeeps(CloseOne(s, p), closers, h);
      if p in s.players && s.players[p].tradeState in {INITIATED, ACKNOWLEDGE} {
        AcceptKeeps(s.players, s.tradeItems, h, p);
      }
    case Close(p) => CloseOneKeeps(s, p, h);
  }

  /** Every run of requests, acceptances and closings from idle players is safe. */
  lemma {:induction false} RunIsSafe(s: State, steps: seq<Step>, h: Holding)
    requires Safe(s, h)
    ensures Safe(DoAll(s, steps, h), h)
    decreases |steps|
  {
    if steps != [] {
      DoKeeps(s, steps[0], h);
      RunIsSafe(Do(s, steps[0], h), steps[1..], h);
    }
  }

  lemma IdleIsSafe(ids: set<nat>, h: Holding)
    ensures Safe(State(map p | p in ids :: IDLE, map[]), h)
  {
  }

  // ---------------------------------------------------------------- how long an acceptance stands

  /** p has accepted its trade with q. */
  predicate Accepted(s: State, p: nat, q: nat) {
    p in s.players && s.players[p].tradeState == ACCEPT && s.players[p].tradePartner == Some(q)
  }

  /** Whether an acceptance is the second one, which carries the trade out. */
  predicate Completes(s: State, c: nat, reachable: bool) {
    && c in s.players && s.players[c].tradeState in {INITIATED, ACKNOWLEDGE} && Partnered(s.players, c)
    && s.players[c].tradePartner.Some? && reachable && s.players[s.players[c].tradePartner.value].tradeState == ACCEPT
  }

  /** The steps that end the trade of p with q: they or the items they bring about close it, or q accepts, too. */
  predicate Ends(s: State, step: Step, p: nat, q: nat) {
    match step
    case Request(_, _, _) => false
    case Close(c) => c == p || c == q
    case Accept(c, reachable, agreed, closers) =>
      Completes(s, c, reachable) && (c == q || (agreed && (p in closers || q in closers)))
  }

  lemma ClosedPair(s: State, h: Holding, p: nat, q: nat, c: nat)
    requires Safe(s, h) && Accepted(s, p, q)
    ensures var ps := CloseOne(s, c).players;
            && q in s.players && p in ps && q in ps
            && (c == p || c == q ==> ps[p] == IDLE && ps[q] == IDLE)
            && (c != p && c != q ==> ps[p] == s.players[p] && ps[q] == s.players[q])
  {
    assert Sane(s.players, p) && Sane(s.players, q);
    if c in s.players {
      CloseOneKeeps(s, c, h);
      assert Sane(s.players, c);
    }
  }

  lemma {:induction false} ClosedByAll(s: State, h: Holding, p: nat, q: nat, cs: seq<nat>)
    requires Safe(s, h) && Accepted(s, p, q)
    ensures var ps := CloseAll(s, cs).players;
            && q in s.players && p in ps && q in ps
            && (p in cs || q in cs ==> ps[p] == IDLE && ps[q] == IDLE)
            && (p !in cs && q !in cs ==> ps[p] == s.players[p] && ps[q] == s.players[q])
  {
    if cs == [] {
      assert Sane(s.players, p);
    } else {
      var before, c := cs[..|cs| - 1], cs[|cs| - 1];
      assert cs == before + [c];
      ClosedByAll(s, h, p, q, before);
      CloseAllKeeps(s, before, h);
      var t := CloseAll(s, before);
      if p in before || q in before {
        IdleStays(t, h, p, c);
        IdleStays(t, h, q, c);
      } else {
        ClosedPair(t, h, p, q, c);
      }
    }
  }

  lemma IdleStays(s: State, h: Holding, p: nat, c: nat)
    requires Safe(s, h) && p in s.players && s.players[p] == IDLE
    ensures var ps := CloseOne(s, c).players; p in ps && ps[p] == IDLE
  {
    if c in s.players {
      assert Sane(s.players, c);
    }
  }

  /**
   * In any safe state an acceptance stands, with its offer, through every step but those that end the trade: in
   * particular the partner may still make a counter-offer, and does not need one to accept.
   */
  lemma AcceptanceStands(s: State, h: Holding, p: nat, q: nat, step: Step)
    requires Safe(s, h) && Accepted(s, p, q)
    ensures var ps := Do(s, step, h).players;
            p in ps && ps[p] == if Ends(s, step, p, q) then IDLE else s.players[p]
  {
    assert Sane(s.players, p) && Sane(s.players, q);
    match step
    case Request(_, _, _) =>
    case Close(c) => ClosedPair(s, h, p, q, c);
    case Accept(c, reachable, agreed, closers) =>
      if Completes(s, c, reachable) {
        ClosedPair(s, h, p, q, c);
        CloseOneKeeps(s, c, h);
        CloseAllKeeps(CloseOne(s, c), closers, h);
        if c == q {
          IdleThroughAll(CloseOne(s, c), h, p, closers);
        } else {
          ClosedByAll(CloseOne(s, c), h, p, q, closers);
        }
      }
  }

  lemma {:induction false} IdleThroughAll(s: State, h: Holding, p: nat, cs: seq<nat>)
    requires Safe(s, h) && p in s.players && s.players[p] == IDLE
    ensures var ps := CloseAll(s, cs).players; p in ps && ps[p] == IDLE
  {
    if cs != [] {
      IdleThroughAll(s, h, p, cs[..|cs| - 1]);
      CloseAllKeeps(s, cs[..|cs| - 1], h);
      IdleStays(CloseAll(s, cs[..|cs| - 1]), h, p, cs[|cs| - 1]);
    }
  }

  /** The partner of an acceptance that was only asked makes its counter-offer after it, or accepts without one. */
  lemma CounterOffer(s: State, h: Holding, p: nat, q: nat, item: nat, agreed: bool, closers: seq<nat>)
    requires Safe(s, h) && Accepted(s, p, q) && q in s.players && s.players[q].tradeState == ACKNOWLEDGE
    ensures Offerable(s.tradeItems, h, item) ==>
              var ps := Do(s, Request(q, p, item), h).players;
              p in ps && q in ps && ps[p] == s.players[p] && ps[q] == Player(INITIATED, Some(p), Some(item))
    ensures var ps := Do(s, Accept(q, true, agreed, closers), h).players;
            p in ps && ps[p] == IDLE
  {
    assert Sane(s.players, p) && Sane(s.players, q);
    AcceptanceStands(s, h, p, q, Request(q, p, item));
    AcceptanceStands(s, h, p, q, Accept(q, true, agreed, closers));
  }

  // ---------------------------------------------------------------- the class

  /** The tables of a running transfer with its two players taken for idle. */
  function Masked(ps: Players, p: nat, q: nat): Players {
    ps[p := IDLE][q := IDLE]
  }

  predicate Transferring(ps: Players, p: nat, q: nat) {
    && p in ps && q in ps && p != q
    && ps[p].tradeState == TRANSFER && ps[q].tradeState == TRANSFER
    && ps[p].tradePartner == Some(q) && ps[q].tradePartner == Some(p)
  }

  /** Closing a trade during a transfer: nothing happens to the two players, and the usual to any other. */
  lemma CloseMasked(ps: Players, items: map<nat, nat>, h: Holding, p: nat, q: nat, c: nat)
    requires Transferring(ps, p, q) && c in ps && Inv(Masked(ps, p, q), items, h)
    ensures Partnered(ps, c)
    ensures CloseOne(State(Masked(ps, p, q), items), c) ==
            if c == p || c == q then State(Masked(ps, p, q), items)
            else State(Masked(Closed(ps, c), p, q), Unlisted(ps, items, c))
    ensures c != p && c != q ==> Transferring(Closed(ps, c), p, q) && !BlockedBy(ps, c)
    ensures c == p || c == q ==> BlockedBy(ps, c)
  {
    var m := Masked(ps, p, q);
    assert Sane(m, c);
    if c != p && c != q {
      assert m[c] == ps[c];
      if ps[c].tradePartner.Some? {
        var d := ps[c].tradePartner.value;
        assert m[d].tradePartner == Some(c);
        assert d != p && d != q;
        assert Sane(m, d);
      }
      assert Masked(Closed(ps, c), p, q) == Closed(m, c);
    } else {
      assert m[c := IDLE] == m;
    }
  }

  predicate BlockedBy(ps: Players, p: nat)
    requires Partnered(ps, p)
  {
    ps[p].tradeState == TRANSFER || (ps[p].tradePartner.Some? && ps[ps[p].tradePartner.value].tradeState == TRANSFER)
  }

  function InTransfer(ps: Players, p: nat, q: nat): Players
    requires p in ps && q in ps
  {
    ps[p := ps[p].(tradeState := TRANSFER)][q := ps[q].(tradeState := TRANSFER)]
  }

  lemma TransferShows(s: State, p: nat, q: nat)
    requires p in s.players && q in s.players && p != q && s.players[p].tradePartner == Some(q)
    ensures Masked(InTransfer(s.players, p, q), p, q) == CloseOne(s, p).players
    ensures Unlisted(s.players, s.tradeItems, p) ==
            Without(Without(s.tradeItems, s.players[p].tradeItem), s.players[q].tradeItem)
    ensures InTransfer(s.players, p, q)[p].tradeItem == s.players[p].tradeItem
            && InTransfer(s.players, p, q)[q].tradeItem == s.players[q].tradeItem
  {
  }

  /** Closing does not depend on whether the player has just accepted. */
  lemma CloseAccepted(s: State, p: nat, q: nat)
    requires p in s.players && q in s.players && p != q && s.players[p].tradePartner == Some(q)
    ensures var s' := s.(players := s.players[p := s.players[p].(tradeState := ACCEPT)]);
            Partnered(s'.players, p) && CloseOne(s', p) == CloseOne(s, p)
  {
    var s' := s.(players := s.players[p := s.players[p].(tradeState := ACCEPT)]);
    assert s'.players[p := IDLE] == s.players[p := IDLE];
  }

  lemma KeysWith(items: map<nat, nat>, item: nat, p: nat)
    requires item !in items
    ensures multiset(items[item := p].Keys) == multiset(items.Keys) + multiset{item}
  {
    assert items[item := p].Keys == items.Keys + {item};
  }

  lemma KeysWithout(items: map<nat, nat>, item: nat)
    requires item in items
    ensures multiset(items.Keys) == multiset((items - {item}).Keys) + multiset{item}
  {
    assert (items - {item}).Keys == items.Keys - {item};
    assert multiset(items.Keys) == multiset(items.Keys - {item}) + multiset{item};
  }

  class Game {
    var players: Players
    /** The offered items, each with the id of the player who offers it. */
    var tradeItems: map<nat, nat>
    const holding: Holding
    /** The references that trades have taken and released so far. */
    ghost var taken: multiset<nat>
    ghost var released: multiset<nat>

    ghost function View(): State
      reads this
    {
      State(players, tradeItems)
    }

    /** Every reference that was taken is released, except one for each item on the table. */
    ghost predicate Balanced()
      reads this
    {
      taken == released + multiset(tradeItems.Keys)
    }

    ghost predicate Valid()
      reads this
    {
      Safe(View(), holding) && Balanced()
    }

    constructor (ids: set<nat>, holding: Holding)
      ensures Valid() && View() == State(map p | p in ids :: IDLE, map[])
    {
      IdleIsSafe(ids, holding);
      players := map p | p in ids :: IDLE;
      tradeItems := map[];
      this.holding, taken, released := holding, multiset{}, multiset{};
    }

    method IsOfferable(item: nat) returns (r: bool)
      ensures r <==> Offerable(tradeItems, holding, item)
    {
      var rest := tradeItems.Keys;
      while rest != {}
        invariant rest <= tradeItems.Keys
        invariant forall i <- tradeItems :: i !in rest ==> i != item && Apart(holding, item, i)
      {
        var i :| i in rest;
        if item == i || (item, i) in holding || (i, item) in holding {
          return false;
        }
        rest := rest - {i};
      }
      return true;
    }

    /** playerRequestTrade, from its check of the offered items on, and internalStartTrade. */
    method RequestTrade(p: nat, q: nat, item: nat) returns (ok: bool)
      requires Valid()
      modifies this
      ensures Valid() && View() == Do(old(View()), Request(p, q, item), holding)
    {
      if p !in players || q !in players || p == q {
        return false;
      }
      ok := IsOfferable(item);
      if !ok {
        return;
      }
      if players[p].tradeState != NONE
        && !(players[p].tradeState == ACKNOWLEDGE && players[p].tradePartner == Some(q)) {
        return false;
      } else if players[q].tradeState != NONE && players[q].tradePartner != Some(p) {
        return false;
      }
      DoKeeps(View(), Request(p, q, item), holding);
      StartTrade(p, q, item);
    }

    /** The updates of internalStartTrade. */
    method StartTrade(p: nat, q: nat, item: nat)
      requires Balanced() && p in players && q in players && p != q && item !in tradeItems
      modifies this
      ensures Balanced() && View() == State(Started(old(players), p, q, item), old(tradeItems)[item := p])
    {
      players := players[p := Player(INITIATED, Some(q), Some(item))];
      taken := taken + multiset{item};
      KeysWith(tradeItems, item, p);
      tradeItems := tradeItems[item := p];
      if players[q].tradeState == NONE {
        players := players[q := players[q].(tradeState := ACKNOWLEDGE, tradePartner := Some(p))];
      }
    }

    /** Takes an offered item off the table and gives back its reference. */
    method Release(item: Option<nat>)
      requires Balanced()
      modifies this`tradeItems, this`released
      ensures Balanced() && tradeItems == Without(old(tradeItems), item)
    {
      if item.Some? && item.value in tradeItems {
        released := released + multiset{item.value};
        KeysWithout(tradeItems, item.value);
        tradeItems := tradeItems - {item.value};
      } else if item.Some? {
        assert tradeItems - {item.value} == tradeItems;
      }
    }

    /** internalCloseTrade. */
    method CloseTrade(p: nat)
      requires Balanced() && Partnered(players, p)
      modifies this
      ensures Balanced() && taken == old(taken)
      ensures View() == if BlockedBy(old(players), p) then old(View()) else CloseOne(old(View()), p)
    {
      var q := players[p].tradePartner;
      if (q.Some? && players[q.value].tradeState == TRANSFER) || players[p].tradeState == TRANSFER {
        return;
      }
      var mine := players[p].tradeItem;
      var theirs := if q.Some? then players[q.value].tradeItem else None;
      Release(mine);
      players := players[p := IDLE];
      if q.Some? {
        Release(theirs);
        players := players[q.value := IDLE];
      }
    }

    /**
     * playerAcceptTrade. When both have accepted, the items change hands; closers are the
     * players whose trades are closed by what happens while the items move.
     */
    method AcceptTrade(p: nat, reachable: bool, agreed: bool, closers: seq<nat>)
      requires Valid()
      requires forall c <- closers :: c in players
      modifies this
      ensures Valid() && View() == Do(old(View()), Accept(p, reachable, agreed, closers), holding)
    {
      if p !in players || !(players[p].tradeState == ACKNOWLEDGE || players[p].tradeState == INITIATED) {
        return;
      }
      if players[p].tradePartner.None? {
        return;
      }
      var q := players[p].tradePartner.value;
      CloseOneKeeps(View(), p, holding);
      DoKeeps(View(), Accept(p, reachable, agreed, closers), holding);
      if !reachable {
        return;
      }
      ghost var s := View();
      assert Sane(players, p) && Sane(players, q);
      players := players[p := players[p].(tradeState := ACCEPT)];
      if players[q].tradeState == ACCEPT {
        Conclude(s, p, q, agreed, closers);
      }
    }

    /** What happens when both players have accepted. */
    method Conclude(ghost s: State, p: nat, q: nat, agreed: bool, closers: seq<nat>)
      requires Safe(s, holding) && Balanced() && tradeItems == s.tradeItems && p in s.players && q in s.players
               && p != q
      requires s.players[p].tradePartner == Some(q) && s.players[q].tradePartner == Some(p)
      requires players == s.players[p := s.players[p].(tradeState := ACCEPT)] && !BlockedBy(players, p)
      requires forall c <- closers :: c in players
      modifies this
      ensures Balanced() && View() == if agreed then CloseAll(CloseOne(s, p), closers) else CloseOne(s, p)
    {
      if !agreed {
        CloseAccepted(s, p, q);
        CloseTrade(p);
        return;
      }
      players := players[p := players[p].(tradeState := TRANSFER)];
      players := players[q := players[q].(tradeState := TRANSFER)];
      assert players == InTransfer(s.players, p, q);
      Transfer(s, p, q, closers);
    }

    /** The second half of playerAcceptTrade. */
    method Transfer(ghost s: State, p: nat, q: nat, closers: seq<nat>)
      requires Safe(s, holding) && Balanced() && tradeItems == s.tradeItems && p in s.players && q in s.players
               && p != q
      requires s.players[p].tradePartner == Some(q) && s.players[q].tradePartner == Some(p)
      requires players == InTransfer(s.players, p, q)
      requires forall c <- closers :: c in players
      modifies this
      ensures Balanced() && View() == CloseAll(CloseOne(s, p), closers)
    {
      CloseOneKeeps(s, p, holding);
      TransferShows(s, p, q);
      Release(players[p].tradeItem);
      Release(players[q].tradeItem);
      assert tradeItems == Unlisted(s.players, s.tradeItems, p);
      assert Shown(CloseOne(s, p), players, tradeItems, p, q);
      MoveItems(CloseOne(s, p), p, q, closers);
      MaskedKeys(players, p, q);
      players := players[p := IDLE];
      players := players[q := IDLE];
    }

    /** What may happen to the tables while the items of p and q move. */
    method MoveItems(ghost s: State, p: nat, q: nat, closers: seq<nat>)
      requires Balanced() && Transferring(players, p, q) && Safe(s, holding) && Shown(s, players, tradeItems, p, q)
      requires forall c <- closers :: c in players
      modifies this
      ensures Balanced() && Transferring(players, p, q) && Shown(CloseAll(s, closers), players, tradeItems, p, q)
    {
      assert closers[..0] == [];
      for i := 0 to |closers|
        invariant Balanced() && Transferring(players, p, q) && players.Keys == old(players).Keys
        invariant Shown(CloseAll(s, closers[..i]), players, tradeItems, p, q)
      {
        CloseAllKeeps(s, closers[..i], holding);
        CloseMasked(players, tradeItems, holding, p, q, closers[i]);
        CloseNext(s, closers, i);
        CloseTrade(closers[i]);
      }
      assert closers[..|closers|] == closers;
    }
  }

  /** The tables show the state s with the two players in a transfer. */
  predicate Shown(s: State, ps: Players, items: map<nat, nat>, p: nat, q: nat) {
    s == State(Masked(ps, p, q), items)
  }

  lemma MaskedKeys(ps: Players, p: nat, q: nat)
    requires p in ps && q in ps
    ensures Masked(ps, p, q).Keys == ps.Keys
  {
  }

  lemma CloseNext(s: State, cs: seq<nat>, i: nat)
    requires i < |cs|
    ensures CloseAll(s, cs[..i + 1]) == CloseOne(CloseAll(s, cs[..i]), cs[i])
  {
    assert cs[..i + 1][..i] == cs[..i];
  }
}
