/** Sharing the experience of a killed creature (creature.cpp): addDamagePoints, getDamageRatio and onDeath. */
module Experience {
  /** An entry of the damage map: an attacker and the damage it did. */
  datatype Entry = Entry(id: nat, total: nat)

  /** Who gets the share of an attacker that is still in the game: itself or the leader of its party. */
  datatype Attacker = Attacker(isVictim: bool, recipient: nat)

  type Resolver = map<nat, Attacker>

  datatype Share = Share(recipient: nat, experience: nat)

  // ---------------------------------------------------------------- the specification

  function TotalDamage(es: seq<Entry>): nat {
    if es == [] then 0 else TotalDamage(es[..|es| - 1]) + es[|es| - 1].total
  }

  function DamageOf(es: seq<Entry>, id: nat): nat {
    if es == [] then 0 else DamageOf(es[..|es| - 1], id) + if es[|es| - 1].id == id then es[|es| - 1].total else 0
  }

  /** The floor of the damage ratio times the experience that is lost. */
  function Gain(es: seq<Entry>, id: nat, lost: nat): nat {
    if TotalDamage(es) == 0 then 0 else Quotient(DamageOf(es, id) * lost, TotalDamage(es))
  }

  function Quotient(a: nat, b: nat): (q: nat)
    requires b > 0
    ensures b * q <= a < b * q + b
  {
    a / b
  }

  predicate Paid(r: Resolver, id: nat) {
    id in r && !r[id].isVictim
  }

  /** What the entries before k bring to one recipient, and to all. */
  function GainFor(es: seq<Entry>, k: nat, r: Resolver, lost: nat, recipient: nat): nat
    requires k <= |es|
  {
    if k == 0 then 0
    else
      GainFor(es, k - 1, r, lost, recipient) +
      (if Paid(r, es[k - 1].id) && r[es[k - 1].id].recipient == recipient then Gain(es, es[k - 1].id, lost) else 0)
  }

  function GainOfAll(es: seq<Entry>, k: nat, r: Resolver, lost: nat): nat
    requires k <= |es|
  {
    if k == 0 then 0
    else GainOfAll(es, k - 1, r, lost) + if Paid(r, es[k - 1].id) then Gain(es, es[k - 1].id, lost) else 0
  }

  function Shared(shares: seq<Share>): nat {
    if shares == [] then 0 else Shared(shares[..|shares| - 1]) + shares[|shares| - 1].experience
  }

  predicate DistinctIds(es: seq<Entry>) {
    forall i, j :: 0 <= i < j < |es| ==> es[i].id != es[j].id
  }

  predicate Ascending(es: seq<Entry>) {
    forall i, j :: 0 <= i < j < |es| ==> es[i].id < es[j].id
  }

  lemma InsertedAscending(es: seq<Entry>, k: nat, e: Entry)
    requires Ascending(es) && k <= |es|
    requires (k > 0 ==> es[k - 1].id < e.id) && (k < |es| ==> e.id < es[k].id)
    ensures Ascending(es[..k] + [e] + es[k..])
  {
    var r := es[..k] + [e] + es[k..];
    assert forall i :: 0 <= i < |r| ==> r[i] == if i < k then es[i] else if i == k then e else es[i - 1];
  }

  predicate DistinctRecipients(shares: seq<Share>) {
    forall i, j :: 0 <= i < j < |shares| ==> shares[i].recipient != shares[j].recipient
  }

  // ---------------------------------------------------------------- the bound

  lemma {:induction false} DamageOfAt(es: seq<Entry>, k: nat)
    requires DistinctIds(es) && k < |es|
    ensures DamageOf(es, es[k].id) == es[k].total
  {
    var last := |es| - 1;
    if k == last {
      NoDamage(es[..last], es[k].id);
    } else {
      DamageOfAt(es[..last], k);
    }
  }

  lemma {:induction false} NoDamage(es: seq<Entry>, id: nat)
    requires forall i :: 0 <= i < |es| ==> es[i].id != id
    ensures DamageOf(es, id) == 0
  {
    if es != [] {
      NoDamage(es[..|es| - 1], id);
    }
  }

  lemma {:induction false} Below(es: seq<Entry>, k: nat, r: Resolver, lost: nat)
    requires DistinctIds(es) && k <= |es| && TotalDamage(es) > 0
    ensures TotalDamage(es) * GainOfAll(es, k, r, lost) <= TotalDamage(es[..k]) * lost
    decreases k
  {
    if k > 0 {
      var total, e := TotalDamage(es), es[k - 1];
      Below(es, k - 1, r, lost);
      assert es[..k][..k - 1] == es[..k - 1];
      DamageOfAt(es, k - 1);
      Sum(total, GainOfAll(es, k - 1, r, lost), Gain(es, e.id, lost));
      Product(TotalDamage(es[..k - 1]), e.total, lost);
    } else {
      assert es[..0] == [];
    }
  }

  lemma {:induction false} Above(es: seq<Entry>, k: nat, r: Resolver, lost: nat)
    requires DistinctIds(es) && k <= |es| && TotalDamage(es) > 0
    requires forall i :: 0 <= i < |es| ==> Paid(r, es[i].id)
    ensures TotalDamage(es[..k]) * lost <= TotalDamage(es) * GainOfAll(es, k, r, lost) + (TotalDamage(es) - 1) * k
    decreases k
  {
    if k > 0 {
      var total, e := TotalDamage(es), es[k - 1];
      Above(es, k - 1, r, lost);
      assert es[..k][..k - 1] == es[..k - 1];
      DamageOfAt(es, k - 1);
      Sum(total, GainOfAll(es, k - 1, r, lost), Gain(es, e.id, lost));
      Product(TotalDamage(es[..k - 1]), e.total, lost);
      Sum(total - 1, k - 1, 1);
    } else {
      assert es[..0] == [];
    }
  }

  lemma Sum(t: int, a: int, b: int)
    ensures t * (a + b) == t * a + t * b
  {
  }

  lemma Product(a: int, b: int, c: int)
    ensures (a + b) * c == a * c + b * c
  {
  }

  lemma Cancel(t: nat, a: nat, b: nat)
    requires t > 0 && t * a <= b * t
    ensures a <= b
  {
    if a > b {
      AtLeast(t, a - b);
      Sum(t, b, a - b);
    }
  }

  lemma AtLeast(t: nat, d: nat)
    requires d >= 1
    ensures t * d >= t
  {
    Sum(t, 1, d - 1);
  }

  /**
   * No more than the lost experience is shared; and less than one point for each attacker is left
   * over, if every attacker is still in the game and is not the victim itself.
   */
  lemma SharesBounded(es: seq<Entry>, r: Resolver, lost: nat)
    requires DistinctIds(es)
    ensures GainOfAll(es, |es|, r, lost) <= lost
    ensures TotalDamage(es) > 0 && (forall i :: 0 <= i < |es| ==> Paid(r, es[i].id)) ==>
              GainOfAll(es, |es|, r, lost) > lost - |es|
  {
    var total, sum, n := TotalDamage(es), GainOfAll(es, |es|, r, lost), |es|;
    assert es[..n] == es;
    if total == 0 {
      NothingShared(es, n, r, lost);
    } else {
      Below(es, n, r, lost);
      Cancel(total, sum, lost);
      if forall i :: 0 <= i < n ==> Paid(r, es[i].id) {
        Above(es, n, r, lost);
        LessThanOneEach(total, sum, lost, n);
      }
    }
  }

  lemma LessThanOneEach(total: nat, sum: nat, lost: nat, n: nat)
    requires total > 0 && n > 0 && total * lost <= total * sum + (total - 1) * n
    ensures sum > lost - n
  {
    assert (total - 1) * n == total * n - n;
    Sum(total, sum, n);
    if lost >= sum + n {
      Sum(total, sum + n, lost - (sum + n));
    }
  }

  lemma {:induction false} NothingShared(es: seq<Entry>, k: nat, r: Resolver, lost: nat)
    requires k <= |es| && TotalDamage(es) == 0
    ensures GainOfAll(es, k, r, lost) == 0
    decreases k
  {
    if k > 0 {
      NothingShared(es, k - 1, r, lost);
    }
  }

  // ---------------------------------------------------------------- the class

  class Creature {
    /** The damage map, in ascending ids. */
    var damageMap: seq<Entry>

    ghost predicate Valid()
      reads this
    {
      Ascending(damageMap)
    }

    constructor ()
      ensures Valid() && damageMap == []
    {
      damageMap := [];
    }

    method AddDamagePoints(attacker: nat, points: int)
      requires Valid()
      modifies this
      ensures Valid()
      ensures points <= 0 ==> damageMap == old(damageMap)
      ensures forall id :: DamageOf(damageMap, id) == DamageOf(old(damageMap), id) + if id == attacker && points > 0
              then points else 0
      ensures TotalDamage(damageMap) == TotalDamage(old(damageMap)) + if points > 0 then points else 0
    {
      if points <= 0 {
        return;
      }
      var k := 0;
      while k < |damageMap| && damageMap[k].id < attacker
        invariant k <= |damageMap| && forall i :: 0 <= i < k ==> damageMap[i].id < attacker
      {
        k := k + 1;
      }
      ghost var was := damageMap;
      if k < |damageMap| && damageMap[k].id == attacker {
        Replaced(was, k, points);
        damageMap := damageMap[k := Entry(attacker, damageMap[k].total + points)];
      } else {
        Inserted(was, k, Entry(attacker, points));
        InsertedAscending(was, k, Entry(attacker, points));
        damageMap := damageMap[..k] + [Entry(attacker, points)] + damageMap[k..];
      }
    }

    /** getDamageRatio and getGainedExperience, with exact ratios. */
    method GetGainedExperience(attacker: nat, lost: nat) returns (gain: nat)
      ensures gain == Gain(damageMap, attacker, lost)
    {
      var totalDamage, attackerDamage := 0, 0;
      for i := 0 to |damageMap|
        invariant totalDamage == TotalDamage(damageMap[..i]) && attackerDamage == DamageOf(damageMap[..i], attacker)
      {
        assert damageMap[..i + 1][..i] == damageMap[..i];
        totalDamage := totalDamage + damageMap[i].total;
        if damageMap[i].id == attacker {
          attackerDamage := attackerDamage + damageMap[i].total;
        }
      }
      assert damageMap[..|damageMap|] == damageMap;
      gain := if totalDamage == 0 then 0 else Quotient(attackerDamage * lost, totalDamage);
    }

    /** The shares that onDeath gives: one for each recipient, the sum of those of its party. */
    method OnDeath(r: Resolver, lost: nat) returns (shares: seq<Share>)
      requires Valid()
      ensures DistinctRecipients(shares)
      ensures forall i ::
                0 <= i < |shares| ==>
                shares[i].experience == GainFor(damageMap, |damageMap|, r, lost, shares[i].recipient)
      ensures Shared(shares) == GainOfAll(damageMap, |damageMap|, r, lost) <= lost
    {
      shares := [];
      for k := 0 to |damageMap|
        invariant DistinctRecipients(shares)
        invariant Complete(shares, damageMap, k, r, lost)
        invariant Shared(shares) == GainOfAll(damageMap, k, r, lost)
      {
        var id := damageMap[k].id;
        if id in r && !r[id].isVictim {
          var gain := GetGainedExperience(id, lost);
          shares := AddShare(shares, r[id].recipient, gain, k, r, lost);
        }
      }
      SharesBounded(damageMap, r, lost);
    }

    /** The lookup in the map of shares, and adding to it. */
    method AddShare(shares: seq<Share>, recipient: nat, gain: nat, ghost k: nat, ghost r: Resolver, ghost lost: nat)
      returns (more: seq<Share>)
      requires k < |damageMap| && DistinctRecipients(shares) && Complete(shares, damageMap, k, r, lost)
      requires Paid(r, damageMap[k].id) && r[damageMap[k].id].recipient == recipient
               && gain == Gain(damageMap, damageMap[k].id, lost)
      ensures DistinctRecipients(more) && Complete(more, damageMap, k + 1, r, lost)
              && Shared(more) == Shared(shares) + gain
    {
      var i := 0;
      while i < |shares| && shares[i].recipient != recipient
        invariant i <= |shares| && forall j :: 0 <= j < i ==> shares[j].recipient != recipient
      {
        i := i + 1;
      }
      if i < |shares| {
        SharedUpdate(shares, i, shares[i].experience + gain);
        more := shares[i := Share(recipient, shares[i].experience + gain)];
        RaisedComplete(shares, i, gain, damageMap, k, r, lost);
      } else {
        assert (shares + [Share(recipient, gain)])[..|shares|] == shares;
        more := shares + [Share(recipient, gain)];
        AppendedComplete(shares, recipient, gain, damageMap, k, r, lost);
      }
    }
  }

  predicate Recorded(shares: seq<Share>, recipient: nat) {
    exists i :: 0 <= i < |shares| && shares[i].recipient == recipient
  }

  /** The shares are those of the first k entries, and no one else has got anything. */
  ghost predicate Complete(shares: seq<Share>, es: seq<Entry>, k: nat, r: Resolver, lost: nat) {
    && k <= |es|
    && (forall i :: 0 <= i < |shares| ==> shares[i].experience == GainFor(es, k, r, lost, shares[i].recipient))
    && forall x: nat :: !Recorded(shares, x) ==> GainFor(es, k, r, lost, x) == 0
  }

  /** What entry k adds. */
  ghost predicate Brings(es: seq<Entry>, k: nat, r: Resolver, lost: nat, recipient: nat, gain: nat) {
    k < |es| && Paid(r, es[k].id) && r[es[k].id].recipient == recipient && gain == Gain(es, es[k].id, lost)
  }

  lemma GainStep(es: seq<Entry>, k: nat, r: Resolver, lost: nat, recipient: nat, gain: nat, x: nat)
    requires Brings(es, k, r, lost, recipient, gain)
    ensures GainFor(es, k + 1, r, lost, x) == GainFor(es, k, r, lost, x) + if x == recipient then gain else 0
  {
  }

  lemma StillRecorded(shares: seq<Share>, more: seq<Share>, x: nat)
    requires |shares| <= |more| && forall j :: 0 <= j < |shares| ==> more[j].recipient == shares[j].recipient
    ensures Recorded(shares, x) ==> Recorded(more, x)
  {
    if Recorded(shares, x) {
      var j :| 0 <= j < |shares| && shares[j].recipient == x;
      assert more[j].recipient == x;
    }
  }

  lemma RaisedComplete(shares: seq<Share>, i: nat, gain: nat, es: seq<Entry>, k: nat, r: Resolver, lost: nat)
    requires i < |shares| && DistinctRecipients(shares) && Complete(shares, es, k, r, lost)
    requires Brings(es, k, r, lost, shares[i].recipient, gain)
    ensures Complete(shares[i := Share(shares[i].recipient, shares[i].experience + gain)], es, k + 1, r, lost)
  {
    var recipient := shares[i].recipient;
    var more := shares[i := Share(recipient, shares[i].experience + gain)];
    forall j | 0 <= j < |more| ensures more[j].experience == GainFor(es, k + 1, r, lost, more[j].recipient) {
      GainStep(es, k, r, lost, recipient, gain, more[j].recipient);
    }
    forall x: nat | !Recorded(more, x) ensures GainFor(es, k + 1, r, lost, x) == 0 {
      GainStep(es, k, r, lost, recipient, gain, x);
      assert more[i].recipient == recipient;
      StillRecorded(shares, more, x);
    }
  }

  lemma AppendedComplete(shares: seq<Share>, recipient: nat, gain: nat, es: seq<Entry>, k: nat, r: Resolver, lost: nat)
    requires Complete(shares, es, k, r, lost) && !Recorded(shares, recipient)
    requires Brings(es, k, r, lost, recipient, gain)
    ensures Complete(shares + [Share(recipient, gain)], es, k + 1, r, lost)
  {
    var more := shares + [Share(recipient, gain)];
    forall j | 0 <= j < |more| ensures more[j].experience == GainFor(es, k + 1, r, lost, more[j].recipient) {
      GainStep(es, k, r, lost, recipient, gain, more[j].recipient);
      if j < |shares| {
        assert Recorded(shares, shares[j].recipient);
      }
    }
    forall x: nat | !Recorded(more, x) ensures GainFor(es, k + 1, r, lost, x) == 0 {
      GainStep(es, k, r, lost, recipient, gain, x);
      assert more[|shares|].recipient == recipient;
      StillRecorded(shares, more, x);
    }
  }

  lemma {:induction false} SharedUpdate(shares: seq<Share>, i: nat, x: nat)
    requires i < |shares|
    ensures Shared(shares[i := Share(shares[i].recipient, x)]) == Shared(shares) - shares[i].experience + x
  {
    var last := |shares| - 1;
    var shares' := shares[i := Share(shares[i].recipient, x)];
    if i == last {
      assert shares'[..last] == shares[..last];
    } else {
      assert shares'[..last] == shares[..last][i := Share(shares[i].recipient, x)];
      SharedUpdate(shares[..last], i, x);
    }
  }

  lemma {:induction false} Replaced(es: seq<Entry>, k: nat, points: nat)
    requires k < |es|
    ensures var es' := es[k := Entry(es[k].id, es[k].total + points)];
            && TotalDamage(es') == TotalDamage(es) + points
            && forall id :: DamageOf(es', id) == DamageOf(es, id) + if id == es[k].id then points else 0
  {
    var last := |es| - 1;
    var es' := es[k := Entry(es[k].id, es[k].total + points)];
    if k == last {
      assert es'[..last] == es[..last];
    } else {
      assert es'[..last] == es[..last][k := Entry(es[k].id, es[k].total + points)];
      Replaced(es[..last], k, points);
    }
  }

  lemma {:induction false} Inserted(es: seq<Entry>, k: nat, e: Entry)
    requires k <= |es|
    ensures var es' := es[..k] + [e] + es[k..];
            && TotalDamage(es') == TotalDamage(es) + e.total
            && forall id :: DamageOf(es', id) == DamageOf(es, id) + if id == e.id then e.total else 0
    decreases |es|
  {
    var es' := es[..k] + [e] + es[k..];
    var last := |es'| - 1;
    if k == |es| {
      assert es'[..last] == es;
    } else {
      assert es'[..last] == es[..|es| - 1][..k] + [e] + es[..|es| - 1][k..];
      Inserted(es[..|es| - 1], k, e);
    }
  }
}
