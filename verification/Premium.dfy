/** Premium days of an account (game.cpp, updatePremium). */
module Premium {
  const DAY := 86400

  const DAYS_32 := 0x1_0000_0000

  datatype State = State(remDays: nat, lastDay: int)

  /** Division of signed integers, which rounds towards zero. */
  function Quotient(lastDay: int, now: int): int {
    var d := now - lastDay;
    if d >= 0 then d / DAY else -(-d / DAY)
  }

  /** That quotient stored in 32 unsigned bits. */
  function DaysBetween(lastDay: int, now: int): (r: nat)
    ensures r < DAYS_32
  {
    Quotient(lastDay, now) % DAYS_32
  }

  /** The remainder of that division. */
  function Remainder(lastDay: int, now: int): int {
    var d := now - lastDay;
    if d >= 0 then d % DAY else -(-d % DAY)
  }

  function Update(s: State, now: int): State {
    if s.remDays != 0 then
      if s.lastDay == 0 then s.(lastDay := now)
      else
        var days := DaysBetween(s.lastDay, now);
        if days == 0 then s
        else if days >= s.remDays then State(0, 0)
        else State(s.remDays - days, now - Remainder(s.lastDay, now))
    else s.(lastDay := 0)
  }

  function UpdateAll(s: State, times: seq<int>): State
    decreases |times|
  {
    if times == [] then s else UpdateAll(Update(s, times[0]), times[1..])
  }

  predicate Nondecreasing(times: seq<int>) {
    forall i, j :: 0 <= i < j < |times| ==> times[i] <= times[j]
  }

  /** A clock that is less than a day behind the account, and not more days ahead than 32 bits count. */
  predicate Sane(s: State, now: int) {
    s.lastDay - DAY < now < s.lastDay + DAY * DAYS_32
  }

  /** The moment at which the premium days of an account end. */
  function Expiry(s: State): int {
    s.lastDay + s.remDays * DAY
  }

  lemma DaysAre(lastDay: int, now: int)
    requires lastDay - DAY < now < lastDay + DAY * DAYS_32
    ensures DaysBetween(lastDay, now) == if now < lastDay then 0 else (now - lastDay) / DAY
    ensures now >= lastDay ==> now - Remainder(lastDay, now) == lastDay + DAY * DaysBetween(lastDay, now)
  {
    var d := now - lastDay;
    if d >= 0 {
      assert 0 <= d / DAY < DAYS_32;
      assert d == DAY * (d / DAY) + d % DAY;
    } else {
      assert -d / DAY == 0;
    }
  }

  /** The premium lasts exactly until its expiry, which no update moves: no part of a day is ever lost or won. */
  lemma ExpiryKept(s: State, now: int)
    requires s.remDays > 0 && s.lastDay > 0 && Sane(s, now)
    ensures var s' := Update(s, now);
            if now < Expiry(s) then s'.remDays > 0 && s'.lastDay > 0 && Expiry(s') == Expiry(s)
              && now - s'.lastDay < DAY
            else s' == State(0, 0)
  {
    DaysAre(s.lastDay, now);
    if now >= s.lastDay {
      var d := (now - s.lastDay) / DAY;
      assert DAY * d <= now - s.lastDay < DAY * (d + 1);
      if now < Expiry(s) {
        assert DAY * d < s.remDays * DAY;
      } else {
        assert s.remDays * DAY < DAY * (d + 1);
      }
    }
  }

  lemma TwiceIsOnce(s: State, t: int, u: int)
    requires s.lastDay > 0 && s.lastDay - DAY < t <= u < s.lastDay + DAY * DAYS_32
    ensures Update(Update(s, t), u) == Update(s, u)
    ensures Update(s, t) == State(0, 0)
            || (Update(s, t).lastDay > 0 && s.lastDay <= Update(s, t).lastDay && Update(s, t).lastDay - DAY < t)
  {
    if s.remDays > 0 {
      DaysAre(s.lastDay, t);
      DaysAre(s.lastDay, u);
      var s' := Update(s, t);
      if t >= s.lastDay && s'.remDays > 0 {
        var d := (t - s.lastDay) / DAY;
        assert s'.lastDay == s.lastDay + DAY * d;
        DaysAre(s'.lastDay, u);
        assert (u - s.lastDay) / DAY == d + (u - s'.lastDay) / DAY;
      }
    }
  }

  /** Updates along the way make no difference: what counts is the time of the last one. */
  lemma {:induction false} PathIndependent(s: State, times: seq<int>)
    requires s.lastDay > 0 && times != [] && Nondecreasing(times)
    requires Sane(s, times[0]) && Sane(s, times[|times| - 1])
    ensures UpdateAll(s, times) == Update(s, times[|times| - 1])
    decreases |times|
  {
    var t, last := times[0], times[|times| - 1];
    if |times| == 1 {
      assert UpdateAll(Update(s, t), times[1..]) == Update(s, t);
    } else {
      TwiceIsOnce(s, t, last);
      var s' := Update(s, t);
      if s' == State(0, 0) {
        Expired(times[1..]);
      } else {
        TwiceIsOnce(s, t, times[1]);
        PathIndependent(s', times[1..]);
      }
    }
  }

  lemma {:induction false} Expired(times: seq<int>)
    ensures UpdateAll(State(0, 0), times) == State(0, 0)
    decreases |times|
  {
    if times != [] {
      Expired(times[1..]);
    }
  }

  /** What an update owes the account: a premium that has not ended keeps its end, and one that has ended is cleared. */
  predicate KeepsExpiry(s: State, now: int) {
    var s' := Update(s, now);
    if now < Expiry(s) then s'.remDays > 0 && Expiry(s') == Expiry(s) else s' == State(0, 0)
  }

  lemma QuotientIs(lastDay: int, now: int)
    ensures var q := Quotient(lastDay, now);
            && now - Remainder(lastDay, now) == lastDay + DAY * q
            && (q < 0 <==> now <= lastDay - DAY)
            && forall n: nat :: q >= 0 && n > 0 ==> (now < lastDay + n * DAY <==> q < n)
  {
    var d := now - lastDay;
    if d >= 0 {
      assert d == DAY * (d / DAY) + d % DAY;
    } else {
      assert -d == DAY * (-d / DAY) + -d % DAY;
    }
  }

  /**
   * At any time an update keeps the end exactly if the days since the last one are not negative and, once the
   * premium has ended, still look like enough in 32 bits; negative days go unnoticed only if 32 bits show none.
   */
  lemma ExpiryKeptIff(s: State, now: int)
    requires 0 < s.remDays < DAYS_32 && s.lastDay != 0
    ensures var q := Quotient(s.lastDay, now);
            KeepsExpiry(s, now) <==> if q < 0 then q % DAYS_32 == 0 else q < s.remDays || q % DAYS_32 >= s.remDays
  {
    QuotientIs(s.lastDay, now);
    var q, days := Quotient(s.lastDay, now), DaysBetween(s.lastDay, now);
    if q < 0 {
      assert now < Expiry(s);
      if 0 < days < s.remDays {
        assert Expiry(Update(s, now)) - Expiry(s) == DAY * (q - days);
      }
    } else if q < s.remDays {
      assert days == q;
    }
  }

  /**
   * In particular, as long as 32 bits count the days: exactly a clock a day or more behind the account moves the end.
   */
  lemma ClockBehind(s: State, now: int)
    requires 0 < s.remDays < DAYS_32 && s.lastDay != 0
    requires s.lastDay - DAY * DAYS_32 < now < s.lastDay + DAY * DAYS_32
    ensures KeepsExpiry(s, now) <==> s.lastDay - DAY < now
  {
    ExpiryKeptIff(s, now);
    QuotientIs(s.lastDay, now);
    var q := Quotient(s.lastDay, now);
    assert -DAYS_32 < q < DAYS_32;
  }

  /** Then either the whole premium is gone, or its end moves by 2^32 days into the past. */
  lemma MovedExpiry(s: State, now: int)
    requires 0 < s.remDays < DAYS_32 && s.lastDay != 0
    requires s.lastDay - DAY * DAYS_32 < now <= s.lastDay - DAY
    ensures var s' := Update(s, now);
            if s.remDays <= DAYS_32 + Quotient(s.lastDay, now) then s' == State(0, 0)
              else Expiry(s') == Expiry(s) - DAY * DAYS_32
  {
    QuotientIs(s.lastDay, now);
    var q := Quotient(s.lastDay, now);
    assert -DAYS_32 < q < 0;
    assert q % DAYS_32 == q + DAYS_32;
  }

  class Account {
    var remDays: nat
    var lastDay: int

    ghost function View(): State
      reads this
    {
      State(remDays, lastDay)
    }

    method UpdatePremium(now: int)
      modifies this
      ensures View() == Update(old(View()), now)
    {
      if remDays != 0 {
        if lastDay == 0 {
          lastDay := now;
        } else {
          var days := DaysBetween(lastDay, now);
          if days > 0 {
            if days >= remDays {
              remDays, lastDay := 0, 0;
            } else {
              remDays := remDays - days;
              lastDay := now - Remainder(lastDay, now);
            }
          }
        }
      } else if lastDay != 0 {
        lastDay := 0;
      }
    }
  }
}
