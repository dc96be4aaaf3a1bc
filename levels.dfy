/**
 * The XP ladder: `LEVEL_CAPS` and the cascade `update_xp` runs when it adds a
 * (possibly negative) amount to a user's xp.
 *
 * A user's standing is a pair (level, xp). The XP the user has earned in all
 * is `Floor(level) + xp`, where `Floor(level)` is the sum of the caps of the
 * levels below. A standing is normal when xp lies in [0, cap of its level);
 * level 5 has no cap.
 */
module Levels {
  const MinLevel: int := 1
  const MaxLevel: int := 5

  predicate IsLevel(level: int) {
    MinLevel <= level <= MaxLevel
  }

  /** `LEVEL_CAPS[level]` for the capped levels 1..4. */
  function Cap(level: int): (c: nat)
    requires MinLevel <= level < MaxLevel
    ensures c >= 500
  {
    if level == 1 then 500
    else if level == 2 then 2000
    else if level == 3 then 8000
    else 25000
  }

  /** Sum of the caps of the levels below `level`. */
  function Floor(level: int): nat
    requires IsLevel(level)
  {
    if level == MinLevel then 0 else Floor(level - 1) + Cap(level - 1)
  }

  /** The XP a standing represents in all. */
  function Total(level: int, xp: int): int
    requires IsLevel(level)
  {
    Floor(level) + xp
  }

  predicate Normal(level: int, xp: int) {
    IsLevel(level) && 0 <= xp && (level < MaxLevel ==> xp < Cap(level))
  }

  datatype Standing = Standing(level: int, xp: int)

  /** The normal standing of a user who has earned `t` XP in all. */
  function StandingOf(t: nat): (s: Standing)
    ensures Normal(s.level, s.xp)
    ensures Total(s.level, s.xp) == t
  {
    if t < 500 then Standing(1, t)
    else if t < 2500 then Standing(2, t - 500)
    else if t < 10500 then Standing(3, t - 2500)
    else if t < 35500 then Standing(4, t - 10500)
    else Standing(5, t - 35500)
  }

  function Max0(t: int): nat {
    if t < 0 then 0 else t
  }

  /** Where `update_xp` leaves a user at (level, xp) after adding `delta`. */
  function Settle(level: int, xp: int, delta: int): Standing
    requires IsLevel(level)
  {
    StandingOf(Max0(Total(level, xp) + delta))
  }

  /** Whether the downward cascade hits level 1 with a debt left and clamps it to 0 XP. */
  predicate Clamps(level: int, xp: int, delta: int)
    requires IsLevel(level)
  {
    Total(level, xp) + delta < 0
  }

  /** A normal standing lies between its own floor and the next level's floor. */
  lemma {:induction false} NormalBounds(level: int, xp: int)
    requires Normal(level, xp)
    ensures Floor(level) <= Total(level, xp)
    ensures level < MaxLevel ==> Total(level, xp) < Floor(level + 1)
  {
  }

  /** Two normal standings with the same total are the same standing. */
  lemma {:induction false} NormalUnique(l1: int, x1: int, l2: int, x2: int)
    requires Normal(l1, x1) && Normal(l2, x2)
    requires Total(l1, x1) == Total(l2, x2)
    ensures l1 == l2 && x1 == x2
  {
    if l1 < l2 {
      FloorGrows(l1 + 1, l2);
      NormalBounds(l1, x1);
    } else if l2 < l1 {
      FloorGrows(l2 + 1, l1);
      NormalBounds(l2, x2);
    }
  }

  lemma {:induction false} FloorGrows(lo: int, hi: int)
    requires IsLevel(lo) && IsLevel(hi) && lo <= hi
    ensures Floor(lo) <= Floor(hi)
    decreases hi - lo
  {
    if lo < hi {
      FloorGrows(lo, hi - 1);
    }
  }

  /** A normal standing is its own normal form: adding 0 changes nothing. */
  lemma {:induction false} SettleZero(level: int, xp: int)
    requires Normal(level, xp)
    ensures Settle(level, xp, 0) == Standing(level, xp)
  {
    var s := Settle(level, xp, 0);
    NormalUnique(s.level, s.xp, level, xp);
  }

  /** More XP in all never means a lower level. */
  lemma {:induction false} StandingMonotone(t1: nat, t2: nat)
    requires t1 <= t2
    ensures StandingOf(t1).level <= StandingOf(t2).level
  {
  }

  /**
   * From a normal standing, a gain never lowers the level and a loss never
   * raises it.
   */
  lemma {:induction false} SettleDirection(level: int, xp: int, delta: int)
    requires Normal(level, xp)
    ensures delta >= 0 ==> Settle(level, xp, delta).level >= level
    ensures delta <= 0 ==> Settle(level, xp, delta).level <= level
  {
    SettleZero(level, xp);
    if delta >= 0 {
      StandingMonotone(Max0(Total(level, xp)), Max0(Total(level, xp) + delta));
    } else {
      StandingMonotone(Max0(Total(level, xp) + delta), Max0(Total(level, xp)));
    }
  }

  /** Only a cascade that clamps loses XP beyond `delta`. */
  lemma {:induction false} SettleConserves(level: int, xp: int, delta: int)
    requires IsLevel(level)
    ensures var s := Settle(level, xp, delta);
      Total(s.level, s.xp) == if Clamps(level, xp, delta) then 0 else Total(level, xp) + delta
  {
  }

  lemma {:induction false} WorkedExamples()
    ensures Settle(1, 480, 100) == Standing(2, 80)
    ensures Settle(2, 50, -100) == Standing(1, 450)
    ensures Settle(1, 10, -1000) == Standing(1, 0)
    ensures Settle(4, 24999, 1) == Standing(5, 0)
  {
  }

  /**
   * The two loops of `update_xp`: first pay a negative balance by dropping
   * levels (each drop refunds the cap of the level dropped to), clamping at
   * level 1 with 0 XP; then promote while xp reaches the cap, up to level 5.
   */
  method ApplyDelta(xp: int, level: int, delta: int) returns (newXp: int, newLevel: int)
    requires IsLevel(level)
    ensures Standing(newLevel, newXp) == Settle(level, xp, delta)
    ensures Normal(newLevel, newXp)
  {
    ghost var t := Total(level, xp) + delta;
    newXp := xp + delta;
    newLevel := level;
    while newXp < 0
      invariant IsLevel(newLevel)
      invariant Floor(newLevel) + newXp == t
      decreases newLevel
    {
      if newLevel > MinLevel {
        newLevel := newLevel - 1;
        newXp := Cap(newLevel) + newXp;
      } else {
        newXp := 0;
        break;
      }
    }
    assert IsLevel(newLevel) && newXp >= 0;
    assert Floor(newLevel) + newXp == Max0(t);
    while newLevel < MaxLevel && newXp >= Cap(newLevel)
      invariant IsLevel(newLevel) && newXp >= 0
      invariant Floor(newLevel) + newXp == Max0(t)
      decreases MaxLevel - newLevel
    {
      newXp := newXp - Cap(newLevel);
      newLevel := newLevel + 1;
    }
    var s := StandingOf(Max0(t));
    NormalUnique(newLevel, newXp, s.level, s.xp);
  }
}
