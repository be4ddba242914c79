/** The roster generator of roles/RoleSets.kt: a shuffled list of Werewolves and Civilians. */
module RoleSets {
  import opened BasicRoles

  /** Kotlin's `Int`. */
  newtype int32 = x: int | -0x8000_0000 <= x < 0x8000_0000

  /** Kotlin's `a - b` on `Int`, which wraps around at 32 bits. */
  function Minus32(a: int32, b: int32): (r: int32)
    ensures (r as int - (a as int - b as int)) % 0x1_0000_0000 == 0
    ensures -0x8000_0000 <= a as int - b as int < 0x8000_0000 ==> r as int == a as int - b as int
  {
    var d := a as int - b as int;
    if d < -0x8000_0000 then (d + 0x1_0000_0000) as int32
    else if d >= 0x8000_0000 then (d - 0x1_0000_0000) as int32
    else d as int32
  }

  /** The default wolf count, `amount.floorDiv(4)`: the number of whole fours in `amount`,
      rounded towards minus infinity. */
  function QuarterRoundedDown(amount: int32): (r: int32)
    ensures 4 * (r as int) <= amount as int < 4 * (r as int) + 4
  {
    amount / 4
  }

  /** The number of times Kotlin's `repeat(n)` runs its block. */
  function Times(n: int): nat {
    if n < 0 then 0 else n
  }

  /** `n` copies of `role`. */
  function Repeat(role: Role, n: nat): (rs: seq<Role>)
    ensures |rs| == n
    ensures multiset(rs)[role] == n
    ensures forall r :: r in rs ==> r == role
  {
    if n == 0 then [] else Repeat(role, n - 1) + [role]
  }

  /** The list `buildList` produces before it is shuffled: the wolves, then the civilians. */
  function Unshuffled(amount: int32, wolves: int32 -> int32): seq<Role> {
    Repeat(Werewolf, Times(wolves(amount) as int))
      + Repeat(Civilian, Times(Minus32(amount, wolves(amount)) as int))
  }

  /** What any shuffle of the unshuffled list holds: exactly `wolves(amount)` Werewolves,
      exactly `amount - wolves(amount)` Civilians (none for a count below zero), and no other role. */
  lemma {:induction false} UnshuffledCounts(amount: int32, wolves: int32 -> int32, roster: seq<Role>)
    requires multiset(roster) == multiset(Unshuffled(amount, wolves))
    ensures multiset(roster)[Werewolf] == Times(wolves(amount) as int)
    ensures multiset(roster)[Civilian] == Times(Minus32(amount, wolves(amount)) as int)
    ensures forall r :: r in roster ==> r == Werewolf || r == Civilian
    ensures |roster| == Times(wolves(amount) as int) + Times(Minus32(amount, wolves(amount)) as int)
  {
    var ws := Repeat(Werewolf, Times(wolves(amount) as int));
    var cs := Repeat(Civilian, Times(Minus32(amount, wolves(amount)) as int));
    assert Unshuffled(amount, wolves) == ws + cs;
    assert multiset(ws + cs) == multiset(ws) + multiset(cs);
    assert multiset(cs)[Werewolf] == 0 by {
      assert Werewolf !in cs;
    }
    assert multiset(ws)[Civilian] == 0 by {
      assert Civilian !in ws;
    }
    forall r | r in roster ensures r == Werewolf || r == Civilian {
      assert r in multiset(roster);
      assert r in ws + cs;
    }
    calc {
      |roster|;
      |multiset(roster)|;
      |multiset(ws + cs)|;
      |ws + cs|;
    }
  }

  /** `civiliansWolves(amount, wolves)`: two counting loops add `wolves(amount)` Werewolves and
      `amount - wolves(amount)` Civilians, then the list is shuffled. The shuffle may be any
      permutation. */
  method CiviliansWolves(amount: int32, wolves: int32 -> int32) returns (roster: seq<Role>)
    ensures multiset(roster) == multiset(Unshuffled(amount, wolves))
    ensures multiset(roster)[Werewolf] == Times(wolves(amount) as int)
    ensures multiset(roster)[Civilian] == Times(Minus32(amount, wolves(amount)) as int)
    ensures forall r :: r in roster ==> r == Werewolf || r == Civilian
    ensures |roster| == Times(wolves(amount) as int) + Times(Minus32(amount, wolves(amount)) as int)
  {
    var built: seq<Role> := [];
    var n := wolves(amount) as int;
    var i := 0;
    while i < n
      invariant 0 <= i <= Times(n)
      invariant built == Repeat(Werewolf, i)
    {
      built := built + [Werewolf];
      i := i + 1;
    }
    var m := Minus32(amount, wolves(amount)) as int;
    var wolfPart := built;
    var j := 0;
    while j < m
      invariant 0 <= j <= Times(m)
      invariant built == wolfPart + Repeat(Civilian, j)
    {
      built := built + [Civilian];
      j := j + 1;
    }
    assert built == Unshuffled(amount, wolves);
    roster :| multiset(roster) == multiset(built);
    UnshuffledCounts(amount, wolves, roster);
  }

  /** `civiliansWolves(amount)` with the default wolf count: a quarter of the players, rounded
      down, are Werewolves and the rest Civilians; fewer than four players get no Werewolf, and
      no players at all (or a negative amount) get an empty roster. */
  method CiviliansWolvesByQuarter(amount: int32) returns (roster: seq<Role>)
    ensures multiset(roster)[Werewolf] == Times(QuarterRoundedDown(amount) as int)
    ensures amount >= 0 ==> multiset(roster)[Civilian] == amount as int - QuarterRoundedDown(amount) as int
    ensures amount < 4 ==> Werewolf !in roster
    ensures amount >= 0 ==> |roster| == amount as int
    ensures amount <= 0 ==> roster == []
    ensures forall r :: r in roster ==> r == Werewolf || r == Civilian
  {
    roster := CiviliansWolves(amount, QuarterRoundedDown);
    var w := QuarterRoundedDown(amount);
    assert Minus32(amount, w) as int == amount as int - w as int;
    if amount < 4 {
      assert multiset(roster)[Werewolf] == 0;
    }
  }
}
