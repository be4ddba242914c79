# Weerwolven: roles, night actions, player state and roster generation

A Dafny model of the role and action core of Weerwolven, a werewolf/mafia party game written in
Kotlin. It covers:

- the three basic roles, Civilian, Werewolf and Cupid, plus the sentinel `NullRole`. Each role has
  an alignment, a rule for when it may act (`canAct`) and default properties.
- the two night actions. The werewolves' `Attack` kills each of its targets. Cupid's `Couple`
  tags the first lover as in love with the second.
- the player record: a fixed name, a role, the alive and vote-eligibility flags, and the
  property tags.
- the property tags `ActionCount`, `ActionLimitReached` and `InLoveWith`.
- `civiliansWolves`, which builds a shuffled roster of Werewolves and Civilians.

Files and modules:

- `PlayerProperties.dfy` (module `PlayerProperties`): the tag datatype. It also models the lookup
  `first { it is ActionCount }` and the in-place update of that tag's `count`.
- `BasicRoles.dfy` holds two modules. Module `BasicRoles` has the `Role` datatype, `AlignmentOf`,
  `DefaultProperties` and `CanAct`. Module `RoleActions` has the `Action` datatype with
  `Type`, `Priority`, `Targets`, `Transform`, `ExecuteAttack` and `ExecuteCouple`.
- `Game.dfy` (module `Game`): the `Player` class, whose `role`, `isAlive`, `canVote` and
  `properties` fields its methods update in place. It also has the `DeathLog` class, which
  records the deaths that `dies` causes.
- `RoleSets.dfy` (module `RoleSets`): `civiliansWolves` as a method with the source's two
  counting loops, followed by an arbitrary permutation.

Modelling decisions:

- Roles and actions are closed datatypes instead of Kotlin subclasses. Every role query requires
  `role != NullRole`, because `NullRole` answers every query with an exception.
- `InLoveWith` stores the lover's name, which is unique within a game. It does not store a
  second reference to the lover's `Player`.
- `Player.dies` and `Player.addProperty` are called in the source but their bodies are not part
  of this model. `Dies` is modelled as an abstract effect: the player stops being alive and
  `(player, cause)` is appended to the death log. `AddProperty` appends the tag to the player's
  list.
- The doc comment on `ActionCount` calls its `count` the number of actions performed. Cupid's
  code uses it as the number of actions *remaining*: it starts at 1, and acting needs
  `count > 0`. The model follows the code.
- `amount` and the results of `wolves` are 32-bit Kotlin `Int`s (`int32`). `amount - wolves(amount)`
  wraps around as Kotlin's subtraction does. With the default wolf count it never wraps.
- `floorDiv(4)` is Dafny's `/`. For a positive divisor, Euclidean division and floor division agree.

## Model

| member | source | states |
|---|---|---|
| `PlayerProperties.FirstActionCount` | src/commonMain/kotlin/roles/BasicRoles.kt:45 | `first { it is ActionCount }`: None exactly when no ActionCount tag is present; otherwise the count of the earliest ActionCount tag, and that tag exists |
| `PlayerProperties.SetFirstActionCount` | src/commonMain/kotlin/roles/PlayerProperties.kt:11 | updating `count` in place changes only the position of the tag that `first` finds, to `ActionCount(n)`; the list still holds an ActionCount |
| `PlayerProperties.SetFirstActionCountIsRead` | src/commonMain/kotlin/roles/PlayerProperties.kt:11 | after the update, the lookup of the first ActionCount reads exactly the new count |
| `BasicRoles.AlignmentOf` | src/commonMain/kotlin/roles/BasicRoles.kt:10-40 | Civilian and Cupid are GOOD, Werewolf is EVIL, in both directions; no basic role is NEUTRAL or ALONE; NullRole may not be asked |
| `BasicRoles.DefaultProperties` | src/commonMain/kotlin/roles/BasicRoles.kt:42 | Cupid's default properties are exactly `[ActionCount(1)]`, so the count its rule reads is 1; Civilian and Werewolf start with none; only Cupid holds an ActionCount tag |
| `BasicRoles.CanAct` | src/commonMain/kotlin/roles/BasicRoles.kt:11-45 | Civilian never acts; Werewolf acts exactly at night, for any date and properties; Cupid acts exactly at night when the first ActionCount tag has a positive count; at night Cupid needs an ActionCount tag (`first` throws otherwise), by day it needs none |
| `BasicRoles.FreshCupidActsAtNight` | src/commonMain/kotlin/roles/BasicRoles.kt:42-45 | with its default properties Cupid can act on every night and on no day |
| `BasicRoles.CupidActsWhileCountPositive` | src/commonMain/kotlin/roles/BasicRoles.kt:44-45 | after its count is set to `n`, Cupid can act at night exactly when `n > 0`, whatever its other tags |
| `RoleActions.Action.Targets` | src/commonMain/kotlin/roles/BasicRoles.kt:51-52 | an Attack's targets are its target list; a Couple's are exactly its two lovers, `[first, second]` |
| `RoleActions.Action.Transform` | src/commonMain/kotlin/roles/BasicRoles.kt:35-59 | the copy has the same kind and the new performer; an Attack takes the whole new target list, a Couple the first two targets and needs at least two; transforming with the action's own performer and targets gives back the same action |
| `RoleActions.Action.ExecuteAttack` | src/commonMain/kotlin/roles/BasicRoles.kt:31-33 | each target dies of WEREWOLF_ATTACK, one death per list entry in list order; an empty list adds no death; only the targets and the log may change, and the targets keep their role, vote flag and properties |
| `RoleActions.Action.ExecuteCouple` | src/commonMain/kotlin/roles/BasicRoles.kt:54-56 | only the first lover changes: it gains `InLoveWith(second)` at the end of its tags; its alive flag, vote flag and role stay; a distinct second lover keeps its tags; the first lover's `Valid()` is preserved |
| `RoleActions.ActionConstants` | src/commonMain/kotlin/roles/BasicRoles.kt:28-50 | Attack has priority 1 and type BASIC_ATTACK; Couple has priority 2 and type VISIT |
| `Game.Player.constructor` | src/commonMain/kotlin/Game.kt:6-8 | a new player has the given name, the given role or NullRole by default, is alive and can vote; with a role it holds exactly that role's default properties, with NullRole none; it satisfies `Valid()` (a Cupid holds an ActionCount tag) |
| `Game.Player.AssignRole` | src/commonMain/kotlin/Game.kt:6 | sets the role and appends its default properties to the tags already held (an `InLoveWith` tag is kept), leaving the flags alone; establishes `Valid()`; a player made Cupid that held no ActionCount before can act on every night |
| `Game.Player.AddProperty` | src/commonMain/kotlin/roles/BasicRoles.kt:55 | the tag is appended to the player's tags; role and flags are unchanged; `Valid()` is preserved |
| `Game.Player.SetActionCount` | src/commonMain/kotlin/roles/PlayerProperties.kt:11 | the first ActionCount tag's count is set in place and is what role rules read afterwards; role and flags are unchanged; `Valid()` holds afterwards |
| `Game.Player.Dies` | src/commonMain/kotlin/roles/BasicRoles.kt:32 | the player is no longer alive, and exactly one death with its cause is appended to the log; role, vote flag and tags are unchanged, so `Valid()` is unaffected |
| `RoleSets.Minus32` | src/commonMain/kotlin/roles/RoleSets.kt:10 | Kotlin `Int` subtraction: agrees with the exact difference modulo 2^32, and equals it when it fits |
| `RoleSets.QuarterRoundedDown` | src/commonMain/kotlin/roles/RoleSets.kt:8 | `amount.floorDiv(4)` is the greatest `r` with `4 * r <= amount` |
| `RoleSets.Repeat` | src/commonMain/kotlin/roles/RoleSets.kt:9-10 | `n` copies of one role: length `n`, `n` occurrences of it, nothing else |
| `RoleSets.UnshuffledCounts` | src/commonMain/kotlin/roles/RoleSets.kt:9-11 | any permutation of the built list has exactly `max(0, wolves(amount))` Werewolves, exactly `max(0, amount - wolves(amount))` Civilians, no other role, and the sum of the two as its length |
| `RoleSets.CiviliansWolves` | src/commonMain/kotlin/roles/RoleSets.kt:8-11 | the two loops build the wolves, then the civilians; the result is a permutation of that list, with the counts above |
| `RoleSets.CiviliansWolvesByQuarter` | src/commonMain/kotlin/roles/RoleSets.kt:8-11 | with the default wolf count: `floorDiv(amount, 4)` Werewolves, the rest Civilians, length `amount` when `amount >= 0`, no Werewolf below 4 players, an empty roster when `amount <= 0` |

## Left out

- The randomness of `shuffled()`. The model allows any permutation and makes no claim about
  the distribution.
- The body of `Player.dies`: the `onDeath` hooks, making a lover die too when a partner dies
  (cascades), and what happens when an already-dead player dies again. Those bodies are not
  part of this model. `Dies` only clears `isAlive` and logs the death.
- The body of `Player.addProperty`, which is not part of this model. `AddProperty` appends.
- Night resolution is not modelled: no pass that orders actions by priority or prunes protected
  targets. No protection action exists in the modelled roles, and `transform` is modelled on its
  own.
- The Day/Night clock, win-condition checks and mayor succession. The `Game` class is not part of
  this model; `DeathLog` stands in for the `game` argument of `execute`.
- Display names from `toString` ("Burger", "Weerwolf", "Cupido"), because they only affect
  presentation.
- Interactive target selection, console I/O and concurrent collection of actions.
- Kotlin object identity and aliasing. The model does not capture that `Cupid` is a singleton
  whose `properties` list, and its one `ActionCount` object, are shared by every Cupid player.
  Properties are held per player instead. Civilian and Werewolf instances are values.
- How a player's `properties` get their role's defaults. Game.kt and BasicRoles.kt do not say.
  In the model the constructor gives a player created with a role exactly that role's defaults,
  and `AssignRole` appends them when a role is assigned later. Roles without an override are
  taken to have no default properties.
- `Game.Player.role` is a public mutable field, as in Game.kt. A direct assignment to it does
  not grant the role's defaults and can break `Valid()`. Only the constructor and the player's
  methods are proved to establish or preserve `Valid()`.
- The other `ActionType` values and other `Role` members such as `onDeath` and a role-level
  priority. None of them appear in Game.kt, BasicRoles.kt, PlayerProperties.kt or RoleSets.kt.
- `ActionCount.count` is an unbounded integer, not a 32-bit one. Nothing in the model does
  arithmetic on it.
- `CiviliansWolves` uses a nondeterministic choice (`:|`) for the shuffle, so it can be verified
  but not compiled.
- `CiviliansWolves`: `wolves` is taken to be a pure function. In Kotlin it is a lambda that is
  called twice and could have side effects.
