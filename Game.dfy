/** The player state of Game.kt, and the record of deaths through which the effect of a
    player's death is observed. */
module Game {
  import opened PlayerProperties
  import opened BasicRoles

  /** Why a player died. */
  datatype DeathCause = Natural | Lynched | WerewolfAttack | LoverDied

  datatype Death = Death(victim: Player, cause: DeathCause)

  /** The deaths of a game, oldest first. It stands for the game object handed to `execute`,
      of which nothing else is modelled. */
  class DeathLog {
    var deaths: seq<Death>

    constructor ()
      ensures deaths == []
    {
      deaths := [];
    }
  }

  /** A player: a fixed name, a role that is NullRole until one is supplied, and alive and
      vote-eligible from the start. */
  class Player {
    const name: PlayerName
    var role: Role
    var isAlive: bool
    var canVote: bool
    var properties: seq<PlayerProperty>

    /** A Cupid always holds the ActionCount tag that its rule reads at night. */
    ghost predicate Valid()
      reads this
    {
      role == Cupid ==> HasActionCount(properties)
    }

    /** A player created with a role holds that role's default properties. */
    constructor (name: PlayerName, role: Role := NullRole)
      ensures this.name == name && this.role == role
      ensures isAlive && canVote
      ensures role != NullRole ==> properties == DefaultProperties(role)
      ensures role == NullRole ==> properties == []
      ensures Valid()
    {
      this.name := name;
      this.role := role;
      isAlive := true;
      canVote := true;
      properties := if role == NullRole then [] else DefaultProperties(role);
    }

    /** Gives the player a role and adds that role's default properties to the tags it holds. */
    method AssignRole(r: Role)
      requires r != NullRole
      modifies this
      ensures role == r && properties == old(properties) + DefaultProperties(r)
      ensures isAlive == old(isAlive) && canVote == old(canVote)
      ensures Valid()
      ensures r == Cupid && !HasActionCount(old(properties)) ==> forall date :: CanAct(role, Night, date, properties)
    {
      ghost var before := properties;
      role := r;
      properties := properties + DefaultProperties(r);
      if r == Cupid {
        assert properties[|before|] == ActionCount(1);
        if !HasActionCount(before) {
          assert IsFirstActionCount(properties, |before|);
        }
      }
    }

    /** Attaches a tag to the player. */
    method AddProperty(p: PlayerProperty)
      modifies this
      ensures properties == old(properties) + [p]
      ensures role == old(role) && isAlive == old(isAlive) && canVote == old(canVote)
      ensures old(Valid()) ==> Valid()
    {
      ghost var before := properties;
      properties := properties + [p];
      if HasActionCount(before) {
        var k :| 0 <= k < |before| && before[k].ActionCount?;
        assert properties[k].ActionCount?;
      }
    }

    /** Sets, in place, the count of the ActionCount tag that role rules read. */
    method SetActionCount(n: int)
      requires HasActionCount(properties)
      modifies this
      ensures properties == SetFirstActionCount(old(properties), n)
      ensures FirstActionCount(properties) == Some(n)
      ensures role == old(role) && isAlive == old(isAlive) && canVote == old(canVote)
      ensures Valid()
    {
      SetFirstActionCountIsRead(properties, n);
      properties := SetFirstActionCount(properties, n);
    }

    /** The player dies of `cause`: it is no longer alive and the death is recorded. */
    method Dies(cause: DeathCause, log: DeathLog)
      modifies this, log
      ensures !isAlive
      ensures log.deaths == old(log.deaths) + [Death(this, cause)]
      ensures role == old(role) && canVote == old(canVote) && properties == old(properties)
    {
      isAlive := false;
      log.deaths := log.deaths + [Death(this, cause)];
    }
  }
}
