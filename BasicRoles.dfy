/** The roles of roles/BasicRoles.kt and the sentinel role of Game.kt, with the members each
    role overrides: its alignment, its night-action eligibility and its default properties. */
module BasicRoles {
  import opened PlayerProperties

  /** The two half-turns of a game date. */
  datatype Daypart = Day | Night

  /** The win factions a role can belong to. */
  datatype Alignment = Good | Neutral | Evil | Alone

  /** `NullRole` is every player's role until one is assigned; no role behaviour may be asked of it. */
  datatype Role = NullRole | Civilian | Werewolf | Cupid

  /** The fixed alignment of each role: Civilian and Cupid are good, Werewolf is evil. */
  function AlignmentOf(role: Role): (a: Alignment)
    requires role != NullRole
    ensures a == Good <==> role == Civilian || role == Cupid
    ensures a == Evil <==> role == Werewolf
    ensures a != Neutral && a != Alone
  {
    match role
    case Civilian => Good
    case Werewolf => Evil
    case Cupid => Good
  }

  /** The properties a player receives with the role: Cupid starts with one action left. */
  function DefaultProperties(role: Role): (props: seq<PlayerProperty>)
    requires role != NullRole
    ensures HasActionCount(props) <==> role == Cupid
    ensures role == Cupid ==> FirstActionCount(props) == Some(1)
    ensures role == Cupid ==> props == [ActionCount(1)]
    ensures role != Cupid ==> props == []
  {
    if role == Cupid then
      var props := [ActionCount(1)];
      assert props[0].ActionCount?;
      props
    else []
  }

  /** Whether a player with this role and these properties may act in the given daypart.
      During the night Cupid's rule reads the first ActionCount tag, so one must be present. */
  function CanAct(role: Role, daypart: Daypart, date: int, props: seq<PlayerProperty>): (r: bool)
    requires role != NullRole
    requires role == Cupid && daypart == Night ==> HasActionCount(props)
    ensures role == Civilian ==> !r
    ensures role == Werewolf ==> (r <==> daypart == Night)
    ensures role == Cupid ==>
              (r <==> daypart == Night && exists i :: IsFirstActionCount(props, i) && props[i].count > 0)
  {
    match role
    case Civilian => false
    case Werewolf => daypart == Night
    case Cupid => daypart == Night && FirstActionCount(props).value > 0
  }

  /** A freshly assigned Cupid may act on any night, and on no day. */
  lemma FreshCupidActsAtNight(date: int)
    ensures CanAct(Cupid, Night, date, DefaultProperties(Cupid))
    ensures !CanAct(Cupid, Day, date, DefaultProperties(Cupid))
  {
  }

  /** Cupid's `count` is the number of actions it has left: once the count it reads is set to `n`,
      it may act at night exactly when `n` is positive, whatever else it holds. */
  lemma CupidActsWhileCountPositive(props: seq<PlayerProperty>, date: int, n: int)
    requires HasActionCount(props)
    ensures CanAct(Cupid, Night, date, SetFirstActionCount(props, n)) <==> n > 0
  {
    SetFirstActionCountIsRead(props, n);
  }
}

/** The night actions of roles/BasicRoles.kt: the werewolves' attack and Cupid's coupling. */
module RoleActions {
  import opened PlayerProperties
  import opened Game

  /** How an action is classified for resolution. */
  datatype ActionType = BasicAttack | Visit

  datatype Action =
    | Attack(performer: Player, targets: seq<Player>)
    | Couple(performer: Player, lovers: (Player, Player))
  {
    function Type(): ActionType {
      match this
      case Attack(_, _) => BasicAttack
      case Couple(_, _) => Visit
    }

    function Priority(): int {
      match this
      case Attack(_, _) => 1
      case Couple(_, _) => 2
    }

    /** The players the action is aimed at; a couple's are its two lovers, first one first. */
    function Targets(): (r: seq<Player>)
      ensures Attack? ==> r == targets
      ensures Couple? ==> |r| == 2 && r[0] == lovers.0 && r[1] == lovers.1
    {
      match this
      case Attack(_, ts) => ts
      case Couple(_, (p, q)) => [p, q]
    }

    /** A copy of the action of the same kind with a new performer and target list. Rebuilding a
        couple destructures the list into its first two elements, so it needs at least two. */
    function Transform(newPerformer: Player, newTargets: seq<Player>): (r: Action)
      requires Couple? ==> |newTargets| >= 2
      ensures r.Attack? <==> Attack?
      ensures r.performer == newPerformer
      ensures r.Targets() == if Attack? then newTargets else newTargets[..2]
      ensures newPerformer == performer && newTargets == Targets() ==> r == this
    {
      match this
      case Attack(_, _) => Attack(newPerformer, newTargets)
      case Couple(_, _) => Couple(newPerformer, (newTargets[0], newTargets[1]))
    }

    /** Every target dies of a werewolf attack, in list order; nothing else about them changes. */
    method ExecuteAttack(log: DeathLog)
      requires Attack?
      modifies log, targets
      ensures log.deaths == old(log.deaths) + DeathsOf(targets, WerewolfAttack)
      ensures forall p :: p in targets ==> !p.isAlive
      ensures forall p :: p in targets ==>
                p.role == old(p.role) && p.canVote == old(p.canVote) && p.properties == old(p.properties)
    {
      for i := 0 to |targets|
        invariant log.deaths == old(log.deaths) + DeathsOf(targets[..i], WerewolfAttack)
        invariant forall j :: 0 <= j < i ==> !targets[j].isAlive
        invariant forall j :: 0 <= j < |targets| ==>
                    targets[j].role == old(targets[j].role) && targets[j].canVote == old(targets[j].canVote) &&
                    targets[j].properties == old(targets[j].properties)
      {
        targets[i].Dies(WerewolfAttack, log);
        DeathsOfSnoc(targets, i, WerewolfAttack);
      }
      assert targets[..|targets|] == targets;
    }

    /** The first lover is tagged as in love with the second; the second lover is left alone. */
    method ExecuteCouple()
      requires Couple?
      modifies lovers.0
      ensures lovers.0.properties == old(lovers.0.properties) + [InLoveWith(lovers.1.name)]
      ensures lovers.0.isAlive == old(lovers.0.isAlive) && lovers.0.canVote == old(lovers.0.canVote)
      ensures lovers.0.role == old(lovers.0.role)
      ensures lovers.1 != lovers.0 ==> lovers.1.properties == old(lovers.1.properties)
      ensures old(lovers.0.Valid()) ==> lovers.0.Valid()
    {
      lovers.0.AddProperty(InLoveWith(lovers.1.name));
    }
  }

  /** The death records of a list of players dying of one cause, in list order. */
  function DeathsOf(ps: seq<Player>, cause: DeathCause): (ds: seq<Death>)
    ensures |ds| == |ps|
    ensures forall i :: 0 <= i < |ps| ==> ds[i] == Death(ps[i], cause)
  {
    if ps == [] then [] else DeathsOf(ps[..|ps| - 1], cause) + [Death(ps[|ps| - 1], cause)]
  }

  /** Extending the list by its next player extends the records by that player's death. */
  lemma DeathsOfSnoc(ps: seq<Player>, i: nat, cause: DeathCause)
    requires i < |ps|
    ensures DeathsOf(ps[..i + 1], cause) == DeathsOf(ps[..i], cause) + [Death(ps[i], cause)]
  {
    assert ps[..i + 1][..i] == ps[..i];
  }

  /** The fixed classification and priority of each kind of action. */
  lemma ActionConstants(a: Action)
    ensures a.Attack? ==> a.Priority() == 1 && a.Type() == BasicAttack
    ensures a.Couple? ==> a.Priority() == 2 && a.Type() == Visit
  {
  }
}
