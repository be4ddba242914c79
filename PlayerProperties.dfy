/** Tags that are attached to a player to record a piece of game state
    (roles/PlayerProperties.kt, plus the InLoveWith tag that BasicRoles.kt uses). */
module PlayerProperties {

  datatype Option<T> = None | Some(value: T)

  /** A player is referred to from another player's tags by its name, which is unique in a game. */
  type PlayerName = string

  /** The closed set of tags. `ActionCount` is a data class, so two of them are equal
      exactly when their counts are; `ActionLimitReached` carries nothing. */
  datatype PlayerProperty =
    | ActionCount(count: int)
    | ActionLimitReached
    | InLoveWith(lover: PlayerName)

  predicate HasActionCount(props: seq<PlayerProperty>) {
    exists i :: 0 <= i < |props| && props[i].ActionCount?
  }

  /** `i` is the position that Kotlin's `first { it is ActionCount }` picks. */
  ghost predicate IsFirstActionCount(props: seq<PlayerProperty>, i: int) {
    && 0 <= i < |props|
    && props[i].ActionCount?
    && forall j :: 0 <= j < i ==> !props[j].ActionCount?
  }

  /** The count of the first ActionCount tag in the list, or None when there is none
      (where Kotlin's `first` throws). */
  function FirstActionCount(props: seq<PlayerProperty>): (r: Option<int>)
    ensures r.None? <==> !HasActionCount(props)
    ensures r.Some? <==> exists i :: IsFirstActionCount(props, i)
    ensures forall i :: IsFirstActionCount(props, i) ==> r == Some(props[i].count)
  {
    if props == [] then None
    else if props[0].ActionCount? then
      assert IsFirstActionCount(props, 0);
      Some(props[0].count)
    else
      var r := FirstActionCount(props[1..]);
      assert forall i :: IsFirstActionCount(props, i) ==> IsFirstActionCount(props[1..], i - 1);
      assert forall i :: IsFirstActionCount(props[1..], i) ==> IsFirstActionCount(props, i + 1);
      assert HasActionCount(props) ==> HasActionCount(props[1..]) by {
        if HasActionCount(props) {
          var k :| 0 <= k < |props| && props[k].ActionCount?;
          assert props[1..][k - 1].ActionCount?;
        }
      }
      r
  }

  /** The list after the `count` of the ActionCount tag that `first` finds has been set to `n`
      in place: that one position changes, every other tag stays where it was. */
  function SetFirstActionCount(props: seq<PlayerProperty>, n: int): (r: seq<PlayerProperty>)
    requires HasActionCount(props)
    ensures HasActionCount(r)
    ensures forall i :: IsFirstActionCount(props, i) ==> r == props[i := ActionCount(n)]
  {
    if props[0].ActionCount? then
      var r := [ActionCount(n)] + props[1..];
      assert r[0].ActionCount?;
      r
    else
      assert HasActionCount(props[1..]) by {
        var k :| 0 <= k < |props| && props[k].ActionCount?;
        assert props[1..][k - 1].ActionCount?;
      }
      var rest := SetFirstActionCount(props[1..], n);
      assert forall i :: IsFirstActionCount(props, i) ==> IsFirstActionCount(props[1..], i - 1);
      var r := [props[0]] + rest;
      assert HasActionCount(r) by {
        var k :| 0 <= k < |rest| && rest[k].ActionCount?;
        assert r[k + 1].ActionCount?;
      }
      r
  }

  /** After the update, `first` finds the same position and reads the new count. */
  lemma SetFirstActionCountIsRead(props: seq<PlayerProperty>, n: int)
    requires HasActionCount(props)
    ensures FirstActionCount(SetFirstActionCount(props, n)) == Some(n)
  {
    assert FirstActionCount(props).Some?;
    var i :| IsFirstActionCount(props, i);
    assert IsFirstActionCount(SetFirstActionCount(props, n), i);
  }
}
