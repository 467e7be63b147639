/** A key and the locked door it opens. The door's `Locked` component
    reports, when interacted with, whether it may open; the key sets that
    flag. Both destroy their game objects when used. */
module KeyAndLock {
  import opened Results

  datatype Door = Door(interactable: bool, present: bool)

  /** A locked door as placed in the scene. */
  function InitialDoor(): (d: Door)
    ensures !d.interactable && d.present
  {
    Door(false, true)
  }

  datatype KeyUse = KeyUse(door: Option<Door>, keyPresent: bool, handled: bool)

  /** Unity's `==` makes a destroyed object compare equal to `null`: a
      door reference counts as missing when unassigned or destroyed. */
  predicate Missing(door: Option<Door>) {
    door.None? || !door.value.present
  }

  /** `Key.Interact`: without a (live) door it fails and the key stays;
      otherwise the door is made to open and the key is used up. */
  function UseKey(door: Option<Door>): (r: KeyUse)
    ensures Missing(door) <==> !r.handled
    ensures Missing(door) ==> r == KeyUse(door, true, false)
    ensures !Missing(door) ==>
      && !r.keyPresent
      && r.door == Some(door.value.(interactable := true))
  {
    if Missing(door) then KeyUse(door, true, false)
    else KeyUse(Some(door.value.(interactable := true)), false, true)
  }

  datatype LockUse = LockUse(door: Door, handled: bool, playedSound: bool)

  /** `Locked.Interact`: plays the door sound, destroys the door and reports
      the flag, which it does not change. */
  function UseLock(d: Door): (r: LockUse)
    ensures r.handled == d.interactable
    ensures r.door.interactable == d.interactable && !r.door.present
    ensures r.playedSound
  {
    LockUse(d.(present := false), d.interactable, true)
  }

  /** Using the key twice leaves the door as using it once. */
  lemma KeyIsIdempotent(door: Option<Door>)
    ensures UseKey(UseKey(door).door).door == UseKey(door).door
  {
  }

  /** For every live door: without a key its lock reports the flag it was
      placed with, after the key it reports success, and once the lock has
      been used the door is gone and the key no longer works on it. */
  lemma DoorOpensWithKey(d: Door)
    requires d.present
    ensures UseLock(d).handled == d.interactable
    ensures UseKey(Some(d)).handled && UseLock(UseKey(Some(d)).door.value).handled
    ensures UseKey(Some(UseLock(d).door)) == KeyUse(Some(UseLock(d).door), true, false)
  {
  }

  /** What the player does in the scene: use the key, or use the door. */
  datatype Action = TurnKey | OpenDoor

  /** One key and its door over a run of actions: the door and whether the
      key still exists at the end, and what each use of the door reported.
      A destroyed object can no longer be reached, so its uses do nothing. */
  function Run(d: Door, keyPresent: bool, acts: seq<Action>): (r: (Door, bool, seq<bool>))
    decreases |acts|
  {
    if |acts| == 0 then (d, keyPresent, [])
    else if acts[0] == TurnKey then
      if keyPresent then
        var u := UseKey(Some(d));
        Run(if u.door.Some? then u.door.value else d, u.keyPresent, acts[1..])
      else Run(d, keyPresent, acts[1..])
    else if d.present then
      var u := UseLock(d);
      var rest := Run(u.door, keyPresent, acts[1..]);
      (rest.0, rest.1, [u.handled] + rest.2)
    else Run(d, keyPresent, acts[1..])
  }

  /** The key is used before the door is first used. */
  predicate KeyBeforeDoor(acts: seq<Action>)
    decreases |acts|
  {
    |acts| > 0 && (acts[0] == TurnKey || (acts[0] != OpenDoor && KeyBeforeDoor(acts[1..])))
  }

  lemma {:induction false} RunReports(d: Door, keyPresent: bool, acts: seq<Action>)
    ensures !d.present ==> Run(d, keyPresent, acts).2 == []
    ensures d.present ==> (|Run(d, keyPresent, acts).2| == 1 <==> OpenDoor in acts)
    ensures |Run(d, keyPresent, acts).2| <= 1
    ensures d.present && OpenDoor in acts ==>
      Run(d, keyPresent, acts).2[0] == (d.interactable || (keyPresent && KeyBeforeDoor(acts)))
    decreases |acts|
  {
    if |acts| > 0 {
      assert OpenDoor in acts <==> acts[0] == OpenDoor || OpenDoor in acts[1..] by {
        assert acts == [acts[0]] + acts[1..];
      }
      if acts[0] == TurnKey {
        if keyPresent && d.present {
          RunReports(d.(interactable := true), false, acts[1..]);
        } else {
          RunReports(d, keyPresent, acts[1..]);
        }
      } else if d.present {
        RunReports(UseLock(d).door, keyPresent, acts[1..]);
      } else {
        RunReports(d, keyPresent, acts[1..]);
      }
    }
  }

  /** Over any run from the door as placed, the door is used at most once,
      and that use reports success exactly when the key was used first. */
  lemma DoorOpensOnlyWithKey(acts: seq<Action>)
    ensures |Run(InitialDoor(), true, acts).2| == (if OpenDoor in acts then 1 else 0)
    ensures OpenDoor in acts ==> (Run(InitialDoor(), true, acts).2[0] <==> KeyBeforeDoor(acts))
  {
    RunReports(InitialDoor(), true, acts);
  }
}
