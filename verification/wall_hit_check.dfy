/** The wall-hit sound component at the top of the asset tree
    (`WallCollisionCheck` in Assets/): a contact whose surface normal lies
    more than the threshold away from "up" counts as a wall while the player
    moves; hitting one plays a picked wall-hit clip, and the update loop
    keeps a looping sound going while the player pushes into the wall.
    Contact angles (degrees, from `Vector3.Angle`) and the player's motion
    are inputs. */
module WallHitCheck {
  import opened Results
  import ClipPicker

  /** Some contact's angle from "up" exceeds the threshold; scanned in
      contact order as the source's loop does. */
  function AnyAbove(angles: seq<real>, threshold: real): (r: bool)
    ensures r <==> exists i :: 0 <= i < |angles| && angles[i] > threshold
  {
    if |angles| == 0 then false
    else angles[0] > threshold || AnyAbove(angles[1..], threshold)
  }

  datatype WallHit<T> = WallHit(colliding: bool, clips: seq<T>)

  /** The component after a collision callback, and the clip it played:
      none, or the fault `PlayWallHitAudio` raises with fewer than two
      clips. The flag is set before that call, so it survives the fault. */
  datatype Contact<T> = Contact(state: WallHit<T>, played: Result<Option<T>>)

  /** `HandleCollision` for one collision callback. */
  function HandleCollision<T>(s: WallHit<T>, angles: seq<real>, threshold: real,
                              moving: bool, sourcePlaying: bool, n: int): (r: Contact<T>)
    requires moving && !sourcePlaying ==> ClipPicker.ValidDraw(|s.clips|, n)
    ensures r.state.colliding <==> moving && exists i :: 0 <= i < |angles| && angles[i] > threshold
    ensures r.played.Ok? && r.played.value.Some? <==>
      moving && AnyAbove(angles, threshold) && !sourcePlaying && |s.clips| >= 2
    ensures r.played.Err? <==> moving && AnyAbove(angles, threshold) && !sourcePlaying && |s.clips| < 2
    ensures r.played.Err? ==> r.played.fault == IndexOutOfRange && r.state == WallHit(true, s.clips)
    ensures !(r.played.Ok? && r.played.value.Some?) ==> r.state.clips == s.clips
    ensures r.played.Ok? && r.played.value.Some? ==>
      && |r.state.clips| == |s.clips| && 1 <= n < |s.clips|
      && r.played.value.value == s.clips[n] == r.state.clips[0]
      && r.state.clips[n] == s.clips[0]
      && multiset(r.state.clips) == multiset(s.clips)
  {
    if moving && AnyAbove(angles, threshold) then
      if sourcePlaying then Contact(WallHit(true, s.clips), Ok(None))
      else
        match ClipPicker.PickNoRepeat(s.clips, n)
        case Err(f) => Contact(WallHit(true, s.clips), Err(f))
        case Ok(p) => Contact(WallHit(true, p.clips), Ok(Some(p.clip)))
    else Contact(WallHit(false, s.clips), Ok(None))
  }

  /** `OnCollisionExit`: the wall contact is over. */
  function CollisionExit<T>(s: WallHit<T>): (r: WallHit<T>)
    ensures !r.colliding && r.clips == s.clips
  {
    s.(colliding := false)
  }

  datatype Command = StartLoop | Stop | NoCommand

  /** `Update`: start the looping sound when pushing into a wall with the
      source silent; stop it as soon as the player leaves the wall or
      stands still. */
  function Update(colliding: bool, moving: bool, sourcePlaying: bool): (c: Command)
    ensures c == StartLoop <==> colliding && moving && !sourcePlaying
    ensures c == Stop <==> !(colliding && moving) && sourcePlaying
    ensures c == NoCommand <==> (sourcePlaying <==> colliding && moving)
  {
    if colliding && moving && !sourcePlaying then StartLoop
    else if (!colliding || !moving) && sourcePlaying then Stop
    else NoCommand
  }

  /** With pairwise different clips, two wall hits in a row (with the
      contact ended in between) never play the same clip, whatever the two
      draws are. */
  lemma {:induction false} NoRepeatAcrossHits<T>(s: WallHit<T>, threshold: real,
                                                 angles1: seq<real>, n: int, angles2: seq<real>, m: int)
    requires forall i, j :: 0 <= i < j < |s.clips| ==> s.clips[i] != s.clips[j]
    requires |s.clips| >= 2 && 1 <= n < |s.clips| && 1 <= m < |s.clips|
    requires AnyAbove(angles1, threshold) && AnyAbove(angles2, threshold)
    ensures var first := HandleCollision(s, angles1, threshold, true, false, n);
            var second := HandleCollision(CollisionExit(first.state), angles2, threshold, true, false, m);
            && first.played.Ok? && first.played.value.Some?
            && second.played.Ok? && second.played.value.Some?
            && second.played.value.value != first.played.value.value
  {
    ClipPicker.NoImmediateRepeat(s.clips, n, m);
  }

  /** Once the contact is over, the next update stops a playing loop and
      starts nothing. */
  lemma ExitStopsLoop<T>(s: WallHit<T>, moving: bool, sourcePlaying: bool)
    ensures Update(CollisionExit(s).colliding, moving, sourcePlaying) == (if sourcePlaying then Stop else NoCommand)
  {
  }
}
