/** The footstep player of `PlayerMovement.FixedUpdate`: a footstep is
    picked only while the player moves and the footstep source is silent. */
module Footsteps {
  import opened Results
  import ClipPicker

  datatype Frame<T> = Frame(clips: seq<T>, played: Option<T>)

  function FixedUpdate<T>(clips: seq<T>, moving: bool, sourcePlaying: bool, n: int): (r: Result<Frame<T>>)
    requires moving && !sourcePlaying ==> ClipPicker.ValidDraw(|clips|, n)
    ensures !(moving && !sourcePlaying) ==> r == Ok(Frame(clips, None))
    ensures r.Ok? && r.value.played.Some? <==> moving && !sourcePlaying && |clips| >= 2
    ensures r.Err? ==> moving && !sourcePlaying && r.fault == IndexOutOfRange
    ensures r.Ok? && r.value.played.Some? ==>
      && |r.value.clips| == |clips| && 1 <= n < |clips|
      && r.value.played.value == clips[n] == r.value.clips[0]
      && r.value.clips[n] == clips[0]
      && multiset(r.value.clips) == multiset(clips)
  {
    if moving && !sourcePlaying then
      match ClipPicker.PickNoRepeat(clips, n)
      case Err(f) => Err(f)
      case Ok(p) => Ok(Frame(p.clips, Some(p.clip)))
    else Ok(Frame(clips, None))
  }
}

/** The creaking-door player of `PlayDoorSounds`: on each turn of its loop a
    door clip is picked only when the source is silent. The random pitch and
    the random delay between turns are not modelled. */
module DoorSounds {
  import opened Results
  import ClipPicker

  datatype Turn<T> = Turn(clips: seq<T>, played: Option<T>)

  function LoopTurn<T>(clips: seq<T>, sourcePlaying: bool, n: int): (r: Result<Turn<T>>)
    requires !sourcePlaying ==> ClipPicker.ValidDraw(|clips|, n)
    ensures sourcePlaying ==> r == Ok(Turn(clips, None))
    ensures r.Ok? && r.value.played.Some? <==> !sourcePlaying && |clips| >= 2
    ensures r.Err? ==> !sourcePlaying && |clips| < 2
    ensures r.Ok? && r.value.played.Some? ==>
      && |r.value.clips| == |clips| && 1 <= n < |clips|
      && r.value.played.value == clips[n] == r.value.clips[0]
      && r.value.clips[n] == clips[0]
      && (forall k :: 0 < k < |clips| && k != n ==> r.value.clips[k] == clips[k])
      && multiset(r.value.clips) == multiset(clips)
  {
    if sourcePlaying then Ok(Turn(clips, None))
    else
      match ClipPicker.PickNoRepeat(clips, n)
      case Err(f) => Err(f)
      case Ok(p) => Ok(Turn(p.clips, Some(p.clip)))
  }
}
