/** The trigger that switches a set of speakers on or off: the player
    walking through it flips the enabled flag of every assigned source. */
module InvertSpeakerState {
  import opened Results

  const PlayerTag: string := "Player"

  /** `OnTriggerEnter`: for the player, flip every non-null source's
      enabled flag; anything else walking through changes nothing. */
  function TriggerEnter(enabled: seq<Option<bool>>, otherTag: string): (r: seq<Option<bool>>)
    ensures otherTag != PlayerTag ==> r == enabled
    ensures |r| == |enabled|
    ensures otherTag == PlayerTag ==> forall k :: 0 <= k < |enabled| ==>
      (r[k].None? <==> enabled[k].None?) && (enabled[k].Some? ==> r[k].value == !enabled[k].value)
  {
    if otherTag != PlayerTag then enabled
    else Flip(enabled)
  }

  function Flip(enabled: seq<Option<bool>>): (r: seq<Option<bool>>)
    ensures |r| == |enabled|
    ensures forall k :: 0 <= k < |enabled| ==>
      r[k] == (if enabled[k].Some? then Some(!enabled[k].value) else None)
  {
    if |enabled| == 0 then []
    else
      var here := if enabled[0].Some? then Some(!enabled[0].value) else None;
      [here] + Flip(enabled[1..])
  }

  /** Walking through twice restores every speaker. */
  lemma TwoEntriesRestore(enabled: seq<Option<bool>>)
    ensures TriggerEnter(TriggerEnter(enabled, PlayerTag), PlayerTag) == enabled
  {
    var twice := TriggerEnter(TriggerEnter(enabled, PlayerTag), PlayerTag);
    assert forall k :: 0 <= k < |enabled| ==> twice[k] == enabled[k];
  }
}
