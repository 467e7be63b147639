/** The narrator's audio manager: pauses, resumes and plays on the scene's
    audio sources. Each entry of the source array is a reference that may
    be null; a source has an identity (for the C# reference comparisons),
    a pause flag, a tag and the one-shot clips played on it. */
module AudioManager {
  import opened Results

  datatype Source<T> = Source(id: nat, paused: bool, tag: string, oneShots: seq<T>)

  type Sources<T> = seq<Option<Source<T>>>

  const SpeakerTag: string := "Speaker"

  function Paused<T>(o: Option<Source<T>>): Option<Source<T>> {
    match o
    case None => None
    case Some(s) => Some(s.(paused := true))
  }

  /** The single-source overload of `PauseAllAudioSourcesExcept`: pause
      every non-null source other than `keep` (a null `keep` excepts
      nothing). */
  function PauseAllExcept<T>(sources: Sources<T>, keep: Option<nat>): (r: Sources<T>)
    ensures |r| == |sources|
    ensures forall k :: 0 <= k < |sources| ==>
      r[k] == (if sources[k].Some? && keep != Some(sources[k].value.id) then Paused(sources[k]) else sources[k])
  {
    if |sources| == 0 then []
    else
      var head := sources[0];
      var here := if head.Some? && keep != Some(head.value.id) then Paused(head) else head;
      [here] + PauseAllExcept(sources[1..], keep)
  }

  /** Every entry up to and including position k is a non-null source
      that is not excepted: the as-written loop reaches position k. */
  predicate ReachedBy<T>(sources: Sources<T>, keep: seq<nat>, k: int)
    requires k < |sources|
  {
    forall j :: 0 <= j <= k ==> sources[j].Some? && sources[j].value.id !in keep
  }

  /** The array overload AS WRITTEN: the loop `return`s at the first null
      entry or the first excepted source, so every source after it keeps
      playing. */
  function PauseAllExceptManyAsWritten<T>(sources: Sources<T>, keep: seq<nat>): (r: Sources<T>)
    ensures |r| == |sources|
    ensures forall k :: 0 <= k < |sources| ==>
      r[k] == (if ReachedBy(sources, keep, k) then Paused(sources[k]) else sources[k])
  {
    if |sources| == 0 then []
    else
      var head := sources[0];
      if head.None? || head.value.id in keep then sources
      else [Paused(head)] + PauseAllExceptManyAsWritten(sources[1..], keep)
  }

  /** The array overload as evidently intended: skip null entries and
      excepted sources, and pause every other source. */
  function PauseAllExceptMany<T>(sources: Sources<T>, keep: seq<nat>): (r: Sources<T>)
    ensures |r| == |sources|
    ensures forall k :: 0 <= k < |sources| ==>
      r[k] == (if sources[k].Some? && sources[k].value.id !in keep then Paused(sources[k]) else sources[k])
  {
    if |sources| == 0 then []
    else
      var head := sources[0];
      var here := if head.Some? && head.value.id !in keep then Paused(head) else head;
      [here] + PauseAllExceptMany(sources[1..], keep)
  }

  /** As written, excepting the first of two sources leaves the second one
      playing. */
  lemma AsWrittenStopsAtFirstExcepted()
    ensures var sources: Sources<int> := [Some(Source(1, false, "", [])), Some(Source(2, false, "", []))];
      && PauseAllExceptManyAsWritten(sources, [1])[1] == Some(Source(2, false, "", []))
      && PauseAllExceptMany(sources, [1])[1] == Some(Source(2, true, "", []))
  {
    var sources: Sources<int> := [Some(Source(1, false, "", [])), Some(Source(2, false, "", []))];
    assert sources[0].value.id in [1];
  }

  /** Excepting a one-element array does what the single-source overload
      does. */
  lemma ManyAgreesWithSingle<T>(sources: Sources<T>, keep: nat)
    ensures PauseAllExceptMany(sources, [keep]) == PauseAllExcept(sources, Some(keep))
  {
    var a := PauseAllExceptMany(sources, [keep]);
    var b := PauseAllExcept(sources, Some(keep));
    forall k | 0 <= k < |sources|
      ensures a[k] == b[k]
    {
      if sources[k].Some? {
        assert sources[k].value.id in [keep] <==> Some(keep) == Some(sources[k].value.id);
      }
    }
  }

  /** `ResumeAllAudioSources`: unpause every non-null source. */
  function ResumeAll<T>(sources: Sources<T>): (r: Sources<T>)
    ensures |r| == |sources|
    ensures forall k :: 0 <= k < |sources| ==>
      (r[k].None? <==> sources[k].None?) &&
      (sources[k].Some? ==> r[k].value == sources[k].value.(paused := false))
  {
    if |sources| == 0 then []
    else
      var head := sources[0];
      var here := if head.Some? then Some(head.value.(paused := false)) else None;
      [here] + ResumeAll(sources[1..])
  }

  /** Resuming after a pause leaves every source as resuming alone would. */
  lemma ResumeUndoesPause<T>(sources: Sources<T>, keep: Option<nat>)
    ensures ResumeAll(PauseAllExcept(sources, keep)) == ResumeAll(sources)
  {
    var a := ResumeAll(PauseAllExcept(sources, keep));
    var b := ResumeAll(sources);
    assert forall k :: 0 <= k < |sources| ==> a[k] == b[k];
  }

  /** `PlayVoiceLine`: play the clip once on every non-null source tagged
      as a speaker. */
  function PlayVoiceLine<T>(sources: Sources<T>, clip: T): (r: Sources<T>)
    ensures |r| == |sources|
    ensures forall k :: 0 <= k < |sources| ==>
      r[k] == (if sources[k].Some? && sources[k].value.tag == SpeakerTag
               then Some(sources[k].value.(oneShots := sources[k].value.oneShots + [clip]))
               else sources[k])
  {
    if |sources| == 0 then []
    else
      var head := sources[0];
      var here := if head.Some? && head.value.tag == SpeakerTag
                  then Some(head.value.(oneShots := head.value.oneShots + [clip])) else head;
      [here] + PlayVoiceLine(sources[1..], clip)
  }

  /** Playing a voice line and pausing the other sources do not interfere:
      either order gives the same sources, so a line started while the
      narrator pauses the scene keeps its one-shot. */
  lemma PlayCommutesWithPause<T>(sources: Sources<T>, keep: Option<nat>, clip: T)
    ensures PlayVoiceLine(PauseAllExcept(sources, keep), clip) == PauseAllExcept(PlayVoiceLine(sources, clip), keep)
  {
    var a := PlayVoiceLine(PauseAllExcept(sources, keep), clip);
    var b := PauseAllExcept(PlayVoiceLine(sources, clip), keep);
    assert forall k :: 0 <= k < |sources| ==> a[k] == b[k];
  }

  /** The number of non-null speaker sources. */
  function SpeakerCount<T>(sources: Sources<T>): nat {
    if |sources| == 0 then 0
    else (if sources[0].Some? && sources[0].value.tag == SpeakerTag then 1 else 0) + SpeakerCount(sources[1..])
  }

  /** The total number of one-shots queued on the non-null sources. */
  function OneShotCount<T>(sources: Sources<T>): nat {
    if |sources| == 0 then 0
    else (if sources[0].Some? then |sources[0].value.oneShots| else 0) + OneShotCount(sources[1..])
  }

  /** A voice line is heard once per speaker and on nothing else. */
  lemma {:induction false} PlayVoiceLineOncePerSpeaker<T>(sources: Sources<T>, clip: T)
    ensures OneShotCount(PlayVoiceLine(sources, clip)) == OneShotCount(sources) + SpeakerCount(sources)
    decreases |sources|
  {
    if |sources| > 0 {
      var r := PlayVoiceLine(sources, clip);
      assert r[1..] == PlayVoiceLine(sources[1..], clip);
      PlayVoiceLineOncePerSpeaker(sources[1..], clip);
    }
  }
}
