/** The "no immediate repeat" clip picker shared by the footstep, wall-hit
    and door-sound components: a random position in [1, length) is chosen,
    that clip is played, and it is swapped with the clip at position 0 so
    that the next pick, which never looks at position 0, cannot repeat it.
    The random draw is a parameter. */
module ClipPicker {
  import opened Results

  datatype Pick<T> = Pick(clip: T, clips: seq<T>)

  /** What `Random.Range(1, count)` can return when there are at least two
      clips; with fewer clips every draw leads to an out-of-range index. */
  predicate ValidDraw(count: nat, n: int) {
    count >= 2 ==> 1 <= n < count
  }

  /** The picked clip and the rearranged clip array. With fewer than two
      clips the source indexes past the end of the array. */
  function PickNoRepeat<T>(clips: seq<T>, n: int): (r: Result<Pick<T>>)
    requires ValidDraw(|clips|, n)
    ensures r.Err? <==> |clips| < 2
    ensures r.Err? ==> r.fault == IndexOutOfRange
    ensures r.Ok? ==> 1 <= n < |clips| && r.value.clip == clips[n]
    ensures r.Ok? ==> |r.value.clips| == |clips|
    ensures r.Ok? ==> r.value.clips[0] == clips[n] && r.value.clips[n] == clips[0]
    ensures r.Ok? ==> forall k :: 0 < k < |clips| && k != n ==> r.value.clips[k] == clips[k]
    ensures r.Ok? ==> multiset(r.value.clips) == multiset(clips)
  {
    if |clips| < 2 then Err(IndexOutOfRange)
    else
      var picked := clips[n];
      Ok(Pick(picked, clips[n := clips[0]][0 := picked]))
  }

  /** Picking the same position twice puts every clip back where it was. */
  lemma PickTwiceRestores<T>(clips: seq<T>, n: int)
    requires |clips| >= 2 && 1 <= n < |clips|
    ensures PickNoRepeat(clips, n).Ok?
    ensures PickNoRepeat(PickNoRepeat(clips, n).value.clips, n).Ok?
    ensures PickNoRepeat(PickNoRepeat(clips, n).value.clips, n).value.clips == clips
  {
    var once := PickNoRepeat(clips, n).value.clips;
    var twice := PickNoRepeat(once, n).value.clips;
    assert forall k :: 0 <= k < |clips| ==> twice[k] == clips[k];
  }

  /** When the clips are pairwise distinct, the clip picked next is never the
      one just played, whatever the next draw is. */
  lemma NoImmediateRepeat<T>(clips: seq<T>, n: int, m: int)
    requires |clips| >= 2 && 1 <= n < |clips| && 1 <= m < |clips|
    requires forall i, j :: 0 <= i < j < |clips| ==> clips[i] != clips[j]
    ensures PickNoRepeat(clips, n).Ok?
    ensures PickNoRepeat(PickNoRepeat(clips, n).value.clips, m).Ok?
    ensures PickNoRepeat(PickNoRepeat(clips, n).value.clips, m).value.clip
            != PickNoRepeat(clips, n).value.clip
  {
    var first := PickNoRepeat(clips, n).value;
    var second := PickNoRepeat(first.clips, m).value;
    if m == n {
      assert second.clip == clips[0];
    } else {
      assert second.clip == clips[m];
    }
  }
}
