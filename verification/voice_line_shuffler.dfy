/** The narrator's voice-line rotation: the lines are shuffled with a
    Durstenfeld (Fisher-Yates) shuffle, played one after another, and
    reshuffled after the last one. The shuffle runs as a background task in
    the game; here it is a sequential computation started by one event and
    completed by another, with `shuffling` as the flag the player waits on.
    The random swap partners are a parameter. */
module VoiceLineShuffler {
  import opened Results

  /** The swap partners a run of `System.Random.Next(i, count)` can produce:
      step i picks a position in [i, count). */
  predicate ValidDraws(count: nat, draws: seq<int>) {
    |draws| == count && forall i :: 0 <= i < count ==> i <= draws[i] < count
  }

  function Swap<T>(s: seq<T>, i: nat, j: nat): (r: seq<T>)
    requires i < |s| && j < |s|
    ensures |r| == |s| && r[i] == s[j] && r[j] == s[i]
    ensures forall k :: 0 <= k < |s| && k != i && k != j ==> r[k] == s[k]
    ensures multiset(r) == multiset(s)
  {
    s[i := s[j]][j := s[i]]
  }

  /** The shuffle from step `i` on: swap position i with its drawn partner,
      then continue with step i + 1. */
  function ShuffleFrom<T>(s: seq<T>, draws: seq<int>, i: nat): (r: seq<T>)
    requires ValidDraws(|s|, draws) && i <= |s|
    ensures |r| == |s|
    ensures multiset(r) == multiset(s)
    ensures r[..i] == s[..i]
    decreases |s| - i
  {
    if i == |s| then s
    else ShuffleFrom(Swap(s, i, draws[i]), draws, i + 1)
  }

  /** The loop of `ShuffleListAsync`: at step i swap position i with a
      position drawn from [i, count). */
  method Shuffle<T>(list: seq<T>, draws: seq<int>) returns (r: seq<T>)
    requires ValidDraws(|list|, draws)
    ensures r == ShuffleFrom(list, draws, 0)
    ensures |r| == |list| && multiset(r) == multiset(list)
  {
    r := list;
    var i := 0;
    while i < |r|
      invariant 0 <= i <= |r| == |list|
      invariant multiset(r) == multiset(list)
      invariant ShuffleFrom(r, draws, i) == ShuffleFrom(list, draws, 0)
    {
      var temp := r[i];
      var partner := draws[i];
      r := r[i := r[partner]];
      r := r[partner := temp];
      i := i + 1;
    }
  }

  /** Drawing every position as its own partner leaves the list unchanged. */
  lemma {:induction false} IdentityDrawsKeepOrder<T>(s: seq<T>, draws: seq<int>, i: nat)
    requires ValidDraws(|s|, draws) && i <= |s|
    requires forall k :: 0 <= k < |s| ==> draws[k] == k
    ensures ShuffleFrom(s, draws, i) == s
    decreases |s| - i
  {
    if i < |s| {
      assert Swap(s, i, draws[i]) == s;
      IdentityDrawsKeepOrder(s, draws, i + 1);
    }
  }

  /** Position i of the result holds what the list held at the drawn partner
      when step i ran; nothing after step i moves it again. */
  lemma {:induction false} StepFixesPosition<T>(s: seq<T>, draws: seq<int>, i: nat)
    requires ValidDraws(|s|, draws) && i < |s|
    ensures ShuffleFrom(s, draws, i)[i] == s[draws[i]]
  {
    var next := Swap(s, i, draws[i]);
    var rest := ShuffleFrom(next, draws, i + 1);
    assert ShuffleFrom(s, draws, i) == rest;
    assert rest[..i + 1] == next[..i + 1];
    assert rest[i] == rest[..i + 1][i];
  }

  datatype Shuffler<T> = Shuffler(lines: seq<T>, index: int, shuffling: bool)

  /** `Start`: copy the lines, start shuffling (the flag is set before the
      background task begins) and begin at index 0. */
  function Start<T>(voiceLines: seq<T>): (s: Shuffler<T>)
    ensures s.lines == voiceLines && s.index == 0 && s.shuffling
  {
    Shuffler(voiceLines, 0, true)
  }

  /** The background task completing: the lines are shuffled in place and
      the flag is cleared. */
  function FinishShuffle<T>(s: Shuffler<T>, draws: seq<int>): (r: Shuffler<T>)
    requires ValidDraws(|s.lines|, draws)
    ensures multiset(r.lines) == multiset(s.lines) && |r.lines| == |s.lines|
    ensures r.index == s.index && !r.shuffling
  {
    Shuffler(ShuffleFrom(s.lines, draws, 0), s.index, false)
  }

  datatype Step<T> = Step(next: Shuffler<T>, played: seq<T>)

  /** One turn of the `PlayVoiceLines` coroutine: wait while shuffling,
      otherwise play the current line, advance, and on running past the
      last line wrap to 0 and start a reshuffle. An empty list is indexed
      out of range. */
  function PlayStep<T>(s: Shuffler<T>): (r: Result<Step<T>>)
    ensures s.shuffling ==> r == Ok(Step(s, []))
    ensures r.Err? <==> !s.shuffling && !(0 <= s.index < |s.lines|)
    ensures r.Ok? && !s.shuffling ==>
      && r.value.played == [s.lines[s.index]]
      && r.value.next.lines == s.lines
      && (r.value.next.shuffling <==> s.index == |s.lines| - 1)
      && r.value.next.index == (if s.index == |s.lines| - 1 then 0 else s.index + 1)
      && 0 <= r.value.next.index < |s.lines|
  {
    if s.shuffling then Ok(Step(s, []))
    else if !(0 <= s.index < |s.lines|) then Err(IndexOutOfRange)
    else
      var clip := s.lines[s.index];
      var index := s.index + 1;
      if index >= |s.lines| then Ok(Step(Shuffler(s.lines, 0, true), [clip]))
      else Ok(Step(Shuffler(s.lines, index, false), [clip]))
  }

  /** `k` turns of the coroutine with no shuffle completing in between,
      collecting the lines played. */
  function PlayRun<T>(s: Shuffler<T>, k: nat): Result<Step<T>>
    decreases k
  {
    if k == 0 then Ok(Step(s, []))
    else match PlayStep(s)
      case Err(f) => Err(f)
      case Ok(first) =>
        match PlayRun(first.next, k - 1)
        case Err(f) => Err(f)
        case Ok(rest) => Ok(Step(rest.next, first.played + rest.played))
  }

  /** Between two reshuffles each position from the current index to the
      end is played exactly once, in order; the reshuffle starts only after
      the last one, and the index then wraps to 0. */
  lemma {:induction false} PlaysRestInOrder<T>(lines: seq<T>, i: nat, k: nat)
    requires i < |lines| && k <= |lines| - i
    ensures PlayRun(Shuffler(lines, i, false), k).Ok?
    ensures PlayRun(Shuffler(lines, i, false), k).value.played == lines[i..i + k]
    ensures k < |lines| - i ==> PlayRun(Shuffler(lines, i, false), k).value.next == Shuffler(lines, i + k, false)
    ensures k == |lines| - i ==> PlayRun(Shuffler(lines, i, false), k).value.next == Shuffler(lines, 0, true)
    decreases k
  {
    if k > 0 {
      var first := PlayStep(Shuffler(lines, i, false)).value;
      if i + 1 < |lines| {
        PlaysRestInOrder(lines, i + 1, k - 1);
        assert lines[i..i + k] == [lines[i]] + lines[i + 1..i + k];
      } else {
        assert first.next == Shuffler(lines, 0, true);
        assert PlayRun(first.next, 0) == Ok(Step(first.next, []));
      }
    }
  }

  /** A full round from index 0 plays every line exactly once, in order. */
  lemma FullRoundPlaysEachLineOnce<T>(lines: seq<T>)
    requires |lines| > 0
    ensures PlayRun(Shuffler(lines, 0, false), |lines|).Ok?
    ensures PlayRun(Shuffler(lines, 0, false), |lines|).value.played == lines
    ensures PlayRun(Shuffler(lines, 0, false), |lines|).value.next == Shuffler(lines, 0, true)
  {
    PlaysRestInOrder(lines, 0, |lines|);
    assert lines[0..|lines|] == lines;
  }
}
