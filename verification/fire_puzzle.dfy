/** The water puzzle: the bucket must be picked up, filled at the sink and
    used on the fire stove, which can be put out only once. The sink and
    the stove read the bucket's flags directly, so the three components are
    modelled over one shared state. */
module FirePuzzle {

  datatype Bucket = Bucket(pickedUp: bool, hasWater: bool, present: bool)

  datatype Stove = Stove(burning: bool, extinguished: bool)

  datatype Puzzle = Puzzle(bucket: Bucket, stove: Stove, movementPaused: bool)

  /** The scene as it loads: an empty bucket on the floor and a burning stove. */
  function Initial(): (p: Puzzle)
    ensures !p.bucket.pickedUp && !p.bucket.hasWater && p.bucket.present
    ensures p.stove.burning && !p.stove.extinguished
  {
    Puzzle(Bucket(false, false, true), Stove(true, false), false)
  }

  datatype Use = Use(puzzle: Puzzle, handled: bool, events: seq<string>)

  /** `Bucket.Interact`: the bucket is picked up (its game object is
      destroyed) and the interaction always succeeds. */
  function UseBucket(p: Puzzle): (r: Use)
    ensures r.handled && r.puzzle.bucket.pickedUp && !r.puzzle.bucket.present
    ensures r.puzzle.bucket.hasWater == p.bucket.hasWater
    ensures r.puzzle.stove == p.stove && r.puzzle.movementPaused == p.movementPaused
  {
    Use(p.(bucket := p.bucket.(pickedUp := true, present := false)), true, [])
  }

  /** `Sink.Interact`: fills the bucket and holds the player while the tap
      runs, but only once the bucket has been picked up. */
  function UseSink(p: Puzzle): (r: Use)
    ensures r.handled <==> p.bucket.pickedUp
    ensures r.handled ==> r.puzzle == p.(bucket := p.bucket.(hasWater := true), movementPaused := true)
    ensures !r.handled ==> r.puzzle == p
    ensures r.puzzle.bucket.pickedUp == p.bucket.pickedUp
  {
    if p.bucket.pickedUp then
      Use(p.(bucket := p.bucket.(hasWater := true), movementPaused := true), true, [])
    else Use(p, false, [])
  }

  /** `FireStove.Interact`: with water in the bucket and the fire not yet
      put out, `PutOutFire` stops the fire, holds the player and logs the
      event; any other attempt fails and changes nothing. */
  function UseStove(p: Puzzle, stoveName: string): (r: Use)
    ensures r.handled <==> p.bucket.hasWater && !p.stove.extinguished
    ensures r.handled ==>
      && r.puzzle == p.(stove := Stove(false, true), movementPaused := true)
      && r.events == [stoveName + " firestove extinguished"]
    ensures !r.handled ==> r.puzzle == p && r.events == []
  {
    if p.bucket.hasWater && !p.stove.extinguished then
      Use(p.(stove := Stove(false, true), movementPaused := true), true,
          [stoveName + " firestove extinguished"])
    else Use(p, false, [])
  }

  datatype Action = PickUpBucket | FillAtSink | DouseStove

  /** One player interaction; a bucket that was already destroyed cannot be
      interacted with again. A run tracks states only, so the stove's log
      text is built with an empty name here. */
  function Apply(p: Puzzle, a: Action): Use {
    match a
    case PickUpBucket => if p.bucket.present then UseBucket(p) else Use(p, false, [])
    case FillAtSink => UseSink(p)
    case DouseStove => UseStove(p, "")
  }

  /** The state after a run of interactions and how many of them put the
      fire out. */
  function Run(p: Puzzle, actions: seq<Action>): (Puzzle, nat)
    decreases |actions|
  {
    if |actions| == 0 then (p, 0)
    else
      var before := Run(p, actions[..|actions| - 1]);
      var a := actions[|actions| - 1];
      var u := Apply(before.0, a);
      (u.puzzle, before.1 + (if a == DouseStove && u.handled then 1 else 0))
  }

  /** The puzzle's flags stay consistent: water only in a picked-up bucket,
      and the fire is out exactly when it was extinguished, which needed
      water. */
  predicate Consistent(p: Puzzle) {
    && (p.bucket.hasWater ==> p.bucket.pickedUp)
    && (p.stove.extinguished <==> !p.stove.burning)
    && (p.stove.extinguished ==> p.bucket.hasWater)
  }

  lemma {:induction false} RunKeepsConsistent(p: Puzzle, actions: seq<Action>)
    requires Consistent(p)
    ensures Consistent(Run(p, actions).0)
    decreases |actions|
  {
    if |actions| > 0 {
      RunKeepsConsistent(p, actions[..|actions| - 1]);
    }
  }

  /** The fire is put out at most once over any run of interactions, and
      not at all if it was already out. */
  lemma {:induction false} ExtinguishedAtMostOnce(p: Puzzle, actions: seq<Action>)
    ensures Run(p, actions).1 <= (if p.stove.extinguished then 0 else 1)
    ensures Run(p, actions).1 == 1 ==> Run(p, actions).0.stove.extinguished
    ensures p.stove.extinguished ==> Run(p, actions).0.stove.extinguished
    decreases |actions|
  {
    if |actions| > 0 {
      ExtinguishedAtMostOnce(p, actions[..|actions| - 1]);
    }
  }

  /** What one interaction can newly bring about, and what it needs for it. */
  lemma ApplyNeeds(p: Puzzle, a: Action)
    ensures var q := Apply(p, a).puzzle;
      && (q.bucket.pickedUp && !p.bucket.pickedUp ==> a == PickUpBucket)
      && (q.bucket.hasWater && !p.bucket.hasWater ==> a == FillAtSink && p.bucket.pickedUp)
      && (q.stove.extinguished && !p.stove.extinguished ==> a == DouseStove && p.bucket.hasWater)
  {
  }

  /** A run extended by one interaction. */
  lemma RunSnoc(p: Puzzle, actions: seq<Action>)
    requires |actions| > 0
    ensures Run(p, actions).0 == Apply(Run(p, actions[..|actions| - 1]).0, actions[|actions| - 1]).puzzle
  {
  }

  /** `pattern` occurs in `actions` in order, not necessarily adjacent. */
  predicate InOrder(pattern: seq<Action>, actions: seq<Action>)
    decreases |actions|
  {
    if |pattern| == 0 then true
    else if |actions| == 0 then false
    else
      || (actions[|actions| - 1] == pattern[|pattern| - 1]
          && InOrder(pattern[..|pattern| - 1], actions[..|actions| - 1]))
      || InOrder(pattern, actions[..|actions| - 1])
  }

  /** From the loaded scene, the bucket is carried only after a pick-up. */
  lemma {:induction false} CarriedNeedsPickUp(actions: seq<Action>)
    ensures Run(Initial(), actions).0.bucket.pickedUp ==> InOrder([PickUpBucket], actions)
    decreases |actions|
  {
    if |actions| > 0 {
      var prefix := actions[..|actions| - 1];
      CarriedNeedsPickUp(prefix);
      RunSnoc(Initial(), actions);
      ApplyNeeds(Run(Initial(), prefix).0, actions[|actions| - 1]);
      assert [PickUpBucket][..0] == [];
    }
  }

  /** From the loaded scene, the bucket holds water only after it was
      picked up and then filled at the sink. */
  lemma {:induction false} WaterNeedsPickUpThenSink(actions: seq<Action>)
    ensures Run(Initial(), actions).0.bucket.hasWater ==> InOrder([PickUpBucket, FillAtSink], actions)
    decreases |actions|
  {
    if |actions| > 0 {
      var prefix := actions[..|actions| - 1];
      WaterNeedsPickUpThenSink(prefix);
      CarriedNeedsPickUp(prefix);
      RunSnoc(Initial(), actions);
      ApplyNeeds(Run(Initial(), prefix).0, actions[|actions| - 1]);
      assert [PickUpBucket, FillAtSink][..1] == [PickUpBucket];
    }
  }

  /** From the loaded scene, the fire can only be out after the bucket was
      picked up, then filled at the sink, then used on the stove, in that
      order. */
  lemma {:induction false} FireNeedsBucketThenSinkThenStove(actions: seq<Action>)
    ensures Run(Initial(), actions).0.stove.extinguished ==>
      InOrder([PickUpBucket, FillAtSink, DouseStove], actions)
    decreases |actions|
  {
    if |actions| > 0 {
      var prefix := actions[..|actions| - 1];
      FireNeedsBucketThenSinkThenStove(prefix);
      WaterNeedsPickUpThenSink(prefix);
      RunSnoc(Initial(), actions);
      ApplyNeeds(Run(Initial(), prefix).0, actions[|actions| - 1]);
      assert [PickUpBucket, FillAtSink, DouseStove][..2] == [PickUpBucket, FillAtSink];
    }
  }

  /** Where the pattern occurs: one position per pattern action, strictly
      increasing, each holding that action. */
  function Occurrence(pattern: seq<Action>, actions: seq<Action>): (pos: seq<nat>)
    requires InOrder(pattern, actions)
    ensures |pos| == |pattern|
    ensures forall m :: 0 <= m < |pos| ==> pos[m] < |actions| && actions[pos[m]] == pattern[m]
    ensures forall m :: 0 < m < |pos| ==> pos[m - 1] < pos[m]
    decreases |actions|
  {
    if |pattern| == 0 then []
    else
      var last := |actions| - 1;
      var front := actions[..last];
      if actions[last] == pattern[|pattern| - 1] && InOrder(pattern[..|pattern| - 1], front) then
        var earlier := Occurrence(pattern[..|pattern| - 1], front);
        assert forall m :: 0 <= m < |earlier| ==> earlier[m] < last && actions[earlier[m]] == front[earlier[m]];
        earlier + [last]
      else
        var pos := Occurrence(pattern, front);
        assert forall m :: 0 <= m < |pos| ==> actions[pos[m]] == front[pos[m]];
        pos
  }

  /** The fire-puzzle order as three positions in the run. */
  lemma InOrderHasPositions(actions: seq<Action>)
    requires InOrder([PickUpBucket, FillAtSink, DouseStove], actions)
    ensures exists i, j, k ::
              && 0 <= i < j < k < |actions|
              && actions[i] == PickUpBucket && actions[j] == FillAtSink && actions[k] == DouseStove
  {
    var pos := Occurrence([PickUpBucket, FillAtSink, DouseStove], actions);
    assert pos[0] < pos[1] < pos[2];
    assert actions[pos[0]] == PickUpBucket && actions[pos[1]] == FillAtSink && actions[pos[2]] == DouseStove;
  }
}
