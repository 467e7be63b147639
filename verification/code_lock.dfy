/** The code-lock safe: while the player interacts, A and D step through
    the click sounds (wrapping at both ends), E confirms the current one
    against the next digit of a three-digit combination, and Escape ends
    the interaction. Entering the whole combination unlocks the safe: the
    interaction ends, the memory inside becomes interactable and the lock
    itself stops being interactable. Sounds played and log events are
    outputs; the random combination digits are inputs. */
module CodeLock {
  import opened Results

  /** Unity layer numbers the safe uses. */
  const InteractableLayer: int := 6
  const DefaultLayer: int := 0

  /** The number of digits `SetUpCorrectCombination` generates. */
  const CombinationLength: nat := 3

  datatype Sound =
    | Instructions
    | Click(index: int)   // the click clip at that index
    | CorrectHint         // the current click is the next digit
    | Right | Wrong | Unlock | OpenVault

  datatype Lock = Lock(
    name: string,              // the game object's name, used in log events
    clickCount: nat,           // the length of the click-sound array
    combination: seq<int>,
    step: int,
    soundIndex: int,
    interacting: bool,
    playedInstructions: bool,
    movementPaused: bool,
    memoryLayer: int,          // layer of the memory object inside the safe
    lockLayer: int)            // layer of the lock's own game object

  /** What `Random.Range(0, count)` can return: a value in [0, count), and 0
      when the range is empty. */
  predicate ValidDigitDraw(clickCount: nat, d: int) {
    if clickCount > 0 then 0 <= d < clickCount else d == 0
  }

  /** `SetUpCorrectCombination`: a fresh array of three digits, the i-th
      taken from the i-th random draw; `draws` is the stream of values
      `Random.Range(0, clickCount)` returns, of which three are used. */
  function SetUpCorrectCombination(clickCount: nat, draws: seq<int>): (c: seq<int>)
    requires |draws| >= CombinationLength
    requires forall i :: 0 <= i < CombinationLength ==> ValidDigitDraw(clickCount, draws[i])
    ensures |c| == CombinationLength
    ensures forall i :: 0 <= i < |c| ==> c[i] == draws[i]
    ensures clickCount > 0 ==> forall i :: 0 <= i < |c| ==> 0 <= c[i] < clickCount
    ensures clickCount == 0 ==> c == [0, 0, 0]
  {
    var c := seq(CombinationLength, i requires 0 <= i < CombinationLength => draws[i]);
    assert forall i :: 0 <= i < |c| ==> c[i] == draws[i] && ValidDigitDraw(clickCount, c[i]);
    c
  }

  /** Every three-digit combination of valid click indices can come out of
      the draws, and the draws after the third are never looked at. */
  lemma {:induction false} EveryCombinationReachable(clickCount: nat, c: seq<int>, later: seq<int>)
    requires |c| == CombinationLength
    requires forall i :: 0 <= i < |c| ==> ValidDigitDraw(clickCount, c[i])
    ensures SetUpCorrectCombination(clickCount, c + later) == c
  {
    var d := SetUpCorrectCombination(clickCount, c + later);
    assert forall i :: 0 <= i < |c| ==> (c + later)[i] == c[i];
    assert forall i :: 0 <= i < |c| ==> d[i] == c[i];
  }

  /** The lock after `Start`. */
  function Initial(name: string, clickCount: nat, draws: seq<int>, memoryLayer: int, lockLayer: int): (s: Lock)
    requires |draws| >= CombinationLength
    requires forall i :: 0 <= i < CombinationLength ==> ValidDigitDraw(clickCount, draws[i])
    ensures Valid(s) && s.step == 0 && s.soundIndex == 0 && !s.interacting && !s.playedInstructions
    ensures |s.combination| == CombinationLength && s.clickCount == clickCount
  {
    Lock(name, clickCount, SetUpCorrectCombination(clickCount, draws), 0, 0,
         false, false, false, memoryLayer, lockLayer)
  }

  /** What every reachable lock state satisfies. An open safe may still be
      interacted with again (`Interact` does not look at the progress). */
  predicate Valid(s: Lock) {
    && 0 <= s.step <= |s.combination|
    && (s.clickCount > 0 ==> 0 <= s.soundIndex < s.clickCount)
    && (s.step == |s.combination| ==> s.memoryLayer == InteractableLayer && s.lockLayer == DefaultLayer)
  }

  datatype Interaction = Interaction(lock: Lock, sounds: seq<Sound>, handled: bool)

  /** `Interact`: pause the player, explain the controls the first time
      only, and start interacting. It always reports success. */
  function Interact(s: Lock): (r: Interaction)
    ensures r.handled && r.lock.interacting && r.lock.movementPaused && r.lock.playedInstructions
    ensures r.sounds == (if s.playedInstructions then [] else [Instructions])
    ensures r.lock.step == s.step && r.lock.soundIndex == s.soundIndex && r.lock.combination == s.combination
    ensures r.lock.name == s.name && r.lock.clickCount == s.clickCount
    ensures r.lock.memoryLayer == s.memoryLayer && r.lock.lockLayer == s.lockLayer
    ensures Valid(s) ==> Valid(r.lock)
  {
    var sounds := if !s.playedInstructions then [Instructions] else [];
    Interaction(s.(movementPaused := true, playedInstructions := true, interacting := true), sounds, true)
  }

  /** `EndInteraction`: stop interacting and let the player move again;
      the dial position and the progress are kept. */
  function EndInteraction(s: Lock): (r: Lock)
    ensures !r.interacting && !r.movementPaused
    ensures r.step == s.step && r.soundIndex == s.soundIndex && r.combination == s.combination
    ensures r.memoryLayer == s.memoryLayer && r.lockLayer == s.lockLayer
  {
    s.(interacting := false, movementPaused := false)
  }

  datatype Turn = Turn(lock: Lock, sounds: seq<Sound>)

  /** `ChangeSound` followed by `PlayNextSound`: move the dial one step,
      wrapping below 0 to the last click and past the last click to 0, then
      sound either the hint (on the next digit) or the click itself. With no
      click sounds the dial lands outside the array and indexing it fails. */
  function ChangeSound(s: Lock, direction: int): (r: Result<Turn>)
    requires 0 <= s.step < |s.combination|
    ensures s.clickCount == 0 ==> r == Err(IndexOutOfRange)
    ensures s.clickCount > 0 && 0 <= s.soundIndex < s.clickCount && (direction == 1 || direction == -1) ==>
      && r.Ok?
      && r.value.lock.soundIndex == (s.soundIndex + direction) % s.clickCount
    ensures r.Ok? ==>
      && 0 <= r.value.lock.soundIndex < s.clickCount
      && r.value.lock == s.(soundIndex := r.value.lock.soundIndex)
      && r.value.sounds == [if r.value.lock.soundIndex == s.combination[s.step]
                            then CorrectHint else Click(r.value.lock.soundIndex)]
  {
    var moved := s.soundIndex + direction;
    var low := if moved < 0 then s.clickCount - 1 else moved;
    var index := if low >= s.clickCount then 0 else low;
    if !(0 <= index < s.clickCount) then Err(IndexOutOfRange)
    else
      var sound := if index == s.combination[s.step] then CorrectHint else Click(index);
      Ok(Turn(s.(soundIndex := index), [sound]))
  }

  datatype Confirmation = Confirmation(lock: Lock, sounds: seq<Sound>, events: seq<string>)

  /** `UnlockSafe`: unlock and vault sounds, end the interaction, make the
      memory interactable and the lock not. */
  function UnlockSafe(s: Lock): (r: Lock)
    ensures !r.interacting && !r.movementPaused
    ensures r.memoryLayer == InteractableLayer && r.lockLayer == DefaultLayer
    ensures r.step == s.step && r.soundIndex == s.soundIndex
  {
    EndInteraction(s).(memoryLayer := InteractableLayer, lockLayer := DefaultLayer)
  }

  /** `ConfirmSelection`: a right digit advances the progress by one (and
      unlocks the safe on the last digit); a wrong one starts over. Each
      outcome is logged. */
  function ConfirmSelection(s: Lock): (r: Confirmation)
    requires 0 <= s.step < |s.combination|
    ensures r.lock.soundIndex == s.soundIndex && r.lock.combination == s.combination
    ensures s.soundIndex == s.combination[s.step] ==>
      && r.lock.step == s.step + 1
      && r.events == [s.name + " correct combination on safe"]
    ensures s.soundIndex == s.combination[s.step] && s.step + 1 < |s.combination| ==>
      && r.sounds == [Right]
      && r.lock == s.(step := s.step + 1)
    ensures s.soundIndex != s.combination[s.step] ==>
      && r.lock.step == 0
      && r.sounds == [Wrong]
      && r.events == [s.name + " wrong combination on safe"]
      && r.lock == s.(step := 0)
    ensures Unlock in r.sounds <==> r.lock.step == |s.combination|
    ensures r.lock.step == |s.combination| ==>
      && r.sounds == [Right, Unlock, OpenVault]
      && r.lock == UnlockSafe(s.(step := s.step + 1))
    ensures r.lock.step < |s.combination| ==> !(Unlock in r.sounds) && r.lock.interacting == s.interacting
  {
    if s.soundIndex == s.combination[s.step] then
      var advanced := s.(step := s.step + 1);
      var event := [s.name + " correct combination on safe"];
      if advanced.step >= |s.combination| then
        Confirmation(UnlockSafe(advanced), [Right, Unlock, OpenVault], event)
      else Confirmation(advanced, [Right], event)
    else
      Confirmation(s.(step := 0), [Wrong], [s.name + " wrong combination on safe"])
  }

  /** The keys pressed down in one frame. */
  datatype Keys = Keys(a: bool, d: bool, e: bool, escape: bool)

  datatype Frame = Frame(lock: Lock, sounds: seq<Sound>, events: seq<string>)

  /** `ManagePlayerInput`: once the whole combination is entered no key is
      handled, Escape included, so a player who interacts with the open
      safe again stays interacting with movement paused. Otherwise A (or else D) turns the dial, then E confirms, then
      Escape ends the interaction, all within the same frame. */
  function ManagePlayerInput(s: Lock, keys: Keys): (r: Result<Frame>)
    requires Valid(s)
    ensures s.step >= |s.combination| ==> r == Ok(Frame(s, [], []))
    ensures r.Err? ==> (keys.a || keys.d) && s.clickCount == 0
    ensures r.Ok? ==> Valid(r.value.lock)
    ensures r.Ok? && keys.escape && s.step < |s.combination| ==> !r.value.lock.interacting
    ensures r.Ok? && !keys.e ==> r.value.lock.step == s.step
    ensures r.Ok? ==> (Unlock in r.value.sounds <==> s.step < |s.combination| && r.value.lock.step == |s.combination|)
  {
    if !(s.step < |s.combination|) then Ok(Frame(s, [], []))
    else
      var dial :=
        if keys.a then ChangeSound(s, -1)
        else if keys.d then ChangeSound(s, 1)
        else Ok(Turn(s, []));
      match dial
      case Err(f) => Err(f)
      case Ok(turn) =>
        var confirmed :=
          if keys.e then ConfirmSelection(turn.lock)
          else Confirmation(turn.lock, [], []);
        var ended := if keys.escape then EndInteraction(confirmed.lock) else confirmed.lock;
        Ok(Frame(ended, turn.sounds + confirmed.sounds, confirmed.events))
  }

  /** `Update`: keys are read only while the player interacts. */
  function Update(s: Lock, keys: Keys): (r: Result<Frame>)
    requires Valid(s)
    ensures !s.interacting ==> r == Ok(Frame(s, [], []))
    ensures r.Ok? ==> Valid(r.value.lock)
  {
    if s.interacting then ManagePlayerInput(s, keys) else Ok(Frame(s, [], []))
  }

  /** Every key is ignored once the safe is open, whether or not the
      player is interacting, and also after interacting with it again:
      the progress stays complete and Escape no longer releases the
      player. */
  lemma {:induction false} OpenSafeIgnoresInput(s: Lock, keys: seq<Keys>)
    requires Valid(s) && s.step == |s.combination|
    ensures forall k :: 0 <= k < |keys| ==> Update(s, keys[k]) == Ok(Frame(s, [], []))
    ensures var t := Interact(s).lock;
      && Valid(t) && t.step == s.step && t.interacting && t.movementPaused
      && forall k :: 0 <= k < |keys| ==> Update(t, keys[k]) == Ok(Frame(t, [], []))
  {
    var t := Interact(s).lock;
    assert t.step == |t.combination|;
    forall k | 0 <= k < |keys|
      ensures Update(s, keys[k]) == Ok(Frame(s, [], []))
      ensures Update(t, keys[k]) == Ok(Frame(t, [], []))
    {
      assert ManagePlayerInput(s, keys[k]) == Ok(Frame(s, [], []));
      assert ManagePlayerInput(t, keys[k]) == Ok(Frame(t, [], []));
    }
  }

  /** Turning the dial up and then down puts it back where it was. */
  lemma DialTurnsCancel(s: Lock)
    requires Valid(s) && s.step < |s.combination| && s.clickCount > 0
    ensures ChangeSound(s, 1).Ok?
    ensures ChangeSound(ChangeSound(s, 1).value.lock, -1).Ok?
    ensures ChangeSound(ChangeSound(s, 1).value.lock, -1).value.lock == s
  {
    var up := ChangeSound(s, 1).value.lock;
    if s.soundIndex == s.clickCount - 1 {
      assert up.soundIndex == 0;
    } else {
      assert up.soundIndex == s.soundIndex + 1;
    }
  }
}
