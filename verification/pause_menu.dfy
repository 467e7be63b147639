/** The end-of-game menu (`ButtonToggle`): when the player walks into its
    trigger an intro plays, then the game pauses with a two-option panel;
    left/right move the highlight between the two buttons and confirming
    resumes the game and schedules the ending. Timed `Invoke` calls are
    modelled as flags that a later event (the timer firing) consumes. */
module PauseMenu {

  /** The mixer volume of the game sounds while paused and while running. */
  const MutedVolume: real := -80.0
  const FullVolume: real := 0.0

  datatype Sound = Intro | Highlight(button: int) | Confirm(button: int)

  datatype Menu = Menu(
    buttonIndex: int,
    paused: bool,
    triggered: bool,
    panelActive: bool,
    timeScale: real,
    gameVolume: real,
    pauseScheduled: bool,     // `PauseGame` is due once the intro ends
    endGameScheduled: bool)   // `PlayEndGameAndExit` is due

  /** The menu after `Start`, with the engine's time scale and mixer volume
      as they were. */
  function Initial(timeScale: real, gameVolume: real): (m: Menu)
    ensures !m.panelActive && !m.paused && m.buttonIndex == 0 && !m.triggered
    ensures Valid(m)
  {
    Menu(0, false, false, false, timeScale, gameVolume, false, false)
  }

  /** The highlighted button is always one of the two. */
  predicate Valid(m: Menu) {
    m.buttonIndex == 0 || m.buttonIndex == 1
  }

  datatype Step = Step(menu: Menu, sounds: seq<Sound>)

  /** `OnTriggerEnter`: only the player, and only the first time, starts
      the intro and schedules the pause. */
  function TriggerEnter(m: Menu, otherIsPlayer: bool): (r: Step)
    ensures otherIsPlayer && !m.triggered ==>
      r == Step(m.(triggered := true, pauseScheduled := true), [Intro])
    ensures !(otherIsPlayer && !m.triggered) ==> r == Step(m, [])
  {
    if otherIsPlayer && !m.triggered then
      Step(m.(triggered := true, pauseScheduled := true), [Intro])
    else Step(m, [])
  }

  /** `PauseGame`, when the intro's timer fires: freeze time, mute the game
      sounds, show the panel and sound the highlighted button. */
  function PauseGame(m: Menu): (r: Step)
    ensures r.menu.paused && r.menu.panelActive
    ensures r.menu.timeScale == 0.0 && r.menu.gameVolume == MutedVolume
    ensures r.menu.buttonIndex == m.buttonIndex && !r.menu.pauseScheduled
    ensures r.sounds == [Highlight(m.buttonIndex)]
  {
    Step(m.(paused := true, panelActive := true, timeScale := 0.0, gameVolume := MutedVolume,
            pauseScheduled := false),
         [Highlight(m.buttonIndex)])
  }

  /** `ResumeGame`: the exact inverse of pausing. */
  function ResumeGame(m: Menu): (r: Menu)
    ensures !r.paused && !r.panelActive
    ensures r.timeScale == 1.0 && r.gameVolume == FullVolume
    ensures r.buttonIndex == m.buttonIndex && r.triggered == m.triggered
    ensures r.endGameScheduled == m.endGameScheduled
  {
    m.(paused := false, panelActive := false, timeScale := 1.0, gameVolume := FullVolume)
  }

  /** `ToggleButton`: move the highlight, wrapping below 0 to 1 and above 1
      to 0, and sound the newly highlighted button. */
  function ToggleButton(m: Menu, direction: int): (r: Step)
    ensures Valid(r.menu)
    ensures Valid(m) && (direction == 1 || direction == -1) ==> r.menu.buttonIndex == 1 - m.buttonIndex
    ensures r.menu == m.(buttonIndex := r.menu.buttonIndex)
    ensures r.sounds == [Highlight(r.menu.buttonIndex)]
  {
    var moved := m.buttonIndex + direction;
    var index := if moved < 0 then 1 else if moved > 1 then 0 else moved;
    Step(m.(buttonIndex := index), [Highlight(index)])
  }

  /** `ConfirmSelection`: sound the confirmation, resume, and schedule the
      ending, whichever button is highlighted. */
  function ConfirmSelection(m: Menu): (r: Step)
    ensures r.sounds == [Confirm(m.buttonIndex)]
    ensures r.menu == ResumeGame(m).(endGameScheduled := true)
  {
    Step(ResumeGame(m).(endGameScheduled := true), [Confirm(m.buttonIndex)])
  }

  /** The keys pressed down in one frame: A or left arrow, D or right
      arrow, Return or Space. */
  datatype Keys = Keys(left: bool, right: bool, confirm: bool)

  /** `Update`: keys are handled only while paused, in the order left,
      right, confirm. */
  function Update(m: Menu, keys: Keys): (r: Step)
    requires Valid(m)
    ensures !m.paused ==> r == Step(m, [])
    ensures Valid(r.menu)
    ensures m.paused && keys.confirm ==> !r.menu.paused && r.menu.endGameScheduled
    ensures m.paused && !keys.confirm ==> r.menu.paused && r.menu.endGameScheduled == m.endGameScheduled
    ensures m.paused && keys.left != keys.right ==> r.menu.buttonIndex == 1 - m.buttonIndex
    ensures m.paused && keys.left == keys.right ==> r.menu.buttonIndex == m.buttonIndex
  {
    if !m.paused then Step(m, [])
    else
      var l := if keys.left then ToggleButton(m, -1) else Step(m, []);
      var rt := if keys.right then ToggleButton(l.menu, 1) else Step(l.menu, []);
      var c := if keys.confirm then ConfirmSelection(rt.menu) else Step(rt.menu, []);
      Step(c.menu, l.sounds + rt.sounds + c.sounds)
  }

  /** Two moves in the same direction come back to the start. */
  lemma ToggleTwiceReturns(m: Menu, direction: int)
    requires Valid(m) && (direction == 1 || direction == -1)
    ensures ToggleButton(ToggleButton(m, direction).menu, direction).menu == m
  {
  }

  /** Pausing a running game and resuming it restores the time scale, the
      volume, the panel and the pause flag. */
  lemma ResumeUndoesPause(m: Menu)
    requires !m.paused && !m.panelActive && m.timeScale == 1.0 && m.gameVolume == FullVolume
    ensures ResumeGame(PauseGame(m).menu) == m.(pauseScheduled := false)
  {
  }

  function IntroCount(sounds: seq<Sound>): nat {
    if |sounds| == 0 then 0
    else (if sounds[0] == Intro then 1 else 0) + IntroCount(sounds[1..])
  }

  /** A run of trigger entries, each with whether the entering object is
      the player; returns the final menu and the intros played. */
  function EnterMany(m: Menu, entries: seq<bool>): (Menu, nat)
    decreases |entries|
  {
    if |entries| == 0 then (m, 0)
    else
      var s := TriggerEnter(m, entries[0]);
      var rest := EnterMany(s.menu, entries[1..]);
      (rest.0, IntroCount(s.sounds) + rest.1)
  }

  /** The intro starts at most once, and only for the player. */
  lemma {:induction false} IntroAtMostOnce(m: Menu, entries: seq<bool>)
    ensures EnterMany(m, entries).1 <= (if m.triggered then 0 else 1)
    ensures (forall i :: 0 <= i < |entries| ==> !entries[i]) ==> EnterMany(m, entries).1 == 0
    decreases |entries|
  {
    if |entries| > 0 {
      var s := TriggerEnter(m, entries[0]);
      assert IntroCount([Intro]) == 1 by { assert [Intro][1..] == []; }
      IntroAtMostOnce(s.menu, entries[1..]);
    }
  }
}
