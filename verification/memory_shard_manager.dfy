/** The memory-shard counter: every shard found adds one, and from the
    `totalShards`-th shard on each find opens the final door again. The
    manager is a scene-wide single instance. */
module MemoryShardManager {
  import opened Results

  /** The default `totalShards` set in the scene component. */
  const DefaultTotalShards: int := 3

  datatype Manager = Manager(totalShards: int, collected: int)

  function Initial(totalShards: int): (m: Manager)
    ensures m.collected == 0 && m.totalShards == totalShards
  {
    Manager(totalShards, 0)
  }

  datatype Find = Find(manager: Manager, opensDoor: bool)

  /** `ShardFound`: count the shard, and open the door (`OpenDoor`, which
      also schedules the audio sources) when the count has reached the
      total. Nothing remembers that the door was already opened. */
  function ShardFound(m: Manager): (r: Find)
    ensures r.manager.collected == m.collected + 1
    ensures r.manager.totalShards == m.totalShards
    ensures r.opensDoor <==> m.collected + 1 >= m.totalShards
  {
    var collected := m.collected + 1;
    Find(m.(collected := collected), collected >= m.totalShards)
  }

  /** `k` shards found in a row: the final state and how many of the finds
      opened the door. */
  function FindMany(m: Manager, k: nat): (Manager, nat)
    decreases k
  {
    if k == 0 then (m, 0)
    else
      var before := FindMany(m, k - 1);
      var f := ShardFound(before.0);
      (f.manager, before.1 + (if f.opensDoor then 1 else 0))
  }

  /** From a fresh manager, after `k` finds the count is `k`, and the door
      was opened once for every find from the `totalShards`-th on. */
  lemma {:induction false} DoorOpensFromThresholdOn(total: int, k: nat)
    requires total >= 1
    ensures FindMany(Initial(total), k).0 == Manager(total, k)
    ensures FindMany(Initial(total), k).1 == (if k >= total then k - total + 1 else 0)
    decreases k
  {
    if k > 0 {
      DoorOpensFromThresholdOn(total, k - 1);
    }
  }

  /** With the default total, the first two finds keep the door shut and
      the third opens it; so does every later find. */
  lemma DefaultThreeShards()
    ensures !ShardFound(Initial(DefaultTotalShards)).opensDoor
    ensures !ShardFound(ShardFound(Initial(DefaultTotalShards)).manager).opensDoor
    ensures ShardFound(ShardFound(ShardFound(Initial(DefaultTotalShards)).manager).manager).opensDoor
    ensures FindMany(Initial(DefaultTotalShards), 4).1 == 2
  {
    DoorOpensFromThresholdOn(DefaultTotalShards, 4);
  }

  /** The game objects holding the two ambient audio sources: `None` when
      unassigned, otherwise whether the object is active. */
  datatype Awakening = Awakening(instance: Option<nat>, destroyed: bool, audio1: Option<bool>, audio2: Option<bool>)

  /** `Awake` for the component with identity `self`: the first manager
      becomes the instance and any later one destroys itself; either way
      both assigned audio objects are deactivated. */
  function Awake(instance: Option<nat>, self: nat, audio1: Option<bool>, audio2: Option<bool>): (r: Awakening)
    ensures instance.None? ==> r.instance == Some(self) && !r.destroyed
    ensures instance.Some? ==> r.instance == instance && r.destroyed
    ensures r.audio1.Some? <==> audio1.Some?
    ensures r.audio2.Some? <==> audio2.Some?
    ensures r.audio1 != Some(true) && r.audio2 != Some(true)
  {
    var a1 := if audio1.Some? then Some(false) else None;
    var a2 := if audio2.Some? then Some(false) else None;
    if instance.None? then Awakening(Some(self), false, a1, a2)
    else Awakening(instance, true, a1, a2)
  }

  /** Managers waking one after another (`selves` are their identities):
      the instance afterwards and how many destroyed themselves. */
  function AwakeAll(instance: Option<nat>, selves: seq<nat>): (Option<nat>, nat)
    decreases |selves|
  {
    if |selves| == 0 then (instance, 0)
    else
      var a := Awake(instance, selves[0], None, None);
      var rest := AwakeAll(a.instance, selves[1..]);
      (rest.0, rest.1 + (if a.destroyed then 1 else 0))
  }

  /** However many managers wake, the first one stays the single instance
      and every later one is destroyed. */
  lemma {:induction false} FirstManagerWins(selves: seq<nat>)
    requires |selves| > 0
    ensures AwakeAll(None, selves) == (Some(selves[0]), |selves| - 1)
  {
    KeepsInstance(selves[0], selves[1..]);
  }

  lemma {:induction false} KeepsInstance(self: nat, later: seq<nat>)
    ensures AwakeAll(Some(self), later) == (Some(self), |later|)
    decreases |later|
  {
    if |later| > 0 {
      KeepsInstance(self, later[1..]);
    }
  }
}
