/** The player's wall-contact sounds (`WallCollisionCheck` under
    Scripts/Player/): a contact the player faces within the threshold is a
    direct hit and plays an "ow" clip once; any other contact is scraping
    and loops a scrape clip while the player moves. The angles between the
    look direction and each reversed contact normal (degrees, from
    `Vector3.Angle`), whether the look direction is zero, the player's
    motion and the audio source's state are inputs. */
module PlayerWallCollision {

  datatype Flags = Flags(colliding: bool, scraping: bool, playedOw: bool)

  datatype Scan = Scan(direct: bool, scraping: bool)

  /** The contact loop of `HandleCollision`: stop at the first contact
      faced within the threshold; every contact passed before that marks
      scraping. */
  function ScanContacts(angles: seq<real>, threshold: real, scrapingSoFar: bool): (v: Scan)
    ensures v.direct <==> exists i :: 0 <= i < |angles| && angles[i] <= threshold
    ensures !v.direct ==> (v.scraping <==> scrapingSoFar || |angles| > 0)
  {
    if |angles| == 0 then Scan(false, scrapingSoFar)
    else if angles[0] <= threshold then Scan(true, scrapingSoFar)
    else ScanContacts(angles[1..], threshold, true)
  }

  /** `HandleCollision`: a zero look direction clears both flags; otherwise
      a direct hit wins over scraping. The "ow" flag is not touched. */
  function HandleCollision(f: Flags, lookIsZero: bool, angles: seq<real>, threshold: real): (r: Flags)
    ensures lookIsZero ==> !r.colliding && !r.scraping
    ensures !lookIsZero ==> (r.colliding <==> exists i :: 0 <= i < |angles| && angles[i] <= threshold)
    ensures !lookIsZero ==> (r.scraping <==> |angles| > 0 && forall i :: 0 <= i < |angles| ==> angles[i] > threshold)
    ensures !(r.colliding && r.scraping)
    ensures r.playedOw == f.playedOw
  {
    if lookIsZero then f.(colliding := false, scraping := false)
    else
      var v := ScanContacts(angles, threshold, false);
      if v.direct then f.(colliding := true, scraping := false)
      else if v.scraping then f.(colliding := false, scraping := true)
      else f.(colliding := false, scraping := false)
  }

  datatype Command = PlayOw | StopSource | LoopScrape

  datatype Frame = Frame(flags: Flags, commands: seq<Command>)

  /** `Update`: the "ow" clip plays on the first frame of a direct hit and a
      running scrape loop is stopped; scraping while moving (re)starts the
      scrape loop; otherwise any sound is stopped. Leaving the direct-hit
      state re-arms the "ow" clip. */
  function Update(f: Flags, moving: bool, sourcePlaying: bool, sourceClipIsScrape: bool): (r: Frame)
    ensures r.flags.colliding == f.colliding && r.flags.scraping == f.scraping
    ensures PlayOw in r.commands <==> f.colliding && !f.playedOw
    ensures f.colliding ==> r.flags.playedOw
    ensures !f.colliding ==> !r.flags.playedOw
    ensures LoopScrape in r.commands <==>
      !f.colliding && f.scraping && moving && !(sourcePlaying && sourceClipIsScrape)
    ensures StopSource in r.commands <==>
      || (f.colliding && sourcePlaying && sourceClipIsScrape)
      || (!f.colliding && !(f.scraping && moving) && sourcePlaying)
    ensures |r.commands| <= 2
  {
    if f.colliding then
      var ow := if !f.playedOw then [PlayOw] else [];
      var stop := if sourcePlaying && sourceClipIsScrape then [StopSource] else [];
      Frame(f.(playedOw := true), ow + stop)
    else if f.scraping && moving then
      Frame(f.(playedOw := false),
            if !sourcePlaying || !sourceClipIsScrape then [LoopScrape] else [])
    else
      Frame(f.(playedOw := false), if sourcePlaying then [StopSource] else [])
  }

  /** `OnCollisionExit`: every flag is cleared and a playing sound stops. */
  function CollisionExit(f: Flags, sourcePlaying: bool): (r: Frame)
    ensures r.flags == Flags(false, false, false)
    ensures r.commands == (if sourcePlaying then [StopSource] else [])
  {
    Frame(Flags(false, false, false), if sourcePlaying then [StopSource] else [])
  }

  datatype Event =
    | Contact(lookIsZero: bool, angles: seq<real>)
    | Tick(moving: bool, sourcePlaying: bool, sourceClipIsScrape: bool)
    | Exit(sourcePlaying: bool)

  function Apply(f: Flags, threshold: real, e: Event): Frame {
    match e
    case Contact(z, angles) => Frame(HandleCollision(f, z, angles, threshold), [])
    case Tick(m, p, s) => Update(f, m, p, s)
    case Exit(p) => CollisionExit(f, p)
  }

  function OwCount(commands: seq<Command>): nat {
    if |commands| == 0 then 0
    else (if commands[0] == PlayOw then 1 else 0) + OwCount(commands[1..])
  }

  /** The flags after a run of callbacks, and how many "ow" clips it played. */
  function Run(f: Flags, threshold: real, events: seq<Event>): (Flags, nat)
    decreases |events|
  {
    if |events| == 0 then (f, 0)
    else
      var step := Apply(f, threshold, events[0]);
      var rest := Run(step.flags, threshold, events[1..]);
      (rest.0, OwCount(step.commands) + rest.1)
  }

  /** The direct-hit flag holds now and after every callback of the run. */
  predicate StaysColliding(f: Flags, threshold: real, events: seq<Event>)
    decreases |events|
  {
    f.colliding &&
    (|events| == 0 || StaysColliding(Apply(f, threshold, events[0]).flags, threshold, events[1..]))
  }

  lemma OwCountOfUpdate(f: Flags, moving: bool, playing: bool, isScrape: bool)
    requires f.colliding
    ensures OwCount(Update(f, moving, playing, isScrape).commands) == (if f.playedOw then 0 else 1)
  {
    assert OwCount([StopSource]) == 0 by {
      assert [StopSource][1..] == [];
    }
    assert OwCount([PlayOw, StopSource]) == 1 by {
      assert [PlayOw, StopSource][1..] == [StopSource];
    }
    assert OwCount([PlayOw]) == 1 by {
      assert [PlayOw][1..] == [];
    }
  }

  /** Within one continuous direct-hit stretch the "ow" clip plays at most
      once, and not at all if it already played. */
  lemma {:induction false} OwAtMostOncePerStretch(f: Flags, threshold: real, events: seq<Event>)
    requires StaysColliding(f, threshold, events)
    ensures Run(f, threshold, events).1 <= (if f.playedOw then 0 else 1)
    decreases |events|
  {
    if |events| > 0 {
      var step := Apply(f, threshold, events[0]);
      OwAtMostOncePerStretch(step.flags, threshold, events[1..]);
      match events[0]
      case Contact(_, _) =>
      case Tick(m, p, s) => OwCountOfUpdate(f, m, p, s);
      case Exit(_) =>
    }
  }

  /** A direct hit and scraping are never reported together. */
  lemma {:induction false} NeverBothCollidingAndScraping(f: Flags, threshold: real, events: seq<Event>)
    requires !(f.colliding && f.scraping)
    ensures !(Run(f, threshold, events).0.colliding && Run(f, threshold, events).0.scraping)
    decreases |events|
  {
    if |events| > 0 {
      NeverBothCollidingAndScraping(Apply(f, threshold, events[0]).flags, threshold, events[1..]);
    }
  }
}
