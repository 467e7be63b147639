/** The play-session log: a setup block describing the player, one line per
    game event, and on closing a summary of named integer counters. The
    file is modelled as the sequence of `WriteLine` arguments (each line's
    terminator is the platform's); the clock's text is an input, and a
    writer that failed to open is a closed log. */
module LogManager {
  import opened Results
  import Text

  const SetupHeader: string := "SETUP CONFIGURATION:"
  const EventsSeparator: string := "\n--- GAME EVENTS ---"
  const SummaryHeader: string := "\n--- SUMMARY ---"

  /** C# `int` arithmetic is unchecked: sums wrap modulo 2^32. */
  const IntMin: int := -0x8000_0000
  const IntRange: int := 0x1_0000_0000

  predicate IsInt32(v: int) {
    IntMin <= v < IntMin + IntRange
  }

  function AddInt32(a: int, b: int): (r: int)
    ensures IsInt32(r)
    ensures IsInt32(a + b) ==> r == a + b
    ensures (r - (a + b)) % IntRange == 0
  {
    (a + b - IntMin) % IntRange + IntMin
  }

  datatype Movement = Movement(moveSpeed: string, rotationSpeed: string)
  datatype SonarSettings = SonarSettings(maxRayLength: string, maxPingInterval: string, minPingInterval: string)
  datatype InteractorSettings = InteractorSettings(point: string, radius: string)

  /** The player object and the components `WriteSetupConfiguration` looks
      for on it; numbers are given as the text C# renders for them. */
  datatype Player = Player(
    name: string,
    movement: Option<Movement>,
    sonar: Option<SonarSettings>,
    interactor: Option<InteractorSettings>)

  /** The named counters, in the order they were first stored. */
  type Counters = seq<(string, int)>

  datatype Log = Log(writerOpen: bool, lines: seq<string>, counters: Counters, player: Option<Player>)

  /** The manager after `Awake`: `writerCreated` says whether the writer could be
      created. */
  function Initial(writerCreated: bool): (l: Log)
    ensures l.writerOpen == writerCreated && l.lines == [] && l.counters == [] && l.player.None?
  {
    Log(writerCreated, [], [], None)
  }

  predicate UniqueKeys(c: Counters) {
    forall i, j :: 0 <= i < j < |c| ==> c[i].0 != c[j].0
  }

  /** The counter map's view of the stored counters. */
  function Lookup(c: Counters, key: string): (r: Option<int>)
    ensures r.Some? <==> exists i :: 0 <= i < |c| && c[i].0 == key
    ensures UniqueKeys(c) ==> forall i :: 0 <= i < |c| && c[i].0 == key ==> r == Some(c[i].1)
  {
    if |c| == 0 then None
    else if c[0].0 == key then Some(c[0].1)
    else Lookup(c[1..], key)
  }

  /** The counter map's `dict[key] += change` or `dict.Add(key, change)`:
      an existing entry keeps its place, a new key goes at the end. */
  function Store(c: Counters, key: string, change: int): (r: Counters)
    ensures Lookup(c, key).Some? ==> |r| == |c| && forall i :: 0 <= i < |c| ==> r[i].0 == c[i].0
    ensures Lookup(c, key).None? ==> r == c + [(key, change)]
    decreases |c|
  {
    if |c| == 0 then [(key, change)]
    else if c[0].0 == key then [(key, AddInt32(c[0].1, change))] + c[1..]
    else
      assert c == [c[0]] + c[1..];
      LookupCons(c[0], c[1..]);
      [c[0]] + Store(c[1..], key, change)
  }

  /** Looking a key up in a list with a given first entry. */
  lemma LookupCons(e: (string, int), rest: Counters)
    ensures forall key :: Lookup([e] + rest, key) == if e.0 == key then Some(e.1) else Lookup(rest, key)
  {
    assert ([e] + rest)[1..] == rest;
  }

  /** Storing keeps every key at most once. */
  lemma StoreKeepsKeysUnique(c: Counters, key: string, change: int)
    requires UniqueKeys(c)
    ensures UniqueKeys(Store(c, key, change))
  {
    var r := Store(c, key, change);
    if Lookup(c, key).None? {
      forall i | 0 <= i < |c|
        ensures c[i].0 != key
      {
      }
    }
  }

  /** Storing adds the change to the stored key (or stores the change as
      its first value) and leaves every other key's value alone. */
  lemma {:induction false} StoreLookup(c: Counters, key: string, change: int)
    requires UniqueKeys(c)
    ensures var r := Store(c, key, change);
            && Lookup(r, key) == Some(if Lookup(c, key).Some? then AddInt32(Lookup(c, key).value, change) else change)
            && forall other :: other != key ==> Lookup(r, other) == Lookup(c, other)
    decreases |c|
  {
    if |c| > 0 {
      var rest := c[1..];
      assert c == [c[0]] + rest;
      LookupCons(c[0], rest);
      if c[0].0 == key {
        LookupCons((key, AddInt32(c[0].1, change)), rest);
      } else {
        assert UniqueKeys(rest) by {
          forall a, b | 0 <= a < b < |rest|
            ensures rest[a].0 != rest[b].0
          {
            assert rest[a] == c[a + 1] && rest[b] == c[b + 1];
          }
        }
        StoreLookup(rest, key, change);
        LookupCons(c[0], Store(rest, key, change));
      }
    }
  }

  /** `StoreValue`: add the change to a stored counter, or store it as the
      counter's first value. Nothing is written to the file. */
  function StoreValue(l: Log, key: string, change: int): (r: Log)
    requires UniqueKeys(l.counters)
    ensures UniqueKeys(r.counters)
    ensures Lookup(l.counters, key).None? ==> Lookup(r.counters, key) == Some(change)
    ensures Lookup(l.counters, key).Some? ==>
      Lookup(r.counters, key) == Some(AddInt32(Lookup(l.counters, key).value, change))
    ensures forall other :: other != key ==> Lookup(r.counters, other) == Lookup(l.counters, other)
    ensures r.lines == l.lines && r.writerOpen == l.writerOpen && r.player == l.player
  {
    StoreKeepsKeysUnique(l.counters, key, change);
    StoreLookup(l.counters, key, change);
    l.(counters := Store(l.counters, key, change))
  }

  /** The text of one event line. */
  function EventLine(time: string, eventName: string): string {
    "time: " + time + ", event: " + eventName
  }

  /** Position of the first ',' in `s`, or |s| if there is none. */
  function CommaAt(s: string): (k: nat)
    ensures k <= |s| && ',' !in s[..k]
    ensures k < |s| ==> s[k] == ','
  {
    if |s| == 0 then 0
    else if s[0] == ',' then 0
    else
      var k := CommaAt(s[1..]);
      assert s[..k + 1] == [s[0]] + s[1..][..k];
      k + 1
  }

  /** Reads an event line back into its time and event name. */
  function ParseEventLine(line: string): Option<(string, string)> {
    if !Text.StartsWith(line, "time: ") then None
    else
      var rest := line[6..];
      var k := CommaAt(rest);
      if Text.StartsWith(rest[k..], ", event: ") then Some((rest[..k], rest[k + 9..]))
      else None
  }

  /** An event line keeps both parts: a clock text without commas and any
      event name are read back unchanged. */
  lemma EventLineRoundTrip(time: string, eventName: string)
    requires ',' !in time
    ensures ParseEventLine(EventLine(time, eventName)) == Some((time, eventName))
  {
    var line := EventLine(time, eventName);
    assert line[..6] == "time: ";
    var rest := line[6..];
    assert rest == time + ", event: " + eventName;
    assert rest[|time|] == ',';
    assert rest[..|time|] == time;
    var k := CommaAt(rest);
    assert k == |time|;
    assert rest[k..][..9] == ", event: ";
    assert rest[k + 9..] == eventName;
  }

  /** `LogEvent`: one event line, only when the writer is open. */
  function LogEvent(l: Log, time: string, eventName: string): (r: Log)
    ensures !l.writerOpen ==> r == l
    ensures l.writerOpen ==> |r.lines| == |l.lines| + 1 && r.lines[..|l.lines|] == l.lines
    ensures l.writerOpen && ',' !in time ==> ParseEventLine(r.lines[|l.lines|]) == Some((time, eventName))
    ensures r.counters == l.counters && r.writerOpen == l.writerOpen && r.player == l.player
  {
    if !l.writerOpen then l
    else
      assert ',' !in time ==> ParseEventLine(EventLine(time, eventName)) == Some((time, eventName)) by {
        if ',' !in time {
          EventLineRoundTrip(time, eventName);
        }
      }
      l.(lines := l.lines + [EventLine(time, eventName)])
  }

  function CounterLine(entry: (string, int)): string {
    entry.0 + ": " + Text.IntToString(entry.1)
  }

  /** The summary block: its header, then one "key: value" line per
      counter, in storing order. */
  function SummaryLines(c: Counters): (r: seq<string>)
    ensures |r| == |c| + 1 && r[0] == SummaryHeader
    ensures forall i :: 0 <= i < |c| ==> r[i + 1] == CounterLine(c[i])
  {
    var body := CounterLines(c);
    var r := [SummaryHeader] + body;
    assert forall i :: 0 <= i < |c| ==> r[i + 1] == body[i];
    r
  }

  function CounterLines(c: Counters): (r: seq<string>)
    ensures |r| == |c| && forall i :: 0 <= i < |c| ==> r[i] == CounterLine(c[i])
  {
    if |c| == 0 then [] else [CounterLine(c[0])] + CounterLines(c[1..])
  }

  /** Every counter the map holds appears in the summary with its value. */
  lemma SummaryListsEveryCounter(c: Counters, key: string)
    requires UniqueKeys(c) && Lookup(c, key).Some?
    ensures key + ": " + Text.IntToString(Lookup(c, key).value) in SummaryLines(c)[1..]
  {
    var i :| 0 <= i < |c| && c[i].0 == key;
    assert SummaryLines(c)[1..][i] == CounterLine(c[i]);
  }

  /** `LogSummary`: writes the summary block if the writer is open. */
  function LogSummary(l: Log): (r: Log)
    ensures !l.writerOpen ==> r == l
    ensures l.writerOpen ==> r == l.(lines := l.lines + SummaryLines(l.counters))
  {
    if !l.writerOpen then l else l.(lines := l.lines + SummaryLines(l.counters))
  }

  /** `CloseLogFile`: with an open writer, write the summary and drop the
      writer; with none, do nothing. */
  function CloseLogFile(l: Log): (r: Log)
    ensures !r.writerOpen
    ensures !l.writerOpen ==> r == l
    ensures l.writerOpen ==>
      && |r.lines| == |l.lines| + |l.counters| + 1
      && r.lines[..|l.lines|] == l.lines
      && r.lines[|l.lines|] == SummaryHeader
    ensures l.writerOpen ==> r.lines == l.lines + SummaryLines(l.counters)
    ensures r.counters == l.counters && r.player == l.player
  {
    if l.writerOpen then LogSummary(l).(writerOpen := false) else l
  }

  /** Quitting and then destroying the manager (both close the log) writes
      the summary once. */
  lemma CloseIsIdempotent(l: Log)
    ensures CloseLogFile(CloseLogFile(l)) == CloseLogFile(l)
  {
  }

  /** The setup block for a player: its header, the player section (with
      name and speeds when the movement component is present), the sonar
      and interactor sections when present, and the events separator. */
  function SetupBlock(p: Player): (r: seq<string>)
    ensures |r| >= 3
    ensures r[0] == SetupHeader && r[1] == "Player:" && r[|r| - 1] == EventsSeparator
    ensures |r| == 3 + (if p.movement.Some? then 3 else 0) + (if p.sonar.Some? then 4 else 0)
                     + (if p.interactor.Some? then 3 else 0)
    ensures p.movement.Some? ==>
      r[2..5] == ["Name: " + p.name, "Move Speed: " + p.movement.value.moveSpeed,
                  "Rotation Speed: " + p.movement.value.rotationSpeed]
    ensures var at := 2 + (if p.movement.Some? then 3 else 0);
      p.sonar.Some? ==>
        r[at..at + 4] == ["\nSonar:", "Max Ray Length: " + p.sonar.value.maxRayLength,
                          "Max Ping Interval: " + p.sonar.value.maxPingInterval,
                          "Min Ping Interval: " + p.sonar.value.minPingInterval]
    ensures var at := 2 + (if p.movement.Some? then 3 else 0) + (if p.sonar.Some? then 4 else 0);
      p.interactor.Some? ==>
        r[at..at + 3] == ["\nInteractor:", "Interaction Point: " + p.interactor.value.point,
                          "Interaction Point Radius: " + p.interactor.value.radius]
  {
    var movement := match p.movement
      case None => []
      case Some(m) => ["Name: " + p.name, "Move Speed: " + m.moveSpeed, "Rotation Speed: " + m.rotationSpeed];
    var sonar := match p.sonar
      case None => []
      case Some(s) => ["\nSonar:", "Max Ray Length: " + s.maxRayLength,
                       "Max Ping Interval: " + s.maxPingInterval, "Min Ping Interval: " + s.minPingInterval];
    var interactor := match p.interactor
      case None => []
      case Some(i) => ["\nInteractor:", "Interaction Point: " + i.point,
                       "Interaction Point Radius: " + i.radius];
    [SetupHeader, "Player:"] + movement + sonar + interactor + [EventsSeparator]
  }

  /** A reader of the log can tell which components the player had: the
      sonar and interactor headings appear exactly when those components
      exist, and a move-speed line exactly when the movement one does. */
  lemma SetupBlockShowsComponents(p: Player)
    ensures "\nSonar:" in SetupBlock(p) <==> p.sonar.Some?
    ensures "\nInteractor:" in SetupBlock(p) <==> p.interactor.Some?
    ensures (exists i :: 0 <= i < |SetupBlock(p)| && Text.StartsWith(SetupBlock(p)[i], "Move Speed: "))
            <==> p.movement.Some?
  {
    var r := SetupBlock(p);
    var m := if p.movement.Some? then 3 else 0;
    var so := if p.sonar.Some? then 4 else 0;
    var it := if p.interactor.Some? then 3 else 0;
    forall i | 0 <= i < |r|
      ensures r[i] == "\nSonar:" ==> p.sonar.Some?
      ensures r[i] == "\nInteractor:" ==> p.interactor.Some?
      ensures Text.StartsWith(r[i], "Move Speed: ") ==> p.movement.Some?
    {
      if i < 2 || i == |r| - 1 {
        assert r[i][0] != '\n' || r[i][1] == '-';
        assert r[i][0] != 'M';
      } else if i < 2 + m {
        assert r[2..5][i - 2] == r[i];
        assert r[i][0] == 'N' || r[i][0] == 'M' || r[i][0] == 'R';
      } else if i < 2 + m + so {
        assert r[2 + m..6 + m][i - 2 - m] == r[i];
        assert r[i][0] == '\n' || r[i][1] != 'o';
      } else {
        assert i < 2 + m + so + it;
        assert r[2 + m + so..5 + m + so][i - 2 - m - so] == r[i];
        assert r[i] == "\nInteractor:" || r[i][0] == 'I';
        assert "\nInteractor:"[1] != "\nSonar:"[1];
      }
    }
    if p.sonar.Some? {
      assert r[2 + m..6 + m][0] == "\nSonar:";
    }
    if p.interactor.Some? {
      assert r[2 + m + so..5 + m + so][0] == "\nInteractor:";
    }
    if p.movement.Some? {
      assert r[2..5][1] == r[3];
      assert r[3][..12] == "Move Speed: ";
    }
  }

  /** `WriteSetupConfiguration`: nothing without an open writer or without
      a player; otherwise the setup block. */
  function WriteSetupConfiguration(l: Log): (r: Log)
    ensures !l.writerOpen || l.player.None? ==> r == l
    ensures l.writerOpen && l.player.Some? ==> r == l.(lines := l.lines + SetupBlock(l.player.value))
  {
    if !l.writerOpen || l.player.None? then l
    else l.(lines := l.lines + SetupBlock(l.player.value))
  }

  datatype Search = Search(log: Log, wroteSetup: bool)

  /** `Start` and each `Update` while no player is known: look the player up
      (`found` is the tag search's answer) and write the setup block as
      soon as it is found. */
  function FindPlayer(l: Log, found: Option<Player>): (r: Search)
    ensures l.player.Some? ==> r == Search(l, false)
    ensures l.player.None? ==> r.log.player == found
    ensures r.wroteSetup <==> l.player.None? && found.Some? && l.writerOpen
  {
    if l.player.Some? then Search(l, false)
    else
      var withPlayer := l.(player := found);
      Search(WriteSetupConfiguration(withPlayer), found.Some? && l.writerOpen)
  }

  function SearchMany(l: Log, founds: seq<Option<Player>>): (Log, nat)
    decreases |founds|
  {
    if |founds| == 0 then (l, 0)
    else
      var s := FindPlayer(l, founds[0]);
      var rest := SearchMany(s.log, founds[1..]);
      (rest.0, (if s.wroteSetup then 1 else 0) + rest.1)
  }

  /** However many frames search for the player, the setup block is written
      at most once, and never once a player is known. */
  lemma {:induction false} SetupWrittenAtMostOnce(l: Log, founds: seq<Option<Player>>)
    ensures SearchMany(l, founds).1 <= (if l.player.Some? then 0 else 1)
    decreases |founds|
  {
    if |founds| > 0 {
      SetupWrittenAtMostOnce(FindPlayer(l, founds[0]).log, founds[1..]);
    }
  }
}
