# Fragments of Truth — a Dafny model of the game's rule logic

Fragments of Truth is an audio-first Unity game: the player finds their
way through dark rooms by sound, solves small puzzles and collects memory
shards. This project models the rule logic inside its components. Each
component becomes a state record, with pure transition functions that
return the new state together with what the component plays or logs.
Everything the engine provides — audio-source state, physics contacts,
key presses, random draws, the clock, the polygon triangulator — becomes
a parameter.

The modules:

- `RoomBuilder` models the editable room. It is a ring of floor vertices with one visibility flag per wall. From it, one mesh is rebuilt holding the floor, the ceiling (the floor raised by the ceiling height, wound the other way) and a quad per visible wall. The mesh has three submeshes with materials in the order floor, ceiling, walls.
- `CodeLock` is the sound safe. A and D step a dial through click sounds. E confirms a digit of a random three-digit combination. Escape ends the interaction. The whole combination opens the safe.
- `FirePuzzle` covers the bucket, the sink and the fire stove. The bucket must be picked up, filled and used on the stove. The fire goes out at most once.
- `KeyAndLock` is the key that makes a locked door report success.
- `MemoryShardManager` is the shard counter that opens the final door.
- `PauseMenu` is the end-of-game menu (`ButtonToggle`). Its intro trigger pauses the game behind a two-button panel.
- `InvertSpeakerState` is the trigger that toggles a set of speakers.
- `ClipPicker` is the "no immediate repeat" clip picker shared by footsteps, wall hits and door creaks. `Footsteps` and `DoorSounds` are its two callers that play on their own.
- `WallHitCheck` is the wall-hit sound component at the top of the asset tree. `PlayerWallCollision` is the player's "ow" and scrape sounds.
- `VoiceLineShuffler` is the narrator's Durstenfeld shuffle and the cyclic playback over the shuffled lines.
- `AudioManager` pauses, resumes and plays the narrator's sources.
- `LogManager` is the session log. It holds the setup block, the event lines and a counter map summarised on close.

Shared modules:

- `Results` holds the `Result`/`Option` types and the two runtime faults the components can hit: an index out of range and a null reference.
- `Text` holds the decimal rendering of integers that C# string interpolation performs.

## Model

| member | source | states |
|---|---|---|
| Text.ParseNatToString | Assets/Scripts/RoomBuilder/RoomBuilder.cs:98 | The decimal text of a vertex count reads back as that count. It is all digits with no leading zero. |
| Text.NatToStringInjective | Assets/Scripts/RoomBuilder/RoomBuilder.cs:98 | Different counts render differently, so vertices created at different counts get different names. |
| RoomBuilder.AdjustWallVisibility | Assets/Scripts/RoomBuilder/RoomBuilder.cs:63-77 | The list ends with exactly one flag per wall. The kept prefix is unchanged. Every added flag is `true`. Shrinking drops flags only from the end. |
| RoomBuilder.AdjustWalls | Assets/Scripts/RoomBuilder/RoomBuilder.cs:63-77 | Afterwards the room has one visibility flag per vertex. Vertices, height and materials are untouched. |
| RoomBuilder.AdjustIsIdempotent | Assets/Scripts/RoomBuilder/RoomBuilder.cs:63-77 | Resynchronising an already synchronised list changes nothing. |
| RoomBuilder.CreateVertex | Assets/Scripts/RoomBuilder/RoomBuilder.cs:96-104 | Exactly one vertex is appended, named "Vertex_" plus the previous count. The list stays in sync. On a synchronised room exactly one visible wall is added. |
| RoomBuilder.RemoveLastVertex | Assets/Scripts/RoomBuilder/RoomBuilder.cs:106-116 | An empty ring is left alone. Otherwise only the last vertex goes, at any size (there is no three-vertex floor), and the flags of the remaining walls are kept. |
| RoomBuilder.RemoveUndoesCreate | Assets/Scripts/RoomBuilder/RoomBuilder.cs:96-116 | Removing the vertex just created restores the synchronised room exactly. |
| RoomBuilder.CreateAll | Assets/Scripts/RoomBuilder/RoomBuilder.cs:90-93 | Creating a list of positions appends one vertex per position, in order. Each is named after its position in the ring; earlier vertices are kept. |
| RoomBuilder.CreateAllSplits | Assets/Scripts/RoomBuilder/RoomBuilder.cs:90-93 | Creating one run of positions and then another is creating the joined run. |
| RoomBuilder.FilterVertices | Assets/Scripts/RoomBuilder/RoomBuilder.cs:45-52 | The children kept are exactly those whose names start with "Vertex_". A single child is kept exactly when it has the prefix. |
| RoomBuilder.FilterVerticesKeepsOrder | Assets/Scripts/RoomBuilder/RoomBuilder.cs:46-51 | Filtering keeps child order and multiplicity: filtering two runs joined is the two filtered runs joined. |
| RoomBuilder.FilterKeepsPrefixed | Assets/Scripts/RoomBuilder/RoomBuilder.cs:46-51 | Children that all carry the prefix are kept unchanged. |
| RoomBuilder.InitializeFloorVertices | Assets/Scripts/RoomBuilder/RoomBuilder.cs:42-61 | The ring is the prefixed children. When there are none, it is the default 10 x 10 square Vertex_0..Vertex_3. The visibility list matches the ring. |
| RoomBuilder.InitializeIsIdempotent | Assets/Scripts/RoomBuilder/RoomBuilder.cs:42-61 | Initialising again from the vertices just produced (the default square included) gives the same room. |
| RoomBuilder.NextCorner | Assets/Scripts/RoomBuilder/RoomBuilder.cs:204 | A wall ends at the next vertex of the ring. The last wall closes the ring back at vertex 0. |
| RoomBuilder.QuadTriangles | Assets/Scripts/RoomBuilder/RoomBuilder.cs:226-233 | A wall quad's six triangle indices all lie inside its own four vertices. |
| RoomBuilder.WallBuffers | Assets/Scripts/RoomBuilder/RoomBuilder.cs:195-234 | The walls add 4 vertices, 4 UVs and 6 indices per visible wall and nothing for a hidden one. Every wall index points into the wall vertices. |
| RoomBuilder.WallQuad | Assets/Scripts/RoomBuilder/RoomBuilder.cs:197-234 | Visible wall i is the c-th quad (c = visible walls before it). Its vertices run floor i, floor i+1 (mod N), ceiling i+1, ceiling i. Its UVs go along the wall and up to the height. Its triangles are (b,b+1,b+2),(b+2,b+3,b). |
| RoomBuilder.CeilingIndices | Assets/Scripts/RoomBuilder/RoomBuilder.cs:187-193 | The ceiling's triangle list is the triangulator's list read backwards, each index shifted past the floor vertices. |
| RoomBuilder.BuildMesh | Assets/Scripts/RoomBuilder/RoomBuilder.cs:139-256 | The buffer holds 2N + 4·(visible walls) vertices with one UV each. There are exactly three submeshes, the wall one holding 6 indices per visible wall. The materials are floor, ceiling, wall in that order. |
| RoomBuilder.MeshPlanLayout | Assets/Scripts/RoomBuilder/RoomBuilder.cs:156-193 | Vertex i is floor vertex i. Vertex N+i is the same point raised by the ceiling height. Both are textured by their plan (x, z). Submesh 0 is the floor triangulation; submesh 1 is the ceiling's, reversed and shifted by N. |
| RoomBuilder.UpdateRoom | Assets/Scripts/RoomBuilder/RoomBuilder.cs:118-124 | With fewer than three vertices no mesh is built and the room is untouched. Otherwise the visibility list is first fitted to the vertices and the mesh built from that. |
| RoomBuilder.MeshHasQuadPerVisibleWall | Assets/Scripts/RoomBuilder/RoomBuilder.cs:195-234 | In the final buffer, visible wall i is the quad starting at 2N + 4c, joining vertex i to vertex (i+1) mod N and rising to the ceiling. It is drawn as (b,b+1,b+2),(b+2,b+3,b) at position 6c of the wall submesh. |
| RoomBuilder.MeshIndicesInRange | Assets/Scripts/RoomBuilder/RoomBuilder.cs:168-243 | If the triangulator returns indices in [0, N): floor indices lie in [0, N), ceiling indices in [N, 2N), and wall indices in [2N, vertex count). Every index points into the buffer. |
| RoomBuilder.CeilingMirrorsFloor | Assets/Scripts/RoomBuilder/RoomBuilder.cs:187-193 | If the triangulator gives the raised polygon the floor's answer, each ceiling triangle is a floor triangle with its winding flipped, shifted by N. |
| CodeLock.SetUpCorrectCombination | Assets/Scripts/Objects/InteractableSystem/CodeLock.cs:135-144 | The combination is a fresh array of exactly three digits; digit i is the i-th random draw, so each is a valid click index, and all are 0 when there are no clicks. |
| CodeLock.EveryCombinationReachable | Assets/Scripts/Objects/InteractableSystem/CodeLock.cs:136-143 | Every three-digit combination of valid click indices comes out of some draws, and draws after the third are never used. |
| CodeLock.Initial | Assets/Scripts/Objects/InteractableSystem/CodeLock.cs:22-32 | A fresh lock is at step 0 and dial 0, not interacting, with no instructions played, and satisfies the lock invariant. |
| CodeLock.Interact | Assets/Scripts/Objects/InteractableSystem/CodeLock.cs:40-56 | Always succeeds, also on an open safe. It pauses the player and starts interacting. The instructions play only on the first interaction. Progress, dial, combination, name, click count and both layers are kept, so the lock invariant survives. |
| CodeLock.EndInteraction | Assets/Scripts/Objects/InteractableSystem/CodeLock.cs:129-133 | Stops interacting and frees the player. It keeps the step, the dial and both layers. |
| CodeLock.ChangeSound | Assets/Scripts/Objects/InteractableSystem/CodeLock.cs:77-101 | With no click sounds the dial indexes out of range. Otherwise a ±1 turn moves the dial to (index ± 1) mod length, keeping it in range and changing nothing else. It sounds the hint exactly when the dial is on the expected digit, else that click. |
| CodeLock.DialTurnsCancel | Assets/Scripts/Objects/InteractableSystem/CodeLock.cs:77-89 | Turning up and then down returns the lock to exactly where it was, wrap-around included. |
| CodeLock.UnlockSafe | Assets/Scripts/Objects/InteractableSystem/CodeLock.cs:120-127 | The interaction ends, the memory becomes interactable (layer 6) and the lock is set to the default layer. |
| CodeLock.ConfirmSelection | Assets/Scripts/Objects/InteractableSystem/CodeLock.cs:103-118 | A right non-final digit advances the step by one, sounds "right" and changes nothing else. A wrong one resets the step to 0, sounds "wrong" and changes nothing else. The dial is kept either way and each outcome is logged with the lock's name. The unlock sounds play exactly when the step reaches the combination length, and the lock is then unlocked. |
| CodeLock.ManagePlayerInput | Assets/Scripts/Objects/InteractableSystem/CodeLock.cs:58-75 | Once the combination is complete no key has any effect, Escape included, even while interacting. Otherwise the frame keeps the lock invariant, Escape ends the interaction, and without E the step is unchanged. The safe unlocks in exactly the frame the last digit is confirmed. |
| CodeLock.Update | Assets/Scripts/Objects/InteractableSystem/CodeLock.cs:34-38 | Keys are ignored unless interacting, and every frame keeps the lock invariant, which holds for an open safe interacted with again. |
| CodeLock.OpenSafeIgnoresInput | Assets/Scripts/Objects/InteractableSystem/CodeLock.cs:34-75 | Once the safe is open, every frame of input leaves it unchanged and silent. After interacting with it again the same holds: the progress stays complete and no key, Escape included, releases the paused player. |
| FirePuzzle.Initial | Assets/Scripts/Objects/FireStove.cs:10-17 | The stove starts burning and not extinguished. The bucket (Bucket.cs:13-14) starts not carried and empty. |
| FirePuzzle.UseBucket | Assets/Scripts/Objects/Bucket.cs:25-38 | Picking the bucket up always succeeds and removes it from the scene. It never changes the water flag or the stove. |
| FirePuzzle.UseSink | Assets/Scripts/Objects/Sink.cs:27-44 | The sink succeeds exactly when the bucket is carried. It then fills it and holds the player; otherwise nothing changes. It never changes the carried flag. |
| FirePuzzle.UseStove | Assets/Scripts/Objects/FireStove.cs:34-71 | Succeeds exactly when the bucket has water and the fire is not yet out. It then puts the fire out, holds the player and logs "<name> firestove extinguished". A failure changes nothing and logs nothing. |
| FirePuzzle.RunKeepsConsistent | Assets/Scripts/Objects/Sink.cs:29-31 | Across any run of interactions, water implies a carried bucket, and the fire is out exactly when it was extinguished, which needed water. |
| FirePuzzle.ExtinguishedAtMostOnce | Assets/Scripts/Objects/FireStove.cs:36-61 | Over any run at most one stove interaction succeeds, none if the fire was already out, and an extinguished fire stays out. |
| FirePuzzle.ApplyNeeds | Assets/Scripts/Objects/FireStove.cs:36-56 | Carrying can only start by a pick-up. Water can only appear by the sink with the bucket carried. The fire can only go out by the stove with water. |
| FirePuzzle.CarriedNeedsPickUp | Assets/Scripts/Objects/Bucket.cs:27 | From the loaded scene, the bucket is carried only if the run contains a pick-up. |
| FirePuzzle.WaterNeedsPickUpThenSink | Assets/Scripts/Objects/Sink.cs:29-31 | From the loaded scene, the bucket holds water only if the run contains a pick-up followed later by a sink use. |
| FirePuzzle.FireNeedsBucketThenSinkThenStove | Assets/Scripts/Objects/FireStove.cs:36-56 | From the loaded scene, the fire is out only if the run contains a pick-up, later a sink use, later a stove use. |
| KeyAndLock.InitialDoor | Assets/Scripts/Objects/InteractableSystem/Locked.cs:7 | A placed door does not yet report success. |
| KeyAndLock.UseKey | Assets/Scripts/Objects/InteractableSystem/Key.cs:11-18 | The key fails and stays exactly when the door is unassigned or already destroyed (Unity's null comparison). Otherwise the door's flag is set and the key is used up. |
| KeyAndLock.UseLock | Assets/Scripts/Objects/InteractableSystem/Locked.cs:13-19 | The door reports its flag without changing it. It plays its sound and is destroyed whatever the flag. |
| KeyAndLock.KeyIsIdempotent | Assets/Scripts/Objects/InteractableSystem/Key.cs:15 | Using the key on a door twice leaves it as using it once. |
| KeyAndLock.DoorOpensWithKey | Assets/Scripts/Objects/InteractableSystem/Locked.cs:13-18 | For every live door: its lock reports its own flag, after the key it reports success, and once used the door is gone and the key fails on it. |
| KeyAndLock.RunReports | Assets/Scripts/Objects/InteractableSystem/Key.cs:11-18 | From any door and key state, a destroyed door never reports, a live one reports once if used, and the report is its flag or the key having been used first. |
| KeyAndLock.DoorOpensOnlyWithKey | Assets/Scripts/Objects/InteractableSystem/Locked.cs:7-18 | Over any run of key and door uses from the placed door, the door reports exactly once if it is used at all, and that report is success exactly when the key was used before it. |
| MemoryShardManager.Initial | Assets/Scripts/MemoryShardManager.cs:9-10 | The count starts at 0 with the configured total. |
| MemoryShardManager.ShardFound | Assets/Scripts/MemoryShardManager.cs:35-52 | Each find adds exactly one. The door opens on a find exactly when the new count reaches the total. |
| MemoryShardManager.DoorOpensFromThresholdOn | Assets/Scripts/MemoryShardManager.cs:35-45 | After k finds the count is k, and the door has opened k − total + 1 times (0 before the total). The opening is not one-shot. |
| MemoryShardManager.DefaultThreeShards | Assets/Scripts/MemoryShardManager.cs:9-45 | With the default total of 3, finds 1 and 2 keep the door shut, find 3 opens it, and find 4 opens it again. |
| MemoryShardManager.Awake | Assets/Scripts/MemoryShardManager.cs:17-32 | The first manager becomes the instance and a later one destroys itself. Every assigned audio object is deactivated either way. |
| MemoryShardManager.FirstManagerWins | Assets/Scripts/MemoryShardManager.cs:17-27 | However many managers wake in turn, the first stays the single instance and all the others destroy themselves. |
| PauseMenu.Initial | Assets/Scripts/UI/ToggleButton.cs:19-26 | The panel is hidden, the game not paused, the first button highlighted, the trigger unused. |
| PauseMenu.TriggerEnter | Assets/Scripts/UI/ToggleButton.cs:49-67 | Only the player's first entry plays the intro and schedules the pause. Any other entry changes nothing. |
| PauseMenu.PauseGame | Assets/Scripts/UI/ToggleButton.cs:69-78 | Pausing sets paused, shows the panel, sets time scale 0 and mutes the game sounds to −80. It keeps the highlight and sounds it. |
| PauseMenu.ResumeGame | Assets/Scripts/UI/ToggleButton.cs:80-87 | Resuming clears paused, hides the panel, sets time scale 1 and volume 0. It keeps the highlight and the scheduled ending. |
| PauseMenu.ResumeUndoesPause | Assets/Scripts/UI/ToggleButton.cs:69-87 | Pausing a running game and resuming restores it exactly, apart from the consumed pause timer. |
| PauseMenu.ToggleButton | Assets/Scripts/UI/ToggleButton.cs:89-111 | The highlight always stays on button 0 or 1. A ±1 move switches to the other button and sounds it. Nothing else changes. |
| PauseMenu.ToggleTwiceReturns | Assets/Scripts/UI/ToggleButton.cs:93-94 | Two moves in the same direction return to the starting menu. |
| PauseMenu.ConfirmSelection | Assets/Scripts/UI/ToggleButton.cs:113-137 | Confirming sounds the chosen option, resumes the game and schedules the ending, for either button. |
| PauseMenu.Update | Assets/Scripts/UI/ToggleButton.cs:28-47 | Keys are handled only while paused. The highlight stays valid and flips exactly when one of left/right is pressed. The game resumes with the ending scheduled exactly when confirm is pressed. |
| PauseMenu.IntroAtMostOnce | Assets/Scripts/UI/ToggleButton.cs:51-55 | However many objects enter the trigger, the intro plays at most once, never if already triggered, and never for non-player entries. |
| InvertSpeakerState.TriggerEnter | Assets/Scripts/InvertSpeakerState.cs:9-19 | The player flips the enabled flag of every assigned source and skips null entries. Anything else changes nothing. |
| InvertSpeakerState.Flip | Assets/Scripts/InvertSpeakerState.cs:13-17 | Each non-null source's flag is negated. Null entries stay null. |
| InvertSpeakerState.TwoEntriesRestore | Assets/Scripts/InvertSpeakerState.cs:16 | Two player entries restore every speaker (the toggle is an involution). |
| ClipPicker.PickNoRepeat | Assets/Scripts/Player/PlayerMovement.cs:59-69 | Fails out of range exactly when there are fewer than two clips. Otherwise the clip at the drawn n in [1, len) is played and moved to 0, and the old front goes to n. Every other position is kept, so the array is a permutation. |
| ClipPicker.PickTwiceRestores | Assets/Scripts/Player/PlayerMovement.cs:64-68 | Picking the same position twice restores the array, so the swap is its own inverse. |
| ClipPicker.NoImmediateRepeat | Assets/Scripts/Player/PlayerMovement.cs:61-68 | With distinct clips, the next pick never repeats the clip just played, whatever the next draw. |
| Footsteps.FixedUpdate | Assets/Scripts/Player/PlayerMovement.cs:50-57 | A footstep is picked exactly when the player moves, the source is silent and there are two or more clips. It is then moved to the front as a permutation. Otherwise the clips are untouched. |
| DoorSounds.LoopTurn | Assets/PlayDoorSounds.cs:18-42 | A creak is picked exactly when the source is silent and there are two or more clips. It is moved to the front, the old front goes to its place and the rest are kept. A playing source leaves everything as it was. |
| WallHitCheck.AnyAbove | Assets/WallCollisionCheck.cs:53-64 | Holds exactly when some contact's angle from "up" exceeds the threshold. |
| WallHitCheck.HandleCollision | Assets/WallCollisionCheck.cs:51-78 | Colliding becomes true exactly when the player moves and some contact is steeper than the threshold, and false otherwise. A wall-hit clip is picked only then, with the source silent. The picker leaves the clips a permutation with the played clip in front. With fewer than two clips the pick faults out of range, and the colliding flag set before it is kept. |
| WallHitCheck.CollisionExit | Assets/WallCollisionCheck.cs:44-48 | Leaving the collision clears the colliding flag. |
| WallHitCheck.Update | Assets/WallCollisionCheck.cs:16-30 | The loop starts exactly when colliding, moving and silent. Sound stops exactly when it plays while not colliding or not moving. |
| WallHitCheck.NoRepeatAcrossHits | Assets/WallCollisionCheck.cs:53-78 | With distinct clips, two wall hits in a row never play the same clip, whatever the draws. |
| WallHitCheck.ExitStopsLoop | Assets/WallCollisionCheck.cs:16-48 | After the contact ends, the next update stops a playing sound and starts nothing. |
| PlayerWallCollision.ScanContacts | Assets/Scripts/Player/WallCollisionCheck.cs:101-130 | A direct hit is found exactly when some contact is faced within the threshold. Without one, scraping is reported exactly when some contact was seen. |
| PlayerWallCollision.HandleCollision | Assets/Scripts/Player/WallCollisionCheck.cs:87-147 | A zero look direction clears both flags. Otherwise colliding holds exactly when some contact is within the threshold, and scraping exactly when there are contacts and none is. The two are never both set and the "ow" flag is untouched. |
| PlayerWallCollision.Update | Assets/Scripts/Player/WallCollisionCheck.cs:23-63 | "Ow" plays exactly on a direct hit whose flag is not yet set, and the flag is set while colliding and cleared otherwise. The scrape loop starts exactly when scraping and moving without a scrape already playing. Stop is sent exactly when a scrape plays during a direct hit, or a sound plays while neither hitting nor scraping-and-moving. |
| PlayerWallCollision.CollisionExit | Assets/Scripts/Player/WallCollisionCheck.cs:75-85 | Leaving clears colliding, scraping and the "ow" flag, and stops a playing source. |
| PlayerWallCollision.OwCountOfUpdate | Assets/Scripts/Player/WallCollisionCheck.cs:26-32 | While colliding, a frame plays "ow" once if its flag is clear and not at all if set. |
| PlayerWallCollision.OwAtMostOncePerStretch | Assets/Scripts/Player/WallCollisionCheck.cs:23-39 | Over any run of callbacks that stays in the direct-hit state, "ow" plays at most once, and not at all if it already played. |
| PlayerWallCollision.NeverBothCollidingAndScraping | Assets/Scripts/Player/WallCollisionCheck.cs:132-146 | Over any run of contacts, frames and exits, a direct hit and scraping are never reported together. |
| VoiceLineShuffler.Swap | Assets/Scripts/Objects/Narrorator/VoiceLineShuffler.cs:54-58 | The two positions exchange their lines, every other position is kept, and the list is a permutation. |
| VoiceLineShuffler.ShuffleFrom | Assets/Scripts/Objects/Narrorator/VoiceLineShuffler.cs:52-59 | The shuffle from step i on yields a permutation of the same length and leaves positions before i alone. |
| VoiceLineShuffler.Shuffle | Assets/Scripts/Objects/Narrorator/VoiceLineShuffler.cs:44-63 | The in-place loop computes the recursive Durstenfeld definition, so its result is a permutation of the lines. |
| VoiceLineShuffler.IdentityDrawsKeepOrder | Assets/Scripts/Objects/Narrorator/VoiceLineShuffler.cs:52-59 | When every step draws its own position, the order is kept. |
| VoiceLineShuffler.StepFixesPosition | Assets/Scripts/Objects/Narrorator/VoiceLineShuffler.cs:55-58 | Position i ends holding the line at its drawn partner when step i ran, since later steps never touch it. |
| VoiceLineShuffler.Start | Assets/Scripts/Objects/Narrorator/VoiceLineShuffler.cs:19-31 | The copy of the lines starts shuffling at index 0. |
| VoiceLineShuffler.FinishShuffle | Assets/Scripts/Objects/Narrorator/VoiceLineShuffler.cs:46-62 | A completed shuffle leaves a permutation of the lines, keeps the index and clears the flag. |
| VoiceLineShuffler.PlayStep | Assets/Scripts/Objects/Narrorator/VoiceLineShuffler.cs:65-94 | Nothing plays while shuffling. An index outside the list fails. Otherwise the current line plays and the index advances, staying in range. It wraps to 0 exactly after the last line, which is the only point where a reshuffle starts. |
| VoiceLineShuffler.PlaysRestInOrder | Assets/Scripts/Objects/Narrorator/VoiceLineShuffler.cs:76-88 | From index i, the next k turns play lines i..i+k−1 in order. The reshuffle starts only once the last line has played. |
| VoiceLineShuffler.FullRoundPlaysEachLineOnce | Assets/Scripts/Objects/Narrorator/VoiceLineShuffler.cs:76-88 | Between two reshuffles every line plays exactly once, in list order, and the round ends wrapped to 0 and reshuffling. |
| AudioManager.PauseAllExcept | Assets/Scripts/Objects/Narrorator/AudioManager.cs:29-38 | Every non-null source other than the excepted one is paused. Null entries and the excepted source are untouched. |
| AudioManager.PauseAllExceptManyAsWritten | Assets/Scripts/Objects/Narrorator/AudioManager.cs:12-27 | A source is paused exactly when it and every entry before it are non-null and not excepted. Everything from the first null or excepted entry on is left playing. |
| AudioManager.AsWrittenStopsAtFirstExcepted | Assets/Scripts/Objects/Narrorator/AudioManager.cs:21-24 | Excepting the first of two sources leaves the second playing as written; the corrected version pauses it. |
| AudioManager.PauseAllExceptMany | Assets/Scripts/Objects/Narrorator/AudioManager.cs:12-27 | Corrected: every non-null source not in the exception array is paused, and the rest are untouched. |
| AudioManager.ManyAgreesWithSingle | Assets/Scripts/Objects/Narrorator/AudioManager.cs:12-38 | The corrected array overload with one exception does exactly what the single-source overload does. |
| AudioManager.ResumeAll | Assets/Scripts/Objects/Narrorator/AudioManager.cs:40-49 | Every non-null source is unpaused with nothing else changed. Null entries stay null. |
| AudioManager.ResumeUndoesPause | Assets/Scripts/Objects/Narrorator/AudioManager.cs:29-49 | Resuming after a pause leaves every source as resuming alone would. |
| AudioManager.PlayVoiceLine | Assets/Scripts/Objects/Narrorator/AudioManager.cs:51-60 | The clip is played once on exactly the non-null sources tagged "Speaker". |
| AudioManager.PlayCommutesWithPause | Assets/Scripts/Objects/Narrorator/AudioManager.cs:29-60 | Playing a voice line and pausing the other sources give the same sources in either order. |
| AudioManager.PlayVoiceLineOncePerSpeaker | Assets/Scripts/Objects/Narrorator/AudioManager.cs:51-60 | A voice line adds exactly one one-shot per non-null speaker source and none elsewhere. |
| LogManager.AddInt32 | Assets/Scripts/LogManager.cs:230 | The counter update is C#'s unchecked 32-bit addition: the true sum when it fits, otherwise that sum wrapped to 32 bits. |
| LogManager.Initial | Assets/Scripts/LogManager.cs:16-29 | A new manager has written nothing, stored no counter, knows no player, and has an open writer exactly when the file could be created. |
| LogManager.Lookup | Assets/Scripts/LogManager.cs:228-237 | A key has a value exactly when it was stored, and the value is the one stored for it. |
| LogManager.Store | Assets/Scripts/LogManager.cs:226-238 | A stored key keeps its place in enumeration order. A new key is appended with the change as its value. |
| LogManager.StoreKeepsKeysUnique | Assets/Scripts/LogManager.cs:226-238 | Storing never makes a key appear twice. |
| LogManager.StoreLookup | Assets/Scripts/LogManager.cs:226-238 | A stored key's value becomes old + change (wrapped), and an absent key's value becomes the change. Every other key keeps its value. |
| LogManager.StoreValue | Assets/Scripts/LogManager.cs:226-238 | An absent key is set to the change and a present key gets the change added. Every other key is unchanged and nothing is written. |
| LogManager.EventLineRoundTrip | Assets/Scripts/LogManager.cs:212-213 | "time: T, event: E" reads back as T and E for any event name and comma-free clock text. |
| LogManager.LogEvent | Assets/Scripts/LogManager.cs:202-223 | Without a writer nothing happens. Otherwise exactly one line is appended, and it reads back as the clock text and the event name. |
| LogManager.SummaryLines | Assets/Scripts/LogManager.cs:247-251 | The summary is the "--- SUMMARY ---" header and then one "key: value" line per counter, in order. |
| LogManager.SummaryListsEveryCounter | Assets/Scripts/LogManager.cs:248-251 | Every stored counter appears in the summary with its current value. |
| LogManager.LogSummary | Assets/Scripts/LogManager.cs:241-258 | Without a writer nothing happens. Otherwise the summary block is appended. |
| LogManager.CloseLogFile | Assets/Scripts/LogManager.cs:105-122 | Afterwards there is no writer. With one, exactly the summary (header, then one line per counter in order) was appended. Without one, nothing changes. |
| LogManager.CloseIsIdempotent | Assets/Scripts/LogManager.cs:59-73 | Quitting and then destroying the manager (both close) writes the summary once. |
| LogManager.SetupBlock | Assets/Scripts/LogManager.cs:155-187 | The block starts with "SETUP CONFIGURATION:" and "Player:" and ends with the events separator. In between come, each only when its component is present and in this order: the name, move speed and rotation speed lines; the sonar heading and its ray length and two ping interval lines; the interactor heading and its point and radius lines. |
| LogManager.SetupBlockShowsComponents | Assets/Scripts/LogManager.cs:159-184 | The sonar and interactor headings, and a move-speed line, appear exactly when the player has those components. |
| LogManager.WriteSetupConfiguration | Assets/Scripts/LogManager.cs:139-196 | Without a writer or without a player nothing is written. Otherwise the setup block is appended. |
| LogManager.FindPlayer | Assets/Scripts/LogManager.cs:31-57 | The search runs only while no player is known. The setup block is written exactly when this search finds the player and the writer is open. |
| LogManager.SetupWrittenAtMostOnce | Assets/Scripts/LogManager.cs:46-57 | However many frames search, the setup block is written at most once, and never once a player is known. |

## Left out

- Audio playback, physics, input, timers and coroutines belong to the engine. Their observable state becomes a parameter of each call: whether a source plays, which clip it holds, whether the player moves, contact angles, key presses. Their effects become the returned sounds and events.
- Floating-point values are modelled as reals (positions, heights, angles, volumes, time scale). Rounding is not modelled.
- The polygon triangulator is not part of this model. It is a function parameter. The index-range property is a hypothesis of `RoomBuilder.MeshIndicesInRange`, not a fact about it.
- `Vector3.Distance` (the wall UV length) is a function parameter. `Vector3.Angle` results are inputs.
- RoomBuilder: engine mesh handling is not modelled. That covers component lookup, normals and bounds recalculation and sharedMesh assignment (RoomBuilder.cs:126-137, 245-253). Game objects are modelled as a name and a local position. The room editor is not part of this model.
- Random draws (`Random.Range`, `System.Random.Next`) are parameters restricted to the ranges those calls return. The door clip's random pitch and the random waits between voice lines and door creaks are not modelled.
- VoiceLineShuffler: the shuffle's background task is two events, one starting the shuffle and one completing it. Their interleaving with the playback coroutine is not modelled beyond the `shuffling` flag. `PlayRun` assumes no shuffle completes during the run.
- CodeLock: after unlocking, the lock object is moved to the default layer. Whether the player can still reach it depends on the interactor's layer mask, which is scene data. The model allows it, and then no key, Escape included, ends that interaction.
- CodeLock: with an empty click array, a dial turn is an index fault. The model returns the fault for the whole frame; the source would throw mid-frame after changing the dial index. The `Debug.Log` calls are left out.
- FirePuzzle: the stove's follow-up coroutines are not modelled. After the clip they destroy the stove, move the memory to the interactable layer and free the player. The sink's delayed release of the player is also not modelled. In a run of interactions the stove's log text is built with an empty object name.
- KeyAndLock: a door without a `Locked` component (a null reference in `Key.Interact`) is not modelled. A destroyed door is one whose presence flag is false, and the key treats it as null.
- WallHitCheck: the audio source's one-shot and clip assignment are not modelled beyond the returned clip.
- MemoryShardManager: `OpenDoor` calls the door controller and schedules `ActivateAudioSources` 32 seconds later. The model only reports that the door opens; DoorController.cs is not part of this model.
- PauseMenu: the null checks in `PlayAudioClip`, and the null intro clip that `PlayIntroAndPauseGame` would dereference, are not modelled. Every requested clip is listed as played. `PlayEndGameAndExit` and `ExitGame` (application quit) are left out; the model records only that the ending is scheduled.
- PauseMenu.Update: its contract states the menu flags and the highlight but not the frame's sounds. `ToggleButton` and `ConfirmSelection` state those.
- PlayerMovement: the motion and camera math is left out. `IsMoving`, `GetLookDirection`, `PausePlayerMovement`, `ResumePlayerMovement` and the `rotationSpeed` field are used by other components but not defined in PlayerMovement.cs. Their results are inputs.
- LogManager: the file path, directory creation, flushing, exception handling and the clock's formatting are left out. The file is the sequence of written lines, and a writer that failed to open is a closed log. Numbers in the setup block are the text C# renders for them. Dictionary enumeration is taken to be insertion order, which is what .NET's `Dictionary` does when nothing is removed.
- Unity's destroyed-object semantics and the `Instance` singletons are reduced to a presence flag and an optional identity.

Facts about RoomBuilder.cs that the model keeps as they are:

- RoomBuilder.cs has no wall openings and no point-in-room test.
- All walls share one wall material.
- `RemoveLastVertex` removes vertices down to an empty ring; it has no three-vertex minimum.

## Findings

| source | as written | input that shows it | evidently intended | confidence | as-written member | corrected member |
|---|---|---|---|---|---|---|
| Assets/Scripts/Objects/Narrorator/AudioManager.cs:15-26 | The loop `return`s at the first null entry and at the first excepted source, so no later source is paused | Sources with ids 1 and 2, excepting [1]: source 2 keeps playing | Skip null and excepted entries (as the single-source overload does) and pause every other source | medium; not executed | AudioManager.PauseAllExceptManyAsWritten (shown by AudioManager.AsWrittenStopsAtFirstExcepted) | AudioManager.PauseAllExceptMany (with AudioManager.ManyAgreesWithSingle) |
