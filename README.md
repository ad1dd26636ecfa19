# NMMiniGameServer core in Dafny

This project models the game and match-making core of NMMiniGameServer, a small C++
server for a multi-player mini game. It covers these parts:

- **Generic state machine (`LambdaFSM`).** It keeps per-state tables of enter, update,
  input and exit handlers and one current state. `ChangeState` assigns the new state,
  runs the old state's exit handler and then the new state's enter handler. An enter
  handler may chain a further transition.
- **Player controller.** It drives one player's machine through the states Spawn, Idle,
  Run, RotateLeft, RotateRight, Rush and Die, using the three-button input edges. It
  also keeps the rush charges: a deque of regeneration deadlines, a charge counter and
  a recast deadline.
- **Deadline timer and item lifetime.** A `Timer` holds a point in time. The clock is
  passed in as a parameter.
- **Player character.** Location, radius, rotation and speed. Turning adds to or
  subtracts from the rotation, and moving forward adds the forward direction scaled by
  the step.
- **Room and World.** Each has one controller per slot, binds a session to a slot,
  ticks every controller once in slot order, and broadcasts bytes to every slot or to
  every slot but one.
- **Server match-making.** The FIFO request queue is cut into ready matches of
  `maxUserCount` players. The server tracks ready flags, turns a fully ready match
  into a room, re-queues the other players when a match is cancelled, and removes
  closed sessions and ended rooms.
- **Session byte buffers.** Bytes are appended to the send buffer, which is compacted
  after a partial send. The receive buffer is cut into frames by a one-byte size
  header, and an unfinished frame is moved to the buffer's start.
- **MapData.** A name→constant table is updated line by line from `key = value` text.
  Digit constants are truncated toward zero (no 32-bit range is modelled).

Each module corresponds to one source file:

- `lambda_fsm.dfy` (`LambdaFsm`)
- `player_rules.dfy` (`PlayerRules`), for the handlers registered by the controller
- `player_controller.dfy` (`Controllers`)
- `timer.dfy` (`Timers`)
- `item.dfy` (`Items`)
- `player_character.dfy` (`Characters`)
- `vector.dfy` (`Vectors`)
- `room.dfy` (`Rooms`)
- `world.dfy` (`Worlds`)
- `server.dfy` (`Servers`)
- `session.dfy` (`Sessions`)
- `map_data.dfy` (`MapData`)

Objects that the C++ updates in place are Dafny classes with `modifies` frames:

- the state machine, controller, timer, item and character;
- the room, world, server and session;
- the constants table.

The handlers the controller registers are pure functions over a `Pawn` record. A
`Pawn` holds what the C++ lambdas capture and mutate: the character's body, the timers,
the rush deque, the charge count, the clock and the events sent to the client. The
properties of the handlers are proved as lemmas about those functions.

Time is a `real` number of seconds and is always passed in. Trigonometry and square
roots are function-valued parameters (`Geometry`).

## Model

| member | source | states |
|---|---|---|
| LambdaFsm.NoChange | NMMiniGameServer/NMMiniGameServer/Game/LambdaFSM.h:43-46 | `NoChange()` asks for no transition |
| LambdaFsm.ChangeTo | NMMiniGameServer/NMMiniGameServer/Game/LambdaFSM.h:38-41 | the one-state constructor asks for a transition to exactly that state |
| LambdaFsm.EndsInLastRequested | NMMiniGameServer/NMMiniGameServer/Game/LambdaFSM.h:150-180 | the machine ends in the last state of the chain of requested transitions |
| LambdaFsm.MoreFuelSameOutcome | NMMiniGameServer/NMMiniGameServer/Game/LambdaFSM.h:174-178 | once a chain ends within the bound, a larger bound gives the same final state and environment |
| LambdaFsm.Transition | NMMiniGameServer/NMMiniGameServer/Game/LambdaFSM.h:150-180 | a transition lands in its target unless the target's enter handler redirects it; a chain cut off by the bound stops in a state with an enter handler |
| LambdaFsm.UpdateStep | NMMiniGameServer/NMMiniGameServer/Game/LambdaFSM.h:75-90 | with no update handler for the current state, state and environment stay as they are; the state changes only through a handler |
| LambdaFsm.InputStep | NMMiniGameServer/NMMiniGameServer/Game/LambdaFSM.h:92-107 | the same as `UpdateStep`, for the input handler |
| LambdaFsm.LambdaFSM.constructor | NMMiniGameServer/NMMiniGameServer/Game/LambdaFSM.h:64-68 | a new machine is in the enum's value 0 with all four handler tables empty |
| LambdaFsm.LambdaFSM.Start | NMMiniGameServer/NMMiniGameServer/Game/LambdaFSM.h:70-73 | `Start(s)` enters `s` without running any exit handler |
| LambdaFsm.LambdaFSM.Update | NMMiniGameServer/NMMiniGameServer/Game/LambdaFSM.h:75-90 | the update handler of the current state runs; a requested change becomes a full transition; with no handler nothing changes |
| LambdaFsm.LambdaFSM.OnReceiveInput | NMMiniGameServer/NMMiniGameServer/Game/LambdaFSM.h:92-107 | the same as `Update`, for the input handler |
| LambdaFsm.LambdaFSM.GetState | NMMiniGameServer/NMMiniGameServer/Game/LambdaFSM.h:108-111 | returns the current state and reads nothing else |
| LambdaFsm.LambdaFSM.AddStateFunctionOnEnter | NMMiniGameServer/NMMiniGameServer/Game/LambdaFSM.h:113-120 | registering replaces that state's enter handler and leaves every other table entry as it was |
| LambdaFsm.LambdaFSM.AddStateFunctionOnUpdate | NMMiniGameServer/NMMiniGameServer/Game/LambdaFSM.h:122-129 | the same, for the update table |
| LambdaFsm.LambdaFSM.AddStateFunctionOnExit | NMMiniGameServer/NMMiniGameServer/Game/LambdaFSM.h:131-138 | the same, for the exit table |
| LambdaFsm.LambdaFSM.AddStateFunctionOnReceiveInput | NMMiniGameServer/NMMiniGameServer/Game/LambdaFSM.h:140-147 | the same, for the input table |
| LambdaFsm.LambdaFSM.ChangeState | NMMiniGameServer/NMMiniGameServer/Game/LambdaFSM.h:150-180 | the state is assigned first; the old state's exit handler and the new state's enter handler both receive the old state; a chained change runs another transition |
| Timers.Timer.constructor | NMMiniGameServer/NMMiniGameServer/Game/Timer.h:23-29 | a default timer starts at the clock's epoch, 0 |
| Timers.Timer.SetNow | NMMiniGameServer/NMMiniGameServer/Game/Timer.h:32-36 | the point becomes the current clock |
| Timers.Timer.Add | NMMiniGameServer/NMMiniGameServer/Game/Timer.h:39-44 | the point moves by exactly the given seconds |
| Timers.Timer.IsOver | NMMiniGameServer/NMMiniGameServer/Game/Timer.h:47-52 | over after `d` seconds iff point + d is strictly before the clock |
| Timers.Timer.IsOverNow | NMMiniGameServer/NMMiniGameServer/Game/Timer.h:55-58 | over iff the point is strictly before the clock; the same as `IsOver(0)` |
| Timers.Timer.Now | NMMiniGameServer/NMMiniGameServer/Game/Timer.h:61-66 | a fresh timer whose point is the current clock |
| Timers.SetNowIsNotOver | NMMiniGameServer/NMMiniGameServer/Game/Timer.h:32-58 | a timer just set at `t` is not over at `t` |
| Timers.AddComposes | NMMiniGameServer/NMMiniGameServer/Game/Timer.h:39-44 | `Add(a)` then `Add(b)` equals `Add(a + b)` |
| Timers.PassedStaysPassed | NMMiniGameServer/NMMiniGameServer/Game/Timer.h:55-58 | under a non-decreasing clock a passed deadline stays passed |
| Items.Item.constructor | NMMiniGameServer/NMMiniGameServer/Game/Item.cpp:5-9 | stores index, location and type, takes the item radius, and the spawn time is the current clock |
| Items.Item.GetType | NMMiniGameServer/NMMiniGameServer/Game/Item.cpp:12-15 | returns the stored type |
| Items.Item.SetType | NMMiniGameServer/NMMiniGameServer/Game/Item.cpp:18-21 | changes only the type |
| Items.Item.GetLocation | NMMiniGameServer/NMMiniGameServer/Game/Item.cpp:24-27 | returns the stored location |
| Items.Item.SetLocation | NMMiniGameServer/NMMiniGameServer/Game/Item.cpp:30-33 | changes only the location |
| Items.Item.GetRadius | NMMiniGameServer/NMMiniGameServer/Game/Item.cpp:36-39 | returns the stored radius |
| Items.Item.SetRadius | NMMiniGameServer/NMMiniGameServer/Game/Item.cpp:42-45 | changes only the radius |
| Items.Item.IsExpired | NMMiniGameServer/NMMiniGameServer/Game/Item.cpp:48-51 | expired iff spawn time + lifetime is strictly before the clock |
| Items.Item.GetIndex | NMMiniGameServer/NMMiniGameServer/Game/Item.cpp:54-57 | the index never changes after construction |
| Items.ExpiredStaysExpired | NMMiniGameServer/NMMiniGameServer/Game/Item.cpp:48-51 | under a non-decreasing clock an expired item stays expired |
| Items.FreshItemNotExpired | NMMiniGameServer/NMMiniGameServer/Game/Item.cpp:48-51 | an item is not expired at its spawn time when the lifetime is not negative |
| Characters.Body.RotatedLeft | NMMiniGameServer/NMMiniGameServer/Game/PlayerCharacter.cpp:15-18 | turning left subtracts from the rotation and changes nothing else |
| Characters.Body.RotatedRight | NMMiniGameServer/NMMiniGameServer/Game/PlayerCharacter.cpp:20-23 | turning right adds to the rotation and changes nothing else |
| Characters.Body.MovedForward | NMMiniGameServer/NMMiniGameServer/Game/PlayerCharacter.cpp:25-28 | moving changes only the location, by forward × step |
| Characters.RotateRoundTrip | NMMiniGameServer/NMMiniGameServer/Game/PlayerCharacter.cpp:15-23 | left then right by the same angle, in either order, restores the body |
| Characters.MoveByZero | NMMiniGameServer/NMMiniGameServer/Game/PlayerCharacter.cpp:25-28 | moving by zero leaves the body unchanged |
| Characters.MovesAdd | NMMiniGameServer/NMMiniGameServer/Game/PlayerCharacter.cpp:25-28 | two moves equal one move by their sum |
| Characters.PlayerCharacter.RotateLeft | NMMiniGameServer/NMMiniGameServer/Game/PlayerCharacter.cpp:15-18 | the object's new body is the rotated-left body |
| Characters.PlayerCharacter.RotateRight | NMMiniGameServer/NMMiniGameServer/Game/PlayerCharacter.cpp:20-23 | the object's new body is the rotated-right body |
| Characters.PlayerCharacter.MoveForward | NMMiniGameServer/NMMiniGameServer/Game/PlayerCharacter.cpp:25-28 | the object's new body is the moved body |
| Characters.PlayerCharacter.GetLocation | NMMiniGameServer/NMMiniGameServer/Game/PlayerCharacter.cpp:30-33 | returns the stored location |
| Characters.PlayerCharacter.SetLocation | NMMiniGameServer/NMMiniGameServer/Game/PlayerCharacter.cpp:35-39 | changes only the location |
| Characters.PlayerCharacter.GetRadius | NMMiniGameServer/NMMiniGameServer/Game/PlayerCharacter.cpp:41-44 | returns the stored radius |
| Characters.PlayerCharacter.SetRadius | NMMiniGameServer/NMMiniGameServer/Game/PlayerCharacter.cpp:46-50 | changes only the radius |
| Characters.PlayerCharacter.GetRotation | NMMiniGameServer/NMMiniGameServer/Game/PlayerCharacter.cpp:52-55 | returns the stored rotation |
| Characters.PlayerCharacter.SetRotation | NMMiniGameServer/NMMiniGameServer/Game/PlayerCharacter.cpp:57-61 | changes only the rotation |
| Characters.PlayerCharacter.GetForward | NMMiniGameServer/NMMiniGameServer/Game/PlayerCharacter.cpp:63-67 | depends on the rotation alone and changes nothing |
| PlayerRules.UseRush | NMMiniGameServer/NMMiniGameServer/Game/PlayerController.cpp:122-130 | the oldest deadline leaves and `now + regen` joins at the back; one charge is spent; the recast deadline is re-armed; the speed is pushed forward; the new count is reported |
| PlayerRules.Regenerate | NMMiniGameServer/NMMiniGameServer/Game/PlayerController.cpp:88-97 | at most one charge comes back per tick, and the counter stays between 0 and the maximum |
| PlayerRules.CanRushUnderInvariant | NMMiniGameServer/NMMiniGameServer/Game/PlayerController.cpp:132-141 | the corrected check is the check as written plus an available charge |
| PlayerRules.UseRushKeepsInvariant | NMMiniGameServer/NMMiniGameServer/Game/PlayerController.cpp:122-141 | spending a charge that the corrected check allows keeps the deque full and the counter in range |
| PlayerRules.CanRush | NMMiniGameServer/NMMiniGameServer/Game/PlayerController.cpp:132-141 | a rush allowed by the corrected check has a charge counted, a non-empty deque, and passes the check as written |
| PlayerRules.DefaultEnter | NMMiniGameServer/NMMiniGameServer/Game/PlayerController.cpp:198-202 | the default enter handler announces the state being entered, changes nothing else and requests no change |
| PlayerRules.SpawnEnter | NMMiniGameServer/NMMiniGameServer/Game/PlayerController.cpp:210-220 | Spawn's enter handler announces Spawn, stops the character, arms the spawn wait from the previous state (respawn after Die, first spawn otherwise), leaves the rush bookkeeping alone and chains nothing |
| PlayerRules.SpawnUpdate | NMMiniGameServer/NMMiniGameServer/Game/PlayerController.cpp:221-230 | Spawn's update handler asks for Idle exactly when the spawn deadline has passed and changes nothing of the pawn |
| PlayerRules.MoveInput | NMMiniGameServer/NMMiniGameServer/Game/PlayerController.cpp:238-245 | Idle and Run ask for a change exactly on a click of any button, left before right before rush, and only to RotateLeft, RotateRight or Rush |
| PlayerRules.RunEnter | NMMiniGameServer/NMMiniGameServer/Game/PlayerController.cpp:250-258 | Run's enter handler announces Run, sets the default move speed and nothing else, and chains nothing |
| PlayerRules.RotateEnter | NMMiniGameServer/NMMiniGameServer/Game/PlayerController.cpp:272-280 | a turning state's enter handler announces `Rotate`, stops the character and chains nothing |
| PlayerRules.RotateLeftUpdate | NMMiniGameServer/NMMiniGameServer/Game/PlayerController.cpp:281-287 | RotateLeft's update handler turns the character left by the rotate speed × delta, changes nothing else and requests no change |
| PlayerRules.RotateRightUpdate | NMMiniGameServer/NMMiniGameServer/Game/PlayerController.cpp:309-315 | RotateRight's update handler turns the character right by the rotate speed × delta, changes nothing else and requests no change |
| PlayerRules.RotateLeftInput | NMMiniGameServer/NMMiniGameServer/Game/PlayerController.cpp:288-295 | RotateLeft asks for a change exactly on a left release, a right click or a rush click, the release winning, and only to Run, RotateRight or Rush |
| PlayerRules.RotateRightInput | NMMiniGameServer/NMMiniGameServer/Game/PlayerController.cpp:316-323 | RotateRight asks for a change exactly on a left click, a right release or a rush click, the left click winning, and only to RotateLeft, Run or Rush |
| PlayerRules.RushEnter | NMMiniGameServer/NMMiniGameServer/Game/PlayerController.cpp:328-346 | with the corrected check, Rush's enter handler sends the machine back to the previous state exactly when no rush is allowed, changing nothing; otherwise it spends one charge, never going below 0, and re-arms the recast deadline |
| PlayerRules.RushUpdate | NMMiniGameServer/NMMiniGameServer/Game/PlayerController.cpp:347-356 | Rush's update handler asks for Run exactly when the speed's squared length is below 400, and changes nothing of the pawn |
| PlayerRules.DieEnter | NMMiniGameServer/NMMiniGameServer/Game/PlayerController.cpp:371-381 | Die's enter handler starts the respawn clock at the current time, announces Die and sets the speed to the negated normalized location (the source's `outVector`, pointing toward the origin) times the map-out speed; nothing else of the pawn changes and no change is requested |
| PlayerRules.DieUpdate | NMMiniGameServer/NMMiniGameServer/Game/PlayerController.cpp:382-394 | Die's update handler asks for Spawn exactly when the respawn time has passed; then the body stands on its spawn point at rest and one `ObjectLocation` event with the respawn height is sent; otherwise nothing changes |
| PlayerRules.TablesRegistered | NMMiniGameServer/NMMiniGameServer/Game/PlayerController.cpp:197-398 | Spawn, Idle, Run, RotateLeft, RotateRight, Rush and Die, and no other state, get all four handlers |
| PlayerRules.RushEnterAsWritten | NMMiniGameServer/NMMiniGameServer/Game/PlayerController.cpp:328-346 | Rush's enter handler with the check as written: back to the previous state exactly when the written check fails, otherwise one charge is spent whatever the count was |
| PlayerRules.AsWrittenTables | NMMiniGameServer/NMMiniGameServer/Game/PlayerController.cpp:197-398 | the tables as written differ from `PlayerTables` only in Rush's enter handler |
| PlayerRules.RushClickAsWrittenUnderflows | NMMiniGameServer/NMMiniGameServer/Game/PlayerController.cpp:238-245 | through the input step with the tables as written, a rush click from Idle with no counted charge enters Rush with the count at -1, breaking the invariant; with the corrected tables the machine stays Idle |
| PlayerRules.CanRushAsWritten | NMMiniGameServer/NMMiniGameServer/Game/PlayerController.cpp:132-141 | the check as written: the oldest regeneration deadline and the recast deadline have both passed |
| PlayerRules.PlayerTables | NMMiniGameServer/NMMiniGameServer/Game/PlayerController.cpp:197-398 | the handler tables `InitializeFsm` registers, with Rush's enter handler running the corrected check; what each entry holds is stated by `TablesRegistered` and the handler rows above |
| PlayerRules.RushAsWrittenUnderflows | NMMiniGameServer/NMMiniGameServer/Game/PlayerController.cpp:132-141 | the check as written lets the counter reach -1 |
| PlayerRules.MoveStateInput | NMMiniGameServer/NMMiniGameServer/Game/PlayerController.cpp:238-267 | in Idle and Run: left click goes to RotateLeft, else right click to RotateRight, else rush click to Rush when a rush is allowed, otherwise the state stays |
| PlayerRules.RotateStateInput | NMMiniGameServer/NMMiniGameServer/Game/PlayerController.cpp:288-323 | RotateLeft: left release goes to Run, else right click to RotateRight, else rush click to Rush when allowed; RotateRight mirrors the turning buttons |
| PlayerRules.InputIgnored | NMMiniGameServer/NMMiniGameServer/Game/PlayerController.cpp:206 | Spawn, Rush, Die and the states without handlers ignore every input |
| PlayerRules.RushAttempt | NMMiniGameServer/NMMiniGameServer/Game/PlayerController.cpp:328-346 | entering Rush spends a charge when one may be used; otherwise the machine returns to the previous state with the charges, deadlines and speed unchanged |
| PlayerRules.PlainEntry | NMMiniGameServer/NMMiniGameServer/Game/PlayerController.cpp:250-308 | entering Run or a turning state ends there, chains no further, and leaves the rush charges, deque and recast deadline alone |
| PlayerRules.ExitKeepsPawn | NMMiniGameServer/NMMiniGameServer/Game/PlayerController.cpp:207 | the default exit handler changes nothing |
| PlayerRules.SpawnEntry | NMMiniGameServer/NMMiniGameServer/Game/PlayerController.cpp:210-220 | entering Spawn stops the character and arms the respawn wait after Die, the first-spawn wait otherwise; nothing else changes but the announcement |
| PlayerRules.DieEntry | NMMiniGameServer/NMMiniGameServer/Game/PlayerController.cpp:371-381 | entering Die ends in Die, untruncated, with exactly the respawn start set to the current time, Die announced and the speed set along the negated normalized location (`outVector`, pointing toward the origin) at the map-out speed; every other field is unchanged |
| PlayerRules.IdleEntry | NMMiniGameServer/NMMiniGameServer/Game/PlayerController.cpp:198-202 | entering Idle ends in Idle, untruncated, and the only change to the pawn is the Idle announcement |
| PlayerRules.SpawnUpdateWaits | NMMiniGameServer/NMMiniGameServer/Game/PlayerController.cpp:221-230 | Spawn goes to Idle exactly when its deadline has passed, and otherwise changes nothing |
| PlayerRules.IdleAndRunUpdate | NMMiniGameServer/NMMiniGameServer/Game/PlayerController.cpp:205 | an update in Idle or Run changes nothing |
| PlayerRules.TurningUpdate | NMMiniGameServer/NMMiniGameServer/Game/PlayerController.cpp:281-315 | a turning state turns the character left or right by the rotate speed × delta and stays |
| PlayerRules.UnregisteredUpdate | NMMiniGameServer/NMMiniGameServer/Game/PlayerController.cpp:361-368 | the states without handlers (Rotate, Hit, Win, Lose) ignore updates |
| PlayerRules.RushUpdateEnds | NMMiniGameServer/NMMiniGameServer/Game/PlayerController.cpp:347-356 | Rush goes to Run exactly when the speed's squared length is below 400, and stays otherwise |
| PlayerRules.DieUpdateRespawns | NMMiniGameServer/NMMiniGameServer/Game/PlayerController.cpp:382-394 | Die changes nothing until the respawn time has passed; then the character stands on its spawn point with zero speed, its location is broadcast at the respawn height, the spawn wait is armed and the state is Spawn |
| PlayerRules.UpdateComplete | NMMiniGameServer/NMMiniGameServer/Game/PlayerController.cpp:197-398 | with the registered handlers no update is cut short by the chain bound |
| PlayerRules.InputComplete | NMMiniGameServer/NMMiniGameServer/Game/PlayerController.cpp:197-398 | with the registered handlers no input is cut short by the chain bound |
| PlayerRules.UpdateKeepsCharges | NMMiniGameServer/NMMiniGameServer/Game/PlayerController.cpp:197-398 | an update never touches the charge counter or the deque |
| PlayerRules.UpdateCases | NMMiniGameServer/NMMiniGameServer/Game/PlayerController.cpp:197-398 | state by state, an update is never cut short and leaves the rush bookkeeping alone |
| PlayerRules.InputKeepsRushInvariant | NMMiniGameServer/NMMiniGameServer/Game/PlayerController.cpp:101-110 | with the corrected check, an input keeps the deque full and the counter in range, and spends at most one charge |
| PlayerRules.ControllerUpdate | NMMiniGameServer/NMMiniGameServer/Game/PlayerController.cpp:83-99 | a controller tick keeps the counter in range and raises it by at most one |
| Controllers.InitialPawn | NMMiniGameServer/NMMiniGameServer/Game/PlayerController.cpp:44-47 | a new controller has no charges, an empty rush deque and has sent nothing |
| Controllers.Tick | NMMiniGameServer/NMMiniGameServer/Game/PlayerController.cpp:83-99 | without a character the slot is returned unchanged; with one, the charge bounds are kept |
| Controllers.PlayerController.constructor | NMMiniGameServer/NMMiniGameServer/Game/PlayerController.cpp:44-47 | the handlers are registered and the machine starts in Spawn with nothing bound |
| Controllers.PlayerController.SetSession | NMMiniGameServer/NMMiniGameServer/Game/PlayerController.cpp:49-52 | only the session changes |
| Controllers.PlayerController.SetCharacter | NMMiniGameServer/NMMiniGameServer/Game/PlayerController.cpp:54-57 | only the character changes |
| Controllers.PlayerController.SetPlayerIndex | NMMiniGameServer/NMMiniGameServer/Game/PlayerController.cpp:64-67 | only the player index changes |
| Controllers.PlayerController.Initialize | NMMiniGameServer/NMMiniGameServer/Game/PlayerController.cpp:69-75 | Spawn is entered without any exit handler, both rush timers are armed at the clock, `MaxRushCount` regeneration deadlines at the clock join the deque, and the character takes the resulting body |
| Controllers.PlayerController.SendByte | NMMiniGameServer/NMMiniGameServer/Game/PlayerController.cpp:77-81 | the bytes go to the session when one is bound, and are dropped otherwise |
| Controllers.PlayerController.Update | NMMiniGameServer/NMMiniGameServer/Game/PlayerController.cpp:83-99 | without a character nothing changes; otherwise the machine and the character move as `ControllerUpdate` says |
| Controllers.PlayerController.OnReceivedPacket | NMMiniGameServer/NMMiniGameServer/Game/PlayerController.cpp:101-110 | an input packet runs the input step, and any other packet changes nothing |
| Controllers.PlayerController.GetState | NMMiniGameServer/NMMiniGameServer/Game/PlayerController.cpp:112-115 | returns the machine's current state |
| Rooms.Room.Empty | NMMiniGameServer/NMMiniGameServer/Game/Room.cpp:15-18 | `Room()` has no slots |
| Rooms.Room.constructor | NMMiniGameServer/NMMiniGameServer/Game/Room.cpp:20-24 | `userCount` distinct fresh controllers and characters, none bound |
| Rooms.Room.GetNewPlayerController | NMMiniGameServer/NMMiniGameServer/Game/Room.cpp:31-38 | binds the slot's session and its own character, returns that slot's controller, and leaves every other slot alone |
| Rooms.Room.Update | NMMiniGameServer/NMMiniGameServer/Game/Room.cpp:40-46 | every slot ticks exactly once |
| Rooms.Room.TickSlot | NMMiniGameServer/NMMiniGameServer/Game/Room.cpp:42-45 | one slot ticks and the others stay |
| Rooms.Room.BroadcastByte | NMMiniGameServer/NMMiniGameServer/Game/Room.cpp:48-51 | every slot with a session receives the bytes |
| Rooms.Room.BroadcastByteExcept | NMMiniGameServer/NMMiniGameServer/Game/Room.cpp:53-56 | the same except the excluded slot, which receives nothing |
| Rooms.Room.BroadcastByteInternal | NMMiniGameServer/NMMiniGameServer/Game/Room.cpp:58-65 | every controller but the excluded one receives the bytes once; bindings are kept |
| Worlds.World.constructor | NMMiniGameServer/NMMiniGameServer/Game/World.cpp:14-17 | a new world has no players and a zero user count |
| Worlds.World.GetNewPlayerController | NMMiniGameServer/NMMiniGameServer/Game/World.cpp:24-28 | appends exactly one fresh default controller, returns it, and keeps the earlier ones |
| Worlds.World.Update | NMMiniGameServer/NMMiniGameServer/Game/World.cpp:30-36 | every controller ticks exactly once; the user count is untouched |
| Worlds.World.TickOne | NMMiniGameServer/NMMiniGameServer/Game/World.cpp:32-35 | one controller ticks and the others stay |
| Servers.FirstRequestOf | NMMiniGameServer/NMMiniGameServer/Network/Server.cpp:96-102 | the position of the requester's first request, with no earlier request of theirs |
| Servers.CancelRemovesOne | NMMiniGameServer/NMMiniGameServer/Network/Server.cpp:94-105 | cancelling removes exactly one request of that requester from the multiset of requesters |
| Servers.SeatNotices | NMMiniGameServer/NMMiniGameServer/Network/Server.cpp:338-347 | one ready notice per seat of a new match, in seat order |
| Servers.WaitNotices | NMMiniGameServer/NMMiniGameServer/Network/Server.cpp:354-362 | each waiting requester is told the remaining queue size |
| Servers.NewMatch | NMMiniGameServer/NMMiniGameServer/Network/Server.cpp:336-350 | a new match seats the group's requesters in queue order, one seat and one ready flag each, nobody ready |
| Servers.Groups | NMMiniGameServer/NMMiniGameServer/Network/Server.cpp:332-351 | matches are formed exactly when a full group is queued, and never more than there are requests |
| Servers.Leftover | NMMiniGameServer/NMMiniGameServer/Network/Server.cpp:332-365 | fewer than `maxUserCount` requests remain queued, and never more than were queued |
| Servers.GroupsPartition | NMMiniGameServer/NMMiniGameServer/Network/Server.cpp:332-351 | the new matches' users followed by the remaining queue are exactly the old queue, in order |
| Servers.GroupsShape | NMMiniGameServer/NMMiniGameServer/Network/Server.cpp:336-350 | every new match has exactly `maxUserCount` seats, none of them ready |
| Servers.MatchOf | NMMiniGameServer/NMMiniGameServer/Network/Server.cpp:110-116 | the first ready match containing the requester, with no earlier one containing them |
| Servers.SeatOf | NMMiniGameServer/NMMiniGameServer/Network/Server.cpp:119 | the requester's first seat in the match |
| Servers.Seating | NMMiniGameServer/NMMiniGameServer/Network/Server.cpp:131-134 | a new room seats the match's users in seat order |
| Servers.Requeued | NMMiniGameServer/NMMiniGameServer/Network/Server.cpp:153-165 | never longer than the match's seats |
| Servers.CancelNotices | NMMiniGameServer/NMMiniGameServer/Network/Server.cpp:153-157 | one cancel notice per seat |
| Servers.RequeuedCount | NMMiniGameServer/NMMiniGameServer/Network/Server.cpp:153-165 | with distinct seats, one fewer request is queued than there are seats |
| Servers.RequeuedAll | NMMiniGameServer/NMMiniGameServer/Network/Server.cpp:153-165 | when the requester holds no seat, every seat is queued |
| Servers.RequeuedSnoc | NMMiniGameServer/NMMiniGameServer/Network/Server.cpp:153-165 | one more seat queues one more request unless it is the requester's |
| Servers.RequeuedMembers | NMMiniGameServer/NMMiniGameServer/Network/Server.cpp:153-165 | a user is requeued iff it holds a seat and is not the requester |
| Servers.OpenSessions | NMMiniGameServer/NMMiniGameServer/Network/Server.cpp:304-308 | never longer than the session list |
| Servers.LiveRooms | NMMiniGameServer/NMMiniGameServer/Network/Server.cpp:314-318 | never longer than the room list |
| Servers.OpenSessionsMembers | NMMiniGameServer/NMMiniGameServer/Network/Server.cpp:304-308 | a session is kept iff it was present and is not closed |
| Servers.LiveRoomsMembers | NMMiniGameServer/NMMiniGameServer/Network/Server.cpp:314-318 | a room is kept iff it was present and has not ended |
| Servers.KeepOpen | NMMiniGameServer/NMMiniGameServer/Network/Server.cpp:304-308 | the erase loop leaves exactly the open sessions |
| Servers.KeepLive | NMMiniGameServer/NMMiniGameServer/Network/Server.cpp:314-318 | the erase loop leaves exactly the live rooms |
| Servers.Server.constructor | NMMiniGameServer/NMMiniGameServer/Network/Server.cpp:35-37 | every list starts empty and matching is off |
| Servers.Server.AddRequest | NMMiniGameServer/NMMiniGameServer/Network/Server.cpp:87-91 | the request goes to the back of the queue and matching is switched on |
| Servers.Server.CancelRequest | NMMiniGameServer/NMMiniGameServer/Network/Server.cpp:94-105 | the requester's first request is removed, the others keep their order, and matching is switched on |
| Servers.Server.PostReadyMatch | NMMiniGameServer/NMMiniGameServer/Network/Server.cpp:108-139 | marks the requester's seat ready; a fully ready match becomes one room with its users in seat order and is removed; without a match nothing changes |
| Servers.Server.PostCancelReadyMatch | NMMiniGameServer/NMMiniGameServer/Network/Server.cpp:142-171 | the other users return to the back of the queue in seat order, every seat is told the match was cancelled, the requester gets a cancel notice, and the match is removed |
| Servers.Server.CancelAndRequeue | NMMiniGameServer/NMMiniGameServer/Network/Server.cpp:153-165 | the loop over the seats queues everyone but the requester and notifies every seat |
| Servers.Server.DropMatch | NMMiniGameServer/NMMiniGameServer/Network/Server.cpp:168 | removes exactly the given match |
| Servers.Server.RemoveExpiredSession | NMMiniGameServer/NMMiniGameServer/Network/Server.cpp:302-309 | the session list becomes its open sessions |
| Servers.Server.RemoveExpiredRoom | NMMiniGameServer/NMMiniGameServer/Network/Server.cpp:312-319 | the room list becomes its live rooms |
| Servers.Server.AddNewSession | NMMiniGameServer/NMMiniGameServer/Network/Server.cpp:322-326 | a fresh waiting session for the socket is appended |
| Servers.Server.AddNewRoom | NMMiniGameServer/NMMiniGameServer/Network/Server.cpp:378-382 | one room is appended and returned |
| Servers.Server.QueuingMatch | NMMiniGameServer/NMMiniGameServer/Network/Server.cpp:329-366 | an empty queue changes nothing; otherwise the queue is cut into matches and a short remainder, each seat is notified, and each waiter is told the remaining size |
| Servers.Server.FormMatches | NMMiniGameServer/NMMiniGameServer/Network/Server.cpp:332-351 | the loop forms exactly `Groups` of the old queue and leaves its `Leftover` |
| Servers.Server.FormMatch | NMMiniGameServer/NMMiniGameServer/Network/Server.cpp:336-350 | the first `maxUserCount` requests become one new match, in order |
| Sessions.FramesPartition | NMMiniGameServer/NMMiniGameServer/Network/Session.cpp:71-93 | the dispatched frames followed by the kept tail are exactly the received bytes |
| Sessions.FramesAreWhole | NMMiniGameServer/NMMiniGameServer/Network/Session.cpp:77-91 | each dispatched frame is as long as its header says |
| Sessions.Frames | NMMiniGameServer/NMMiniGameServer/Network/Session.cpp:75-93 | a frame is dispatched exactly when the first frame is complete and its size is not 0; the kept tail is never longer than the received bytes |
| Sessions.FramesStopAtIncomplete | NMMiniGameServer/NMMiniGameServer/Network/Session.cpp:75-81 | the kept tail is empty or starts with an incomplete or zero-size frame |
| Sessions.FramesAsWritten | NMMiniGameServer/NMMiniGameServer/Network/Session.cpp:75-93 | as written, the loop runs past the data exactly when the first frame is longer than the buffered bytes; otherwise it dispatches nothing, or one frame that is exactly the whole buffer |
| Sessions.TwoFramesAsWritten | NMMiniGameServer/NMMiniGameServer/Network/Session.cpp:78-81 | as written, two complete frames are not dispatched |
| Sessions.PartialFrameAsWritten | NMMiniGameServer/NMMiniGameServer/Network/Session.cpp:78-90 | as written, an incomplete frame is dispatched past the end of the data |
| Sessions.MoveToFront | NMMiniGameServer/NMMiniGameServer/Network/Session.cpp:94-98 | the given range is copied to the buffer's start, and the rest is unchanged |
| Sessions.CopyInto | NMMiniGameServer/NMMiniGameServer/Network/Session.cpp:147 | the data is copied at the offset, and the rest is unchanged |
| Sessions.ScanFrames | NMMiniGameServer/NMMiniGameServer/Network/Session.cpp:75-93 | the cursor loop dispatches exactly `Frames` of the data and stops at the start of its tail |
| Sessions.Session.constructor | NMMiniGameServer/NMMiniGameServer/Network/Session.cpp:20-25 | a new session waits, with empty 1024-byte buffers and nothing delivered |
| Sessions.Session.GetSocket | NMMiniGameServer/NMMiniGameServer/Network/Session.cpp:27-30 | returns the socket |
| Sessions.Session.HasSendBytes | NMMiniGameServer/NMMiniGameServer/Network/Session.cpp:32-35 | true iff bytes are pending |
| Sessions.Session.SetState | NMMiniGameServer/NMMiniGameServer/Network/Session.cpp:37-40 | only the state changes |
| Sessions.Session.ProcessSend | NMMiniGameServer/NMMiniGameServer/Network/Session.cpp:42-56 | a send error closes the session; otherwise the pending bytes lose the sent prefix |
| Sessions.Session.ProcessReceive | NMMiniGameServer/NMMiniGameServer/Network/Session.cpp:58-101 | zero bytes or an error closes the session without dispatching; otherwise the complete frames are dispatched in order and the tail is kept at the buffer's start |
| Sessions.Session.DispatchFrames | NMMiniGameServer/NMMiniGameServer/Network/Session.cpp:71-98 | dispatches `Frames` of the buffered bytes and keeps the tail |
| Sessions.Session.Close | NMMiniGameServer/NMMiniGameServer/Network/Session.cpp:103-108 | the session is closed unless its socket is 0 |
| Sessions.Session.IsClosed | NMMiniGameServer/NMMiniGameServer/Network/Session.cpp:130-133 | true iff the state is Closed |
| Sessions.Session.SendByte | NMMiniGameServer/NMMiniGameServer/Network/Session.cpp:142-149 | a closed session changes nothing; otherwise the bytes are appended to the pending bytes |
| MapData.Lookup | NMMiniGameServer/NMMiniGameServer/Define/MapData.cpp:113-118 | a token is known iff it names a table entry |
| MapData.TableOrder | NMMiniGameServer/NMMiniGameServer/Define/MapData.cpp:77-109 | the table holds 25 entries |
| MapData.TableOrderComplete | NMMiniGameServer/NMMiniGameServer/Define/MapData.cpp:77-109 | every constant sits at its own position in the table |
| MapData.DefaultOf | NMMiniGameServer/NMMiniGameServer/Define/MapData.cpp:25-64 | each constant's initial value has its constant's kind |
| MapData.Defaults | NMMiniGameServer/NMMiniGameServer/Define/MapData.cpp:25-64 | every constant has an initial value, of its own kind |
| MapData.EveryNameListed | NMMiniGameServer/NMMiniGameServer/Define/MapData.cpp:77-109 | the table lists every constant |
| MapData.Truncate | NMMiniGameServer/NMMiniGameServer/Define/MapData.cpp:125 | truncation toward zero: the result is at most the value in magnitude and less than one away |
| MapData.TruncateWhole | NMMiniGameServer/NMMiniGameServer/Define/MapData.cpp:125 | a whole number truncates to itself |
| MapData.Convert | NMMiniGameServer/NMMiniGameServer/Define/MapData.cpp:122-130 | the stored value fits the constant's kind |
| MapData.ReadValue | NMMiniGameServer/NMMiniGameServer/Define/MapData.cpp:111-131 | well-typed constants stay well typed |
| MapData.UnknownTokenChangesNothing | NMMiniGameServer/NMMiniGameServer/Define/MapData.cpp:113-118 | an unknown token changes no constant |
| MapData.KnownTokenChangesOnlyItself | NMMiniGameServer/NMMiniGameServer/Define/MapData.cpp:119-130 | a known token changes only its own constant |
| MapData.DigitRoundTrip | NMMiniGameServer/NMMiniGameServer/Define/MapData.cpp:111-150 | reading back a Digit constant's written value changes nothing |
| MapData.SkipSpace | NMMiniGameServer/NMMiniGameServer/Define/MapData.cpp:180 | drops exactly the leading white space |
| MapData.Word | NMMiniGameServer/NMMiniGameServer/Define/MapData.cpp:180 | a leading run of non-space characters |
| MapData.ScanLine | NMMiniGameServer/NMMiniGameServer/Define/MapData.cpp:180 | a blank line yields no token; otherwise the token is a non-empty word without spaces |
| MapData.ScanLineReadsFirstWord | NMMiniGameServer/NMMiniGameServer/Define/MapData.cpp:180 | a token is read exactly when the line is not all white space, and it is the first word after the leading white space: it runs up to the next white space or the end of the line |
| MapData.ScanLineReadsNumber | NMMiniGameServer/NMMiniGameServer/Define/MapData.cpp:180 | once a token is read, a number is read exactly when the text after the word, white space skipped, starts with `=` and the `%f` conversion accepts what follows it, white space skipped; the number is that conversion's result |
| MapData.Step | NMMiniGameServer/NMMiniGameServer/Define/MapData.cpp:179-182 | well-typed constants stay well typed |
| MapData.Load | NMMiniGameServer/NMMiniGameServer/Define/MapData.cpp:177-183 | well-typed constants stay well typed |
| MapData.CommentsIgnored | NMMiniGameServer/NMMiniGameServer/Define/MapData.cpp:179 | dropping the comment lines gives the same result |
| MapData.LoadSnoc | NMMiniGameServer/NMMiniGameServer/Define/MapData.cpp:177-183 | loading one more line is one more step |
| MapData.LastAssignmentWins | NMMiniGameServer/NMMiniGameServer/Define/MapData.cpp:177-183 | the last line's assignment to a key is the key's value after loading |
| MapData.StepAssigns | NMMiniGameServer/NMMiniGameServer/Define/MapData.cpp:180-182 | a well-formed line for a known key assigns that key |
| MapData.StepKeepsNumber | NMMiniGameServer/NMMiniGameServer/Define/MapData.cpp:180-182 | a line whose number does not parse assigns the number the scan buffer still holds |
| MapData.MalformedNumberTakesPrevious | NMMiniGameServer/NMMiniGameServer/Define/MapData.cpp:175-182 | a malformed number assigns the value read on an earlier line |
| MapData.Constants.constructor | NMMiniGameServer/NMMiniGameServer/Define/MapData.cpp:25-64 | every constant starts at its default |
| MapData.Constants.TokenReadValue | NMMiniGameServer/NMMiniGameServer/Define/MapData.cpp:111-131 | the constants become `ReadValue` of the old ones |
| MapData.Constants.TokenOutValue | NMMiniGameServer/NMMiniGameServer/Define/MapData.cpp:133-150 | returns the known constant's current value, widened for a Digit |
| MapData.Constants.LoadMapData | NMMiniGameServer/NMMiniGameServer/Define/MapData.cpp:152-184 | a missing file changes nothing, writes one line per entry and returns false; otherwise the constants become `Load` of the lines |

## Left out

- Sockets, `select`, `accept`, `send`, `recv` and `closesocket`: their results (bytes sent, bytes received, error flags) are parameters of `ProcessSend` and `ProcessReceive`.
- The `Process` loop of the server, its sleep and tick timing and `UpdateRooms`: they are wall-clock driven and only call the modelled operations.
- The `ReadyMatch` constructor in `Server.cpp`: a new match is built by `Servers.NewMatch`.
- The request time `reqTime` of a match request is not modelled: nothing in the modelled code reads it, so `Servers.RequestMatch` holds only the requester.
- The system clock: every operation that reads it takes the time as a parameter.
- Floating point: positions, angles and times are exact `real`s. Single-precision rounding is not modelled.
- `Vector` trigonometry and square roots, and the forward direction in `GetForward`: these are function-valued parameters (`Geometry`). The Rush speed threshold compares squared length with 400.
- LambdaFsm.LambdaFSM.ChangeState: a chain of enter-handler transitions is bounded by a fuel count, `ChainLimit` (1). This is enough for every chain the player handlers request (a failed Rush returns once). Unbounded chains are not modelled.
- Controllers.PlayerController.OnReceivedPacket: an input packet requires a bound character, like the state handlers that dereference it.
- PlayerRules.UseRush: the maximum charge count is a `nat`, so a negative `MaxRushCount` is not modelled.
- Controllers.PlayerController.SendByte: the bytes are recorded in an outbox and are not written into the session's buffer. `Sessions.Session.SendByte` models that buffer on its own.
- Packet byte layouts and the packet structs' encodings are not modelled. Broadcasts carry byte strings, and the client notifications are `Event` values.
- Worlds.World.GetNewPlayerController: moving the controllers when the C++ vector reallocates, which invalidates earlier references, is not modelled.
- Rooms in the server are value records. The bodies of `Room::AddSession`, `ReadyToGame` and `GetState` are not part of this model, so a new room records its seated users and the state Opened.
- Null requesters are not modelled.
- Servers.Server.CancelRequest and Servers.Server.PostCancelReadyMatch require the requester to be present. The source would erase `end()`, which is undefined.
- Servers.Server.QueuingMatch requires `maxUserCount > 0`; with 0 the source loops forever.
- Items.Item.constructor: the item radius is a parameter, since `ItemRadius` is not one of the loaded constants.
- Items.Item.IsExpired: `IsOverSeconds` is not part of this model's `Timer.h`. It is read as the strict comparison `IsOver` uses.
- The constructor of `PlayerCharacter` is not part of this model. `Characters.PlayerCharacter.constructor` starts every field at zero.
- MapData.Convert: converting an out-of-range float to `Int32` is undefined in C++. Here the value is truncated toward zero and not clamped.
- MapData.ScanLine: number parsing (`%f`) is a parameter.
- MapData.Constants.LoadMapData: reading and writing files is not modelled. The file is an optional sequence of lines, and the default file is written as (name, value) pairs. On the success path the source returns no value, so the result is left unspecified there (`None`).
- MapData.DigitRoundTrip covers Digit constants only. A Float value read back through single precision is not modelled.
- MapData.TableOrder: the iteration order of `std::map` is taken as the table's literal order. Its sortedness by name is not proved.
- `SaveMapData` is not part of this model.
- PlayerRules.PlayerTables registers `RushEnter` with the corrected rush check of the first finding below. `PlayerRules.AsWrittenTables` is the same table with the check as written, and `PlayerRules.RushClickAsWrittenUnderflows` runs an input through it.
- PlayerRules.RushEnter uses the corrected check `CanRush`, not the check as written. The written handler is `PlayerRules.RushEnterAsWritten`.
- PlayerRules.MoveStateInput describes the corrected tables: a rush click from Idle or Run succeeds only with a counted charge. With the check as written it also succeeds with none (`PlayerRules.RushClickAsWrittenUnderflows`).
- PlayerRules.RotateStateInput describes the corrected tables: a rush click from a turning state succeeds only with a counted charge, where the check as written also lets it through with none.
- PlayerRules.RushAttempt describes the corrected `RushEnter`. Entering Rush with the check as written is `PlayerRules.RushEnterAsWritten`.
- PlayerRules.ControllerUpdate requires `RushInvariant`. The corrected tables keep it (`PlayerRules.InputKeepsRushInvariant`, `PlayerRules.Regenerate`). The tables as written break it, and the next `Update` then reads the deque at position -1, which is undefined and not modelled.
- Controllers.PlayerController.Update requires `RushInvariant` for the same reason as `PlayerRules.ControllerUpdate`.
- Sessions.ScanFrames runs the corrected framing of the second finding below (`Sessions.Frames`). The loop as written is modelled only as the function `Sessions.FramesAsWritten`, not as a method.
- Sessions.Session.DispatchFrames dispatches the corrected framing, through `Sessions.ScanFrames`.
- Sessions.Session.ProcessReceive dispatches the corrected framing, through `Sessions.Session.DispatchFrames`.
- Sessions.Session.SendByte: the send buffer doubles once on overflow, so the pending bytes plus the new ones must fit in twice the capacity.
- Sessions.Session.ProcessReceive: the received bytes must fit in the free part of the read buffer.
- Collision, impulses, item spawning, scoring, leader tracking, map phases and buffs are not part of this model. `Room.h` only declares them.
- `GameTimer`, logging and `Main.cpp` are not part of this model.

## Findings

| source | as written | input that shows it | evidently intended | confidence | as-written member | corrected member |
|---|---|---|---|---|---|---|
| NMMiniGameServer/NMMiniGameServer/Game/PlayerController.cpp:132-141 | `CanRush` checks only the recast deadline and the oldest regeneration deadline, never `rushCount` | `MaxRushCount` 3, deadlines [1.0, 2.0, 3.0] all passed, `rushCount` 0 (no `Update` has regenerated yet), rush click at time 5.0: the rush is allowed and `rushCount` becomes -1, so the next `Update` indexes `std::next(begin, -1)` | a rush is refused when no charge is available, so `0 <= rushCount <= MaxRushCount` always holds | not executed | PlayerRules.CanRushAsWritten, PlayerRules.RushAsWrittenUnderflows, PlayerRules.RushEnterAsWritten, PlayerRules.AsWrittenTables, PlayerRules.RushClickAsWrittenUnderflows | PlayerRules.CanRush, PlayerRules.UseRushKeepsInvariant, PlayerRules.InputKeepsRushInvariant |
| NMMiniGameServer/NMMiniGameServer/Network/Session.cpp:78 | the frame loop breaks when `Size < recvBytes`, although its comment says it stops on an incomplete frame | bytes [2, 7, 2, 7]: neither complete frame is dispatched; byte [3]: a frame of 3 bytes is dispatched with only 1 received, and the cursor runs past the data | break when the next frame is longer than the bytes left (or its size is 0), so that exactly the complete frames are dispatched in order and the rest is kept | not executed | Sessions.FramesAsWritten, Sessions.TwoFramesAsWritten, Sessions.PartialFrameAsWritten | Sessions.Frames, Sessions.FramesPartition |
