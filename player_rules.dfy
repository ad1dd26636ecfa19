// Game/PlayerController.cpp, the handlers registered in `AddStateFunctions` and the
// rush-charge bookkeeping they use. Each C++ handler is a closure over the controller;
// here it is a pure function of `Pawn`, the part of the controller (and of its
// character) that the closures read and write.
module PlayerRules {
  import opened Vectors
  import opened Timers
  import opened Characters
  import opened LambdaFsm

  /** `EPlayerState` (codes 0 to 10 in declaration order); `Hit`, `Win` and `Lose`
      have no handlers. */
  datatype PlayerState =
    Spawn | Idle | Run | Rush | Rotate | Hit | Win | Lose | Die | RotateLeft | RotateRight

  /** `Packet::EInputState`: the edge a button reports in one input packet. */
  datatype InputState = None | Click | Press | Release

  /** `Packet::Client::Input`: the three buttons. */
  datatype Input = Input(left: InputState, right: InputState, rush: InputState)

  /** What the controller sends: `ObjectStateChanged` and `ObjectLocation` go to the
      whole room, `PlayerRushCountChanged` to the player's own session. The location
      event carries the height the packet uses in place of the character's z. */
  datatype Event =
    | StateChanged(targetIndex: int, state: PlayerState)
    | RushCountChanged(count: int)
    | ObjectLocation(targetIndex: int, state: PlayerState, isSetHeight: bool,
                     location: Vector, forward: Vector)

  /** The `Constant::*` values the controller reads, and the room's spawn points
      (`room->GetSpawnLocation( index )`), whose bodies are not part of this model. */
  datatype Config = Config(
    maxRushCount: nat,
    rushRecastTime: real,
    rushRegenSeconds: real,
    respawnSeconds: real,
    firstSpawnWaitSeconds: real,
    characterDefaultSpeed: real,
    characterRotateSpeed: real,
    characterRushSpeed: real,
    characterMapOutSpeed: real,
    respawnHeight: real,
    defaultHeight: real,
    geometry: Geometry,
    spawnLocationOf: int -> Vector)

  /** What the handlers capture: the player index, the character's body, the four
      timers (as their time points), the rush deque and counter, the clock of the
      current call and the events sent so far. */
  datatype Pawn = Pawn(
    playerIndex: int,
    body: Body,
    timerSpawnStart: real,
    timerRespawnStart: real,
    timerRushUse: real,
    timerRushGen: real,
    rushQueue: seq<real>,
    rushCount: int,
    now: real,
    sent: seq<Event>)

  type Result = StateFuncResult<PlayerState>

  /** `StateFuncResult::NoChange()`: the unused target is `Spawn`, the enum's 0. */
  function Stay(): (r: Result)
    ensures !r.isChange
  {
    NoChange(Spawn)
  }

  function Emit(p: Pawn, e: Event): (q: Pawn)
    ensures q.sent == p.sent + [e] && q.(sent := p.sent) == p
  {
    p.(sent := p.sent + [e])
  }

  /** `rushQueue.size() == MaxRushCount` and `0 <= rushCount <= MaxRushCount`: what makes
      `std::next( rushQueue.begin(), rushCount )` in `Update` and `front()` in `CanRush`
      well defined. */
  predicate RushInvariant(cfg: Config, p: Pawn) {
    0 <= p.rushCount <= cfg.maxRushCount && |p.rushQueue| == cfg.maxRushCount
  }

  // ---------------------------------------------------------------- rush charges

  /** `CanRush` as written: the recast deadline and the oldest regeneration deadline
      have both passed. It does not look at `rushCount`. */
  predicate CanRushAsWritten(cfg: Config, p: Pawn)
    requires |p.rushQueue| > 0
  {
    Passed(p.rushQueue[0], p.now) && Passed(p.timerRushUse, p.now)
  }

  /** `CanRush` as intended: a charge must also be counted as available. The emptiness
      test only keeps `front()` defined; `RushInvariant` with a charge implies it. */
  predicate CanRush(cfg: Config, p: Pawn)
    ensures CanRush(cfg, p) ==> p.rushCount > 0 && |p.rushQueue| > 0 && CanRushAsWritten(cfg, p)
  {
    p.rushCount > 0 && |p.rushQueue| > 0
    && Passed(p.rushQueue[0], p.now) && Passed(p.timerRushUse, p.now)
  }

  /** `UseRush`: re-arms the recast deadline, retires the oldest regeneration deadline
      and queues a new one, pushes the character forward, spends a charge and reports
      the new count. */
  function UseRush(cfg: Config, p: Pawn): (q: Pawn)
    requires |p.rushQueue| > 0
    ensures q.timerRushUse == p.now + cfg.rushRecastTime
    ensures q.rushQueue == p.rushQueue[1..] + [p.now + cfg.rushRegenSeconds]
    ensures q.rushCount == p.rushCount - 1
    ensures q.body == p.body.(speed := p.body.speed.Plus(
                        cfg.geometry.forwardOf(p.body.rotation).Scaled(cfg.characterRushSpeed)))
    ensures q.sent == p.sent + [RushCountChanged(p.rushCount - 1)]
    ensures q.playerIndex == p.playerIndex && q.now == p.now
    ensures q.timerSpawnStart == p.timerSpawnStart && q.timerRespawnStart == p.timerRespawnStart
    ensures q.timerRushGen == p.timerRushGen
  {
    var forward := cfg.geometry.forwardOf(p.body.rotation);
    var pushed := p.(timerRushUse := p.now + cfg.rushRecastTime,
                     rushQueue := p.rushQueue[1..] + [p.now + cfg.rushRegenSeconds],
                     body := p.body.(speed := p.body.speed.Plus(forward.Scaled(cfg.characterRushSpeed))),
                     rushCount := p.rushCount - 1);
    Emit(pushed, RushCountChanged(pushed.rushCount))
  }

  /** The charge check at the end of `Update`: below the maximum, the deadline at
      position `rushCount` having passed gives one charge back. */
  function Regenerate(cfg: Config, p: Pawn): (q: Pawn)
    requires RushInvariant(cfg, p)
    ensures RushInvariant(cfg, q)
    ensures q.rushCount == p.rushCount || q.rushCount == p.rushCount + 1
    ensures q.rushCount == p.rushCount + 1 <==>
              p.rushCount < cfg.maxRushCount && Passed(p.rushQueue[p.rushCount], p.now)
    ensures q.rushCount == p.rushCount + 1 ==> q == Emit(p.(rushCount := q.rushCount), RushCountChanged(q.rushCount))
    ensures q.rushCount == p.rushCount ==> q == p
  {
    if p.rushCount < cfg.maxRushCount && Passed(p.rushQueue[p.rushCount], p.now) then
      Emit(p.(rushCount := p.rushCount + 1), RushCountChanged(p.rushCount + 1))
    else p
  }

  /** With the invariant, the intended `CanRush` is the written test plus an available
      charge. */
  lemma CanRushUnderInvariant(cfg: Config, p: Pawn)
    requires RushInvariant(cfg, p)
    ensures CanRush(cfg, p) <==> p.rushCount > 0 && CanRushAsWritten(cfg, p)
  {
  }

  /** Spending a charge that `CanRush` allows keeps the invariant. */
  lemma UseRushKeepsInvariant(cfg: Config, p: Pawn)
    requires RushInvariant(cfg, p) && CanRush(cfg, p)
    ensures RushInvariant(cfg, UseRush(cfg, p))
  {
  }

  /** The written `CanRush` lets a rush through with no charge counted: the oldest
      deadline has passed, but `Update` has not yet counted it. The count drops to -1,
      and the next `Update` then asks for the deque element at position -1. */
  lemma RushAsWrittenUnderflows(cfg: Config)
    requires cfg.maxRushCount == 3
    ensures var p := Pawn(0, Body(Zero, 0.0, 0.0, Zero, 0.0), 0.0, 0.0, 0.0, 0.0,
                          [1.0, 2.0, 3.0], 0, 5.0, []);
            RushInvariant(cfg, p) && CanRushAsWritten(cfg, p) && !CanRush(cfg, p)
            && UseRush(cfg, p).rushCount == -1 && !RushInvariant(cfg, UseRush(cfg, p))
  {
  }

  // ---------------------------------------------------------------- handlers

  /** The rush bookkeeping (the charge count, the regeneration deadlines and the recast
      and regeneration timers) is the same in both pawns. */
  predicate SameRush(p: Pawn, q: Pawn) {
    q.rushCount == p.rushCount && q.rushQueue == p.rushQueue
    && q.timerRushUse == p.timerRushUse && q.timerRushGen == p.timerRushGen
  }

  /** `defaultEnter`, registered for Idle: announces the state being entered. */
  function DefaultEnter(state: PlayerState, p: Pawn, prevState: PlayerState): (r: (Pawn, Result))
    ensures !r.1.isChange
    ensures r.0.sent == p.sent + [StateChanged(p.playerIndex, state)] && r.0.(sent := p.sent) == p
  {
    (Emit(p, StateChanged(p.playerIndex, state)), Stay())
  }

  function DefaultUpdate(p: Pawn, deltaTime: real): (Pawn, Result) {
    (p, Stay())
  }

  function DefaultOnInput(p: Pawn, input: Input): (Pawn, Result) {
    (p, Stay())
  }

  function DefaultExit(p: Pawn, nextState: PlayerState): Pawn {
    p
  }

  /** Spawn enter: announce, stop, and arm the spawn wait, which is the respawn delay
      after a death and the first-spawn delay otherwise. */
  function SpawnEnter(cfg: Config, p: Pawn, prevState: PlayerState): (r: (Pawn, Result))
    ensures !r.1.isChange && SameRush(p, r.0)
    ensures r.0.sent == p.sent + [StateChanged(p.playerIndex, Spawn)]
    ensures r.0.body.moveSpeed == 0.0
    ensures r.0.timerSpawnStart - p.now
            == if prevState == Die then cfg.respawnSeconds else cfg.firstSpawnWaitSeconds
  {
    var waitTime := if prevState == Die then cfg.respawnSeconds else cfg.firstSpawnWaitSeconds;
    var announced := Emit(p, StateChanged(p.playerIndex, Spawn));
    (announced.(body := announced.body.(moveSpeed := 0.0),
                timerSpawnStart := p.now + waitTime), Stay())
  }

  function SpawnUpdate(p: Pawn, deltaTime: real): (r: (Pawn, Result))
    ensures r.0 == p
    ensures r.1.isChange <==> Passed(p.timerSpawnStart, p.now)
    ensures r.1.isChange ==> r.1.nextState == Idle
  {
    if Passed(p.timerSpawnStart, p.now) then (p, ChangeTo(Idle)) else (p, Stay())
  }

  /** The input handler of Idle and Run: left before right before rush, on a click. */
  function MoveInput(input: Input): (r: Result)
    ensures r.isChange <==> input.left == Click || input.right == Click || input.rush == Click
    ensures r.isChange ==> r.nextState in {RotateLeft, RotateRight, Rush}
    ensures input.left == Click ==> r.nextState == RotateLeft
    ensures r.isChange && r.nextState == Rush ==> input.left != Click && input.right != Click
  {
    if input.left == Click then ChangeTo(RotateLeft)
    else if input.right == Click then ChangeTo(RotateRight)
    else if input.rush == Click then ChangeTo(Rush)
    else Stay()
  }

  function RunEnter(cfg: Config, p: Pawn, prevState: PlayerState): (r: (Pawn, Result))
    ensures !r.1.isChange && SameRush(p, r.0)
    ensures r.0.sent == p.sent + [StateChanged(p.playerIndex, Run)]
    ensures r.0.body == p.body.(moveSpeed := cfg.characterDefaultSpeed)
  {
    var announced := Emit(p, StateChanged(p.playerIndex, Run));
    (announced.(body := announced.body.(moveSpeed := cfg.characterDefaultSpeed)), Stay())
  }

  /** The enter handler of both turning states: the client sees one `Rotate` state. */
  function RotateEnter(p: Pawn, prevState: PlayerState): (r: (Pawn, Result))
    ensures !r.1.isChange && SameRush(p, r.0)
    ensures r.0.sent == p.sent + [StateChanged(p.playerIndex, Rotate)]
    ensures r.0.body == p.body.(moveSpeed := 0.0)
  {
    var announced := Emit(p, StateChanged(p.playerIndex, Rotate));
    (announced.(body := announced.body.(moveSpeed := 0.0)), Stay())
  }

  /** How far a character turns in one update: the rotate speed (degrees per second)
      times the elapsed seconds. */
  function TurnAngle(cfg: Config, deltaTime: real): real {
    cfg.characterRotateSpeed * deltaTime
  }

  /** RotateLeft update: turn left by the rotate speed times the elapsed time, and stay. */
  function RotateLeftUpdate(cfg: Config, p: Pawn, deltaTime: real): (r: (Pawn, Result))
    ensures !r.1.isChange
    ensures r.0.body.rotation == p.body.rotation - cfg.characterRotateSpeed * deltaTime
    ensures r.0.body.(rotation := p.body.rotation) == p.body && r.0.(body := p.body) == p
  {
    (p.(body := p.body.RotatedLeft(TurnAngle(cfg, deltaTime))), Stay())
  }

  /** RotateRight update: turn right by the rotate speed times the elapsed time, and stay. */
  function RotateRightUpdate(cfg: Config, p: Pawn, deltaTime: real): (r: (Pawn, Result))
    ensures !r.1.isChange
    ensures r.0.body.rotation == p.body.rotation + cfg.characterRotateSpeed * deltaTime
    ensures r.0.body.(rotation := p.body.rotation) == p.body && r.0.(body := p.body) == p
  {
    (p.(body := p.body.RotatedRight(TurnAngle(cfg, deltaTime))), Stay())
  }

  /** RotateLeft input: releasing left runs, clicking right turns the other way,
      clicking rush rushes. */
  function RotateLeftInput(input: Input): (r: Result)
    ensures r.isChange <==> input.left == Release || input.right == Click || input.rush == Click
    ensures r.isChange ==> r.nextState in {Run, RotateRight, Rush}
    ensures input.left == Release ==> r.nextState == Run
  {
    if input.left == Release then ChangeTo(Run)
    else if input.right == Click then ChangeTo(RotateRight)
    else if input.rush == Click then ChangeTo(Rush)
    else Stay()
  }

  function RotateRightInput(input: Input): (r: Result)
    ensures r.isChange <==> input.left == Click || input.right == Release || input.rush == Click
    ensures r.isChange ==> r.nextState in {RotateLeft, Run, Rush}
    ensures input.left == Click ==> r.nextState == RotateLeft
  {
    if input.left == Click then ChangeTo(RotateLeft)
    else if input.right == Release then ChangeTo(Run)
    else if input.rush == Click then ChangeTo(Rush)
    else Stay()
  }

  /** Rush enter: with a rush available, announce and spend it; otherwise go straight
      back to the state the attempt came from. */
  function RushEnter(cfg: Config, p: Pawn, prevState: PlayerState): (r: (Pawn, Result))
    ensures r.1.isChange <==> !CanRush(cfg, p)
    ensures r.1.isChange ==> r.0 == p && r.1.nextState == prevState
    ensures !r.1.isChange ==> r.0.rushCount == p.rushCount - 1 && r.0.rushCount >= 0
                              && r.0.timerRushUse == p.now + cfg.rushRecastTime
  {
    if CanRush(cfg, p) then (UseRush(cfg, Emit(p, StateChanged(p.playerIndex, Rush))), Stay())
    else (p, ChangeTo(prevState))
  }

  /** Rush update: back to running once the speed has fallen below 20 (compared
      squared). */
  function RushUpdate(p: Pawn, deltaTime: real): (r: (Pawn, Result))
    ensures r.0 == p
    ensures r.1.isChange <==> p.body.speed.LengthSquared() < 400.0
    ensures r.1.isChange ==> r.1.nextState == Run
  {
    if p.body.speed.LengthSquared() < 20.0 * 20.0 then (p, ChangeTo(Run)) else (p, Stay())
  }

  /** Die enter: start the respawn clock and set the speed along the negated unit
      location (`outVector`, which points toward the map centre) at the map-out speed. */
  function DieEnter(cfg: Config, p: Pawn, prevState: PlayerState): (r: (Pawn, Result))
    ensures !r.1.isChange
    ensures r.0.timerRespawnStart == p.now
    ensures r.0.sent == p.sent + [StateChanged(p.playerIndex, Die)]
    ensures r.0.body.speed
            == cfg.geometry.normalized(p.body.location).Negated().Scaled(cfg.characterMapOutSpeed)
    ensures r.0.(timerRespawnStart := p.timerRespawnStart, sent := p.sent,
                 body := r.0.body.(speed := p.body.speed)) == p
  {
    var outVector := cfg.geometry.normalized(p.body.location).Negated();
    var announced := Emit(p.(timerRespawnStart := p.now), StateChanged(p.playerIndex, Die));
    (announced.(body := announced.body.(speed := outVector.Scaled(cfg.characterMapOutSpeed))), Stay())
  }

  /** Die update: once the respawn delay is over, put the character on its spawn point
      at rest, tell the room, and spawn. */
  function DieUpdate(cfg: Config, p: Pawn, deltaTime: real): (r: (Pawn, Result))
    ensures SameRush(p, r.0)
    ensures r.1.isChange <==> Passed(p.timerRespawnStart + cfg.respawnSeconds, p.now)
    ensures !r.1.isChange ==> r.0 == p
    ensures r.1.isChange ==>
              r.1.nextState == Spawn
              && r.0.body == p.body.(location := cfg.spawnLocationOf(p.playerIndex), speed := Zero)
              && |r.0.sent| == |p.sent| + 1 && r.0.sent[..|p.sent|] == p.sent
              && r.0.sent[|p.sent|].ObjectLocation? && r.0.sent[|p.sent|].isSetHeight
              && r.0.sent[|p.sent|].location.z == cfg.respawnHeight
  {
    if Passed(p.timerRespawnStart + cfg.respawnSeconds, p.now) then
      var location := cfg.spawnLocationOf(p.playerIndex);
      var placed := p.(body := p.body.(location := location, speed := Zero));
      var shown := Vector(location.x, location.y, cfg.respawnHeight);
      var forward := cfg.geometry.forwardOf(p.body.rotation);
      (Emit(placed, ObjectLocation(p.playerIndex, Die, true, shown, forward)), ChangeTo(Spawn))
    else (p, Stay())
  }

  // ---------------------------------------------------------------- tables

  function SpawnEnterHandler(cfg: Config): EnterHandler<PlayerState, Pawn> {
    (p: Pawn, prev: PlayerState) => SpawnEnter(cfg, p, prev)
  }
  function IdleEnterHandler(): EnterHandler<PlayerState, Pawn> {
    (p: Pawn, prev: PlayerState) => DefaultEnter(Idle, p, prev)
  }
  function RunEnterHandler(cfg: Config): EnterHandler<PlayerState, Pawn> {
    (p: Pawn, prev: PlayerState) => RunEnter(cfg, p, prev)
  }
  function RotateEnterHandler(): EnterHandler<PlayerState, Pawn> {
    (p: Pawn, prev: PlayerState) => RotateEnter(p, prev)
  }
  function RushEnterHandler(cfg: Config): EnterHandler<PlayerState, Pawn> {
    (p: Pawn, prev: PlayerState) => RushEnter(cfg, p, prev)
  }
  function DieEnterHandler(cfg: Config): EnterHandler<PlayerState, Pawn> {
    (p: Pawn, prev: PlayerState) => DieEnter(cfg, p, prev)
  }

  function DefaultUpdateHandler(): UpdateHandler<PlayerState, Pawn> {
    (p: Pawn, dt: real) => DefaultUpdate(p, dt)
  }
  function SpawnUpdateHandler(): UpdateHandler<PlayerState, Pawn> {
    (p: Pawn, dt: real) => SpawnUpdate(p, dt)
  }
  function RotateLeftUpdateHandler(cfg: Config): UpdateHandler<PlayerState, Pawn> {
    (p: Pawn, dt: real) => RotateLeftUpdate(cfg, p, dt)
  }
  function RotateRightUpdateHandler(cfg: Config): UpdateHandler<PlayerState, Pawn> {
    (p: Pawn, dt: real) => RotateRightUpdate(cfg, p, dt)
  }
  function RushUpdateHandler(): UpdateHandler<PlayerState, Pawn> {
    (p: Pawn, dt: real) => RushUpdate(p, dt)
  }
  function DieUpdateHandler(cfg: Config): UpdateHandler<PlayerState, Pawn> {
    (p: Pawn, dt: real) => DieUpdate(cfg, p, dt)
  }

  function DefaultInputHandler(): InputHandler<PlayerState, Input, Pawn> {
    (p: Pawn, input: Input) => DefaultOnInput(p, input)
  }
  function MoveInputHandler(): InputHandler<PlayerState, Input, Pawn> {
    (p: Pawn, input: Input) => (p, MoveInput(input))
  }
  function RotateLeftInputHandler(): InputHandler<PlayerState, Input, Pawn> {
    (p: Pawn, input: Input) => (p, RotateLeftInput(input))
  }
  function RotateRightInputHandler(): InputHandler<PlayerState, Input, Pawn> {
    (p: Pawn, input: Input) => (p, RotateRightInput(input))
  }

  function DefaultExitHandler(): ExitHandler<PlayerState, Pawn> {
    (p: Pawn, next: PlayerState) => DefaultExit(p, next)
  }

  /** The states `AddStateFunctions` registers handlers for. */
  const Registered: set<PlayerState> := {Spawn, Idle, Run, RotateLeft, RotateRight, Rush, Die}

  /** The four tables as `AddStateFunctions` fills them, state by state, with the rush
      check of `RushEnter` corrected (see `CanRush`). */
  function PlayerTables(cfg: Config): (t: Tables<PlayerState, Input, Pawn>)
  {
    Tables(
      map[Spawn := SpawnEnterHandler(cfg), Idle := IdleEnterHandler(), Run := RunEnterHandler(cfg),
          RotateLeft := RotateEnterHandler(), RotateRight := RotateEnterHandler(),
          Rush := RushEnterHandler(cfg), Die := DieEnterHandler(cfg)],
      map[Spawn := DefaultInputHandler(), Idle := MoveInputHandler(), Run := MoveInputHandler(),
          RotateLeft := RotateLeftInputHandler(), RotateRight := RotateRightInputHandler(),
          Rush := DefaultInputHandler(), Die := DefaultInputHandler()],
      map[Spawn := SpawnUpdateHandler(), Idle := DefaultUpdateHandler(), Run := DefaultUpdateHandler(),
          RotateLeft := RotateLeftUpdateHandler(cfg), RotateRight := RotateRightUpdateHandler(cfg),
          Rush := RushUpdateHandler(), Die := DieUpdateHandler(cfg)],
      map[Spawn := DefaultExitHandler(), Idle := DefaultExitHandler(), Run := DefaultExitHandler(),
          RotateLeft := DefaultExitHandler(), RotateRight := DefaultExitHandler(),
          Rush := DefaultExitHandler(), Die := DefaultExitHandler()])
  }

  /** Every registered state has all four handlers, and no other state has any: an
      update or input in an unregistered state is a no-op. */
  lemma TablesRegistered(cfg: Config)
    ensures var t := PlayerTables(cfg);
            t.onEnter.Keys == t.onInput.Keys == t.onUpdate.Keys == t.onExit.Keys == Registered
  {
  }

  /** `RushEnter` with the rush check as written. An empty queue, on which `front()`
      is undefined, counts as no rush. */
  function RushEnterAsWritten(cfg: Config, p: Pawn, prevState: PlayerState): (r: (Pawn, Result))
    ensures r.1.isChange <==> !(|p.rushQueue| > 0 && CanRushAsWritten(cfg, p))
    ensures r.1.isChange ==> r.0 == p && r.1.nextState == prevState
    ensures !r.1.isChange ==> r.0.rushCount == p.rushCount - 1
  {
    if |p.rushQueue| > 0 && CanRushAsWritten(cfg, p) then
      (UseRush(cfg, Emit(p, StateChanged(p.playerIndex, Rush))), Stay())
    else (p, ChangeTo(prevState))
  }

  /** The tables as `AddStateFunctions` fills them with the rush check as written: the
      same as `PlayerTables` except for the enter handler of Rush. */
  function AsWrittenTables(cfg: Config): (t: Tables<PlayerState, Input, Pawn>)
    ensures var fixed := PlayerTables(cfg);
            t.onInput == fixed.onInput && t.onUpdate == fixed.onUpdate && t.onExit == fixed.onExit
            && t.onEnter.Keys == fixed.onEnter.Keys
            && forall s | s in fixed.onEnter && s != Rush :: t.onEnter[s] == fixed.onEnter[s]
  {
    var fixed := PlayerTables(cfg);
    fixed.(onEnter := fixed.onEnter[Rush := (p: Pawn, prev: PlayerState) => RushEnterAsWritten(cfg, p, prev)])
  }

  /** No handler chain is longer than one further transition (a failed rush returning
      to where it came from), so this bound makes the state machine exact. */
  const ChainLimit: nat := 1

  // ---------------------------------------------------------------- behaviour

  /** Idle and Run: a left click turns left, else a right click turns right, else a
      rush click rushes when a rush is available and stays put when not. */
  lemma MoveStateInput(cfg: Config, p: Pawn, cur: PlayerState, input: Input)
    requires cur == Idle || cur == Run
    ensures var o := InputStep(PlayerTables(cfg), p, cur, input, ChainLimit);
            o.state == (if input.left == Click then RotateLeft
                        else if input.right == Click then RotateRight
                        else if input.rush == Click && CanRush(cfg, p) then Rush
                        else cur)
  {
    var t := PlayerTables(cfg);
    assert t.onInput[cur] == MoveInputHandler();
    if input.left != Click && input.right != Click && input.rush == Click {
      RushAttempt(cfg, p, cur);
    }
  }

  /** RotateLeft: releasing left runs, else a right click turns right, else a rush
      click rushes when possible; RotateRight mirrors the two turning buttons. */
  lemma RotateStateInput(cfg: Config, p: Pawn, cur: PlayerState, input: Input)
    requires cur == RotateLeft || cur == RotateRight
    ensures var o := InputStep(PlayerTables(cfg), p, cur, input, ChainLimit);
            cur == RotateLeft ==>
              o.state == (if input.left == Release then Run
                          else if input.right == Click then RotateRight
                          else if input.rush == Click && CanRush(cfg, p) then Rush
                          else RotateLeft)
    ensures var o := InputStep(PlayerTables(cfg), p, cur, input, ChainLimit);
            cur == RotateRight ==>
              o.state == (if input.left == Click then RotateLeft
                          else if input.right == Release then Run
                          else if input.rush == Click && CanRush(cfg, p) then Rush
                          else RotateRight)
  {
    var t := PlayerTables(cfg);
    var r := if cur == RotateLeft then RotateLeftInput(input) else RotateRightInput(input);
    assert t.onInput[cur](p, input) == (p, r);
    if r == ChangeTo(Rush) {
      RushAttempt(cfg, p, cur);
    }
  }

  /** Spawn, Rush and Die ignore every input, and so do the handler-less states. */
  lemma InputIgnored(cfg: Config, p: Pawn, cur: PlayerState, input: Input)
    requires cur !in {Idle, Run, RotateLeft, RotateRight}
    ensures InputStep(PlayerTables(cfg), p, cur, input, ChainLimit) == Outcome(cur, p, false)
  {
  }

  /** Entering Rush from a moving or turning state: with a rush available it is spent
      and the state is Rush; otherwise the machine returns to where it came from, the
      rush bookkeeping and the character's velocity untouched. */
  lemma RushAttempt(cfg: Config, p: Pawn, cur: PlayerState)
    requires cur in {Idle, Run, RotateLeft, RotateRight}
    ensures var o := Transition(PlayerTables(cfg), p, cur, Rush, true, ChainLimit);
            !o.truncated
            && (CanRush(cfg, p) ==>
                  o.state == Rush && o.env == UseRush(cfg, Emit(p, StateChanged(p.playerIndex, Rush))))
            && (!CanRush(cfg, p) ==>
                  o.state == cur && o.env.rushCount == p.rushCount && o.env.rushQueue == p.rushQueue
                  && o.env.timerRushUse == p.timerRushUse && o.env.body.speed == p.body.speed)
  {
    var t := PlayerTables(cfg);
    ExitKeepsPawn(cfg, p, cur);
    assert t.onEnter[Rush](p, cur) == RushEnter(cfg, p, cur);
    if !CanRush(cfg, p) {
      assert t.onEnter[Rush](p, cur) == (p, ChangeTo(cur));
      assert Transition(t, p, cur, Rush, true, 1) == Transition(t, p, Rush, cur, true, 0);
    }
  }

  /** A rush click from Idle with the tables as written: the oldest deadline has passed
      but `Update` has not yet counted the charge back, so the rush goes through with
      no charge and the count drops to -1, breaking `RushInvariant`. With the corrected
      check the same click leaves the machine Idle. */
  lemma RushClickAsWrittenUnderflows(cfg: Config)
    requires cfg.maxRushCount == 3
    ensures var p := Pawn(0, Body(Zero, 0.0, 0.0, Zero, 0.0), 0.0, 0.0, 0.0, 0.0,
                          [1.0, 2.0, 3.0], 0, 5.0, []);
            var click := Input(None, None, Click);
            var o := InputStep(AsWrittenTables(cfg), p, Idle, click, ChainLimit);
            RushInvariant(cfg, p) && o.state == Rush && o.env.rushCount == -1
            && !RushInvariant(cfg, o.env)
            && InputStep(PlayerTables(cfg), p, Idle, click, ChainLimit).state == Idle
  {
    var p := Pawn(0, Body(Zero, 0.0, 0.0, Zero, 0.0), 0.0, 0.0, 0.0, 0.0, [1.0, 2.0, 3.0], 0, 5.0, []);
    var t, click := AsWrittenTables(cfg), Input(None, None, Click);
    assert t.onInput[Idle](p, click) == (p, ChangeTo(Rush));
    ExitKeepsPawn(cfg, p, Idle);
    var entered := RushEnterAsWritten(cfg, p, Idle);
    assert t.onEnter[Rush](p, Idle) == entered && !entered.1.isChange;
    assert InputStep(t, p, Idle, click, ChainLimit) == Outcome(Rush, entered.0, false);
    MoveStateInput(cfg, p, Idle, click);
  }

  /** Entering Run or a turning state announces it and sets the move speed, and chains
      no further: the rush bookkeeping stays as it was. */
  lemma PlainEntry(cfg: Config, p: Pawn, cur: PlayerState, target: PlayerState)
    requires target in {Run, RotateLeft, RotateRight}
    ensures var o := Transition(PlayerTables(cfg), p, cur, target, true, ChainLimit);
            !o.truncated && o.state == target
            && o.env.rushCount == p.rushCount && o.env.rushQueue == p.rushQueue
            && o.env.timerRushUse == p.timerRushUse
  {
    var t := PlayerTables(cfg);
    ExitKeepsPawn(cfg, p, cur);
    if target == Run {
      assert t.onEnter[target](p, cur) == RunEnter(cfg, p, cur);
    } else {
      assert t.onEnter[target](p, cur) == RotateEnter(p, cur);
    }
  }

  /** Every registered exit handler is the default one, which leaves the pawn as it is. */
  lemma ExitKeepsPawn(cfg: Config, p: Pawn, cur: PlayerState)
    ensures var t := PlayerTables(cfg);
            cur in t.onExit ==> t.onExit[cur](p, cur) == p
  {
  }

  /** Entering Spawn stops the character and arms the wait from the previous state:
      the respawn delay after Die, the first-spawn delay otherwise. Nothing else of
      the pawn changes besides the announcement. */
  lemma SpawnEntry(cfg: Config, p: Pawn, prev: PlayerState, callExit: bool)
    ensures var o := Transition(PlayerTables(cfg), p, prev, Spawn, callExit, ChainLimit);
            o.state == Spawn && !o.truncated
            && o.env == p.(timerSpawnStart := p.now + (if prev == Die then cfg.respawnSeconds
                                                       else cfg.firstSpawnWaitSeconds),
                           body := p.body.(moveSpeed := 0.0),
                           sent := p.sent + [StateChanged(p.playerIndex, Spawn)])
  {
    var t := PlayerTables(cfg);
    ExitKeepsPawn(cfg, p, prev);
    assert t.onEnter[Spawn](p, prev) == SpawnEnter(cfg, p, prev);
  }

  /** Entering Die starts the respawn clock at the current time, announces the death
      and sets the speed along the negated unit location (toward the map centre) at the
      map-out speed; nothing else of the pawn changes, and nothing chains further. */
  lemma DieEntry(cfg: Config, p: Pawn, cur: PlayerState)
    ensures var o := Transition(PlayerTables(cfg), p, cur, Die, true, ChainLimit);
            o.state == Die && !o.truncated
            && o.env == p.(timerRespawnStart := p.now,
                           sent := p.sent + [StateChanged(p.playerIndex, Die)],
                           body := p.body.(speed := cfg.geometry.normalized(p.body.location)
                                                      .Negated().Scaled(cfg.characterMapOutSpeed)))
  {
    var t := PlayerTables(cfg);
    ExitKeepsPawn(cfg, p, cur);
    assert t.onEnter[Die](p, cur) == DieEnter(cfg, p, cur);
  }

  /** Entering Idle only announces Idle: nothing else of the pawn changes, and nothing
      chains further. */
  lemma IdleEntry(cfg: Config, p: Pawn, cur: PlayerState)
    ensures var o := Transition(PlayerTables(cfg), p, cur, Idle, true, ChainLimit);
            o.state == Idle && !o.truncated
            && o.env == p.(sent := p.sent + [StateChanged(p.playerIndex, Idle)])
  {
    var t := PlayerTables(cfg);
    ExitKeepsPawn(cfg, p, cur);
    assert t.onEnter[Idle](p, cur) == DefaultEnter(Idle, p, cur);
  }

  /** Spawn waits until its deadline has strictly passed, then goes Idle. */
  lemma SpawnUpdateWaits(cfg: Config, p: Pawn, deltaTime: real)
    ensures var o := UpdateStep(PlayerTables(cfg), p, Spawn, deltaTime, ChainLimit);
            (o.state == Idle <==> Passed(p.timerSpawnStart, p.now))
            && (o.state == Idle || o.state == Spawn)
            && (o.state == Spawn ==> o.env == p)
  {
  }

  /** Idle and Run have no update transition: an update changes nothing. */
  lemma IdleAndRunUpdate(cfg: Config, p: Pawn, cur: PlayerState, deltaTime: real)
    requires cur == Idle || cur == Run
    ensures UpdateStep(PlayerTables(cfg), p, cur, deltaTime, ChainLimit) == Outcome(cur, p, false)
  {
  }

  /** The turning states turn the character by the rotate speed times the elapsed
      time, left or right, and stay. */
  lemma TurningUpdate(cfg: Config, p: Pawn, cur: PlayerState, deltaTime: real)
    requires cur == RotateLeft || cur == RotateRight
    ensures UpdateStep(PlayerTables(cfg), p, cur, deltaTime, ChainLimit)
            == Outcome(cur, p.(body := if cur == RotateLeft
                                       then p.body.RotatedLeft(TurnAngle(cfg, deltaTime))
                                       else p.body.RotatedRight(TurnAngle(cfg, deltaTime))),
                       false)
  {
    var t := PlayerTables(cfg);
    if cur == RotateLeft {
      assert t.onUpdate[cur] == RotateLeftUpdateHandler(cfg);
      assert t.onUpdate[cur](p, deltaTime) == RotateLeftUpdate(cfg, p, deltaTime);
    } else {
      assert t.onUpdate[cur] == RotateRightUpdateHandler(cfg);
      assert t.onUpdate[cur](p, deltaTime) == RotateRightUpdate(cfg, p, deltaTime);
    }
  }

  /** The states without handlers (Rotate, Hit, Win, Lose) ignore updates. */
  lemma UnregisteredUpdate(cfg: Config, p: Pawn, cur: PlayerState, deltaTime: real)
    requires cur in {Rotate, Hit, Win, Lose}
    ensures UpdateStep(PlayerTables(cfg), p, cur, deltaTime, ChainLimit) == Outcome(cur, p, false)
  {
  }

  /** Rush lasts while the speed is at least 20; below that the character runs. */
  lemma RushUpdateEnds(cfg: Config, p: Pawn, deltaTime: real)
    ensures var o := UpdateStep(PlayerTables(cfg), p, Rush, deltaTime, ChainLimit);
            (o.state == Run <==> p.body.speed.LengthSquared() < 400.0)
            && (o.state == Run || o.state == Rush)
  {
  }

  /** Die does nothing until the respawn delay after entry has passed; then the
      character stands still on its spawn point and the state is Spawn. */
  lemma DieUpdateRespawns(cfg: Config, p: Pawn, deltaTime: real)
    ensures var o := UpdateStep(PlayerTables(cfg), p, Die, deltaTime, ChainLimit);
            if Passed(p.timerRespawnStart + cfg.respawnSeconds, p.now) then
              var location := cfg.spawnLocationOf(p.playerIndex);
              o.state == Spawn && o.env.body.location == location
              && o.env.body.speed == Zero && o.env.timerSpawnStart == p.now + cfg.respawnSeconds
              && o.env.sent == p.sent + [ObjectLocation(p.playerIndex, Die, true,
                                                        Vector(location.x, location.y, cfg.respawnHeight),
                                                        cfg.geometry.forwardOf(p.body.rotation)),
                                         StateChanged(p.playerIndex, Spawn)]
            else o == Outcome(Die, p, false)
  {
  }

  /** With the registered handlers, one further transition always suffices: no update
      or input is ever cut short by the chain bound. */
  lemma UpdateComplete(cfg: Config, p: Pawn, cur: PlayerState, deltaTime: real)
    ensures !UpdateStep(PlayerTables(cfg), p, cur, deltaTime, ChainLimit).truncated
  {
    UpdateCases(cfg, p, cur, deltaTime);
  }

  lemma InputComplete(cfg: Config, p: Pawn, cur: PlayerState, input: Input)
    ensures !InputStep(PlayerTables(cfg), p, cur, input, ChainLimit).truncated
  {
    if cur in {Idle, Run, RotateLeft, RotateRight} {
      var r := PlayerTables(cfg).onInput[cur](p, input).1;
      assert r.isChange ==> r.nextState in {RotateLeft, RotateRight, Rush, Run};
      if r.isChange && r.nextState == Rush {
        RushAttempt(cfg, p, cur);
      } else if r.isChange {
        PlainEntry(cfg, p, cur, r.nextState);
      }
    }
  }

  lemma UpdateKeepsCharges(cfg: Config, p: Pawn, cur: PlayerState, deltaTime: real)
    ensures var o := UpdateStep(PlayerTables(cfg), p, cur, deltaTime, ChainLimit);
            o.env.rushCount == p.rushCount && o.env.rushQueue == p.rushQueue
            && o.env.timerRushUse == p.timerRushUse
  {
    UpdateCases(cfg, p, cur, deltaTime);
  }

  /** Every update, state by state: it is never cut short and leaves the rush
      bookkeeping alone. */
  lemma UpdateCases(cfg: Config, p: Pawn, cur: PlayerState, deltaTime: real)
    ensures var o := UpdateStep(PlayerTables(cfg), p, cur, deltaTime, ChainLimit);
            !o.truncated
            && o.env.rushCount == p.rushCount && o.env.rushQueue == p.rushQueue
            && o.env.timerRushUse == p.timerRushUse
  {
    match cur
    case Spawn => SpawnUpdateWaits(cfg, p, deltaTime);
    case Die => DieUpdateRespawns(cfg, p, deltaTime);
    case Rush => RushUpdateEnds(cfg, p, deltaTime);
    case Idle => IdleAndRunUpdate(cfg, p, cur, deltaTime);
    case Run => IdleAndRunUpdate(cfg, p, cur, deltaTime);
    case RotateLeft => TurningUpdate(cfg, p, cur, deltaTime);
    case RotateRight => TurningUpdate(cfg, p, cur, deltaTime);
    case Rotate => UnregisteredUpdate(cfg, p, cur, deltaTime);
    case Hit => UnregisteredUpdate(cfg, p, cur, deltaTime);
    case Win => UnregisteredUpdate(cfg, p, cur, deltaTime);
    case Lose => UnregisteredUpdate(cfg, p, cur, deltaTime);
  }

  /** An input either leaves the charges alone or spends exactly one through a rush
      that `CanRush` allowed; either way the rush invariant survives. */
  lemma InputKeepsRushInvariant(cfg: Config, p: Pawn, cur: PlayerState, input: Input)
    requires RushInvariant(cfg, p)
    ensures var o := InputStep(PlayerTables(cfg), p, cur, input, ChainLimit);
            RushInvariant(cfg, o.env)
            && (o.env.rushCount == p.rushCount || o.env.rushCount == p.rushCount - 1)
  {
    if cur in {Idle, Run, RotateLeft, RotateRight} {
      var r := PlayerTables(cfg).onInput[cur](p, input);
      assert r.0 == p;
      if r.1.isChange && r.1.nextState == Rush {
        RushAttempt(cfg, p, cur);
        if CanRush(cfg, p) {
          UseRushKeepsInvariant(cfg, Emit(p, StateChanged(p.playerIndex, Rush)));
        }
      } else if r.1.isChange {
        assert r.1.nextState in {RotateLeft, RotateRight, Run};
        PlainEntry(cfg, p, cur, r.1.nextState);
      }
    }
  }

  /** `count` copies of the time point `t`. */
  function Repeat(t: real, count: nat): (r: seq<real>)
    ensures |r| == count
    ensures forall i | 0 <= i < count :: r[i] == t
  {
    if count == 0 then [] else Repeat(t, count - 1) + [t]
  }

  /** The whole of `PlayerController::Update` with a character present: the clock and
      the character's body are loaded, the state machine updates, and a charge may be
      regenerated. The charges stay within bounds and rise by at most one. */
  function ControllerUpdate(cfg: Config, p: Pawn, cur: PlayerState, body: Body,
                            deltaTime: real, now: real): (r: (PlayerState, Pawn))
    requires RushInvariant(cfg, p)
    ensures RushInvariant(cfg, r.1)
    ensures r.1.rushCount == p.rushCount || r.1.rushCount == p.rushCount + 1
  {
    var loaded := p.(body := body, now := now);
    var o := UpdateStep(PlayerTables(cfg), loaded, cur, deltaTime, ChainLimit);
    UpdateKeepsCharges(cfg, loaded, cur, deltaTime);
    (o.state, Regenerate(cfg, o.env))
  }
}
