// Game/PlayerController.cpp: the object that turns one player's input packets and the
// room's ticks into state-machine calls, and keeps the rush charges.
module Controllers {
  import opened Vectors
  import opened Characters
  import opened Timers
  import opened LambdaFsm
  import opened PlayerRules
  import Sessions

  datatype Option<T> = Nothing | Some(value: T)

  /** A decoded packet header: only `ClientInput` is acted upon. */
  datatype Packet = ClientInput(input: Input) | OtherPacket(packetType: int)

  /** What a controller holds before anything is set: index 0, no timers armed, an
      empty rush deque and no charges. */
  function InitialPawn(): (p: Pawn)
    ensures p.rushQueue == [] && p.rushCount == 0 && p.sent == []
  {
    Pawn(0, Body(Zero, 0.0, 0.0, Zero, 0.0), 0.0, 0.0, 0.0, 0.0, [], 0, 0.0, [])
  }

  /** A controller as the game logic sees it: its state machine's state and
      environment, and its character's body. */
  datatype SlotState = SlotState(state: PlayerState, pawn: Pawn, body: Body)

  /** One tick of a slot: nothing happens without a bound character; otherwise the
      controller's update runs on the character's current body, and the character
      takes the resulting body. */
  function Tick(cfg: Config, s: SlotState, bound: bool, deltaTime: real, now: real): (t: SlotState)
    requires bound ==> RushInvariant(cfg, s.pawn)
    ensures bound ==> RushInvariant(cfg, t.pawn)
    ensures !bound ==> t == s
  {
    if !bound then s
    else
      var r := ControllerUpdate(cfg, s.pawn, s.state, s.body, deltaTime, now);
      SlotState(r.0, r.1, r.1.body)
  }

  class PlayerController {
    const cfg: Config
    /** The state machine; its environment holds every field the handlers capture. */
    const fsm: LambdaFSM<PlayerState, Input, Pawn>
    var character: PlayerCharacter?
    var session: Sessions.Session?
    /** The byte strings handed to `session->SendByte`, in order. */
    var outbox: seq<seq<Sessions.Byte>>

    ghost predicate Valid()
      reads this, fsm
    {
      fsm.HandlerTables() == PlayerTables(cfg) && fsm.chainLimit == ChainLimit
      && (character != null ==> character.geometry == cfg.geometry)
    }

    /** The controller has been initialised: its rush deque is full. */
    ghost predicate Ready()
      reads this, fsm
    {
      Valid() && RushInvariant(cfg, fsm.env)
    }

    /** `PlayerController()`: registers every handler (`AddStateFunctions`). */
    constructor (cfg: Config)
      ensures Valid() && fresh(fsm) && this.cfg == cfg
      ensures character == null && session == null && outbox == []
      ensures fsm.currentState == Spawn && fsm.env == InitialPawn()
    {
      this.cfg := cfg;
      var m := new LambdaFSM<PlayerState, Input, Pawn>(Spawn, InitialPawn(), ChainLimit);
      m.AddStateFunctionOnEnter(Spawn, SpawnEnterHandler(cfg));
      m.AddStateFunctionOnUpdate(Spawn, SpawnUpdateHandler());
      m.AddStateFunctionOnReceiveInput(Spawn, DefaultInputHandler());
      m.AddStateFunctionOnExit(Spawn, DefaultExitHandler());

      m.AddStateFunctionOnEnter(Idle, IdleEnterHandler());
      m.AddStateFunctionOnUpdate(Idle, DefaultUpdateHandler());
      m.AddStateFunctionOnReceiveInput(Idle, MoveInputHandler());
      m.AddStateFunctionOnExit(Idle, DefaultExitHandler());

      m.AddStateFunctionOnEnter(Run, RunEnterHandler(cfg));
      m.AddStateFunctionOnUpdate(Run, DefaultUpdateHandler());
      m.AddStateFunctionOnReceiveInput(Run, MoveInputHandler());
      m.AddStateFunctionOnExit(Run, DefaultExitHandler());

      m.AddStateFunctionOnEnter(RotateLeft, RotateEnterHandler());
      m.AddStateFunctionOnUpdate(RotateLeft, RotateLeftUpdateHandler(cfg));
      m.AddStateFunctionOnReceiveInput(RotateLeft, RotateLeftInputHandler());
      m.AddStateFunctionOnExit(RotateLeft, DefaultExitHandler());

      m.AddStateFunctionOnEnter(RotateRight, RotateEnterHandler());
      m.AddStateFunctionOnUpdate(RotateRight, RotateRightUpdateHandler(cfg));
      m.AddStateFunctionOnReceiveInput(RotateRight, RotateRightInputHandler());
      m.AddStateFunctionOnExit(RotateRight, DefaultExitHandler());

      m.AddStateFunctionOnEnter(Rush, RushEnterHandler(cfg));
      m.AddStateFunctionOnUpdate(Rush, RushUpdateHandler());
      m.AddStateFunctionOnReceiveInput(Rush, DefaultInputHandler());
      m.AddStateFunctionOnExit(Rush, DefaultExitHandler());

      m.AddStateFunctionOnEnter(Die, DieEnterHandler(cfg));
      m.AddStateFunctionOnUpdate(Die, DieUpdateHandler(cfg));
      m.AddStateFunctionOnReceiveInput(Die, DefaultInputHandler());
      m.AddStateFunctionOnExit(Die, DefaultExitHandler());
      fsm := m;
      character := null;
      session := null;
      outbox := [];
    }

    method SetSession(session: Sessions.Session?)
      modifies this
      ensures this.session == session
      ensures character == old(character) && outbox == old(outbox)
    {
      this.session := session;
    }

    method SetCharacter(character: PlayerCharacter?)
      requires Valid()
      requires character != null ==> character.geometry == cfg.geometry
      modifies this
      ensures Valid()
      ensures this.character == character
      ensures session == old(session) && outbox == old(outbox)
    {
      this.character := character;
    }

    method SetPlayerIndex(playerIndex: int)
      modifies fsm
      ensures fsm.env == old(fsm.env).(playerIndex := playerIndex)
      ensures fsm.currentState == old(fsm.currentState) && fsm.HandlerTables() == old(fsm.HandlerTables())
    {
      fsm.env := fsm.env.(playerIndex := playerIndex);
    }

    function GetState(): (s: PlayerState)
      reads this, fsm
      ensures s == fsm.currentState
    {
      fsm.GetState()
    }

    /** `SendByte`: hands the bytes to the session, if there is one. */
    method SendByte(data: seq<Sessions.Byte>)
      modifies this
      ensures outbox == old(outbox) + (if session != null then [data] else [])
      ensures session == old(session) && character == old(character)
    {
      if session == null {
        return;
      }
      outbox := outbox + [data];
    }

    /** `Initialize`: starts the machine in Spawn (no exit handler runs), arms the two
        rush timers and queues `MaxRushCount` regeneration deadlines at the current
        clock. */
    method Initialize(now: real)
      requires Valid() && character != null
      modifies fsm, character
      ensures Valid()
      ensures var p := old(fsm.env).(body := old(character.Data()), now := now);
              var o := Transition(PlayerTables(cfg), p, old(fsm.currentState), Spawn, false, ChainLimit);
              fsm.currentState == Spawn
              && fsm.env == o.env.(timerRushUse := now, timerRushGen := now,
                                   rushQueue := o.env.rushQueue + Repeat(now, cfg.maxRushCount))
      ensures character.Data() == fsm.env.body
      ensures old(fsm.env.rushQueue) == [] && 0 <= old(fsm.env.rushCount) <= cfg.maxRushCount ==> Ready()
    {
      fsm.env := fsm.env.(body := character.Data(), now := now);
      ghost var p := fsm.env;
      SpawnEntry(cfg, p, fsm.currentState, false);
      fsm.Start(Spawn);
      fsm.env := fsm.env.(timerRushUse := now, timerRushGen := now);
      ghost var started := fsm.env;
      for i := 0 to cfg.maxRushCount
        invariant fsm.env == started.(rushQueue := started.rushQueue + Repeat(now, i))
        invariant fsm.currentState == Spawn && Valid()
      {
        fsm.env := fsm.env.(rushQueue := fsm.env.rushQueue + [now]);
      }
      character.Store(fsm.env.body);
    }

    /** `Update`: without a character nothing happens; otherwise the state machine
        updates and then one charge may be regenerated. */
    method Update(deltaTime: real, now: real)
      requires Valid() && (character != null ==> Ready())
      modifies fsm, character
      ensures Valid() && (old(Ready()) ==> Ready())
      ensures old(character) == null ==>
                fsm.env == old(fsm.env) && fsm.currentState == old(fsm.currentState)
      ensures old(character) != null ==>
                var r := ControllerUpdate(cfg, old(fsm.env), old(fsm.currentState),
                                          old(character.Data()), deltaTime, now);
                fsm.currentState == r.0 && fsm.env == r.1 && character.Data() == r.1.body
    {
      if character == null {
        return;
      }
      fsm.env := fsm.env.(body := character.Data(), now := now);
      ghost var loaded := fsm.env;
      UpdateKeepsCharges(cfg, loaded, fsm.currentState, deltaTime);
      fsm.Update(deltaTime);
      if fsm.env.rushCount < cfg.maxRushCount {
        var deadline := fsm.env.rushQueue[fsm.env.rushCount];
        if Passed(deadline, fsm.env.now) {
          fsm.env := fsm.env.(rushCount := fsm.env.rushCount + 1);
          fsm.env := Emit(fsm.env, RushCountChanged(fsm.env.rushCount));
        }
      }
      character.Store(fsm.env.body);
    }

    /** `OnReceivedPacket`: a null packet and any packet other than `ClientInput` are
        ignored; an input goes to the state machine. */
    method OnReceivedPacket(packet: Option<Packet>, now: real)
      requires Valid()
      requires packet.Some? && packet.value.ClientInput? ==> character != null
      modifies fsm, character
      ensures Valid()
      ensures !(packet.Some? && packet.value.ClientInput?) ==>
                fsm.env == old(fsm.env) && fsm.currentState == old(fsm.currentState)
                && (character != null ==> character.Data() == old(character.Data()))
      ensures packet.Some? && packet.value.ClientInput? ==>
                var p := old(fsm.env).(body := old(character.Data()), now := now);
                var o := InputStep(PlayerTables(cfg), p, old(fsm.currentState), packet.value.input, ChainLimit);
                fsm.currentState == o.state && fsm.env == o.env && character.Data() == o.env.body
      ensures old(Ready()) ==> Ready()
    {
      if packet.Nothing? {
        return;
      }
      match packet.value
      case ClientInput(input) =>
        fsm.env := fsm.env.(body := character.Data(), now := now);
        ghost var loaded := fsm.env;
        if RushInvariant(cfg, loaded) {
          InputKeepsRushInvariant(cfg, loaded, fsm.currentState, input);
        }
        fsm.OnReceiveInput(input);
        character.Store(fsm.env.body);
      case OtherPacket(_) =>
    }
  }
}
