// Game/World.cpp: the earlier, room-less game container. It hands out controllers on
// demand and ticks all of them.
module Worlds {
  import opened PlayerRules
  import opened Controllers

  class World {
    const cfg: Config
    /** Declared and initialised to zero; no operation of the world changes it. */
    var currentUserCount: int
    var players: seq<PlayerController>

    /** The controllers are distinct and none shares its state machine or its character
        with another. */
    ghost predicate Valid()
      reads this, players, set i | 0 <= i < |players| :: players[i].fsm
    {
      (forall i, j :: 0 <= i < j < |players| ==>
         players[i] != players[j] && players[i].fsm != players[j].fsm
         && (players[i].character == null || players[i].character != players[j].character))
      && (forall i :: 0 <= i < |players| ==> players[i].cfg == cfg && players[i].Valid())
    }

    /** Every controller with a character bound has been initialised. */
    ghost predicate BoundReady()
      reads this, players, set i | 0 <= i < |players| :: players[i].fsm
    {
      forall i :: 0 <= i < |players| && players[i].character != null ==> players[i].Ready()
    }

    /** Controller `i` as the game logic sees it; without a character, the body the
        state machine last held stands in for it. */
    ghost function SlotOf(i: nat): SlotState
      requires i < |players|
      reads this, players[i], players[i].fsm, players[i].character
    {
      var c := players[i].character;
      SlotState(players[i].fsm.currentState, players[i].fsm.env,
                if c == null then players[i].fsm.env.body else c.Data())
    }

    /** `World()`: no controllers yet. */
    constructor (cfg: Config)
      ensures Valid() && this.cfg == cfg && players == [] && currentUserCount == 0
    {
      this.cfg := cfg;
      currentUserCount := 0;
      players := [];
    }

    /** `GetNewPlayerController`: appends one default controller and returns it; the
        earlier controllers are kept as they were. */
    method GetNewPlayerController() returns (p: PlayerController)
      requires Valid()
      modifies this
      ensures Valid()
      ensures players == old(players) + [p] && fresh(p) && fresh(p.fsm)
      ensures p.character == null && p.session == null && p.outbox == []
      ensures p.fsm.currentState == Spawn && p.fsm.env == InitialPawn()
      ensures currentUserCount == old(currentUserCount)
    {
      p := new PlayerController(cfg);
      players := players + [p];
    }

    /** `Update`: ticks every controller once; a controller without a character stays
        as it was. */
    method Update(deltaTime: real, now: real)
      requires Valid() && BoundReady()
      modifies set i | 0 <= i < |players| :: players[i].fsm
      modifies set i | 0 <= i < |players| && players[i].character != null :: players[i].character
      ensures Valid() && BoundReady()
      ensures forall i :: 0 <= i < |players| ==>
                players[i].character == old(players[i].character)
                && SlotOf(i) == Tick(cfg, old(SlotOf(i)), players[i].character != null,
                                     deltaTime, now)
    {
      for k := 0 to |players|
        invariant Valid() && BoundReady()
        invariant forall i :: 0 <= i < |players| ==> players[i].character == old(players[i].character)
        invariant forall i :: k <= i < |players| ==> SlotOf(i) == old(SlotOf(i))
        invariant forall i :: 0 <= i < k ==>
                    SlotOf(i) == Tick(cfg, old(SlotOf(i)), players[i].character != null,
                                      deltaTime, now)
      {
        TickOne(k, deltaTime, now);
      }
    }

    /** One iteration of `Update`: controller `k` ticks, every other one stays. */
    method TickOne(k: nat, deltaTime: real, now: real)
      requires Valid() && BoundReady() && k < |players|
      modifies players[k].fsm, players[k].character
      ensures Valid() && BoundReady()
      ensures SlotOf(k) == Tick(cfg, old(SlotOf(k)), players[k].character != null, deltaTime, now)
      ensures forall i :: 0 <= i < |players| && i != k ==> SlotOf(i) == old(SlotOf(i))
    {
      players[k].Update(deltaTime, now);
    }
  }
}
