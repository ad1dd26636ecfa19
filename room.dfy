// Game/Room.cpp: one match. A room owns a controller and a character per slot, binds
// a session to a slot, ticks every controller and broadcasts bytes to the slots.
module Rooms {
  import opened Characters
  import opened PlayerRules
  import opened Controllers
  import Sessions

  /** A slot as the room's constructor leaves it: a controller in Spawn with nothing
      bound and nothing sent, and a character at the origin. */
  ghost predicate NewSlot(cfg: Config, p: PlayerController, c: PlayerCharacter)
    reads p, p.fsm, c
  {
    p.cfg == cfg && c.geometry == cfg.geometry && p.Valid()
    && p.character == null && p.session == null && p.outbox == []
    && p.fsm.currentState == Spawn && p.fsm.env == InitialPawn()
    && c.Data() == Body(Vectors.Zero, 0.0, 0.0, Vectors.Zero, 0.0)
  }

  class Room {
    const cfg: Config
    /** Both vectors are sized once, by the constructor, and never resized. */
    const players: seq<PlayerController>
    const characters: seq<PlayerCharacter>

    /** One controller and one character per slot, none shared; a controller's
        character, once bound, is the character of its own slot. */
    ghost predicate Valid()
      reads this, players, set i | 0 <= i < |players| :: players[i].fsm
    {
      |players| == |characters|
      && (forall i, j :: 0 <= i < j < |players| ==>
            players[i] != players[j] && players[i].fsm != players[j].fsm
            && characters[i] != characters[j])
      && (forall i :: 0 <= i < |players| ==>
            players[i].cfg == cfg && characters[i].geometry == cfg.geometry
            && players[i].Valid()
            && (players[i].character == null || players[i].character == characters[i]))
    }

    /** Every controller with a character bound has been initialised. */
    ghost predicate BoundReady()
      reads this, players, set i | 0 <= i < |players| :: players[i].fsm
    {
      forall i :: 0 <= i < |players| && players[i].character != null ==> players[i].Ready()
    }

    /** `Room()`: no slots. */
    constructor Empty(cfg: Config)
      ensures Valid() && this.cfg == cfg && players == [] && characters == []
    {
      this.cfg := cfg;
      players := [];
      characters := [];
    }

    /** `Room( userCount )`: `userCount` fresh controllers and characters, none bound
        yet. */
    constructor (userCount: nat, cfg: Config)
      ensures Valid() && this.cfg == cfg
      ensures |players| == userCount && |characters| == userCount
      ensures forall i :: 0 <= i < userCount ==>
                fresh(players[i]) && fresh(players[i].fsm) && fresh(characters[i])
      ensures forall i :: 0 <= i < userCount ==> NewSlot(cfg, players[i], characters[i])
    {
      var ps: seq<PlayerController> := [];
      var cs: seq<PlayerCharacter> := [];
      for k := 0 to userCount
        invariant |ps| == k && |cs| == k
        invariant forall i :: 0 <= i < k ==> fresh(ps[i]) && fresh(ps[i].fsm) && fresh(cs[i])
        invariant forall i, j :: 0 <= i < j < k ==>
                    ps[i] != ps[j] && ps[i].fsm != ps[j].fsm && cs[i] != cs[j]
        invariant forall i :: 0 <= i < k ==> NewSlot(cfg, ps[i], cs[i])
      {
        var p := new PlayerController(cfg);
        var c := new PlayerCharacter(cfg.geometry);
        ps := ps + [p];
        cs := cs + [c];
      }
      this.cfg := cfg;
      players := ps;
      characters := cs;
    }

    /** `GetNewPlayerController`: binds slot `index` to `session` and to the slot's own
        character, and hands back that slot's controller; no other slot changes. */
    method GetNewPlayerController(index: nat, session: Sessions.Session?)
      returns (p: PlayerController)
      requires Valid() && index < |players|
      modifies players[index]
      ensures Valid()
      ensures p == players[index]
      ensures p.session == session && p.character == characters[index]
      ensures p.outbox == old(p.outbox)
      ensures forall j :: 0 <= j < |players| && j != index ==>
                players[j].session == old(players[j].session)
                && players[j].character == old(players[j].character)
                && players[j].outbox == old(players[j].outbox)
    {
      p := players[index];
      p.SetSession(session);
      p.SetCharacter(characters[index]);
    }

    /** Slot `i` as the game logic sees it. */
    ghost function SlotOf(i: nat): SlotState
      requires i < |players| && |characters| == |players|
      reads players[i].fsm, characters[i]
    {
      SlotState(players[i].fsm.currentState, players[i].fsm.env, characters[i].Data())
    }

    /** `Update`: ticks every controller once. A slot without a character stays as it
        was; any other slot moves as `ControllerUpdate` says, and its character follows
        the controller's body. */
    method Update(deltaTime: real, now: real)
      requires Valid() && BoundReady()
      modifies set i | 0 <= i < |players| :: players[i].fsm
      modifies set i | 0 <= i < |characters| :: characters[i]
      ensures Valid() && BoundReady()
      ensures forall i :: 0 <= i < |players| ==>
                players[i].character == old(players[i].character)
                && SlotOf(i) == Tick(cfg, old(SlotOf(i)), players[i].character != null,
                                     deltaTime, now)
    {
      for k := 0 to |players|
        invariant Valid() && BoundReady()
        invariant forall i :: 0 <= i < |players| ==> players[i].character == old(players[i].character)
        invariant forall i :: k <= i < |players| ==> SlotOf(i) == old(SlotOf(i))
        invariant forall i :: 0 <= i < k ==>
                    SlotOf(i) == Tick(cfg, old(SlotOf(i)), players[i].character != null,
                                      deltaTime, now)
      {
        TickSlot(k, deltaTime, now);
      }
    }

    /** One iteration of `Update`: slot `k` ticks, every other slot stays. */
    method TickSlot(k: nat, deltaTime: real, now: real)
      requires Valid() && BoundReady() && k < |players|
      modifies players[k].fsm, characters[k]
      ensures Valid() && BoundReady()
      ensures SlotOf(k) == Tick(cfg, old(SlotOf(k)), players[k].character != null, deltaTime, now)
      ensures forall i :: 0 <= i < |players| && i != k ==> SlotOf(i) == old(SlotOf(i))
    {
      players[k].Update(deltaTime, now);
    }

    /** `BroadcastByte( data, size )`: every slot with a session gets the bytes. */
    method BroadcastByte(data: seq<Sessions.Byte>)
      requires Valid()
      modifies set i | 0 <= i < |players| :: players[i]
      ensures Valid()
      ensures forall i :: 0 <= i < |players| ==>
                players[i].outbox == old(players[i].outbox)
                  + (if players[i].session != null then [data] else [])
    {
      BroadcastByteInternal(data, null);
    }

    /** `BroadcastByte( data, size, expectedUserIndex )`: as above, except slot
        `expectedUserIndex`, which gets nothing. */
    method BroadcastByteExcept(data: seq<Sessions.Byte>, expectedUserIndex: nat)
      requires Valid() && expectedUserIndex < |players|
      modifies set i | 0 <= i < |players| :: players[i]
      ensures Valid()
      ensures players[expectedUserIndex].outbox == old(players[expectedUserIndex].outbox)
      ensures forall i :: 0 <= i < |players| && i != expectedUserIndex ==>
                players[i].outbox == old(players[i].outbox)
                  + (if players[i].session != null then [data] else [])
    {
      BroadcastByteInternal(data, players[expectedUserIndex]);
    }

    /** `BroadcastByteInternal`: hands `data` to every controller but `expectedUser`
        (to all of them when it is null); sessions and characters stay bound. */
    method BroadcastByteInternal(data: seq<Sessions.Byte>, expectedUser: PlayerController?)
      requires Valid()
      modifies set i | 0 <= i < |players| :: players[i]
      ensures Valid()
      ensures forall i :: 0 <= i < |players| ==>
                players[i].outbox == old(players[i].outbox)
                  + (if players[i] != expectedUser && players[i].session != null then [data] else [])
      ensures forall i :: 0 <= i < |players| ==>
                players[i].session == old(players[i].session)
                && players[i].character == old(players[i].character)
    {
      for k := 0 to |players|
        invariant Valid()
        invariant forall i :: 0 <= i < |players| ==>
                    players[i].session == old(players[i].session)
                    && players[i].character == old(players[i].character)
        invariant forall i :: 0 <= i < k ==>
                    players[i].outbox == old(players[i].outbox)
                      + (if players[i] != expectedUser && players[i].session != null then [data] else [])
        invariant forall i :: k <= i < |players| ==> players[i].outbox == old(players[i].outbox)
      {
        if players[k] == expectedUser {
          continue;
        }
        players[k].SendByte(data);
      }
    }
  }
}
