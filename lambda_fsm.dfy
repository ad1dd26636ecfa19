// Game/LambdaFSM.h: a state machine whose behaviour is four per-state tables of
// handlers (enter, update, input, exit). The C++ handlers are closures that capture the
// owning object and change it; here a handler is a pure function that receives that
// captured state as an environment `E` and returns the new one.
module LambdaFsm {

  /** `StateFuncResult`: whether a handler asks for a transition, and to which state. */
  datatype StateFuncResult<S> = StateFuncResult(isChange: bool, nextState: S)

  /** `StateFuncResult::NoChange()` (the default constructor): no transition; the unused
      target is the enum's value 0, passed in as `zero`. */
  function NoChange<S>(zero: S): (r: StateFuncResult<S>)
    ensures !r.isChange && r.nextState == zero
  {
    StateFuncResult(false, zero)
  }

  /** The single-state constructor `StateFuncResult( nextState )`: a transition to exactly
      `nextState`. */
  function ChangeTo<S>(nextState: S): (r: StateFuncResult<S>)
    ensures r.isChange && r.nextState == nextState
  {
    StateFuncResult(true, nextState)
  }

  type EnterHandler<!S, !E> = (E, S) -> (E, StateFuncResult<S>)
  type InputHandler<!S, !I, !E> = (E, I) -> (E, StateFuncResult<S>)
  type UpdateHandler<!S, !E> = (E, real) -> (E, StateFuncResult<S>)
  type ExitHandler<!S, !E> = (E, S) -> E

  /** The four handler tables, as one value. */
  datatype Tables<!S(==), !I, !E> = Tables(
    onEnter: map<S, EnterHandler<S, E>>,
    onInput: map<S, InputHandler<S, I, E>>,
    onUpdate: map<S, UpdateHandler<S, E>>,
    onExit: map<S, ExitHandler<S, E>>)

  /** Where a call leaves the machine: its state, the handlers' environment, and whether
      a transition an enter handler asked for was cut off by the chain bound. */
  datatype Outcome<S, E> = Outcome(state: S, env: E, truncated: bool)

  /** `ChangeState( target, callExit )` run from state `cur`: the state is set first; the
      old state's exit handler (when `callExit`) and then the new state's enter handler
      both receive the OLD state; an enter handler asking for a change starts a further
      transition, with exit, from the new state. `fuel` bounds that chain. */
  function Transition<S(==), I, E>(t: Tables<S, I, E>, env: E, cur: S, target: S,
                                   callExit: bool, fuel: nat): (r: Outcome<S, E>)
    ensures r.state == target || target in t.onEnter
    ensures r.truncated ==> r.state in t.onEnter
    decreases fuel
  {
    var exited := if callExit && cur in t.onExit then t.onExit[cur](env, cur) else env;
    if target !in t.onEnter then Outcome(target, exited, false)
    else
      var entered := t.onEnter[target](exited, cur);
      if !entered.1.isChange then Outcome(target, entered.0, false)
      else if fuel == 0 then Outcome(target, entered.0, true)
      else Transition(t, entered.0, target, entered.1.nextState, true, fuel - 1)
  }

  /** `Update( deltaTime )`: the current state's update handler, then the transition it
      asks for; without a handler nothing changes. */
  function UpdateStep<S(==), I, E>(t: Tables<S, I, E>, env: E, cur: S, deltaTime: real,
                                   fuel: nat): (r: Outcome<S, E>)
    ensures cur !in t.onUpdate ==> r == Outcome(cur, env, false)
    ensures r.state == cur || cur in t.onUpdate
  {
    if cur !in t.onUpdate then Outcome(cur, env, false)
    else
      var updated := t.onUpdate[cur](env, deltaTime);
      if updated.1.isChange then Transition(t, updated.0, cur, updated.1.nextState, true, fuel)
      else Outcome(cur, updated.0, false)
  }

  /** `OnReceiveInput( input )`: as `UpdateStep`, with the input handler. */
  function InputStep<S(==), I, E>(t: Tables<S, I, E>, env: E, cur: S, input: I,
                                  fuel: nat): (r: Outcome<S, E>)
    ensures cur !in t.onInput ==> r == Outcome(cur, env, false)
    ensures r.state == cur || cur in t.onInput
  {
    if cur !in t.onInput then Outcome(cur, env, false)
    else
      var handled := t.onInput[cur](env, input);
      if handled.1.isChange then Transition(t, handled.0, cur, handled.1.nextState, true, fuel)
      else Outcome(cur, handled.0, false)
  }

  /** The states a transition chain enters, in order. */
  function Entered<S(==), I, E>(t: Tables<S, I, E>, env: E, cur: S, target: S,
                                callExit: bool, fuel: nat): (r: seq<S>)
    ensures |r| >= 1 && r[0] == target
    decreases fuel
  {
    var exited := if callExit && cur in t.onExit then t.onExit[cur](env, cur) else env;
    if target !in t.onEnter then [target]
    else
      var entered := t.onEnter[target](exited, cur);
      if !entered.1.isChange || fuel == 0 then [target]
      else [target] + Entered(t, entered.0, target, entered.1.nextState, true, fuel - 1)
  }

  /** The machine ends in the last state the chain requested. */
  lemma {:induction false} EndsInLastRequested<S, I, E>(t: Tables<S, I, E>, env: E, cur: S,
                                                            target: S, callExit: bool, fuel: nat)
    ensures var chain := Entered(t, env, cur, target, callExit, fuel);
            Transition(t, env, cur, target, callExit, fuel).state == chain[|chain| - 1]
    decreases fuel
  {
    var exited := if callExit && cur in t.onExit then t.onExit[cur](env, cur) else env;
    if target in t.onEnter {
      var entered := t.onEnter[target](exited, cur);
      if entered.1.isChange && fuel > 0 {
        EndsInLastRequested(t, entered.0, target, entered.1.nextState, true, fuel - 1);
      }
    }
  }

  /** Once a chain completes within `fuel` steps, more fuel changes nothing. */
  lemma {:induction false} MoreFuelSameOutcome<S, I, E>(t: Tables<S, I, E>, env: E, cur: S,
                                                            target: S, callExit: bool,
                                                            fuel: nat, more: nat)
    requires !Transition(t, env, cur, target, callExit, fuel).truncated
    requires fuel <= more
    ensures Transition(t, env, cur, target, callExit, more)
            == Transition(t, env, cur, target, callExit, fuel)
    decreases fuel
  {
    var exited := if callExit && cur in t.onExit then t.onExit[cur](env, cur) else env;
    if target in t.onEnter {
      var entered := t.onEnter[target](exited, cur);
      if entered.1.isChange && fuel > 0 {
        MoreFuelSameOutcome(t, entered.0, target, entered.1.nextState, true, fuel - 1, more - 1);
      }
    }
  }

  class LambdaFSM<S(==), I, E> {
    var onEnterFunctions: map<S, EnterHandler<S, E>>
    var onReceiveInputFunctions: map<S, InputHandler<S, I, E>>
    var onUpdateFunctions: map<S, UpdateHandler<S, E>>
    var onExitFunctions: map<S, ExitHandler<S, E>>
    var currentState: S
    /** The state the handlers capture (the owner's fields in the C++ closures). */
    var env: E
    /** The model's bound on how many enter handlers may chain a further transition. */
    const chainLimit: nat

    function HandlerTables(): Tables<S, I, E>
      reads this
    {
      Tables(onEnterFunctions, onReceiveInputFunctions, onUpdateFunctions, onExitFunctions)
    }

    /** `LambdaFSM()`: no handlers; the state is the enum's value 0 (`zero`). */
    constructor (zero: S, env0: E, chainLimit: nat)
      ensures currentState == zero && env == env0 && this.chainLimit == chainLimit
      ensures HandlerTables() == Tables(map[], map[], map[], map[])
    {
      onEnterFunctions := map[];
      onReceiveInputFunctions := map[];
      onUpdateFunctions := map[];
      onExitFunctions := map[];
      currentState := zero;
      env := env0;
      this.chainLimit := chainLimit;
    }

    /** `Start( firstState )`: a transition that calls no exit handler. */
    method Start(firstState: S)
      modifies this
      ensures HandlerTables() == old(HandlerTables())
      ensures var o := Transition(HandlerTables(), old(env), old(currentState), firstState, false, chainLimit);
              currentState == o.state && env == o.env
    {
      ChangeState(firstState, false, chainLimit);
    }

    method Update(deltaTime: real)
      modifies this
      ensures HandlerTables() == old(HandlerTables())
      ensures var o := UpdateStep(HandlerTables(), old(env), old(currentState), deltaTime, chainLimit);
              currentState == o.state && env == o.env
    {
      if currentState in onUpdateFunctions {
        var result := onUpdateFunctions[currentState](env, deltaTime);
        env := result.0;
        if result.1.isChange {
          ChangeState(result.1.nextState, true, chainLimit);
        }
      }
    }

    method OnReceiveInput(input: I)
      modifies this
      ensures HandlerTables() == old(HandlerTables())
      ensures var o := InputStep(HandlerTables(), old(env), old(currentState), input, chainLimit);
              currentState == o.state && env == o.env
    {
      if currentState in onReceiveInputFunctions {
        var result := onReceiveInputFunctions[currentState](env, input);
        env := result.0;
        if result.1.isChange {
          ChangeState(result.1.nextState, true, chainLimit);
        }
      }
    }

    function GetState(): (s: S)
      reads this
      ensures s == currentState
    {
      currentState
    }

    /** `AddStateFunctionOnEnter`: replaces the enter handler of `state` only. */
    method AddStateFunctionOnEnter(state: S, handler: EnterHandler<S, E>)
      modifies this
      ensures onEnterFunctions == old(onEnterFunctions)[state := handler]
      ensures onReceiveInputFunctions == old(onReceiveInputFunctions)
      ensures onUpdateFunctions == old(onUpdateFunctions)
      ensures onExitFunctions == old(onExitFunctions)
      ensures currentState == old(currentState) && env == old(env)
    {
      onEnterFunctions := onEnterFunctions[state := handler];
    }

    method AddStateFunctionOnUpdate(state: S, handler: UpdateHandler<S, E>)
      modifies this
      ensures onUpdateFunctions == old(onUpdateFunctions)[state := handler]
      ensures onEnterFunctions == old(onEnterFunctions)
      ensures onReceiveInputFunctions == old(onReceiveInputFunctions)
      ensures onExitFunctions == old(onExitFunctions)
      ensures currentState == old(currentState) && env == old(env)
    {
      onUpdateFunctions := onUpdateFunctions[state := handler];
    }

    method AddStateFunctionOnExit(state: S, handler: ExitHandler<S, E>)
      modifies this
      ensures onExitFunctions == old(onExitFunctions)[state := handler]
      ensures onEnterFunctions == old(onEnterFunctions)
      ensures onReceiveInputFunctions == old(onReceiveInputFunctions)
      ensures onUpdateFunctions == old(onUpdateFunctions)
      ensures currentState == old(currentState) && env == old(env)
    {
      onExitFunctions := onExitFunctions[state := handler];
    }

    method AddStateFunctionOnReceiveInput(state: S, handler: InputHandler<S, I, E>)
      modifies this
      ensures onReceiveInputFunctions == old(onReceiveInputFunctions)[state := handler]
      ensures onEnterFunctions == old(onEnterFunctions)
      ensures onUpdateFunctions == old(onUpdateFunctions)
      ensures onExitFunctions == old(onExitFunctions)
      ensures currentState == old(currentState) && env == old(env)
    {
      onReceiveInputFunctions := onReceiveInputFunctions[state := handler];
    }

    /** `ChangeState( state, callExit )`; `fuel` is what remains of `chainLimit`. */
    method ChangeState(state: S, callExit: bool, fuel: nat)
      modifies this
      ensures HandlerTables() == old(HandlerTables())
      ensures var o := Transition(HandlerTables(), old(env), old(currentState), state, callExit, fuel);
              currentState == o.state && env == o.env
      decreases fuel
    {
      var oldState := currentState;
      currentState := state;
      if callExit && oldState in onExitFunctions {
        env := onExitFunctions[oldState](env, oldState);
      }
      if state in onEnterFunctions {
        var result := onEnterFunctions[state](env, oldState);
        env := result.0;
        if result.1.isChange && fuel > 0 {
          ChangeState(result.1.nextState, true, fuel - 1);
        }
      }
    }
  }
}
