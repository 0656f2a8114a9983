/**
 * Awe.StateMachine: a map of named states, a current state, guarded
 * requests to change it, transition states with a one-shot completion
 * callback, a per-tick update, and the global list of machines.
 *
 * State ids are `Option<string>`, None standing for null.  Only a non-empty
 * string id is truthy; looking up null in the state map reads the key
 * "null", as a JavaScript property lookup does.  The hooks a state may
 * define (start, update, end) are flags; each call the machine makes into
 * them is appended to `trace`.  What `update` returns is a parameter.  A
 * completion callback is data: a name, and the request (if any) it makes
 * of the machine when it runs.  Time `t` is Date.now() in milliseconds.  A
 * JavaScript exception is an `ok == false` result, with the state as it
 * was when the exception was thrown.
 */
module StateMachines {
  import opened Wrappers

  /** One state record of the map. */
  datatype State = State(
    allowOnly: Option<seq<string>>,
    doNotAllow: Option<seq<string>>,
    hasStart: bool,
    hasUpdate: bool,
    hasEnd: bool,
    startTime: Option<real>,   // `_startTime`, None until first entered
    runTime: Option<real>)     // None while undefined or NaN

  /** What a completion callback does when it runs: optionally request another state. */
  datatype Completion = Completion(name: string, request: Option<Request>)

  /** A call `requestState(id, args...)`. */
  datatype Request = Request(id: Option<string>, args: seq<Arg>)

  /** An extra argument of a request: a value, or a function. */
  datatype Arg = Value(s: string) | Callback(c: Completion)

  /** A call the machine makes into a state's hooks or a completion callback. */
  datatype Hook =
    | End(state: string, next: Option<string>)
    | Start(state: string, args: seq<Arg>)   // the previous-id argument is always undefined
    | Updated(state: string)
    | Complete(name: string)

  predicate Truthy(id: Option<string>) { id.Some? && id.value != "" }

  /** The property name a JavaScript lookup `states[id]` reads. */
  function Key(id: Option<string>): (k: string)
    ensures id.Some? ==> k == id.value
  {
    match id
    case None => "null"
    case Some(s) => s
  }

  /**
   * Array.prototype.indexOf: the first position of `id` in `l` at or after
   * `from`, or -1 (always -1 for null, since the lists hold strings).
   */
  function IndexOf(l: seq<string>, id: Option<string>, from: nat): (r: int)
    requires from <= |l|
    decreases |l| - from
    ensures r == -1 || from <= r < |l|
    ensures r == -1 <==> id.None? || forall j :: from <= j < |l| ==> l[j] != id.value
    ensures r >= 0 ==> id.Some? && l[r] == id.value && forall j :: from <= j < r ==> l[j] != id.value
  {
    if id.None? || from == |l| then -1
    else if l[from] == id.value then from
    else IndexOf(l, id, from + 1)
  }

  /** The verdict on a request. */
  datatype Verdict = NotFound | Denied | Accepted

  /**
   * requestState's checks: a truthy id must name a state; then, while a
   * current state exists and is not done, `!allowOnly.indexOf(id)` and
   * `doNotAllow.indexOf(id)` deny.
   */
  function Decide(states: map<string, State>, current: Option<string>, done: bool, id: Option<string>)
    : Verdict
  {
    if Truthy(id) && Key(id) !in states then NotFound
    else if Truthy(current) && Key(current) in states && !done then
      var cur := states[Key(current)];
      if cur.allowOnly.Some? && IndexOf(cur.allowOnly.value, id, 0) == 0 then Denied
      else if cur.doNotAllow.Some? && IndexOf(cur.doNotAllow.value, id, 0) != 0 then Denied
      else Accepted
    else Accepted
  }

  /**
   * An allowOnly list denies exactly its first entry: an empty list
   * (meant to make a state uninterruptible) denies nothing, and every id
   * other than the first is let through.
   */
  lemma AllowOnlyDeniesFirst(l: seq<string>, id: Option<string>)
    ensures IndexOf(l, id, 0) == 0 <==> |l| > 0 && id == Some(l[0])
  {
  }

  /** A doNotAllow list lets through exactly its first entry. */
  lemma DoNotAllowAdmitsFirst(l: seq<string>, id: Option<string>)
    ensures IndexOf(l, id, 0) != 0 <==> !(|l| > 0 && id == Some(l[0]))
  {
  }

  /** The verdict in full: what is refused, and why. */
  lemma DecideCases(states: map<string, State>, current: Option<string>, done: bool, id: Option<string>)
    requires Truthy(current) ==> Key(current) in states
    ensures Decide(states, current, done, id) == NotFound <==> Truthy(id) && Key(id) !in states
    ensures Decide(states, current, done, id) == Denied <==>
              && !(Truthy(id) && Key(id) !in states) && Truthy(current) && !done
              && var cur := states[Key(current)];
                 || (cur.allowOnly.Some? && |cur.allowOnly.value| > 0 && id == Some(cur.allowOnly.value[0]))
                 || (cur.doNotAllow.Some? && !(|cur.doNotAllow.value| > 0 && id == Some(cur.doNotAllow.value[0])))
  {
    if Truthy(current) {
      var cur := states[Key(current)];
      if cur.allowOnly.Some? {
        AllowOnlyDeniesFirst(cur.allowOnly.value, id);
      }
      if cur.doNotAllow.Some? {
        DoNotAllowAdmitsFirst(cur.doNotAllow.value, id);
      }
    }
  }

  /** While the current state is done (its completion callback running), only unknown ids are refused. */
  lemma DoneBypassesGuards(states: map<string, State>, current: Option<string>, id: Option<string>)
    ensures Decide(states, current, true, id) != Denied
  {
  }

  /** Entering a state restarts its clock. */
  function Entered(st: State, t: real): (st': State)
    ensures st'.startTime == Some(t) && st'.runTime == Some(0.0)
    ensures st'.allowOnly == st.allowOnly && st'.doNotAllow == st.doNotAllow
    ensures st'.hasStart == st.hasStart && st'.hasUpdate == st.hasUpdate && st'.hasEnd == st.hasEnd
  {
    st.(startTime := Some(t), runTime := Some(0.0))
  }

  /** `runTime = (now - _startTime) * 0.001`, in seconds; NaN before the state was first entered. */
  function RunTime(st: State, t: real): (r: Option<real>)
    ensures r.Some? <==> st.startTime.Some?
    ensures r.Some? ==> r.value * 1000.0 == t - st.startTime.value
  {
    match st.startTime
    case None => None
    case Some(s) => Some((t - s) * 0.001)
  }

  /** The hooks requestState calls on acceptance: the old state's end, then the new state's start. */
  function AcceptCalls(states: map<string, State>, current: Option<string>, id: Option<string>, args: seq<Arg>)
    : seq<Hook>
  {
    (if Truthy(current) && Key(current) in states && states[Key(current)].hasEnd then [End(Key(current), id)] else [])
    + (if Truthy(id) && Key(id) in states && states[Key(id)].hasStart then [Start(Key(id), args)] else [])
  }

  /** The map after an accepted request: the new state, if any, has its clock restarted. */
  function AcceptStates(states: map<string, State>, id: Option<string>, t: real): map<string, State>
  {
    if Truthy(id) && Key(id) in states then states[Key(id) := Entered(states[Key(id)], t)] else states
  }

  /** A state request with a function as its last argument, as requestTransitionState demands. */
  predicate EndsWithCallback(args: seq<Arg>)
  {
    |args| > 0 && args[|args| - 1].Callback?
  }

  class StateMachine {
    const name: string
    var states: map<string, State>
    var currentStateId: Option<string>
    var transitionCompleteCallback: Option<Completion>
    var currentStateDone: bool
    var trace: seq<Hook>

    /** A truthy current id names a state (states are never removed). */
    ghost predicate Valid()
      reads this
    {
      Truthy(currentStateId) ==> Key(currentStateId) in states
    }

    /**
     * new Awe.StateMachine(name, stateMap, initialStateId): registers the
     * machine, then requests the initial state when it is truthy.
     */
    constructor (name: string, stateMap: map<string, State>, initialStateId: Option<string>,
                 registry: Registry, t: real)
      requires registry.Valid()
      modifies registry
      ensures registry.Valid()
      ensures Valid() && !currentStateDone && transitionCompleteCallback.None?
      ensures this.name == name
      ensures registry.machines == old(registry.machines) + [this]
      ensures registry.updated == old(registry.updated)
      ensures Truthy(initialStateId) && Key(initialStateId) in stateMap ==>
                && currentStateId == initialStateId
                && states == AcceptStates(stateMap, initialStateId, t)
                && trace == AcceptCalls(stateMap, None, initialStateId, [])
      ensures !(Truthy(initialStateId) && Key(initialStateId) in stateMap) ==>
                currentStateId.None? && states == stateMap && trace == []
    {
      this.name := name;
      states := stateMap;
      currentStateId := None;
      transitionCompleteCallback := None;
      currentStateDone := false;
      trace := [];
      new;
      registry.machines := registry.machines + [this];
      if Truthy(initialStateId) {
        var _ := RequestState(initialStateId, [], t);
      }
    }

    /** addState(id, state): refuses (throws on) an id already present. */
    method AddState(id: string, st: State) returns (ok: bool)
      requires Valid()
      modifies this`states
      ensures Valid()
      ensures ok <==> id !in old(states)
      ensures ok ==> states == old(states)[id := st]
      ensures !ok ==> states == old(states)
    {
      if id in states {
        return false;
      }
      states := states[id := st];
      ok := true;
    }

    /**
     * requestState(id, args...): refuse an unknown truthy id, or one the
     * current state's guards deny; otherwise end the current state, enter
     * and start the new one, and make it current (null deactivates).
     */
    method RequestState(id: Option<string>, args: seq<Arg>, t: real) returns (accepted: bool)
      requires Valid()
      modifies this`states, this`currentStateId, this`trace
      ensures Valid()
      ensures accepted <==> Decide(old(states), old(currentStateId), currentStateDone, id) == Accepted
      ensures !accepted ==> unchanged(this`states, this`currentStateId, this`trace)
      ensures accepted ==> && currentStateId == id
                           && states == AcceptStates(old(states), id, t)
                           && trace == old(trace) + AcceptCalls(old(states), old(currentStateId), id, args)
    {
      var verdict := Decide(states, currentStateId, currentStateDone, id);
      if verdict != Accepted {
        return false;
      }
      if Truthy(currentStateId) && states[Key(currentStateId)].hasEnd {
        trace := trace + [End(Key(currentStateId), id)];
      }
      if Truthy(id) {
        states := states[Key(id) := Entered(states[Key(id)], t)];
        trace := trace + (if states[Key(id)].hasStart then [Start(Key(id), args)] else []);
      }
      currentStateId := id;
      accepted := true;
    }

    /**
     * requestTransitionState(id, args..., callback): throws unless the last
     * argument is a function; on a refused request clears the stored
     * callback and returns false; on an accepted one stores the callback,
     * then throws if the new state has no update hook.
     */
    method RequestTransitionState(id: Option<string>, args: seq<Arg>, t: real)
      returns (ok: bool, accepted: bool)
      requires Valid()
      modifies this`states, this`currentStateId, this`trace, this`transitionCompleteCallback
      ensures Valid()
      ensures !EndsWithCallback(args) ==> !ok && !accepted && unchanged(this)
      ensures EndsWithCallback(args) ==>
                && (accepted <==> Decide(old(states), old(currentStateId), currentStateDone, id) == Accepted)
                && (!accepted ==> ok && transitionCompleteCallback.None?
                                  && unchanged(this`states, this`currentStateId, this`trace))
                && (accepted ==> && currentStateId == id
                                 && states == AcceptStates(old(states), id, t)
                                 && trace == old(trace) + AcceptCalls(old(states), old(currentStateId), id, args)
                                 && transitionCompleteCallback == Some(args[|args| - 1].c)
                                 && (ok <==> Key(id) in states && states[Key(id)].hasUpdate))
    {
      if !EndsWithCallback(args) {
        return false, false;
      }
      accepted := RequestState(id, args, t);
      if accepted {
        transitionCompleteCallback := Some(args[|args| - 1].c);
        ok := Key(currentStateId) in states && states[Key(currentStateId)].hasUpdate;
        return;
      }
      transitionCompleteCallback := None;
      ok := true;
    }

    /**
     * What one StateMachine.update call on this machine does, with `done`
     * what the current state's update hook reports: a current id that names
     * no state throws (`ok == false`) and changes nothing; otherwise the
     * state's run time advances, its update hook is called, and a reported
     * completion fires the pending transition callback and then its
     * requested state.
     */
    twostate predicate UpdatedBy(t: real, done: bool, ok: bool)
      reads this
    {
      && (ok <==> Key(old(currentStateId)) in old(states))
      && (!ok ==> && states == old(states) && currentStateId == old(currentStateId)
                  && transitionCompleteCallback == old(transitionCompleteCallback)
                  && currentStateDone == old(currentStateDone) && trace == old(trace))
      && (ok ==>
            var k := Key(old(currentStateId));
            var st := old(states)[k];
            var st' := st.(runTime := RunTime(st, t));
            var completes := st.hasUpdate && done && old(transitionCompleteCallback).Some?;
            && (!completes ==> && states == old(states)[k := st']
                               && currentStateId == old(currentStateId)
                               && transitionCompleteCallback == old(transitionCompleteCallback)
                               && trace == old(trace) + (if st.hasUpdate then [Updated(k)] else []))
            && (completes ==> && transitionCompleteCallback.None?
                              && var cb := old(transitionCompleteCallback).value;
                                 var calls := old(trace) + [Updated(k), Complete(cb.name)];
                                 var states1 := old(states)[k := st'];
                                 if cb.request.Some?
                                    && Decide(states1, old(currentStateId), true, cb.request.value.id) == Accepted
                                 then
                                   var rq := cb.request.value;
                                   && currentStateId == rq.id
                                   && states == AcceptStates(states1, rq.id, t)
                                   && trace == calls + AcceptCalls(states1, old(currentStateId), rq.id, rq.args)
                                 else
                                   && states == states1
                                   && currentStateId == old(currentStateId)
                                   && trace == calls))
    }

    /**
     * update(): recompute the current state's runTime (throwing when the
     * current id names no state, null included), call its update hook, and
     * when that reports completion and a callback is stored, clear the
     * callback and run it with currentStateDone set for its duration.
     */
    method Update(t: real, updateReportsDone: bool) returns (ok: bool)
      requires Valid() && !currentStateDone
      modifies this
      ensures Valid() && !currentStateDone
      ensures UpdatedBy(t, updateReportsDone, ok)
    {
      var k := Key(currentStateId);
      if k !in states {
        return false;
      }
      var st := states[k];
      states := states[k := st.(runTime := RunTime(st, t))];
      ok := true;
      if st.hasUpdate {
        trace := trace + [Updated(k)];
        if updateReportsDone && transitionCompleteCallback.Some? {
          var cb := transitionCompleteCallback.value;
          transitionCompleteCallback := None;
          currentStateDone := true;
          trace := trace + [Complete(cb.name)];
          if cb.request.Some? {
            var _ := RequestState(cb.request.value.id, cb.request.value.args, t);
          }
          currentStateDone := false;
        }
      }
    }
  }

  /** StateMachine.stateMachines, with a record of the update calls StateMachine.update makes. */
  class Registry {
    var machines: seq<StateMachine>
    var updated: seq<StateMachine>

    constructor ()
      ensures Valid()
      ensures machines == [] && updated == []
    {
      machines := [];
      updated := [];
    }

    ghost predicate Valid()
      reads this, machines
    {
      && (forall i :: 0 <= i < |machines| ==> machines[i].Valid() && !machines[i].currentStateDone)
      && (forall i, j :: 0 <= i < j < |machines| ==> machines[i] != machines[j])
    }

    /**
     * StateMachine.update(): update every machine in construction order;
     * `done[i]` is what machine i's update hook reports.  An exception from
     * one machine stops the loop.
     */
    method UpdateAll(t: real, done: seq<bool>) returns (ok: bool)
      requires Valid() && |done| == |machines|
      modifies this`updated, set m | m in machines
      ensures Valid()
      ensures machines == old(machines)
      ensures ok <==> forall i :: 0 <= i < |machines| ==> Key(old(machines[i].currentStateId)) in old(machines[i].states)
      ensures ok ==> updated == old(updated) + machines
      ensures !ok ==> && |old(updated)| < |updated| <= |old(updated)| + |machines|
                      && updated == old(updated) + machines[..|updated| - |old(updated)|]
      ensures var n := |updated| - |old(updated)|;
              && (forall i :: 0 <= i < n ==> machines[i].UpdatedBy(t, done[i], ok || i < n - 1))
              && (forall i :: n <= i < |machines| ==> unchanged(machines[i]))
    {
      var i := 0;
      while i < |machines|
        invariant 0 <= i <= |machines|
        invariant machines == old(machines)
        invariant Valid()
        invariant updated == old(updated) + machines[..i]
        invariant forall j :: 0 <= j < i ==> machines[j].UpdatedBy(t, done[j], true)
        invariant forall j :: i <= j < |machines| ==> unchanged(machines[j])
      {
        updated := updated + [machines[i]];
        assert machines[..i + 1] == machines[..i] + [machines[i]];
        var ok1 := machines[i].Update(t, done[i]);
        if !ok1 {
          return false;
        }
        i := i + 1;
      }
      assert machines[..|machines|] == machines;
      ok := true;
    }
  }
}
