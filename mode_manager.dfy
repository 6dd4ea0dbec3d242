/**
 * The single-flight operation guard (`Mode` and `ModeManager` in
 * src/editor/mode_manager.rs): the editor is either idle or running one
 * operation, which is identified by a generation number drawn from a
 * 16-bit counter.
 *
 * As in the history module, the manager is first described as a value,
 * `ManagerState`, and the class `ModeManager` updates its fields in place.
 * `ToRun` and `TryRun` state that the new state is the corresponding
 * function of the old one; `ToIdle` only resets the mode, and its contract
 * states the new fields directly.
 */
module ModeManagement {
  import opened Wrappers

  /** An unsigned 16-bit integer (`u16`). */
  type U16 = x: int | 0 <= x < 0x1_0000

  /** The largest `u16`; the counter is never bumped past it in this model. */
  const MaxU16: U16 := 0xFFFF

  datatype Mode = Idle | Run(generation: U16)

  /** The manager as a value: its mode and the last generation it handed out. */
  datatype ManagerState = ManagerState(mode: Mode, id: U16) {
    /** What every manager reachable from `new` satisfies: a running operation holds the latest generation. */
    predicate Valid() {
      mode.Run? ==> mode.generation == id
    }
  }

  /** `to_run` on a value: bump the counter and run under the new generation. */
  function RunState(s: ManagerState): (r: ManagerState)
    requires s.id < MaxU16
    ensures r.id == s.id + 1 && r.mode == Run(r.id)
  {
    var next := s.id + 1;
    ManagerState(Run(next), next)
  }

  /** The outcome of `try_run`: the new manager and the generation granted, if any. */
  datatype Admission = Admission(state: ManagerState, granted: Option<U16>)

  /** `try_run` on a value: admit an operation only when idle. */
  function TryRunState(s: ManagerState): (a: Admission)
    requires s.mode.Idle? ==> s.id < MaxU16
    ensures a.granted.Some? <==> s.mode.Idle?
    ensures a.granted.Some? ==>
              a.granted.value == s.id + 1 &&
              a.state == ManagerState(Run(a.granted.value), a.granted.value)
    ensures a.granted.None? ==> a.state == s
    ensures a.state.mode.Run?
    ensures s.Valid() ==> a.state.Valid()
  {
    if s.mode.Idle? then
      var r := RunState(s);
      Admission(r, Some(r.id))
    else
      Admission(s, None)
  }

  /** The calls an event handler makes on the manager. */
  datatype Event = TryRunEvent | ToIdleEvent

  /** One call on a value; `to_idle` grants nothing. */
  function Apply(s: ManagerState, e: Event): (a: Admission)
    requires e.TryRunEvent? && s.mode.Idle? ==> s.id < MaxU16
  {
    match e
    case TryRunEvent => TryRunState(s)
    case ToIdleEvent => Admission(s.(mode := Idle), None)
  }

  /** How many of `events` are `try_run` calls: the most times the counter can be bumped. */
  function TryRuns(events: seq<Event>): (n: nat)
    ensures n <= |events|
    decreases |events|
  {
    if events == [] then 0
    else (if events[0].TryRunEvent? then 1 else 0) + TryRuns(events[1..])
  }

  /** The final manager after a run of calls, and the generations granted along the way, in order. */
  datatype Trace = Trace(state: ManagerState, granted: seq<U16>)

  /**
   * Replays `events` from `s`. The generations granted are exactly the
   * counter values after `s.id`, one after another, so every grant is
   * strictly greater than all earlier ones and none is handed out twice.
   */
  function Replay(s: ManagerState, events: seq<Event>): (t: Trace)
    requires s.id + TryRuns(events) <= MaxU16
    ensures s.id <= t.state.id <= s.id + TryRuns(events)
    ensures s.Valid() ==> t.state.Valid()
    ensures |t.granted| == t.state.id - s.id
    ensures forall i :: 0 <= i < |t.granted| ==> t.granted[i] == s.id + 1 + i
    decreases |events|
  {
    if events == [] then
      Trace(s, [])
    else
      var step := Apply(s, events[0]);
      var rest := Replay(step.state, events[1..]);
      Trace(rest.state, (if step.granted.Some? then [step.granted.value] else []) + rest.granted)
  }

  /** Every generation granted in a run of calls is larger than all the ones granted before it. */
  lemma GenerationsIncrease(s: ManagerState, events: seq<Event>)
    requires s.id + TryRuns(events) <= MaxU16
    ensures var g := Replay(s, events).granted;
            forall i, j :: 0 <= i < j < |g| ==> s.id < g[i] < g[j]
  {
  }

  /**
   * Without a `to_idle`, at most one operation is admitted, and none at all
   * while one is already running.
   */
  lemma {:induction false} AdmissionExclusive(s: ManagerState, events: seq<Event>)
    requires s.id + TryRuns(events) <= MaxU16
    requires forall i :: 0 <= i < |events| ==> events[i].TryRunEvent?
    ensures |Replay(s, events).granted| <= 1
    ensures s.mode.Run? ==> Replay(s, events).granted == []
    ensures events != [] ==> Replay(s, events).state.mode.Run?
    decreases |events|
  {
    if events != [] {
      var next := TryRunState(s).state;
      AdmissionExclusive(next, events[1..]);
      if |events| > 1 {
        assert Replay(s, events).state == Replay(next, events[1..]).state;
      }
    }
  }

  /**
   * Once a later generation has been granted, an earlier one never matches
   * again, whatever calls follow: a stale continuation always sees that it
   * has been superseded.
   */
  lemma SupersededNeverMatches(s: ManagerState, events: seq<Event>, g: U16)
    requires s.Valid() && g < s.id
    requires s.id + TryRuns(events) <= MaxU16
    ensures Replay(s, events).state.mode != Run(g)
  {
  }

  /**
   * Operation `g` is admitted, released, and operation `g'` admitted: `g'` is
   * larger, `g'` matches, and `g` no longer does.
   */
  lemma SupersedeScenario(s: ManagerState)
    requires s.Valid() && s.mode.Idle? && s.id + 2 <= MaxU16
    ensures var first := TryRunState(s);
            var second := TryRunState(first.state.(mode := Idle));
            first.granted.Some? && second.granted.Some? &&
            first.state.mode == Run(first.granted.value) &&
            second.granted.value > first.granted.value &&
            second.state.mode == Run(second.granted.value) &&
            second.state.mode != Run(first.granted.value)
  {
  }

  /** The manager itself, updated in place. */
  class ModeManager {
    var mode: Mode
    var id: U16

    /** The manager as a value. */
    function State(): ManagerState
      reads this
    {
      ManagerState(mode, id)
    }

    /** The class invariant: a running operation holds the latest generation. */
    predicate Valid()
      reads this
    {
      State().Valid()
    }

    constructor ()
      ensures mode == Idle && id == 0 && Valid()
      ensures IsIdle()
    {
      mode := Idle;
      id := 0;
    }

    function IsIdle(): (b: bool)
      reads this
      ensures b <==> mode == Idle
      ensures id < MaxU16 ==> (b <==> TryRunState(State()).granted.Some?)
    {
      mode.Idle?
    }

    /** True exactly when operation `g` is the one running; only the latest generation can be. */
    function MatchRunId(g: U16): (b: bool)
      reads this
      ensures IsIdle() ==> !b
      ensures b <==> mode.Run? && mode.generation == g
      ensures b && Valid() ==> g == id
    {
      mode == Run(g)
    }

    method ToRun() returns (g: U16)
      requires id < MaxU16
      modifies this
      ensures State() == RunState(old(State()))
      ensures g == id == old(id) + 1
      ensures MatchRunId(g) && Valid()
    {
      id := id + 1;
      mode := Run(id);
      g := id;
    }

    method ToIdle()
      modifies this
      ensures mode == Idle && id == old(id)
      ensures Valid()
    {
      mode := Idle;
    }

    method TryRun() returns (r: Option<U16>)
      requires mode.Idle? ==> id < MaxU16
      modifies this
      ensures Admission(State(), r) == TryRunState(old(State()))
      ensures r.Some? <==> old(mode) == Idle
      ensures r.Some? ==> r.value == old(id) + 1 && MatchRunId(r.value)
      ensures r.None? ==> mode == old(mode) && id == old(id)
      ensures old(Valid()) ==> Valid()
    {
      if IsIdle() {
        var g := ToRun();
        r := Some(g);
      } else {
        r := None;
      }
    }
  }

  /** A client of the manager: two admissions without a release give `Some` and then `None`. */
  method AdmissionSession()
  {
    var manager := new ModeManager();
    var first := manager.TryRun();
    var second := manager.TryRun();
    assert first == Some(1) && second == None;
    manager.ToIdle();
    var third := manager.TryRun();
    assert third == Some(2);
    assert !manager.MatchRunId(1) && manager.MatchRunId(2);
  }
}
