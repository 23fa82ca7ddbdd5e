/**
 * The render gate of the chart wrapper. Two flags decide whether the chart
 * is told it is loading: `passedDebounce` (a load has lasted longer than the
 * debounce delay) and `toggleReady` (the short delay after the chart was
 * switched on again has passed). Two effects set the flags when their inputs
 * change, each possibly arming a timer; a timer's callback sets its flag,
 * and the effect's cleanup cancels a timer still pending.
 *
 * Rendering and effects are separate steps, as in React: a render shows the
 * flags as they are, and the effects run afterwards. Timers are events: a
 * timer that fires is named by its id, and time itself is not modelled.
 */
module RenderGate {
  import opened Wrappers
  import Js

  const DefaultDebounceMs := 150
  const DefaultToggleDelayMs := 50

  /** The chart props the wrapper does not look at. */
  datatype OtherProps = OtherProps(data: Js.Json, error: Option<string>, options: Js.Json)

  /** The wrapper's props; the two delays are `None` when not given. */
  datatype Props = Props(
    isLoading: bool,
    renderKey: Option<int>,
    debounceMs: Option<int>,
    toggleDelayMs: Option<int>,
    other: OtherProps)

  function DebounceMs(p: Props): int {
    p.debounceMs.GetOr(DefaultDebounceMs)
  }

  function ToggleDelayMs(p: Props): int {
    p.toggleDelayMs.GetOr(DefaultToggleDelayMs)
  }

  /**
   * The value of `renderKey && renderKey > 0`, which the toggle effect
   * depends on: undefined and 0 pass through, any other key gives a boolean.
   */
  datatype DelayDep = NoKey | ZeroKey | Flag(b: bool)

  function ShouldDelay(p: Props): DelayDep {
    match p.renderKey
    case None => NoKey
    case Some(k) => if k == 0 then ZeroKey else Flag(k > 0)
  }

  /** Whether the dependency value is truthy. */
  predicate Delays(d: DelayDep) {
    d == Flag(true)
  }

  /** A pending timer: its id and the delay it was armed with. */
  datatype Timer = Timer(id: nat, delay: int)

  /**
   * The wrapper's state: current props, the two flags, the pending timers,
   * the next timer id, the dependency values each effect last ran with
   * (`None` before its first run) and whether the wrapper is mounted.
   */
  datatype Gate = Gate(
    props: Props,
    passedDebounce: bool,
    toggleReady: bool,
    debounceTimer: Option<Timer>,
    toggleTimer: Option<Timer>,
    nextId: nat,
    debounceDeps: Option<(bool, int)>,
    toggleDeps: Option<(DelayDep, int)>,
    mounted: bool)

  /** The dependencies of the debounce effect and of the toggle effect. */
  function DebounceDeps(p: Props): (bool, int) {
    (p.isLoading, DebounceMs(p))
  }

  function ToggleDeps(p: Props): (DelayDep, int) {
    (ShouldDelay(p), ToggleDelayMs(p))
  }

  /**
   * The flags agree with the dependencies their effect last ran with: after
   * a finished load the debounce has passed with no timer, during a load it
   * has passed exactly when no timer is pending; likewise for the toggle
   * delay. Timer ids are below `nextId` and no timer survives unmounting.
   */
  ghost predicate Valid(g: Gate) {
    (g.debounceTimer.Some? ==> g.debounceTimer.value.id < g.nextId && g.mounted && g.debounceDeps.Some?)
    && (g.toggleTimer.Some? ==> g.toggleTimer.value.id < g.nextId && g.mounted && g.toggleDeps.Some?)
    && (g.debounceTimer.Some? && g.toggleTimer.Some? ==> g.debounceTimer.value.id != g.toggleTimer.value.id)
    && (g.mounted && g.debounceDeps.Some? ==>
          if g.debounceDeps.value.0 then (g.debounceTimer.Some? <==> !g.passedDebounce)
          else g.passedDebounce && g.debounceTimer.None?)
    && (g.mounted && g.toggleDeps.Some? ==>
          if Delays(g.toggleDeps.value.0) then (g.toggleTimer.Some? <==> !g.toggleReady)
          else g.toggleReady && g.toggleTimer.None?)
  }

  /** The first render: both flags false, no effect run yet. */
  function Mount(p: Props): (g: Gate)
    ensures Valid(g)
  {
    Gate(p, false, false, None, None, 0, None, None, true)
  }

  /** `showLoading`: in the toggle window, or loading past the debounce. */
  predicate ShowLoading(g: Gate) {
    !g.toggleReady || (g.props.isLoading && g.passedDebounce)
  }

  /** The props the chart receives. */
  datatype ChildProps = ChildProps(other: OtherProps, isLoading: bool, renderKey: Option<int>)

  /** What the chart is given: every prop passed through, except `isLoading`, which is gated. */
  function Rendered(g: Gate): (c: ChildProps)
    ensures c.other == g.props.other && c.renderKey == g.props.renderKey
    ensures c.isLoading <==> ShowLoading(g)
  {
    ChildProps(g.props.other, ShowLoading(g), g.props.renderKey)
  }

  /** A render with new props; the flags are not touched until the effects run. */
  function Rerender(g: Gate, p: Props): (r: Gate)
    ensures Valid(g) ==> Valid(r)
  {
    g.(props := p)
  }

  /**
   * The debounce effect, when its dependencies changed: the old timer is
   * cancelled; without a load the debounce has passed at once, with a load
   * it is reset and a timer armed.
   */
  function RunDebounceEffect(g: Gate): (r: Gate)
    ensures Valid(g) ==> Valid(r)
  {
    if !g.mounted || g.debounceDeps == Some(DebounceDeps(g.props)) then g
    else if !g.props.isLoading then
      g.(passedDebounce := true, debounceTimer := None, debounceDeps := Some(DebounceDeps(g.props)))
    else
      g.(passedDebounce := false, debounceTimer := Some(Timer(g.nextId, DebounceMs(g.props))),
         nextId := g.nextId + 1, debounceDeps := Some(DebounceDeps(g.props)))
  }

  /**
   * The toggle effect, when its dependencies changed: the old timer is
   * cancelled; with a positive render key the flag is reset and a timer
   * armed, otherwise the flag is set at once.
   */
  function RunToggleEffect(g: Gate): (r: Gate)
    ensures Valid(g) ==> Valid(r)
  {
    if !g.mounted || g.toggleDeps == Some(ToggleDeps(g.props)) then g
    else if Delays(ShouldDelay(g.props)) then
      g.(toggleReady := false, toggleTimer := Some(Timer(g.nextId, ToggleDelayMs(g.props))),
         nextId := g.nextId + 1, toggleDeps := Some(ToggleDeps(g.props)))
    else
      g.(toggleReady := true, toggleTimer := None, toggleDeps := Some(ToggleDeps(g.props)))
  }

  /** The effects after a commit, in declaration order. */
  function RunEffects(g: Gate): (r: Gate)
    ensures Valid(g) ==> Valid(r)
  {
    RunToggleEffect(RunDebounceEffect(g))
  }

  /** Timer `id` fires: only a pending debounce timer sets its flag. */
  function FireDebounce(g: Gate, id: nat): (r: Gate)
    ensures Valid(g) ==> Valid(r)
  {
    if g.debounceTimer.Some? && g.debounceTimer.value.id == id then
      g.(passedDebounce := true, debounceTimer := None)
    else g
  }

  /** Timer `id` fires: only a pending toggle timer sets its flag. */
  function FireToggle(g: Gate, id: nat): (r: Gate)
    ensures Valid(g) ==> Valid(r)
  {
    if g.toggleTimer.Some? && g.toggleTimer.value.id == id then
      g.(toggleReady := true, toggleTimer := None)
    else g
  }

  /** Unmounting runs both cleanups: no timer stays pending. */
  function AfterUnmount(g: Gate): (r: Gate)
    ensures Valid(g) ==> Valid(r)
  {
    g.(debounceTimer := None, toggleTimer := None, mounted := false)
  }

  /** Before any effect has run, the chart is told it is loading. */
  lemma FirstRenderShowsLoading(p: Props)
    ensures ShowLoading(Mount(p))
  {
  }

  /**
   * Once the effects have run, each effect's flag matches the current
   * props: without a load the debounce has passed and no timer is armed;
   * without a positive render key the chart is ready and no timer is armed.
   */
  lemma EffectsSettle(g: Gate)
    requires Valid(g) && g.mounted
    ensures RunEffects(g).debounceDeps == Some(DebounceDeps(g.props))
    ensures RunEffects(g).toggleDeps == Some(ToggleDeps(g.props))
    ensures !g.props.isLoading ==> RunEffects(g).passedDebounce && RunEffects(g).debounceTimer.None?
    ensures !Delays(ShouldDelay(g.props)) ==> RunEffects(g).toggleReady && RunEffects(g).toggleTimer.None?
  {
  }

  /**
   * A load that starts resets the debounce and arms a timer for the
   * debounce delay (150 by default); a positive render key that appears
   * resets the toggle flag and arms a timer for the toggle delay (50 by
   * default), and then the chart is told it is loading whatever the load
   * state.
   */
  lemma EffectsArmTimers(g: Gate)
    requires Valid(g) && g.mounted
    ensures g.props.isLoading && g.debounceDeps != Some(DebounceDeps(g.props)) ==>
              !RunEffects(g).passedDebounce
              && RunEffects(g).debounceTimer == Some(Timer(g.nextId, DebounceMs(g.props)))
    ensures Delays(ShouldDelay(g.props)) && g.toggleDeps != Some(ToggleDeps(g.props)) ==>
              !RunEffects(g).toggleReady
              && RunEffects(g).toggleTimer.Some? && RunEffects(g).toggleTimer.value.delay == ToggleDelayMs(g.props)
              && ShowLoading(RunEffects(g))
    ensures g.props.debounceMs.None? ==> DebounceMs(g.props) == 150
    ensures g.props.toggleDelayMs.None? ==> ToggleDelayMs(g.props) == 50
  {
  }

  /**
   * During a load, `passedDebounce` turns true only when the pending
   * debounce timer fires: not on a render, not through the effects while
   * the load goes on with the same delay, not through the toggle timer or
   * any other timer id.
   */
  lemma OnlyTheTimerPassesDebounce(g: Gate, p: Props, id: nat)
    requires Valid(g) && g.mounted && !g.passedDebounce
    requires g.debounceDeps == Some(DebounceDeps(g.props))
    requires p.isLoading && DebounceMs(p) == DebounceMs(g.props)
    ensures !RunEffects(Rerender(g, p)).passedDebounce
    ensures !FireToggle(g, id).passedDebounce
    ensures FireDebounce(g, id).passedDebounce <==> g.debounceTimer == Some(Timer(id, g.debounceTimer.value.delay))
  {
    assert g.props.isLoading by {
      assert g.debounceDeps.value.0 == g.props.isLoading;
    }
  }

  /**
   * A load that ends before its debounce timer fires is never shown as
   * loading while the chart is ready: not during the load, not in the
   * render where it ends, not after the effects (which cancel the timer).
   */
  lemma QuickLoadNeverShown(g: Gate, p: Props)
    requires Valid(g) && g.mounted && g.toggleReady && !g.passedDebounce
    requires g.debounceDeps == Some(DebounceDeps(g.props)) && g.toggleDeps == Some(ToggleDeps(g.props))
    requires !p.isLoading && ToggleDeps(p) == ToggleDeps(g.props)
    ensures !ShowLoading(g)
    ensures !ShowLoading(Rerender(g, p))
    ensures !ShowLoading(RunEffects(Rerender(g, p)))
    ensures RunEffects(Rerender(g, p)).debounceTimer.None?
  {
  }

  /**
   * The toggle effect looks only at whether the key is positive: a render
   * that moves the render key between positive values leaves the toggle
   * flag and its timer alone.
   */
  lemma PositiveKeyChangeKeepsToggle(g: Gate, p: Props)
    requires Valid(g) && g.mounted && g.toggleDeps == Some(ToggleDeps(g.props))
    requires Delays(ShouldDelay(g.props)) && Delays(ShouldDelay(p)) && ToggleDelayMs(p) == ToggleDelayMs(g.props)
    ensures RunEffects(Rerender(g, p)).toggleReady == g.toggleReady
    ensures RunEffects(Rerender(g, p)).toggleTimer == g.toggleTimer
  {
  }

  /**
   * A timer cancelled by a cleanup never sets its flag: once an effect has
   * re-run with new dependencies, or the wrapper is unmounted, firing the
   * old timer's id changes nothing.
   */
  lemma CancelledTimersNeverFire(g: Gate, p: Props)
    requires Valid(g) && g.mounted
    ensures g.debounceTimer.Some? && g.debounceDeps != Some(DebounceDeps(p)) ==>
              FireDebounce(RunEffects(Rerender(g, p)), g.debounceTimer.value.id) == RunEffects(Rerender(g, p))
    ensures g.toggleTimer.Some? && g.toggleDeps != Some(ToggleDeps(p)) ==>
              FireToggle(RunEffects(Rerender(g, p)), g.toggleTimer.value.id) == RunEffects(Rerender(g, p))
    ensures forall id :: FireDebounce(AfterUnmount(g), id) == AfterUnmount(g) && FireToggle(AfterUnmount(g), id) == AfterUnmount(g)
  {
  }

  /** The wrapper as a component instance: its state changes one event at a time. */
  class ChartWrapper {
    var props: Props
    var passedDebounce: bool
    var toggleReady: bool
    var debounceTimer: Option<Timer>
    var toggleTimer: Option<Timer>
    var nextId: nat
    var debounceDeps: Option<(bool, int)>
    var toggleDeps: Option<(DelayDep, int)>
    var mounted: bool

    function Snapshot(): Gate
      reads this
    {
      Gate(props, passedDebounce, toggleReady, debounceTimer, toggleTimer, nextId, debounceDeps, toggleDeps, mounted)
    }

    /** The first render, with both flags false. */
    constructor (p: Props)
      ensures Snapshot() == Mount(p)
    {
      props := p;
      passedDebounce := false;
      toggleReady := false;
      debounceTimer := None;
      toggleTimer := None;
      nextId := 0;
      debounceDeps := None;
      toggleDeps := None;
      mounted := true;
    }

    /** What the chart is given by the current render. */
    function Output(): ChildProps
      reads this
    {
      Rendered(Snapshot())
    }

    method Render(p: Props)
      modifies this
      ensures Snapshot() == Rerender(old(Snapshot()), p)
    {
      props := p;
    }

    /** The effects after a commit: each re-runs only when its dependencies changed. */
    method CommitEffects()
      modifies this
      ensures Snapshot() == RunEffects(old(Snapshot()))
    {
      var deps := DebounceDeps(props);
      if mounted && debounceDeps != Some(deps) {
        debounceDeps := Some(deps);
        if !props.isLoading {
          passedDebounce := true;
          debounceTimer := None;
        } else {
          passedDebounce := false;
          debounceTimer := Some(Timer(nextId, DebounceMs(props)));
          nextId := nextId + 1;
        }
      }
      var toggle := ToggleDeps(props);
      if mounted && toggleDeps != Some(toggle) {
        toggleDeps := Some(toggle);
        if Delays(ShouldDelay(props)) {
          toggleReady := false;
          toggleTimer := Some(Timer(nextId, ToggleDelayMs(props)));
          nextId := nextId + 1;
        } else {
          toggleReady := true;
          toggleTimer := None;
        }
      }
    }

    method FireDebounceTimer(id: nat)
      modifies this
      ensures Snapshot() == FireDebounce(old(Snapshot()), id)
    {
      if debounceTimer.Some? && debounceTimer.value.id == id {
        passedDebounce := true;
        debounceTimer := None;
      }
    }

    method FireToggleTimer(id: nat)
      modifies this
      ensures Snapshot() == FireToggle(old(Snapshot()), id)
    {
      if toggleTimer.Some? && toggleTimer.value.id == id {
        toggleReady := true;
        toggleTimer := None;
      }
    }

    method Unmount()
      modifies this
      ensures Snapshot() == AfterUnmount(old(Snapshot()))
    {
      debounceTimer := None;
      toggleTimer := None;
      mounted := false;
    }
  }
}
