/** The timer and the restart control of the on-screen interface
    (src/Interface.jsx:11-32). On every frame the interface reads the game
    state and derives the elapsed run time in milliseconds; the restart
    control is shown only once the run has ended. The store that owns the
    state, the wall clock and the formatting of the time are not part of
    this model: the state and the clock reading are inputs. */
module Interface {
  import opened Wrappers

  /** The stages of a run. */
  datatype Phase = Ready | Playing | Ended

  /** The part of the game store the interface reads. A timestamp is absent
      (null) until the run has set it. */
  datatype GameState = GameState(phase: Phase, startTime: Option<int>, endTime: Option<int>)

  /** A timestamp as JavaScript's subtraction sees it: null counts as 0. */
  function AsNumber(t: Option<int>): int {
    match t
    case Some(v) => v
    case None => 0
  }

  /** The elapsed milliseconds shown on the frame at wall-clock time `now`:
      the running time while playing, the final time once ended, and zero
      before the run starts. */
  function ElapsedMillis(state: GameState, now: int): (ms: int)
    ensures state.phase == Ready ==> ms == 0
    ensures state.phase == Playing && state.startTime.Some? ==> state.startTime.value + ms == now
    ensures state.phase == Ended && state.startTime.Some? && state.endTime.Some? ==>
              state.startTime.value + ms == state.endTime.value
    ensures (&& state.phase == Ended && state.startTime.Some? && state.endTime.Some?
             && state.startTime.value <= state.endTime.value) ==> ms >= 0
  {
    if state.phase == Playing then now - AsNumber(state.startTime)
    else if state.phase == Ended then AsNumber(state.endTime) - AsNumber(state.startTime)
    else 0
  }

  /** Whether the restart control is on screen. */
  function RestartVisible(phase: Phase): bool {
    phase == Ended
  }

  /** Once the run has ended the timer is frozen: the clock no longer
      affects it. */
  lemma EndedIgnoresClock(state: GameState, now1: int, now2: int)
    requires state.phase == Ended
    ensures ElapsedMillis(state, now1) == ElapsedMillis(state, now2)
  {
  }

  /** While playing, a later frame never shows a smaller time. */
  lemma PlayingIsMonotone(state: GameState, now1: int, now2: int)
    requires state.phase == Playing
    requires now1 <= now2
    ensures ElapsedMillis(state, now1) <= ElapsedMillis(state, now2)
  {
  }

  /** When the run ends at `end`, the frozen time is the time the running
      timer showed at that instant, so the display does not jump; and every
      earlier frame of the run showed no more than it. */
  lemma FreezesWithoutJump(start: int, end: int, now: int, earlier: int)
    requires start <= end
    requires earlier <= end
    ensures var ended := ElapsedMillis(GameState(Ended, Some(start), Some(end)), now);
            && ended >= 0
            && ended == ElapsedMillis(GameState(Playing, Some(start), None), end)
            && ElapsedMillis(GameState(Playing, Some(start), None), earlier) <= ended
  {
  }

  /** The timer shows the same value whatever the clock reads. */
  ghost predicate Frozen(state: GameState) {
    forall now1, now2 :: ElapsedMillis(state, now1) == ElapsedMillis(state, now2)
  }

  /** The restart control is on screen exactly when a run has begun and its
      timer has stopped following the clock; while a run is being timed it
      is hidden. */
  lemma RestartOnlyWhenFrozen(state: GameState)
    ensures RestartVisible(state.phase) <==> state.phase != Ready && Frozen(state)
    ensures state.phase == Playing ==> !RestartVisible(state.phase)
  {
    if state.phase == Playing {
      assert ElapsedMillis(state, 0) != ElapsedMillis(state, 1);
    }
  }
}
