/** The wiper simulator: a timed model with a settle phase at the end of every wipe. Positions
    are reals, the clock counts milliseconds, and the two random jitters are inputs. */
module WiperSim {

  datatype Mode = PLANT_MODE | STOP_HOLD | WIPE | EMERGENCY_STOP

  datatype Event = Event(
    sequenceCounter: nat,
    actualPosition: real,
    driveCurrent: real,
    isWiping: bool,
    isEndingWipeCycle: bool,
    isPositionReached: bool)

  datatype Sim = Sim(
    counter: nat,
    step: real,             // degrees per millisecond
    wiping: bool,
    ending: bool,
    endingCount: int,
    target: real,
    ts: int,
    event: Event)

  /** One call of the model step: the clock and the two jitters. */
  datatype Tick = Tick(now: int, jitter: real, currentJitter: real)

  const DEFAULT_CURRENT := 10.0

  // ----- the model

  function Initial(now: int): Sim {
    Sim(0, 0.0, false, false, 0, 15.0, now, Event(0, 15.0, 10.0, true, true, true))
  }

  /** Where the wiper gets to by `now` at its present speed. */
  function Moved(s: Sim, now: int): real {
    s.event.actualPosition + (now - s.ts) as real * s.step
  }

  predicate Reached(s: Sim, now: int) {
    if s.step >= 0.0 then Moved(s, now) >= s.target else Moved(s, now) <= s.target
  }

  /** The number of this ending event, counted from one. */
  function EndingEvent(s: Sim): int {
    if s.ending then s.endingCount + 1 else 1
  }

  /** The position before the sanity checks, while wiping. */
  function NextPosition(s: Sim, t: Tick): real {
    if !Reached(s, t.now) then Moved(s, t.now)
    else if EndingEvent(s) < 3 then s.target + t.jitter
    else s.target
  }

  function Clamped(position: real): real {
    if position < -1.0 then 0.0 else if position > 181.0 then 180.0 else position
  }

  /** A step whose position is `position`. */
  function SteppedTo(s: Sim, t: Tick, position: real): Sim {
    var reached := s.wiping && Reached(s, t.now);
    var settling := reached && EndingEvent(s) < 3;
    var wiping := s.wiping && (!reached || settling);
    var ending := if s.wiping then (if reached then settling else s.ending) else s.ending;
    Sim(s.counter + 1,
        if settling then 0.0 else s.step,
        wiping,
        ending,
        if settling then EndingEvent(s) else if reached then 0 else s.endingCount,
        s.target,
        t.now,
        Event((s.counter + 1) % 256,
              position,
              if s.wiping then DEFAULT_CURRENT + t.currentJitter else 0.0,
              wiping,
              ending,
              !s.wiping || (reached && !settling)))
  }

  function Stepped(s: Sim, t: Tick): Sim {
    var position := if s.wiping then NextPosition(s, t) else s.target;
    var stillWiping := s.wiping && (!Reached(s, t.now) || EndingEvent(s) < 3);
    SteppedTo(s, t, if stillWiping then Clamped(position) else position)
  }

  /** Degrees per millisecond at `frequency` cycles of 180 degrees a minute. */
  function Rate(frequency: nat): real {
    frequency as real * 180.0 / 60000.0
  }

  function Set(s: Sim, mode: Mode, frequency: nat, target: real, now: int): Sim {
    s.(wiping := mode == WIPE,
       target := target,
       step := if s.event.actualPosition > target then -Rate(frequency) else Rate(frequency),
       ts := now,
       ending := false)
  }

  // ----- the code

  class WiperSimulator {
    var modelCounter: nat
    var posStep: real
    var wiping: bool
    var cycleEnding: bool
    var cycleEndingCount: int
    var targetPos: real
    var ts: int
    var event: Event

    ghost function View(): Sim
      reads this
    {
      Sim(modelCounter, posStep, wiping, cycleEnding, cycleEndingCount, targetPos, ts, event)
    }

    constructor (now: int)
      ensures View() == Initial(now)
    {
      modelCounter, posStep, wiping, cycleEnding, cycleEndingCount := 0, 0.0, false, false, 0;
      targetPos, ts := 15.0, now;
      event := Event(0, 15.0, 10.0, true, true, true);
    }

    method ModelStep(t: Tick) returns (out: Event)
      modifies this
      ensures View() == Stepped(old(View()), t) && out == event
    {
      ghost var before := View();
      var elapsed := t.now - ts;
      modelCounter := modelCounter + 1;
      var current := 0.0;
      var actualPos := targetPos;
      var posReached := true;
      if wiping {
        var moved := elapsed as real * posStep;
        var nextPos := event.actualPosition + moved;
        assert nextPos == Moved(before, t.now);
        if (posStep >= 0.0 && nextPos >= targetPos) || (posStep < 0.0 && nextPos <= targetPos) {
          if !cycleEnding {
            cycleEnding := true;
            cycleEndingCount := 0;
          }
          cycleEndingCount := cycleEndingCount + 1;
          assert Reached(before, t.now) && cycleEndingCount == EndingEvent(before);
          if cycleEndingCount < 3 {
            nextPos := targetPos + t.jitter;
            posStep := 0.0;
            posReached := false;
          } else {
            wiping, cycleEnding, cycleEndingCount := false, false, 0;
            nextPos := targetPos;
            posReached := true;
          }
        } else {
          assert !Reached(before, t.now);
          posReached := false;
        }
        assert nextPos == NextPosition(before, t);
        assert wiping == (!Reached(before, t.now) || EndingEvent(before) < 3);
        if wiping && nextPos < -1.0 {
          nextPos := 0.0;
        }
        if wiping && nextPos > 181.0 {
          nextPos := 180.0;
        }
        actualPos := nextPos;
        current := DEFAULT_CURRENT + t.currentJitter;
      }
      event := Event(modelCounter % 256, actualPos, current, wiping, cycleEnding, posReached);
      ts := t.now;
      out := event;
    }

    method ModelSet(mode: Mode, frequency: nat, target: real, now: int)
      modifies this
      ensures View() == Set(old(View()), mode, frequency, target, now)
    {
      wiping := mode == WIPE;
      targetPos := target;
      posStep := frequency as real * 180.0 / 60000.0;
      if event.actualPosition > targetPos {
        posStep := -posStep;
      }
      ts := now;
      cycleEnding := false;
    }
  }

  // ----- the invariant

  datatype Command =
    | DoSet(mode: Mode, frequency: nat, target: real, now: int)
    | DoStep(tick: Tick)

  predicate ValidTick(t: Tick) {
    0.0 <= t.jitter <= 0.1
  }

  /** Targets in 0..180, jitter in [0, 0.1], and a clock that does not go back. */
  predicate Allowed(s: Sim, c: Command) {
    match c
    case DoSet(_, _, target, now) => 0.0 <= target <= 180.0 && s.ts <= now
    case DoStep(t) => ValidTick(t) && s.ts <= t.now
  }

  function Do(s: Sim, c: Command): Sim {
    match c
    case DoSet(mode, frequency, target, now) => Set(s, mode, frequency, target, now)
    case DoStep(t) => Stepped(s, t)
  }

  predicate AllAllowed(s: Sim, commands: seq<Command>)
    decreases |commands|
  {
    commands != [] ==> Allowed(s, commands[0]) && AllAllowed(Do(s, commands[0]), commands[1..])
  }

  function DoAll(s: Sim, commands: seq<Command>): Sim
    decreases |commands|
  {
    if commands == [] then s else DoAll(Do(s, commands[0]), commands[1..])
  }

  predicate Inv(s: Sim) {
    && 0.0 <= s.target <= 180.0
    && 0.0 <= s.event.actualPosition <= 180.1
    && (s.ending ==>
          && s.wiping && s.step == 0.0 && (s.endingCount == 1 || s.endingCount == 2)
          && s.target <= s.event.actualPosition <= s.target + 0.1)
  }

  lemma MovedBetween(s: Sim, now: int)
    requires s.ts <= now
    ensures s.step >= 0.0 ==> Moved(s, now) >= s.event.actualPosition
    ensures s.step < 0.0 ==> Moved(s, now) <= s.event.actualPosition
    ensures s.step == 0.0 ==> Moved(s, now) == s.event.actualPosition
  {
    var elapsed := (now - s.ts) as real;
    if s.step < 0.0 {
      assert elapsed * -s.step >= 0.0;
    }
  }

  lemma DoKeeps(s: Sim, c: Command)
    requires Inv(s) && Allowed(s, c)
    ensures Inv(Do(s, c))
    ensures c.DoStep? && s.wiping ==> Clamped(NextPosition(s, c.tick)) == NextPosition(s, c.tick)
  {
    if c.DoStep? {
      MovedBetween(s, c.tick.now);
    }
  }

  /** Over every sequence of settings and steps the position stays in [0, 180.1]; while a wipe is
      ending the wiper stands still within 0.1 of its target and the count is 1 or 2. */
  lemma {:induction false} InvAlways(s: Sim, commands: seq<Command>)
    requires Inv(s) && AllAllowed(s, commands)
    ensures Inv(DoAll(s, commands))
    decreases |commands|
  {
    if commands != [] {
      DoKeeps(s, commands[0]);
      InvAlways(Do(s, commands[0]), commands[1..]);
    }
  }

  /** The sanity checks never fire: after every sequence of commands, a further step takes the
      wiper exactly where the movement takes it. */
  lemma ClampsNeverFire(now: int, commands: seq<Command>, t: Tick)
    requires AllAllowed(Initial(now), commands) && Allowed(DoAll(Initial(now), commands), DoStep(t))
    ensures var s := DoAll(Initial(now), commands);
      Stepped(s, t) == SteppedTo(s, t, if s.wiping then NextPosition(s, t) else s.target)
  {
    InvAlways(Initial(now), commands);
    DoKeeps(DoAll(Initial(now), commands), DoStep(t));
  }

  // ----- one wipe

  /** The state after a number of steps without a new setting. */
  function After(s: Sim, ticks: seq<Tick>): Sim
    decreases |ticks|
  {
    if ticks == [] then s else Stepped(After(s, ticks[..|ticks| - 1]), ticks[|ticks| - 1])
  }

  predicate ValidTicks(s: Sim, ticks: seq<Tick>) {
    && (forall i :: 0 <= i < |ticks| ==> ValidTick(ticks[i]) && s.ts <= ticks[i].now)
    && (forall i, j :: 0 <= i < j < |ticks| ==> ticks[i].now <= ticks[j].now)
  }

  function Distance(s: Sim): real {
    if s.event.actualPosition > s.target then s.event.actualPosition - s.target
    else s.target - s.event.actualPosition
  }

  /** By `now` the elapsed time suffices for the distance, at `frequency` cycles a minute. */
  predicate Due(s: Sim, frequency: nat, now: int) {
    3.0 * (frequency * (now - s.ts)) as real >= 1000.0 * Distance(s)
  }

  /** A step at `now` ends the wipe: it is due, or the wiper cannot move at all and its target is
      below it, where a speed of zero counts as moving up. */
  predicate Arrives(s: Sim, frequency: nat, now: int) {
    Due(s, frequency, now) || (frequency == 0 && s.event.actualPosition > s.target)
  }

  /** How many of the steps come before the first one that arrives. */
  function StepsBeforeArrival(s: Sim, frequency: nat, ticks: seq<Tick>): (k: nat)
    ensures k <= |ticks|
    ensures forall i :: 0 <= i < k ==> !Arrives(s, frequency, ticks[i].now)
    ensures k < |ticks| ==> Arrives(s, frequency, ticks[k].now)
    decreases |ticks|
  {
    if ticks == [] then 0
    else
      var n := |ticks| - 1;
      var before := StepsBeforeArrival(s, frequency, ticks[..n]);
      if before < n then before else if Arrives(s, frequency, ticks[n].now) then n else n + 1
  }

  /** `s` has just been set to wipe at `frequency`, from a place inside the range. */
  predicate WipeSet(s: Sim, frequency: nat) {
    && Inv(s) && s.wiping && !s.ending
    && s.step == (if s.event.actualPosition > s.target then -Rate(frequency) else Rate(frequency))
  }

  lemma SetStartsWipe(s: Sim, frequency: nat, target: real, now: int)
    requires Inv(s) && 0.0 <= target <= 180.0
    ensures WipeSet(Set(s, WIPE, frequency, target, now), frequency)
  {
  }

  /** In motion: on the line through the starting position, whatever the steps so far. */
  predicate Moving(s0: Sim, s: Sim) {
    && s.wiping && !s.ending && s.step == s0.step && s.target == s0.target
    && s.event.actualPosition == s0.event.actualPosition + (s.ts - s0.ts) as real * s0.step
  }

  predicate Ending(s0: Sim, s: Sim, count: int) {
    && s.wiping && s.ending && s.endingCount == count && s.step == 0.0 && s.target == s0.target
    && s0.target <= s.event.actualPosition <= s0.target + 0.1
    && s.event.isEndingWipeCycle && !s.event.isPositionReached && s.event.isWiping
  }

  predicate Resting(s0: Sim, s: Sim) {
    && !s.wiping && !s.ending && s.target == s0.target
    && s.event.actualPosition == s0.target
    && !s.event.isEndingWipeCycle && s.event.isPositionReached && !s.event.isWiping
  }

  predicate InMotion(e: Event) {
    e.isWiping && !e.isEndingWipeCycle && !e.isPositionReached
  }

  /** What the state must be `n` steps into a wipe whose first due step is step `k`. */
  predicate Profile(s0: Sim, s: Sim, k: nat, n: nat) {
    if n <= k then Moving(s0, s) && (n > 0 ==> InMotion(s.event))
    else if n <= k + 2 then Ending(s0, s, n - k)
    else Resting(s0, s)
  }

  lemma Distribute(a: real, b: real, c: real)
    ensures a * c + b * c == (a + b) * c
  {
  }

  lemma RateTimes(frequency: nat, elapsed: int)
    ensures elapsed as real * Rate(frequency) * 1000.0 == 3.0 * (frequency * elapsed) as real
    ensures elapsed as real * -Rate(frequency) == -(elapsed as real * Rate(frequency))
  {
    assert elapsed as real * (frequency as real * 180.0 / 60000.0) == elapsed as real * frequency as real * 0.003;
    assert (frequency * elapsed) as real == frequency as real * elapsed as real;
  }

  lemma MovedFromStart(s0: Sim, s: Sim, now: int)
    requires Moving(s0, s)
    ensures Moved(s, now) == s0.event.actualPosition + (now - s0.ts) as real * s0.step
  {
    Distribute((s.ts - s0.ts) as real, (now - s.ts) as real, s0.step);
    assert (s.ts - s0.ts) as real + (now - s.ts) as real == (now - s0.ts) as real;
  }

  lemma ReachedIffArrives(s0: Sim, frequency: nat, s: Sim, now: int)
    requires WipeSet(s0, frequency) && Moving(s0, s)
    ensures Reached(s, now) <==> Arrives(s0, frequency, now)
  {
    MovedFromStart(s0, s, now);
    RateTimes(frequency, now - s0.ts);
  }

  lemma ProfileStep(s0: Sim, frequency: nat, s: Sim, k: nat, n: nat, t: Tick)
    requires WipeSet(s0, frequency)
    requires Profile(s0, s, k, n) && ValidTick(t) && s0.ts <= s.ts <= t.now
    requires n < k ==> !Arrives(s0, frequency, t.now)
    requires n == k ==> Arrives(s0, frequency, t.now)
    ensures Profile(s0, Stepped(s, t), k, n + 1)
  {
    if n <= k {
      ReachedIffArrives(s0, frequency, s, t.now);
      MovedFromStart(s0, s, t.now);
      MovesInside(s0, frequency, t.now);
    } else if n <= k + 2 {
      MovedBetween(s, t.now);
    }
  }

  /** Before it is due, the wiper is between its start and its target. */
  lemma MovesInside(s0: Sim, frequency: nat, now: int)
    requires WipeSet(s0, frequency) && s0.ts <= now
    ensures !Reached(s0, now) ==> -1.0 <= Moved(s0, now) <= 181.0
  {
    MovedBetween(s0, now);
  }

  lemma {:induction false} AfterTime(s: Sim, ticks: seq<Tick>)
    requires ticks != []
    ensures After(s, ticks).ts == ticks[|ticks| - 1].now
  {
  }

  /** A wipe, at every frequency and however time is sliced: up to the first step at which three times
      the frequency times the elapsed time covers a thousand times the distance, the position is start plus rate times
      elapsed time; that step and the next are ending events within 0.1 of the target; from the
      third on the wiper is off, exactly at the target. */
  lemma {:induction false} WipeProfile(s0: Sim, frequency: nat, ticks: seq<Tick>)
    requires WipeSet(s0, frequency)
    requires ValidTicks(s0, ticks)
    ensures Profile(s0, After(s0, ticks), StepsBeforeArrival(s0, frequency, ticks), |ticks|)
    decreases |ticks|
  {
    if ticks != [] {
      var n := |ticks| - 1;
      var k := StepsBeforeArrival(s0, frequency, ticks);
      var before := ticks[..n];
      WipeProfile(s0, frequency, before);
      var k' := StepsBeforeArrival(s0, frequency, before);
      var s := After(s0, before);
      if n > 0 {
        AfterTime(s0, before);
      }
      assert Profile(s0, s, k, n) by {
        if k' < n {
          assert k == k';
        } else {
          assert k >= n && k' == n;
        }
      }
      ProfileStep(s0, frequency, s, k, n, ticks[n]);
    }
  }

  /** At frequency zero a wipe towards a lower target does not stand still, though it is never due:
      it jumps to the target at its first step. */
  lemma ZeroFrequencyJumps(s0: Sim, t: Tick)
    requires WipeSet(s0, 0) && s0.event.actualPosition > s0.target && ValidTick(t)
    ensures Ending(s0, Stepped(s0, t), 1) && !Due(s0, 0, t.now)
  {
    assert Rate(0) == 0.0;
    assert Moved(s0, t.now) == s0.event.actualPosition;
  }
  // ----- at rest

  /** Off, with every event at the target and no current. */
  predicate AtRest(s: Sim, target: real) {
    && !s.wiping && !s.ending && s.target == target
    && s.event.actualPosition == target && s.event.driveCurrent == 0.0
    && !s.event.isWiping && !s.event.isEndingWipeCycle && s.event.isPositionReached
  }

  lemma {:induction false} RestsUntilSet(s: Sim, ticks: seq<Tick>)
    requires !s.wiping && !s.ending && ticks != []
    ensures AtRest(After(s, ticks), s.target)
    decreases |ticks|
  {
    var n := |ticks| - 1;
    if n > 0 {
      RestsUntilSet(s, ticks[..n]);
    }
  }

  /** Any mode but WIPE stops the wiper: from the next step to the next setting every event is off, at
      the target, without current. */
  lemma OtherModesRest(s: Sim, mode: Mode, frequency: nat, target: real, now: int, ticks: seq<Tick>)
    requires mode != WIPE && ticks != []
    ensures AtRest(After(Set(s, mode, frequency, target, now), ticks), target)
  {
    RestsUntilSet(Set(s, mode, frequency, target, now), ticks);
  }

  /** Until the first setting the wiper rests at 15 degrees. */
  lemma InitiallyAtRest(now: int, ticks: seq<Tick>)
    requires ticks != []
    ensures AtRest(After(Initial(now), ticks), 15.0)
  {
    RestsUntilSet(Initial(now), ticks);
  }

  /** Events are numbered one after the other, modulo 2^8, whatever the wiper does. */
  lemma {:induction false} EventsNumbered(s: Sim, ticks: seq<Tick>)
    ensures After(s, ticks).counter == s.counter + |ticks|
    ensures ticks != [] ==> After(s, ticks).event.sequenceCounter == (s.counter + |ticks|) % 256
    decreases |ticks|
  {
    if ticks != [] {
      EventsNumbered(s, ticks[..|ticks| - 1]);
    }
  }

  /** The motor draws 10, give or take the jitter, if it was wiping when the step began, and nothing
      otherwise. */
  lemma CurrentWhileWiping(s: Sim, t: Tick)
    ensures Stepped(s, t).event.driveCurrent == if s.wiping then 10.0 + t.currentJitter else 0.0
  {
  }

  /** While a wipe is ending the wiper jitters: each event is off the target by just its own jitter. */
  lemma {:induction false} EndingJitters(s0: Sim, frequency: nat, ticks: seq<Tick>)
    requires WipeSet(s0, frequency) && ValidTicks(s0, ticks) && ticks != [] && After(s0, ticks).ending
    ensures After(s0, ticks).event.actualPosition == s0.target + ticks[|ticks| - 1].jitter
  {
    var n := |ticks| - 1;
    var before := After(s0, ticks[..n]);
    WipeProfile(s0, frequency, ticks);
    WipeProfile(s0, frequency, ticks[..n]);
    if n > 0 {
      AfterTime(s0, ticks[..n]);
    }
    assert before.target == s0.target;
    assert 0.0 <= s0.target <= 180.0 && 0.0 <= ticks[n].jitter <= 0.1;
  }
}
