/** The notify loop of the wiper server over the simulator, with settings made by other threads. */
module WiperNotifier {
  import opened WiperSim

  // ----- what the loop sees and does

  /** A setting made by another thread. */
  datatype Setting = Setting(mode: Mode, frequency: nat, target: real, now: int)

  /** One round of the loop, with the settings that arrive before it reads the ending flag, between
      that and the model step, and between the step and the second look at the flag. */
  datatype Round = Round(between: seq<Setting>, early: seq<Setting>, tick: Tick, late: seq<Setting>)

  /** What a round sees of the simulator: the ending flag before and after, and the event. */
  datatype Sight = Sight(wasEnding: bool, isEnding: bool, event: Event)

  /** Rounds so far, time since the last publication, and the published events by round. */
  datatype Log = Log(rounds: nat, accumulated: nat, published: map<nat, Event>)

  function Apply(s: Sim, settings: seq<Setting>): Sim
    decreases |settings|
  {
    if settings == [] then s
    else
      var n := |settings| - 1;
      var c := settings[n];
      Set(Apply(s, settings[..n]), c.mode, c.frequency, c.target, c.now)
  }

  /** The state the round steps from, and where the step leads. */
  function StepsFrom(s: Sim, r: Round): Sim {
    Apply(Apply(s, r.between), r.early)
  }

  function StepsTo(s: Sim, r: Round): Sim {
    Stepped(StepsFrom(s, r), r.tick)
  }

  function SightOf(s: Sim, r: Round): Sight {
    Sight(Apply(s, r.between).ending, Apply(StepsTo(s, r), r.late).ending, StepsTo(s, r).event)
  }

  function SimAfterRound(s: Sim, r: Round): Sim {
    Apply(StepsTo(s, r), r.late)
  }

  /** The state after a number of steps of one kind. */
  function Fold<S, R>(f: (S, R) -> S, s: S, inputs: seq<R>): S
    decreases |inputs|
  {
    if inputs == [] then s else f(Fold(f, s, inputs[..|inputs| - 1]), inputs[|inputs| - 1])
  }

  lemma {:induction false} FoldThen<S, R>(f: (S, R) -> S, s: S, first: seq<R>, second: seq<R>)
    ensures Fold(f, s, first + second) == Fold(f, Fold(f, s, first), second)
    decreases |second|
  {
    if second == [] {
      assert first + second == first;
    } else {
      var n := |second| - 1;
      FoldThen(f, s, first, second[..n]);
      assert (first + second)[..|first| + n] == first + second[..n];
    }
  }

  lemma {:induction false} FoldOneMore<S, R>(f: (S, R) -> S, s: S, inputs: seq<R>, i: nat)
    requires i < |inputs|
    ensures Fold(f, s, inputs[..i + 1]) == f(Fold(f, s, inputs[..i]), inputs[i])
  {
    assert inputs[..i + 1][..i] == inputs[..i];
  }

  /** What is seen at each of those steps. */
  function Seen<S, R, T>(f: (S, R) -> S, view: (S, R) -> T, s: S, inputs: seq<R>): (r: seq<T>)
    ensures |r| == |inputs|
  {
    seq(|inputs|, j requires 0 <= j < |inputs| => view(Fold(f, s, inputs[..j]), inputs[j]))
  }

  lemma {:induction false} SeenOneMore<S, R, T>(f: (S, R) -> S, view: (S, R) -> T, s: S, inputs: seq<R>, i: nat)
    requires i < |inputs|
    ensures Seen(f, view, s, inputs[..i + 1]) ==
      Seen(f, view, s, inputs[..i]) + [view(Fold(f, s, inputs[..i]), inputs[i])]
  {
    forall j | 0 <= j <= i ensures inputs[..i + 1][..j] == inputs[..j] {
    }
    forall j | 0 <= j < i ensures inputs[..i][..j] == inputs[..j] {
    }
  }

  lemma {:induction false} SeenThen<S, R, T>(f: (S, R) -> S, view: (S, R) -> T, s: S, first: seq<R>, second: seq<R>)
    ensures Seen(f, view, s, first + second) == Seen(f, view, s, first) + Seen(f, view, Fold(f, s, first), second)
  {
    forall j | 0 <= j < |first| ensures (first + second)[..j] == first[..j] {
    }
    forall j | 0 <= j < |second|
      ensures Fold(f, s, (first + second)[..|first| + j]) == Fold(f, Fold(f, s, first), second[..j])
    {
      assert (first + second)[..|first| + j] == first + second[..j];
      FoldThen(f, s, first, second[..j]);
    }
    var whole := Seen(f, view, s, first + second);
    var parts := Seen(f, view, s, first) + Seen(f, view, Fold(f, s, first), second);
    forall j | 0 <= j < |whole| ensures whole[j] == parts[j] {
      if j >= |first| {
        var i := j - |first|;
        assert Fold(f, s, (first + second)[..|first| + i]) == Fold(f, Fold(f, s, first), second[..i]);
      }
    }
  }

  function SimAfter(s: Sim, rounds: seq<Round>): Sim {
    Fold(SimAfterRound, s, rounds)
  }

  function Sights(s: Sim, rounds: seq<Round>): (r: seq<Sight>)
    ensures |r| == |rounds|
  {
    Seen(SimAfterRound, SightOf, s, rounds)
  }

  function SimStep(cycle: nat): nat {
    if 500 > cycle then cycle else 500
  }

  /** The cycle is over, or the ending flag is not what it was. */
  predicate Publishes(log: Log, cycle: nat, sight: Sight) {
    log.accumulated + SimStep(cycle) >= cycle || sight.wasEnding != sight.isEnding
  }

  function Note(log: Log, cycle: nat, sight: Sight): Log {
    if Publishes(log, cycle, sight)
    then Log(log.rounds + 1, 0, log.published[log.rounds := sight.event])
    else Log(log.rounds + 1, log.accumulated + SimStep(cycle), log.published)
  }

  function NoteAll(log: Log, cycle: nat, sights: seq<Sight>): (r: Log)
    ensures r.rounds == log.rounds + |sights|
    decreases |sights|
  {
    if sights == [] then log
    else
      var n := |sights| - 1;
      Note(NoteAll(log, cycle, sights[..n]), cycle, sights[n])
  }

  const FRESH := Log(0, 0, map[])

  /** The log of a loop that starts with the simulator in `s`. */
  function Running(s: Sim, cycle: nat, rounds: seq<Round>): Log {
    NoteAll(FRESH, cycle, Sights(s, rounds))
  }

  // ----- the code

  /** The settings of the other threads, made one after the other. */
  method ApplySettings(sim: WiperSimulator, settings: seq<Setting>)
    modifies sim
    ensures sim.View() == Apply(old(sim.View()), settings)
  {
    var i := 0;
    while i < |settings|
      invariant i <= |settings|
      invariant sim.View() == Apply(old(sim.View()), settings[..i])
    {
      assert settings[..i + 1][..i] == settings[..i];
      sim.ModelSet(settings[i].mode, settings[i].frequency, settings[i].target, settings[i].now);
      i := i + 1;
    }
    assert settings[..i] == settings;
  }

  /** One round up to the second look at the flag. */
  method StepRound(sim: WiperSimulator, r: Round) returns (wasCycleEnding: bool, event: Event)
    modifies sim
    ensures Sight(wasCycleEnding, sim.cycleEnding, event) == SightOf(old(sim.View()), r)
    ensures sim.View() == SimAfterRound(old(sim.View()), r)
  {
    ApplySettings(sim, r.between);
    wasCycleEnding := sim.cycleEnding;
    ApplySettings(sim, r.early);
    event := sim.ModelStep(r.tick);
    ApplySettings(sim, r.late);
  }

  /** The notify loop while the service is offered, with settings arriving at any moment. */
  method NotifyLoop(sim: WiperSimulator, cycle: nat, rounds: seq<Round>)
    returns (published: map<nat, Event>, eventTs: nat)
    modifies sim
    ensures sim.View() == SimAfter(old(sim.View()), rounds)
    ensures Log(|rounds|, eventTs, published) == Running(old(sim.View()), cycle, rounds)
  {
    published, eventTs := map[], 0;
    var simStep := 500;
    if simStep > cycle {
      simStep := cycle;
    }
    ghost var s0 := sim.View();
    var i := 0;
    while i < |rounds|
      invariant i <= |rounds|
      invariant sim.View() == SimAfter(s0, rounds[..i])
      invariant Log(i, eventTs, published) == Running(s0, cycle, rounds[..i])
    {
      OneRoundMore(s0, cycle, rounds, i);
      var wasCycleEnding, event := StepRound(sim, rounds[i]);
      eventTs := eventTs + simStep;
      if eventTs >= cycle || wasCycleEnding != sim.cycleEnding {
        eventTs := 0;
        published := published[i := event];
      }
      i := i + 1;
    }
    assert rounds[..i] == rounds;
  }

  lemma {:induction false} OneRoundMore(s: Sim, cycle: nat, rounds: seq<Round>, i: nat)
    requires i < |rounds|
    ensures SimAfter(s, rounds[..i + 1]) == SimAfterRound(SimAfter(s, rounds[..i]), rounds[i])
    ensures Running(s, cycle, rounds[..i + 1]) ==
      Note(Running(s, cycle, rounds[..i]), cycle, SightOf(SimAfter(s, rounds[..i]), rounds[i]))
  {
    SimOneMore(s, rounds, i);
    SightsOneMore(s, rounds, i);
    NoteOneMore(FRESH, cycle, Sights(s, rounds[..i]), SightOf(SimAfter(s, rounds[..i]), rounds[i]));
  }

  lemma {:induction false} NoteOneMore(log: Log, cycle: nat, sights: seq<Sight>, sight: Sight)
    ensures NoteAll(log, cycle, sights + [sight]) == Note(NoteAll(log, cycle, sights), cycle, sight)
  {
    assert (sights + [sight])[..|sights|] == sights;
  }

  lemma {:induction false} SimOneMore(s: Sim, rounds: seq<Round>, i: nat)
    requires i < |rounds|
    ensures SimAfter(s, rounds[..i + 1]) == SimAfterRound(SimAfter(s, rounds[..i]), rounds[i])
  {
    FoldOneMore(SimAfterRound, s, rounds, i);
  }

  lemma {:induction false} SightsOneMore(s: Sim, rounds: seq<Round>, i: nat)
    requires i < |rounds|
    ensures Sights(s, rounds[..i + 1]) == Sights(s, rounds[..i]) + [SightOf(SimAfter(s, rounds[..i]), rounds[i])]
  {
    SeenOneMore(SimAfterRound, SightOf, s, rounds, i);
  }

  // ----- the publication filter

  /** At the top of the loop the time since the last publication is below the cycle, and only rounds
      already over have been published. */
  predicate Timely(log: Log, cycle: nat) {
    && (log.accumulated < cycle || log.accumulated == 0)
    && (forall r :: r in log.published ==> r < log.rounds)
  }

  lemma {:induction false} NoteAllTimely(log: Log, cycle: nat, sights: seq<Sight>)
    requires Timely(log, cycle)
    ensures Timely(NoteAll(log, cycle, sights), cycle)
    decreases |sights|
  {
    if sights != [] {
      NoteAllTimely(log, cycle, sights[..|sights| - 1]);
    }
  }

  /** Whatever settings arrive, and whenever. */
  lemma {:induction false} NeverOverdue(s: Sim, cycle: nat, rounds: seq<Round>)
    ensures Timely(Running(s, cycle, rounds), cycle)
    ensures cycle > 0 ==> Running(s, cycle, rounds).accumulated < cycle
  {
    NoteAllTimely(FRESH, cycle, Sights(s, rounds));
  }

  /** A round is published, with its own event, exactly when it is due or finds the flag changed;
      no later round takes that back or adds to it. */
  lemma {:induction false} PublishedIff(log: Log, cycle: nat, sights: seq<Sight>, j: nat)
    requires Timely(log, cycle) && j < |sights|
    ensures var end := NoteAll(log, cycle, sights);
      && (log.rounds + j in end.published <==> Publishes(NoteAll(log, cycle, sights[..j]), cycle, sights[j]))
      && (log.rounds + j in end.published ==> end.published[log.rounds + j] == sights[j].event)
    decreases |sights|
  {
    var n := |sights| - 1;
    NoteAllTimely(log, cycle, sights[..n]);
    if j < n {
      PublishedIff(log, cycle, sights[..n], j);
      assert sights[..n][..j] == sights[..j];
    }
  }

  /** How many rounds make up a cycle: its length in steps of half a second, rounded up. */
  function RoundsPerCycle(cycle: nat): nat {
    if cycle <= 500 then 1 else (cycle + 499) / 500
  }

  /** The event of round `k`, counted from `first`, was published. */
  predicate IsOut(end: Log, first: nat, k: nat) {
    first + k in end.published
  }

  /** A round that is not published adds a step to the time accumulated. */
  lemma {:induction false} HeldBack(log: Log, cycle: nat, sights: seq<Sight>, j: nat, end: Log)
    requires Timely(log, cycle) && j < |sights| && end == NoteAll(log, cycle, sights) && !IsOut(end, log.rounds, j)
    ensures NoteAll(log, cycle, sights[..j + 1]).accumulated ==
      NoteAll(log, cycle, sights[..j]).accumulated + SimStep(cycle)
  {
    PublishedIff(log, cycle, sights, j);
    assert sights[..j + 1][..j] == sights[..j];
  }

  lemma {:induction false} Accumulates(log: Log, cycle: nat, sights: seq<Sight>, i: nat, j: nat, end: Log)
    requires Timely(log, cycle) && i <= j <= |sights| && end == NoteAll(log, cycle, sights)
    requires forall k :: i <= k < j ==> !IsOut(end, log.rounds, k)
    ensures NoteAll(log, cycle, sights[..j]).accumulated ==
      NoteAll(log, cycle, sights[..i]).accumulated + (j - i) * SimStep(cycle)
    decreases j - i
  {
    if i < j {
      Accumulates(log, cycle, sights, i, j - 1, end);
      assert !IsOut(end, log.rounds, j - 1);
      HeldBack(log, cycle, sights, j - 1, end);
      OneStepMore(j - i, SimStep(cycle));
    }
  }

  lemma OneStepMore(n: nat, step: nat)
    requires n > 0
    ensures n * step == (n - 1) * step + step
  {
  }

  lemma CycleCovered(cycle: nat)
    ensures RoundsPerCycle(cycle) >= 1 && RoundsPerCycle(cycle) * SimStep(cycle) >= cycle
  {
  }

  lemma {:induction false} LastOfCycle(log: Log, cycle: nat, sights: seq<Sight>, i: nat, end: Log)
    requires Timely(log, cycle) && i + RoundsPerCycle(cycle) <= |sights| && end == NoteAll(log, cycle, sights)
    requires RoundsPerCycle(cycle) >= 1
    requires forall k :: i <= k < i + RoundsPerCycle(cycle) - 1 ==> !IsOut(end, log.rounds, k)
    ensures IsOut(end, log.rounds, i + RoundsPerCycle(cycle) - 1)
  {
    var j := i + RoundsPerCycle(cycle) - 1;
    Accumulates(log, cycle, sights, i, j, end);
    CycleCovered(cycle);
    OneStepMore(RoundsPerCycle(cycle), SimStep(cycle));
    PublishedIff(log, cycle, sights, j);
  }

  /** Among as many rounds in a row as make up a cycle, one is published, whatever the wiper does. */
  lemma {:induction false} PublishedEveryCycle(log: Log, cycle: nat, sights: seq<Sight>, i: nat)
    requires Timely(log, cycle) && i + RoundsPerCycle(cycle) <= |sights|
    ensures exists k ::
      i <= k < i + RoundsPerCycle(cycle) && IsOut(NoteAll(log, cycle, sights), log.rounds, k)
  {
    CycleCovered(cycle);
    var end := NoteAll(log, cycle, sights);
    if forall k :: i <= k < i + RoundsPerCycle(cycle) - 1 ==> !IsOut(end, log.rounds, k) {
      LastOfCycle(log, cycle, sights, i, end);
    }
  }

  // ----- a wipe under the loop

  /** From the first model step to the `n`-th, nothing is set. */
  predicate Undisturbed(rounds: seq<Round>, n: nat) {
    && n <= |rounds|
    && (forall j :: 0 < j < n ==> rounds[j].between == [] && rounds[j].early == [])
    && (forall j :: 0 <= j < n - 1 ==> rounds[j].late == [])
  }

  function Ticks(rounds: seq<Round>): (r: seq<Tick>)
    ensures |r| == |rounds|
  {
    seq(|rounds|, i requires 0 <= i < |rounds| => rounds[i].tick)
  }

  /** Undisturbed rounds step the simulator as if there were no loop around it. */
  lemma {:induction false} RoundStepsTo(s: Sim, rounds: seq<Round>, n: nat, j: nat)
    requires Undisturbed(rounds, n) && j < n
    ensures var s0 := StepsFrom(s, rounds[0]);
      var before := SimAfter(s, rounds[..j]);
      && StepsTo(before, rounds[j]) == After(s0, Ticks(rounds)[..j + 1])
      && (j > 0 ==> Apply(before, rounds[j].between) == After(s0, Ticks(rounds)[..j]))
    decreases j
  {
    var s0, ticks := StepsFrom(s, rounds[0]), Ticks(rounds);
    assert ticks[..j + 1][..j] == ticks[..j];
    if j == 0 {
      assert After(s0, ticks[..0]) == s0;
    } else {
      RoundStepsTo(s, rounds, n, j - 1);
      SimOneMore(s, rounds, j - 1);
      assert SimAfter(s, rounds[..j]) == After(s0, ticks[..j]);
    }
  }

  /** Settings never start the settle phase. */
  lemma {:induction false} SettingsEndNothing(s: Sim, settings: seq<Setting>)
    requires !s.ending
    ensures !Apply(s, settings).ending
  {
  }

  /** When the loop comes to `rounds`, a wipe is set that arrives at step `k`, and nothing else is set
      until its third ending step is done. */
  ghost predicate WipeUnderLoop(s: Sim, frequency: nat, rounds: seq<Round>, k: nat) {
    && k + 3 <= |rounds| && Undisturbed(rounds, k + 3)
    && var s0 := StepsFrom(s, rounds[0]);
       && k == StepsBeforeArrival(s0, frequency, Ticks(rounds))
       && WipeSet(s0, frequency) && ValidTicks(s0, Ticks(rounds)[..k + 3])
  }

  predicate IsEnding(e: Event) {
    e.isWiping && e.isEndingWipeCycle && !e.isPositionReached
  }

  predicate IsReached(e: Event, target: real) {
    !e.isWiping && !e.isEndingWipeCycle && e.isPositionReached && e.actualPosition == target
  }

  lemma {:induction false} SameArrival(s: Sim, frequency: nat, ticks: seq<Tick>, n: nat)
    requires n <= |ticks|
    ensures StepsBeforeArrival(s, frequency, ticks[..n]) ==
      if StepsBeforeArrival(s, frequency, ticks) < n then StepsBeforeArrival(s, frequency, ticks) else n
  {
    var k, k' := StepsBeforeArrival(s, frequency, ticks), StepsBeforeArrival(s, frequency, ticks[..n]);
    if k' < n {
      assert Arrives(s, frequency, ticks[..n][k'].now);
    }
    if k < n {
      assert ticks[..n][k] == ticks[k];
    }
  }

  lemma {:induction false} ProfileAt(s0: Sim, frequency: nat, ticks: seq<Tick>, k: nat, n: nat)
    requires WipeSet(s0, frequency) && k == StepsBeforeArrival(s0, frequency, ticks)
    requires n <= k + 3 <= |ticks| && ValidTicks(s0, ticks[..k + 3])
    ensures Profile(s0, After(s0, ticks[..n]), k, n)
  {
    assert ticks[..k + 3][..n] == ticks[..n];
    assert ValidTicks(s0, ticks[..k + 3][..n]);
    WipeProfile(s0, frequency, ticks[..n]);
    SameArrival(s0, frequency, ticks, n);
  }

  /** The flags around the end of a wipe. */
  lemma {:induction false} WipeFlags(s0: Sim, frequency: nat, ticks: seq<Tick>, k: nat)
    requires WipeSet(s0, frequency) && k == StepsBeforeArrival(s0, frequency, ticks)
    requires k + 3 <= |ticks| && ValidTicks(s0, ticks[..k + 3])
    ensures !After(s0, ticks[..k]).ending
    ensures After(s0, ticks[..k + 1]).ending && IsEnding(After(s0, ticks[..k + 1]).event)
    ensures After(s0, ticks[..k + 2]).ending
    ensures !After(s0, ticks[..k + 3]).ending && IsReached(After(s0, ticks[..k + 3]).event, s0.target)
  {
    ProfileAt(s0, frequency, ticks, k, k);
    ProfileAt(s0, frequency, ticks, k, k + 1);
    ProfileAt(s0, frequency, ticks, k, k + 2);
    ProfileAt(s0, frequency, ticks, k, k + 3);
  }

  lemma {:induction false} SightAt(s: Sim, rounds: seq<Round>, j: nat)
    requires j < |rounds|
    ensures Sights(s, rounds)[j] == SightOf(SimAfter(s, rounds[..j]), rounds[j])
  {
  }

  /** What an undisturbed round sees. */
  lemma {:induction false} UndisturbedSight(s: Sim, rounds: seq<Round>, n: nat, j: nat)
    requires Undisturbed(rounds, n) && j < n
    ensures var s0, ticks, sight := StepsFrom(s, rounds[0]), Ticks(rounds), Sights(s, rounds)[j];
      && sight.event == After(s0, ticks[..j + 1]).event
      && sight.isEnding == Apply(After(s0, ticks[..j + 1]), rounds[j].late).ending
      && sight.wasEnding == if j == 0 then Apply(s, rounds[0].between).ending else After(s0, ticks[..j]).ending
  {
    SightAt(s, rounds, j);
    RoundStepsTo(s, rounds, n, j);
    assert rounds[..0] == [];
  }

  /** What the loop sees when the wipe starts to settle. */
  lemma {:induction false} EndingSight(s: Sim, frequency: nat, rounds: seq<Round>, k: nat)
    requires WipeUnderLoop(s, frequency, rounds, k)
    ensures var sight := Sights(s, rounds)[k];
      sight.isEnding && IsEnding(sight.event) && sight.wasEnding == (k == 0 && Apply(s, rounds[0].between).ending)
  {
    WipeFlags(StepsFrom(s, rounds[0]), frequency, Ticks(rounds), k);
    UndisturbedSight(s, rounds, k + 3, k);
    assert rounds[k].late == [];
  }

  /** What the loop sees when the wipe is over, whatever is set during the sleep of that round. */
  lemma {:induction false} ReachedSight(s: Sim, frequency: nat, rounds: seq<Round>, k: nat)
    requires WipeUnderLoop(s, frequency, rounds, k)
    ensures var sight := Sights(s, rounds)[k + 2];
      sight.wasEnding && !sight.isEnding && IsReached(sight.event, StepsFrom(s, rounds[0]).target)
  {
    var s0, ticks := StepsFrom(s, rounds[0]), Ticks(rounds);
    WipeFlags(s0, frequency, ticks, k);
    UndisturbedSight(s, rounds, k + 3, k + 2);
    SettingsEndNothing(After(s0, ticks[..k + 3]), rounds[k + 2].late);
  }

  /** The wipe was set between the two lines that read the flag and step the model, in the settle
      phase of the wipe before and where it arrives with that step, and the cycle was not over. */
  predicate EndingHidden(s: Sim, log: Log, cycle: nat, frequency: nat, first: Round) {
    && Apply(s, first.between).ending && log.accumulated + SimStep(cycle) < cycle
    && Arrives(StepsFrom(s, first), frequency, first.tick.now)
  }

  predicate EndingPublished(log: Log, round: nat) {
    round in log.published && IsEnding(log.published[round])
  }

  predicate ReachedPublished(log: Log, round: nat, target: real) {
    round in log.published && IsReached(log.published[round], target)
  }

  /** The settle phase begins in sight `k` and ends two sights later. */
  predicate Settles(sights: seq<Sight>, k: nat, target: real) {
    && k + 2 < |sights| && IsEnding(sights[k].event)
    && sights[k + 2].wasEnding && !sights[k + 2].isEnding && IsReached(sights[k + 2].event, target)
  }

  lemma {:induction false} WipeSeen(s: Sim, frequency: nat, rounds: seq<Round>, k: nat)
    requires WipeUnderLoop(s, frequency, rounds, k)
    ensures Settles(Sights(s, rounds), k, StepsFrom(s, rounds[0]).target)
  {
    ReachedSight(s, frequency, rounds, k);
    EndingSight(s, frequency, rounds, k);
  }

  /** A round that sees the settle phase end is published; the one that sees it begin is published
      exactly if the filter lets it through. */
  lemma {:induction false} FilterPasses(log: Log, cycle: nat, sights: seq<Sight>, n: nat, k: nat, end: Log,
                                        target: real)
    requires Timely(log, cycle) && n == log.rounds && end == NoteAll(log, cycle, sights) && Settles(sights, k, target)
    ensures ReachedPublished(end, n + k + 2, target)
    ensures EndingPublished(end, n + k) <==> Publishes(NoteAll(log, cycle, sights[..k]), cycle, sights[k])
  {
    PublishedIff(log, cycle, sights, k);
    PublishedIff(log, cycle, sights, k + 2);
  }

  lemma {:induction false} EndingPasses(s: Sim, log: Log, cycle: nat, frequency: nat, rounds: seq<Round>, k: nat)
    requires WipeUnderLoop(s, frequency, rounds, k)
    ensures Publishes(NoteAll(log, cycle, Sights(s, rounds)[..k]), cycle, Sights(s, rounds)[k])
       <==> !EndingHidden(s, log, cycle, frequency, rounds[0])
  {
    EndingSight(s, frequency, rounds, k);
    assert k == 0 <==> Arrives(StepsFrom(s, rounds[0]), frequency, Ticks(rounds)[0].now);
    assert k == 0 ==> Sights(s, rounds)[..k] == [];
  }

  /** Whatever the cycle, the time accumulated and the settings before and after, a wipe that runs to
      completion publishes its position-reached event; it publishes its first ending event too,
      exactly unless its setting slipped in between the reading of the flag and the step. */
  lemma {:induction false} WipePublished(s: Sim, log: Log, cycle: nat, frequency: nat, rounds: seq<Round>,
                                         n: nat, k: nat, end: Log)
    requires Timely(log, cycle) && n == log.rounds && end == NoteAll(log, cycle, Sights(s, rounds))
    requires WipeUnderLoop(s, frequency, rounds, k)
    ensures ReachedPublished(end, n + k + 2, StepsFrom(s, rounds[0]).target)
    ensures EndingPublished(end, n + k) <==> !EndingHidden(s, log, cycle, frequency, rounds[0])
  {
    WipeSeen(s, frequency, rounds, k);
    FilterPasses(log, cycle, Sights(s, rounds), n, k, end, StepsFrom(s, rounds[0]).target);
    EndingPasses(s, log, cycle, frequency, rounds, k);
  }

  // ----- wipes ordered while the loop runs

  predicate TargetsInRange(settings: seq<Setting>) {
    forall i :: 0 <= i < |settings| ==> 0.0 <= settings[i].target <= 180.0
  }

  predicate ValidRound(s: Sim, r: Round) {
    && TargetsInRange(r.between) && TargetsInRange(r.early) && TargetsInRange(r.late)
    && ValidTick(r.tick) && StepsFrom(s, r).ts <= r.tick.now
  }

  predicate ValidRounds(s: Sim, rounds: seq<Round>)
    decreases |rounds|
  {
    rounds != [] ==>
      var n := |rounds| - 1;
      ValidRounds(s, rounds[..n]) && ValidRound(SimAfter(s, rounds[..n]), rounds[n])
  }

  lemma {:induction false} SettingsKeepInv(s: Sim, settings: seq<Setting>)
    requires Inv(s) && TargetsInRange(settings)
    ensures Inv(Apply(s, settings))
    decreases |settings|
  {
    if settings != [] {
      SettingsKeepInv(s, settings[..|settings| - 1]);
    }
  }

  lemma {:induction false} RoundKeepsInv(s: Sim, r: Round)
    requires Inv(s) && ValidRound(s, r)
    ensures Inv(StepsTo(s, r)) && Inv(Apply(StepsTo(s, r), r.late))
  {
    SettingsKeepInv(s, r.between);
    SettingsKeepInv(Apply(s, r.between), r.early);
    DoKeeps(StepsFrom(s, r), DoStep(r.tick));
    SettingsKeepInv(StepsTo(s, r), r.late);
  }

  lemma {:induction false} RoundsKeepInv(s: Sim, rounds: seq<Round>)
    requires Inv(s) && ValidRounds(s, rounds)
    ensures Inv(SimAfter(s, rounds))
    decreases |rounds|
  {
    if rounds != [] {
      var n := |rounds| - 1;
      RoundsKeepInv(s, rounds[..n]);
      RoundKeepsInv(SimAfter(s, rounds[..n]), rounds[n]);
      SimOneMore(s, rounds, n);
      assert rounds[..n + 1] == rounds;
    }
  }

  /** The last of the settings is a wipe. */
  predicate EndsInWipe(settings: seq<Setting>, frequency: nat, target: real) {
    && settings != [] && var c := settings[|settings| - 1];
       c.mode == WIPE && c.frequency == frequency && c.target == target
  }

  lemma {:induction false} SettingsStartWipe(s: Sim, settings: seq<Setting>, frequency: nat, target: real)
    requires Inv(s) && TargetsInRange(settings) && EndsInWipe(settings, frequency, target)
    ensures WipeSet(Apply(s, settings), frequency) && Apply(s, settings).target == target
  {
    var n := |settings| - 1;
    SettingsKeepInv(s, settings[..n]);
    SetStartsWipe(Apply(s, settings[..n]), frequency, target, settings[n].now);
  }

  /** The last setting before the first step of `next` is a wipe: it came in the sleep of the round
      before, between the rounds, or between the reading of the flag and the step. */
  predicate WipeOrdered(before: seq<Round>, next: Round, frequency: nat, target: real) {
    if next.early != [] then EndsInWipe(next.early, frequency, target)
    else if next.between != [] then EndsInWipe(next.between, frequency, target)
    else before != [] && EndsInWipe(before[|before| - 1].late, frequency, target)
  }

  lemma {:induction false} OrderSetsWipe(s: Sim, before: seq<Round>, next: Round, frequency: nat, target: real)
    requires Inv(s) && ValidRounds(s, before) && TargetsInRange(next.between) && TargetsInRange(next.early)
    requires WipeOrdered(before, next, frequency, target)
    ensures var s0 := StepsFrom(SimAfter(s, before), next); WipeSet(s0, frequency) && s0.target == target
  {
    var now := SimAfter(s, before);
    RoundsKeepInv(s, before);
    SettingsKeepInv(now, next.between);
    if next.early != [] {
      SettingsStartWipe(Apply(now, next.between), next.early, frequency, target);
    } else if next.between != [] {
      SettingsStartWipe(now, next.between, frequency, target);
    } else {
      var n := |before| - 1;
      RoundsKeepInv(s, before[..n]);
      RoundKeepsInv(SimAfter(s, before[..n]), before[n]);
      SimOneMore(s, before, n);
      assert before[..n + 1] == before;
      SettingsStartWipe(StepsTo(SimAfter(s, before[..n]), before[n]), before[n].late, frequency, target);
    }
  }

  lemma {:induction false} SightsThen(s: Sim, before: seq<Round>, rounds: seq<Round>)
    ensures Sights(s, before + rounds) == Sights(s, before) + Sights(SimAfter(s, before), rounds)
  {
    SeenThen(SimAfterRound, SightOf, s, before, rounds);
  }

  lemma {:induction false} NoteAllThen(log: Log, cycle: nat, first: seq<Sight>, second: seq<Sight>)
    ensures NoteAll(log, cycle, first + second) == NoteAll(NoteAll(log, cycle, first), cycle, second)
    decreases |second|
  {
    if second == [] {
      assert first + second == first;
    } else {
      var n := |second| - 1;
      NoteAllThen(log, cycle, first, second[..n]);
      assert (first + second)[..|first| + n] == first + second[..n];
    }
  }

  lemma {:induction false} RunningThen(s: Sim, cycle: nat, before: seq<Round>, rounds: seq<Round>)
    ensures Running(s, cycle, before + rounds) ==
      NoteAll(Running(s, cycle, before), cycle, Sights(SimAfter(s, before), rounds))
  {
    SightsThen(s, before, rounds);
    NoteAllThen(FRESH, cycle, Sights(s, before), Sights(SimAfter(s, before), rounds));
  }

  /** After any rounds with any settings a wipe is ordered, and it gets the time it needs: it arrives
      at step `k`, and nothing else is set until its third ending step is done. */
  ghost predicate WipeInRun(s: Sim, before: seq<Round>, rounds: seq<Round>, frequency: nat, target: real, k: nat) {
    && Inv(s) && ValidRounds(s, before)
    && k + 3 <= |rounds| && Undisturbed(rounds, k + 3)
    && TargetsInRange(rounds[0].between) && TargetsInRange(rounds[0].early)
    && WipeOrdered(before, rounds[0], frequency, target)
    && var s0 := StepsFrom(SimAfter(s, before), rounds[0]);
       && k == StepsBeforeArrival(s0, frequency, Ticks(rounds)) && ValidTicks(s0, Ticks(rounds)[..k + 3])
  }

  lemma {:induction false} WipeInRunUnderLoop(s: Sim, before: seq<Round>, rounds: seq<Round>, frequency: nat,
                                              target: real, k: nat)
    requires WipeInRun(s, before, rounds, frequency, target, k)
    ensures WipeUnderLoop(SimAfter(s, before), frequency, rounds, k)
    ensures StepsFrom(SimAfter(s, before), rounds[0]).target == target
    ensures rounds[0].early == [] ==> !Apply(SimAfter(s, before), rounds[0].between).ending
  {
    OrderSetsWipe(s, before, rounds[0], frequency, target);
  }

  /** Every wipe ordered while the loop runs: the loop publishes that the position was reached, and
      also the first ending event, unless the order came between the reading of the flag and the step
      and hid it. */
  lemma {:induction false} OrderedWipePublished(s: Sim, cycle: nat, before: seq<Round>, rounds: seq<Round>,
                                                frequency: nat, target: real, n: nat, k: nat, end: Log)
    requires WipeInRun(s, before, rounds, frequency, target, k)
    requires n == |before| && end == Running(s, cycle, before + rounds)
    ensures ReachedPublished(end, n + k + 2, target)
    ensures EndingPublished(end, n + k) <==> !HiddenAt(s, cycle, frequency, before, rounds[0])
    ensures rounds[0].early == [] ==> !HiddenAt(s, cycle, frequency, before, rounds[0])
  {
    WipeInRunUnderLoop(s, before, rounds, frequency, target, k);
    NeverOverdue(s, cycle, before);
    RunningThen(s, cycle, before, rounds);
    WipePublished(SimAfter(s, before), Running(s, cycle, before), cycle, frequency, rounds, n, k, end);
  }

  ghost predicate HiddenAt(s: Sim, cycle: nat, frequency: nat, before: seq<Round>, next: Round) {
    EndingHidden(SimAfter(s, before), Running(s, cycle, before), cycle, frequency, next)
  }

  // ----- the window is real

  lemma {:induction false} ApplyOne(s: Sim, c: Setting)
    ensures Apply(s, [c]) == Set(s, c.mode, c.frequency, c.target, c.now)
  {
    assert [c][..0] == [];
  }

  /** Ordered to where it stands, the wiper goes into its settle phase in the same round. */
  lemma {:induction false} FirstOrderEnds(now: int, cycle: nat, first: Round)
    requires first == Round([Setting(WIPE, 1, 15.0, now)], [], Tick(now, 0.0, 0.0), [])
    ensures ValidRounds(Initial(now), [first])
    ensures var s := SimAfter(Initial(now), [first]);
      s.ending && s.ts == now && s.event.actualPosition == 15.0
    ensures Running(Initial(now), cycle, [first]).accumulated == 0
  {
    ApplyOne(Initial(now), first.between[0]);
    assert [first][..1] == [first] && [first][..0] == [];
    assert Moved(StepsFrom(Initial(now), first), now) == 15.0;
    OneRoundMore(Initial(now), cycle, [first], 0);
    assert ValidRound(SimAfter(Initial(now), [first][..0]), first);
  }

  /** With any cycle longer than a model step, a wipe can be ordered so that its first ending event
      is never published. */
  lemma {:induction false} EndingCanBeHidden(now: int, cycle: nat)
    requires cycle > 500
    ensures exists before, rounds ::
      && WipeInRun(Initial(now), before, rounds, 1, 15.0, 0)
      && HiddenAt(Initial(now), cycle, 1, before, rounds[0])
  {
    var order, tick := [Setting(WIPE, 1, 15.0, now)], Tick(now, 0.0, 0.0);
    var before := [Round(order, [], tick, [])];
    var quiet := Round([], [], tick, []);
    var rounds := [Round([], order, tick, []), quiet, quiet];
    FirstOrderEnds(now, cycle, before[0]);
    var s := SimAfter(Initial(now), before);
    ApplyOne(s, order[0]);
    var s0 := StepsFrom(s, rounds[0]);
    assert Distance(s0) == 0.0;
    assert Ticks(rounds)[0] == tick && Arrives(s0, 1, tick.now);
    assert StepsBeforeArrival(s0, 1, Ticks(rounds)) == 0;
    assert WipeInRun(Initial(now), before, rounds, 1, 15.0, 0);
  }
}
