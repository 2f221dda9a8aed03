/** What is left to happen once `Shutdown` has cleared the active flag: how much traffic, how
    many steps of the feeder thread, and exactly when that thread never comes back. */
module FeederShutdown {
  import opened FeederBuffer
  import opened FeederProtocol
  import opened FeederRegistration

  const MAX_STEPS := 8

  /** An upper bound on the steps the feeder thread still takes once the flag is cleared. */
  function StepsLeft(pc: Pc): (n: nat)
    ensures n <= MAX_STEPS
  {
    match pc
    case Exited => 0
    case LoopTop => 1
    case FeedCheckActive => 2
    case WaitCheckActive | Waiting(_) | RegisterCheckActive | AwaitRegister => 3
    case WaitLock | Restore | Register | Connect => 4
    case WaitCheckConnected | AwaitUpdate | RegisterCheckConnected => 5
    case Update => 6
    case TakeBatch => 7
    case FeedCheckConnected => 8
  }

  /** The broker calls the feeder thread is already committed to. */
  function CallsLeft(pc: Pc): nat {
    match pc
    case RegisterCheckConnected | Register | FeedCheckConnected | TakeBatch | Update => 1
    case _ => 0
  }

  function FeederSteps(actions: seq<Action>): nat
    decreases |actions|
  {
    if actions == [] then 0 else (if actions[0].Feeder? then 1 else 0) + FeederSteps(actions[1..])
  }

  /** Register and update calls issued so far. */
  function Calls(log: seq<Event>): nat
    decreases |log|
  {
    if log == [] then 0
    else Calls(log[..|log| - 1]) + (if log[|log| - 1].RegisterCalled? || log[|log| - 1].UpdateCalled? then 1 else 0)
  }

  lemma CallsAppend(log: seq<Event>, e: Event)
    ensures Calls(log + [e]) == Calls(log) + if e.RegisterCalled? || e.UpdateCalled? then 1 else 0
  {
    assert (log + [e])[..|log|] == log;
  }

  lemma FewerSteps(s: State, c: Choice)
    requires FeederEnabled(s, c) && !s.active
    ensures StepsLeft(NextPc(s, c)) < StepsLeft(s.pc)
  {
  }

  lemma FewerCalls(s: State, c: Choice)
    requires FeederEnabled(s, c) && !s.active
    ensures Calls(NextLog(s, c)) + CallsLeft(NextPc(s, c)) <= Calls(s.log) + CallsLeft(s.pc)
  {
    var log' := NextLog(s, c);
    if log' != s.log {
      CallsAppend(s.log, log'[|s.log|]);
    }
  }

  lemma StepAfterClear(s: State, a: Action)
    requires Enabled(s, a) && !s.active
    ensures var s' := Step(s, a);
      && !s'.active
      && StepsLeft(s'.pc) + (if a.Feeder? then 1 else 0) <= StepsLeft(s.pc)
      && Calls(s'.log) + CallsLeft(s'.pc) <= Calls(s.log) + CallsLeft(s.pc)
  {
    if a.Feeder? {
      FewerSteps(s, a.choice);
      FewerCalls(s, a.choice);
    }
  }

  /** Once the flag is cleared, every run contains at most eight more steps of the feeder
      thread and at most one more call to the broker, and that one only if the thread was
      already past its check of the flag. */
  lemma {:induction false} ShutdownBounds(s: State, actions: seq<Action>)
    requires Runs(s, actions) && !s.active
    ensures var s' := Exec(s, actions);
      && FeederSteps(actions) + StepsLeft(s'.pc) <= StepsLeft(s.pc) <= MAX_STEPS
      && Calls(s'.log) <= Calls(s.log) + CallsLeft(s.pc) <= Calls(s.log) + 1
    decreases |actions|
  {
    ShutdownBoundsExact(s, actions);
  }

  lemma {:induction false} ShutdownBoundsExact(s: State, actions: seq<Action>)
    requires Runs(s, actions) && !s.active
    ensures var s' := Exec(s, actions);
      && FeederSteps(actions) + StepsLeft(s'.pc) <= StepsLeft(s.pc)
      && Calls(s'.log) + CallsLeft(s'.pc) <= Calls(s.log) + CallsLeft(s.pc)
    decreases |actions|
  {
    if actions != [] {
      StepAfterClear(s, actions[0]);
      ShutdownBoundsExact(Step(s, actions[0]), actions[1..]);
    }
  }

  /** The thread is blocked only while it waits unnotified; otherwise it can take a step,
      whatever its calls return. */
  lemma FeederCanStep(s: State)
    ensures (exists c: Choice :: !c.Spurious? && FeederEnabled(s, c)) <==> s.pc != Exited && s.pc != Waiting(false)
  {
    match s.pc
    case Connect => assert FeederEnabled(s, Channel(true));
    case AwaitRegister => assert FeederEnabled(s, Error(false));
    case Update => assert FeederEnabled(s, Build(SomeRequest(s.batch, s.ids)));
    case Waiting(notified) =>
      if notified {
        assert FeederEnabled(s, Go);
      }
    case Exited =>
    case _ => assert FeederEnabled(s, Go);
  }

  // ----- what shutdown throws away

  /** Of producer values, only those fed from feed `first` on, and those in `batch`. */
  ghost predicate OnlyLater(values: Values, first: nat, batch: Values) {
    forall n, k :: Holds(values, n, k) ==> first <= k || Holds(batch, n, k)
  }

  ghost predicate DiscardInv(s: State, first: nat, batch: Values, sent: nat) {
    && first <= |s.feeds| && sent <= |s.log|
    && OnlyLater(s.stored, first, batch)
    && (InFlight(s.pc) ==> OnlyLater(s.batch, first, batch))
    && (forall i :: sent <= i < |s.log| && s.log[i].UpdateCalled? ==> OnlyLater(s.log[i].batch, first, batch))
  }

  lemma DiscardTake(s: State, first: nat, batch: Values, sent: nat)
    requires DiscardInv(s, first, batch, sent) && InitialConfig(s) && s.pc == TakeBatch
    ensures DiscardInv(FeederStep(s, Go), first, batch, sent)
  {
    var s' := FeederStep(s, Go);
    forall n, k | Holds(s'.batch, n, k) ensures Holds(s.stored, n, k) {
      InsertInitialAt(s.stored, s.config, n);
    }
  }

  lemma DiscardFeeder(s: State, c: Choice, first: nat, batch: Values, sent: nat)
    requires DiscardInv(s, first, batch, sent) && FeederEnabled(s, c) && s.pc != TakeBatch
    ensures DiscardInv(FeederStep(s, c), first, batch, sent)
  {
    var s' := FeederStep(s, c);
    assert s.log <= s'.log && |s'.log| <= |s.log| + 1;
    assert |s'.log| > |s.log| && s'.log[|s.log|].UpdateCalled? ==> s'.log[|s.log|].batch == s.batch;
  }

  lemma DiscardStep(s: State, a: Action, first: nat, batch: Values, sent: nat)
    requires DiscardInv(s, first, batch, sent) && InitialConfig(s) && Enabled(s, a)
    ensures DiscardInv(Step(s, a), first, batch, sent)
  {
    match a
    case Feeder(c) =>
      if s.pc == TakeBatch {
        DiscardTake(s, first, batch, sent);
      } else {
        DiscardFeeder(s, c, first, batch, sent);
      }
    case ProducerStore(values) => StoredAfterFeed(s, values);
    case _ =>
  }

  lemma StepConfig(s: State, a: Action)
    requires Enabled(s, a) && InitialConfig(s)
    ensures InitialConfig(Step(s, a))
  {
    assert Step(s, a).config == s.config;
  }

  lemma {:induction false} DiscardRun(s: State, actions: seq<Action>, first: nat, batch: Values, sent: nat)
    requires DiscardInv(s, first, batch, sent) && InitialConfig(s) && Runs(s, actions)
    ensures DiscardInv(Exec(s, actions), first, batch, sent)
    decreases |actions|
  {
    if actions != [] {
      DiscardStep(s, actions[0], first, batch, sent);
      StepConfig(s, actions[0]);
      DiscardRun(Step(s, actions[0]), actions[1..], first, batch, sent);
    }
  }

  /** What is stored when `Shutdown` clears the flag is thrown away: an update sent after that has no
      producer value but those already in flight and those of feeds still coming in. */
  lemma ShutdownDiscards(config: seq<Metadata<Datapoint>>, before: seq<Action>, after: seq<Action>, i: nat, n: string,
                         k: nat)
    requires Runs(Init(config), before) && Enabled(Exec(Init(config), before), StopperClear)
    requires Runs(Step(Exec(Init(config), before), StopperClear), after)
    requires var s := Exec(Init(config), before);
      var log := Exec(Step(s, StopperClear), after).log;
      |s.log| <= i < |log| && log[i].UpdateCalled? && Holds(log[i].batch, n, k)
    ensures var s := Exec(Init(config), before);
      |s.feeds| <= k || (InFlight(s.pc) && Holds(s.batch, n, k))
  {
    InitInv(config);
    RunKeeps(Init(config), before);
    var s := Exec(Init(config), before);
    var batch := if InFlight(s.pc) then s.batch else map[];
    DiscardRun(Step(s, StopperClear), after, |s.feeds|, batch, |s.log|);
  }

  // ----- when the thread hangs

  /** Every `Shutdown` has returned and no producer is on its way in. */
  predicate Quiescent(s: State) {
    !s.active && s.producers == 0 && s.stoppers == 0 && s.notifiers == 0
  }

  /** Nothing but a spurious wake-up can ever move the feeder thread again. */
  predicate Hung(s: State) {
    Quiescent(s) && s.pc == Waiting(false)
  }

  lemma HungForever(s: State, a: Action)
    requires Hung(s) && Enabled(s, a) && a != Feeder(Spurious)
    ensures Hung(Step(s, a))
  {
  }

  /** The thread has passed its check of the flag but has not begun to wait. */
  predicate InWindow(s: State) {
    s.stored == map[] && (s.pc == WaitCheckConnected || s.pc == WaitLock)
  }

  predicate NoSpurious(actions: seq<Action>) {
    forall i :: 0 <= i < |actions| ==> actions[i] != Feeder(Spurious)
  }

  /** The condition for hanging, at the moment when every `Shutdown` has returned. */
  predicate MayHang(s: State) {
    InWindow(s) || (s.pc == Waiting(false) && s.producers == 0)
  }

  lemma StaysSafe(s: State, a: Action)
    requires Enabled(s, a) && a != Feeder(Spurious)
    requires !s.active && s.stoppers == 0 && s.notifiers == 0 && !MayHang(s)
    ensures var s' := Step(s, a);
      !s'.active && s'.stoppers == 0 && s'.notifiers == 0 && !MayHang(s')
  {
    if a.ProducerStore? {
      forall n ensures n in s.stored ==> n in Step(s, a).stored {
      }
      assert s.stored != map[] ==> exists n :: n in s.stored;
    }
  }

  /** Producers still on their way in store and notify while nobody waits. */
  lemma {:induction false} DrainProducers(s: State) returns (actions: seq<Action>)
    requires InWindow(s)
    ensures Runs(s, actions) && NoSpurious(actions)
    ensures Exec(s, actions).stored == map[] && Exec(s, actions).pc == s.pc && Exec(s, actions).producers == 0
    ensures Exec(s, actions).active == s.active && Exec(s, actions).stoppers == s.stoppers
    ensures Exec(s, actions).notifiers == s.notifiers
    decreases s.producers
  {
    if s.producers == 0 {
      actions := [];
    } else {
      var a := ProducerStore(map[]);
      assert s.stored + Tag(map[], |s.feeds|) == map[];
      var rest := DrainProducers(Step(s, a));
      actions := [a] + rest;
      assert actions[1..] == rest;
    }
  }

  lemma WindowHangs(s: State) returns (actions: seq<Action>)
    requires InWindow(s) && !s.active && s.stoppers == 0 && s.notifiers == 0
    ensures Runs(s, actions) && NoSpurious(actions) && Hung(Exec(s, actions))
  {
    var drain := DrainProducers(s);
    var s1 := Exec(s, drain);
    var last := FinishWindow(s1);
    RunsThen(s, drain, last);
    actions := drain + last;
  }

  lemma Prepend(s: State, a: Action, rest: seq<Action>)
    requires Enabled(s, a) && Runs(Step(s, a), rest)
    ensures Runs(s, [a] + rest) && Exec(s, [a] + rest) == Exec(Step(s, a), rest)
  {
    assert ([a] + rest)[1..] == rest;
  }

  lemma FinishWindow(s: State) returns (actions: seq<Action>)
    requires InWindow(s) && Quiescent(s)
    ensures Runs(s, actions) && NoSpurious(actions) && Hung(Exec(s, actions))
  {
    if s.pc == WaitLock {
      actions := FinishWindowLock(s);
    } else {
      var s1 := Step(s, Subscriber(true));
      var s2 := Step(s1, Feeder(Go));
      assert s2.pc == WaitLock && InWindow(s2) && Quiescent(s2);
      var rest := FinishWindowLock(s2);
      Prepend(s1, Feeder(Go), rest);
      Prepend(s, Subscriber(true), [Feeder(Go)] + rest);
      actions := [Subscriber(true)] + ([Feeder(Go)] + rest);
    }
  }

  lemma FinishWindowLock(s: State) returns (actions: seq<Action>)
    requires InWindow(s) && Quiescent(s) && s.pc == WaitLock
    ensures Runs(s, actions) && NoSpurious(actions) && Hung(Exec(s, actions))
  {
    actions := [Feeder(Go)];
    assert Runs(Step(s, Feeder(Go)), []);
  }

  /** After every `Shutdown` has returned, the feeder thread can hang exactly when it had
      passed its check of the flag with nothing stored, or was left waiting already. */
  lemma HangsExactlyInWindow(s: State)
    requires !s.active && s.stoppers == 0 && s.notifiers == 0
    ensures (exists actions :: Runs(s, actions) && NoSpurious(actions) && Hung(Exec(s, actions))) <==> MayHang(s)
  {
    if MayHang(s) {
      if InWindow(s) {
        var actions := WindowHangs(s);
        assert Runs(s, actions) && NoSpurious(actions) && Hung(Exec(s, actions));
      } else {
        var none: seq<Action> := [];
        assert Runs(s, none) && NoSpurious(none) && Hung(Exec(s, none));
      }
    } else {
      forall actions | Runs(s, actions) && NoSpurious(actions) ensures !Hung(Exec(s, actions)) {
        SafeAfter(s, actions);
      }
    }
  }

  /** Outside that condition the thread comes back: in at most eight of its own steps, and it
      is never blocked unless a producer on its way in is about to wake it. */
  lemma OtherwiseRunReturns(s: State, actions: seq<Action>)
    requires !s.active && s.stoppers == 0 && s.notifiers == 0 && !MayHang(s)
    requires Runs(s, actions) && NoSpurious(actions)
    ensures FeederSteps(actions) <= MAX_STEPS
    ensures var s' := Exec(s, actions);
      || s'.pc == Exited
      || (exists c: Choice :: !c.Spurious? && FeederEnabled(s', c))
      || (s'.pc == Waiting(false) && s'.producers > 0)
  {
    ShutdownBounds(s, actions);
    SafeAfter(s, actions);
    FeederCanStep(Exec(s, actions));
  }

  lemma {:induction false} SafeAfter(s: State, actions: seq<Action>)
    requires Runs(s, actions) && NoSpurious(actions)
    requires !s.active && s.stoppers == 0 && s.notifiers == 0 && !MayHang(s)
    ensures var s' := Exec(s, actions);
      !s'.active && s'.stoppers == 0 && s'.notifiers == 0 && !MayHang(s')
    decreases |actions|
  {
    if actions != [] {
      StaysSafe(s, actions[0]);
      SafeAfter(Step(s, actions[0]), actions[1..]);
    }
  }

  /** The notification of a `Shutdown` is not lost on a thread that waits already: until the thread has
      taken a step it is not blocked any more, and that step leads it out of the feed loop. */
  lemma NotificationWakes(s: State, actions: seq<Action>)
    requires Enabled(s, StopperNotify) && s.pc.Waiting? && !s.active
    requires Runs(Step(s, StopperNotify), actions) && FeederSteps(actions) == 0
    ensures var t := Exec(Step(s, StopperNotify), actions);
      FeederEnabled(t, Go) && FeederStep(t, Go).pc == FeedCheckActive
      && StepsLeft(FeederStep(t, Go).pc) == 2
  {
    WaiterStays(Step(s, StopperNotify), actions);
  }

  lemma {:induction false} WaiterStays(s: State, actions: seq<Action>)
    requires Runs(s, actions) && FeederSteps(actions) == 0 && s.pc == Waiting(true)
    ensures Exec(s, actions).pc == Waiting(true)
    decreases |actions|
  {
    if actions != [] {
      WaiterStays(Step(s, actions[0]), actions[1..]);
    }
  }

  // ----- the hanging run exists

  lemma ConnectAndRegister(config: seq<Metadata<Datapoint>>, ids: map<string, int>)
    ensures exists s ::
      && Reaches(Init(config), s) && s.pc == FeedCheckActive && s.active && s.connected
      && s.producers == 0 && s.stoppers == 0 && s.notifiers == 0
  {
    var s0 := Init(config);
    ReachesSelf(s0);
    ReachesNext(s0, s0, Feeder(Go));
    var s1 := s0.(pc := Connect);
    ReachesNext(s0, s1, Feeder(Channel(true)));
    var s2 := FeederStep(s1, Channel(true));
    RegisterSucceeds(s2, ids);
    ReachesThen(s0, s2, RegisteredWith(s2, ids));
  }

  function RegisteredWith(s: State, ids: map<string, int>): State {
    s.(pc := FeedCheckActive, ids := ids, log := s.log + [RegisterCalled] + [Registered])
  }

  lemma RegisterSucceeds(s: State, ids: map<string, int>)
    requires s.pc == RegisterCheckActive && s.active && s.connected
    ensures Reaches(s, RegisteredWith(s, ids))
  {
    ReachesSelf(s);
    ReachesNext(s, s, Feeder(Go));
    var s1 := s.(pc := RegisterCheckConnected);
    ReachesNext(s, s1, Feeder(Go));
    var s2 := s.(pc := Register);
    ReachesNext(s, s2, Feeder(Go));
    var s3 := FeederStep(s2, Go);
    ReachesNext(s, s3, Feeder(Reply(ids)));
  }

  lemma WaitLockReached(s: State)
    requires s.pc == WaitCheckActive && s.active && s.connected
    ensures Reaches(s, s.(pc := WaitLock))
  {
    ReachesSelf(s);
    ReachesNext(s, s, Feeder(Go));
    var s1 := s.(pc := WaitCheckConnected);
    assert FeederStep(s, Go) == s1;
    ReachesNext(s, s1, Feeder(Go));
    assert FeederStep(s1, Go) == s.(pc := WaitLock);
  }

  lemma UpdateSucceeds(s: State)
    requires s.pc == Update
    ensures exists log :: Reaches(s, s.(pc := WaitCheckActive, alsoInitial := false, log := log))
  {
    ReachesSelf(s);
    var build := Build(SomeRequest(s.batch, s.ids));
    ReachesNext(s, s, Feeder(build));
    var s1 := FeederStep(s, build);
    ReachesNext(s, s1, Feeder(Go));
    var s2 := FeederStep(s1, Go);
    assert s2 == s.(pc := WaitCheckActive, alsoInitial := false, log := s2.log);
  }

  lemma UpdateThenWaitLock(s: State)
    requires s.pc == Update && s.active && s.connected
    ensures exists t ::
      && Reaches(s, t) && t.pc == WaitLock && t.stored == s.stored && t.active
      && t.producers == s.producers && t.stoppers == s.stoppers && t.notifiers == s.notifiers
  {
    UpdateSucceeds(s);
    var log :| Reaches(s, s.(pc := WaitCheckActive, alsoInitial := false, log := log));
    var s1 := s.(pc := WaitCheckActive, alsoInitial := false, log := log);
    WaitLockReached(s1);
    ReachesThen(s, s1, s1.(pc := WaitLock));
  }

  /** A whole `Shutdown` fits between the check of the flag and the wait. */
  lemma ShutdownThenWait(s: State)
    requires s.pc == WaitLock && s.stored == map[] && s.active
    requires s.producers == 0 && s.stoppers == 0 && s.notifiers == 0
    ensures exists t :: Reaches(s, t) && Hung(t)
  {
    ReachesSelf(s);
    ReachesNext(s, s, StopperCheck);
    var s1 := s.(stoppers := 1);
    ReachesNext(s, s1, StopperClear);
    var s2 := s.(notifiers := 1, active := false);
    assert Step(s1, StopperClear) == s2;
    ReachesNext(s, s2, StopperNotify);
    var s3 := s.(active := false);
    assert Step(s2, StopperNotify) == s3;
    ReachesNext(s, s3, Feeder(Go));
    assert Hung(FeederStep(s3, Go));
  }

  /** Whatever the configuration, some run hangs: the thread passes its check of the flag, a
      complete `Shutdown` follows, and the wait begins after its notification. */
  lemma ShutdownCanHang(config: seq<Metadata<Datapoint>>)
    ensures exists t :: Reaches(Init(config), t) && Hung(t)
  {
    ConnectAndRegister(config, map[]);
    var s0 := Init(config);
    var s1 :| Reaches(s0, s1) && s1.pc == FeedCheckActive && s1.active && s1.connected
      && s1.producers == 0 && s1.stoppers == 0 && s1.notifiers == 0;
    FeedLoopTakesBatch(s1);
    var s2 := BatchTaken(s1);
    ReachesThen(s0, s1, s2);
    UpdateThenWaitLock(s2);
    var s3 :| Reaches(s2, s3) && s3.pc == WaitLock && s3.stored == s2.stored && s3.active
      && s3.producers == 0 && s3.stoppers == 0 && s3.notifiers == 0;
    ReachesThen(s0, s2, s3);
    ShutdownThenWait(s3);
    var t :| Reaches(s3, t) && Hung(t);
    ReachesThen(s0, s3, t);
  }
}
