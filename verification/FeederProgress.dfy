/** While nothing goes wrong, what is stored is sent and acknowledged within a fixed number of steps. */
module FeederProgress {
  import opened FeederBuffer
  import opened FeederProtocol
  import FeederRegistration

  /** Calls succeed, nobody clears a flag, and `n` is not fed again. */
  predicate Cooperates(a: Action, n: string) {
    match a
    case Feeder(c) => !c.Error? && c != Channel(false)
    case ProducerStore(values) => n !in values
    case StopperClear => false
    case Subscriber(up) => up
    case _ => true
  }

  predicate AllCooperate(actions: seq<Action>, n: string) {
    forall i :: 0 <= i < |actions| ==> Cooperates(actions[i], n)
  }

  const MAX_STEPS := 17

  /** How many steps the thread needs at most to acknowledge a value that is stored. */
  function StepsToAck(pc: Pc, connected: bool): (r: nat)
    ensures 0 < r <= MAX_STEPS
  {
    match pc
    case TakeBatch => 3
    case FeedCheckConnected => if connected then 4 else 12
    case FeedCheckActive => if connected then 5 else 13
    case AwaitRegister => if connected then 6 else 14
    case Register => if connected then 7 else 15
    case RegisterCheckConnected => if connected then 8 else 14
    case RegisterCheckActive => if connected then 9 else 15
    case Connect => 10
    case LoopTop => 11
    case Waiting(_) => if connected then 6 else 14
    case WaitLock => if connected then 6 else 14
    case WaitCheckConnected => if connected then 7 else 14
    case WaitCheckActive => if connected then 8 else 15
    case Restore => if connected then 9 else 16
    case AwaitUpdate => if connected then 9 else 16
    case Update => if connected then 10 else 17
    case Exited => 1
  }

  /** The same for a value that may already be on its way. */
  ghost function StepsLeft(s: State, n: string, k: nat): (r: nat)
    ensures 0 < r <= MAX_STEPS
  {
    if s.pc == Update && Holds(s.batch, n, k) then 2
    else if s.pc == AwaitUpdate && Holds(s.batch, n, k) then 1
    else StepsToAck(s.pc, s.connected)
  }

  /** The newest value of `n` is not acknowledged yet, and shutdown has not begun. */
  ghost predicate Pending(s: State, n: string, k: nat) {
    Inv(s) && s.active && s.pc != Exited && Newest(s.feeds, n, k) && !Delivered(s.log, n, k)
  }

  lemma PendingIsHeld(s: State, n: string, k: nat)
    requires Pending(s, n, k)
    ensures Holds(s.stored, n, k) || (InFlight(s.pc) && Holds(s.batch, n, k))
    ensures s.pc != Waiting(false)
  {
  }

  function FeederSteps(actions: seq<Action>): nat
    decreases |actions|
  {
    if actions == [] then 0 else (if actions[0].Feeder? then 1 else 0) + FeederSteps(actions[1..])
  }

  /** Any step that neither takes nor acknowledges the value itself is one step closer. */
  lemma OtherStepProgress(s: State, c: Choice, n: string)
    requires s.active && s.stored != map[] && FeederEnabled(s, c) && Cooperates(Feeder(c), n)
    requires s.pc != TakeBatch && s.pc != Waiting(false)
    ensures var s' := FeederStep(s, c);
      s'.active && s'.pc != Exited && s'.feeds == s.feeds
      && StepsToAck(s'.pc, s'.connected) < StepsToAck(s.pc, s.connected)
  {
  }

  lemma RestoreProgress(s: State, n: string)
    requires s.active && s.pc == Restore
    ensures var s' := FeederStep(s, Go);
      s'.active && s'.pc == WaitCheckActive && s'.feeds == s.feeds
      && StepsToAck(s'.pc, s'.connected) < StepsToAck(s.pc, s.connected)
  {
  }

  lemma TakeProgress(s: State, n: string, k: nat)
    requires s.active && s.pc == TakeBatch && Holds(s.stored, n, k)
    ensures var s' := FeederStep(s, Go); s'.active && s'.feeds == s.feeds && s'.pc == Update && Holds(s'.batch, n, k)
  {
    InsertInitialAt(s.stored, s.config, n);
  }

  lemma SendProgress(s: State, c: Choice, n: string, k: nat)
    requires s.active && s.pc == Update && FeederEnabled(s, c) && Holds(s.batch, n, k)
    ensures var s' := FeederStep(s, c);
      s'.active && s'.feeds == s.feeds && s'.pc == AwaitUpdate && Holds(s'.batch, n, k)
  {
  }

  lemma AckProgress(s: State, n: string, k: nat)
    requires s.active && s.pc == AwaitUpdate && Holds(s.batch, n, k)
    requires s.log != [] && s.log[|s.log| - 1].UpdateCalled? && s.log[|s.log| - 1].batch == s.batch
    ensures var s' := FeederStep(s, Go);
      s'.active && s'.feeds == s.feeds && s'.pc == WaitCheckActive && Delivered(s'.log, n, k)
  {
    var log' := FeederStep(s, Go).log;
    assert AckedAt(log', |s.log| - 1) && Holds(log'[|s.log| - 1].batch, n, k);
  }

  lemma OwnStepProgress(s: State, c: Choice, n: string, k: nat)
    requires Pending(s, n, k) && FeederEnabled(s, c) && Cooperates(Feeder(c), n)
    requires s.pc == TakeBatch || ((s.pc == Update || s.pc == AwaitUpdate) && Holds(s.batch, n, k))
    ensures var s' := FeederStep(s, c);
      && s'.active && s'.pc != Exited && s'.feeds == s.feeds
      && (Delivered(s'.log, n, k) || StepsLeft(s', n, k) < StepsLeft(s, n, k))
  {
    PendingIsHeld(s, n, k);
    if s.pc == TakeBatch {
      TakeProgress(s, n, k);
    } else if s.pc == Update {
      SendProgress(s, c, n, k);
    } else {
      AckProgress(s, n, k);
    }
  }

  /** A step of the thread brings the acknowledgement closer. */
  lemma FeederStepProgress(s: State, c: Choice, n: string, k: nat)
    requires Pending(s, n, k) && FeederEnabled(s, c) && Cooperates(Feeder(c), n)
    ensures var s' := FeederStep(s, c);
      && s'.active && s'.pc != Exited && s'.feeds == s.feeds
      && (Delivered(s'.log, n, k) || StepsLeft(s', n, k) < StepsLeft(s, n, k))
  {
    PendingIsHeld(s, n, k);
    if s.pc == TakeBatch || ((s.pc == Update || s.pc == AwaitUpdate) && Holds(s.batch, n, k)) {
      OwnStepProgress(s, c, n, k);
    } else if s.pc == Restore {
      RestoreProgress(s, n);
    } else {
      OtherStepProgress(s, c, n);
    }
  }

  lemma StillNewest(s: State, a: Action, n: string, k: nat)
    requires Enabled(s, a) && Cooperates(a, n) && Newest(s.feeds, n, k)
    ensures Newest(Step(s, a).feeds, n, k)
  {
    if a.ProducerStore? {
      NewestAfterFeed(s.feeds, a.values, n, k);
    }
  }

  lemma StepProgress(s: State, a: Action, n: string, k: nat)
    requires Pending(s, n, k) && Enabled(s, a) && Cooperates(a, n)
    ensures var s' := Step(s, a);
      Delivered(s'.log, n, k) ||
      (Pending(s', n, k) && StepsLeft(s', n, k) + (if a.Feeder? then 1 else 0) <= StepsLeft(s, n, k))
  {
    StepKeeps(s, a);
    StillNewest(s, a, n, k);
    if a.Feeder? {
      FeederStepProgress(s, a.choice, n, k);
    } else {
      assert Step(s, a).log == s.log && Step(s, a).batch == s.batch;
    }
  }

  lemma {:induction false} DeliveredStays(s: State, actions: seq<Action>, n: string, k: nat)
    requires Runs(s, actions) && Delivered(s.log, n, k)
    ensures Delivered(Exec(s, actions).log, n, k)
    decreases |actions|
  {
    if actions != [] {
      DeliveredLater(s.log, Step(s, actions[0]).log, n, k);
      DeliveredStays(Step(s, actions[0]), actions[1..], n, k);
    }
  }

  lemma {:induction false} RunProgress(s: State, actions: seq<Action>, n: string, k: nat)
    requires Pending(s, n, k) && Runs(s, actions) && AllCooperate(actions, n)
    ensures var t := Exec(s, actions);
      Delivered(t.log, n, k) || (Pending(t, n, k) && FeederSteps(actions) + StepsLeft(t, n, k) <= StepsLeft(s, n, k))
    decreases |actions|
  {
    if actions != [] {
      var s' := Step(s, actions[0]);
      StepProgress(s, actions[0], n, k);
      if Delivered(s'.log, n, k) {
        DeliveredStays(s', actions[1..], n, k);
      } else {
        assert forall i :: 0 <= i < |actions| - 1 ==> actions[1..][i] == actions[i + 1];
        RunProgress(s', actions[1..], n, k);
      }
    }
  }

  /** The thread is never stuck with such a value: it has a step that cooperates. */
  lemma PendingCanStep(s: State, n: string, k: nat)
    requires Pending(s, n, k)
    ensures exists c :: FeederEnabled(s, c) && Cooperates(Feeder(c), n)
  {
    PendingIsHeld(s, n, k);
    var c :=
      if s.pc == Connect then Channel(true)
      else if s.pc == AwaitRegister then Reply(map[])
      else if s.pc == Update then Build(FeederRegistration.SomeRequest(s.batch, s.ids))
      else Go;
    assert FeederEnabled(s, c) && Cooperates(Feeder(c), n);
  }

  lemma ExitedStep(s: State, a: Action)
    requires Enabled(s, a) && (s.pc == Exited ==> !s.active)
    ensures Step(s, a).pc == Exited ==> !Step(s, a).active
  {
  }

  lemma {:induction false} ExitedMeansStopped(s: State, actions: seq<Action>)
    requires Runs(s, actions) && (s.pc == Exited ==> !s.active)
    ensures var t := Exec(s, actions); t.pc == Exited ==> !t.active
    decreases |actions|
  {
    if actions != [] {
      ExitedStep(s, actions[0]);
      ExitedMeansStopped(Step(s, actions[0]), actions[1..]);
    }
  }

  /** Wherever the run stands, the newest value of a name is in an acknowledged batch after at most 17
      more steps of the thread, in every interleaving in which calls succeed, nobody clears a flag and
      the name is not fed again; until then the thread always has such a step. */
  lemma StoredIsAcknowledged(config: seq<Metadata<Datapoint>>, before: seq<Action>, after: seq<Action>, n: string,
                             k: nat)
    requires Runs(Init(config), before) && Runs(Exec(Init(config), before), after) && AllCooperate(after, n)
    requires var s := Exec(Init(config), before); s.active && Newest(s.feeds, n, k)
    ensures var t := Exec(Exec(Init(config), before), after);
      || Delivered(t.log, n, k)
      || (FeederSteps(after) < MAX_STEPS && exists c :: FeederEnabled(t, c) && Cooperates(Feeder(c), n))
  {
    InitInv(config);
    RunKeeps(Init(config), before);
    ExitedMeansStopped(Init(config), before);
    var s := Exec(Init(config), before);
    if Delivered(s.log, n, k) {
      DeliveredStays(s, after, n, k);
    } else {
      RunProgress(s, after, n, k);
      var t := Exec(s, after);
      if !Delivered(t.log, n, k) {
        PendingCanStep(t, n, k);
      }
    }
  }
}
