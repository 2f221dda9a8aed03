/** The order of the broker traffic, and what a failed call does to it. */
module FeederLink {
  import opened FeederBuffer
  import opened FeederProtocol

  // ----- which event can follow which

  predicate MayFollow(e: Event, f: Event) {
    match e
    case Connecting(_) => f.Connecting? || f.RegisterCalled? || f.UpdateCalled?
    case RegisterCalled => f.Registered? || f.RegisterFailed?
    case Registered => f.Connecting? || f.UpdateCalled?
    case RegisterFailed => f.Connecting?
    case UpdateCalled(_, _, _, _) => f.UpdateAcked? || f.UpdateFailed?
    case UpdateAcked => f.Connecting? || f.UpdateCalled?
    case UpdateFailed(_) => f.Connecting? || f.UpdateCalled?
  }

  predicate InFeedLoop(pc: Pc) {
    pc == FeedCheckActive || pc == FeedCheckConnected || pc == TakeBatch || pc == Update
    || pc == LoopTop || pc == Connect || pc == Exited
  }

  predicate AfterUpdate(pc: Pc) {
    pc == WaitCheckActive || pc == WaitCheckConnected || pc == WaitLock || pc.Waiting? || InFeedLoop(pc)
  }

  /** Where the thread can be after its last event. */
  predicate StandsAfter(log: seq<Event>, pc: Pc) {
    if log == [] then pc == LoopTop || pc == Connect || pc == Exited
    else
      match log[|log| - 1]
      case Connecting(_) =>
        pc == RegisterCheckActive || pc == RegisterCheckConnected || pc == Register || InFeedLoop(pc)
      case RegisterCalled => pc == AwaitRegister
      case Registered => InFeedLoop(pc)
      case RegisterFailed => pc == LoopTop || pc == Connect || pc == Exited
      case UpdateCalled(_, _, _, _) => pc == AwaitUpdate
      case UpdateAcked => AfterUpdate(pc)
      case UpdateFailed(_) => pc == Restore || AfterUpdate(pc)
  }

  ghost predicate InOrder(log: seq<Event>) {
    && (log != [] ==> log[0].Connecting?)
    && (forall i :: 0 <= i && i + 1 < |log| ==> MayFollow(log[i], log[i + 1]))
  }

  lemma AppendInOrder(log: seq<Event>, e: Event)
    requires InOrder(log) && (if log == [] then e.Connecting? else MayFollow(log[|log| - 1], e))
    ensures InOrder(log + [e])
  {
    var log' := log + [e];
    forall i | 0 <= i && i + 1 < |log'| ensures MayFollow(log'[i], log'[i + 1]) {
      if i + 1 < |log| {
        assert MayFollow(log[i], log[i + 1]);
      }
    }
  }

  ghost predicate TrafficInv(s: State) {
    InOrder(s.log) && StandsAfter(s.log, s.pc)
  }

  predicate Logs(pc: Pc) {
    pc == Connect || pc == Register || pc == AwaitRegister || pc == Update || pc == AwaitUpdate
  }

  lemma TrafficLogged(s: State, c: Choice)
    requires TrafficInv(s) && FeederEnabled(s, c) && Logs(s.pc)
    ensures TrafficInv(FeederStep(s, c))
  {
    var log' := FeederStep(s, c).log;
    assert log' == s.log + [log'[|s.log|]];
    AppendInOrder(s.log, log'[|s.log|]);
  }

  lemma TrafficLocal(s: State, c: Choice)
    requires TrafficInv(s) && FeederEnabled(s, c) && !Logs(s.pc)
    ensures TrafficInv(FeederStep(s, c))
  {
    assert FeederStep(s, c).log == s.log;
  }

  lemma TrafficKept(s: State, a: Action)
    requires TrafficInv(s) && Enabled(s, a)
    ensures TrafficInv(Step(s, a))
  {
    match a
    case Feeder(c) =>
      if Logs(s.pc) {
        TrafficLogged(s, c);
      } else {
        TrafficLocal(s, c);
      }
    case _ =>
  }

  lemma {:induction false} TrafficRun(s: State, actions: seq<Action>)
    requires TrafficInv(s) && Runs(s, actions)
    ensures TrafficInv(Exec(s, actions))
    decreases |actions|
  {
    if actions != [] {
      TrafficKept(s, actions[0]);
      TrafficRun(Step(s, actions[0]), actions[1..]);
    }
  }

  /** In every run the traffic begins with a connection attempt, every call has its outcome next, and
      a failed registration is followed by a new connection attempt. */
  lemma TrafficInOrder(config: seq<Metadata<Datapoint>>, actions: seq<Action>)
    requires Runs(Init(config), actions)
    ensures InOrder(Exec(Init(config), actions).log)
  {
    TrafficRun(Init(config), actions);
  }

  // ----- a failed call disconnects

  /** Of connection attempts and failed calls, the last was an attempt that succeeded. */
  predicate LinkUp(log: seq<Event>) {
    log != [] &&
    match log[|log| - 1]
    case Connecting(up) => up
    case RegisterFailed => false
    case UpdateFailed(_) => false
    case _ => LinkUp(log[..|log| - 1])
  }

  ghost predicate CallsLinked(log: seq<Event>) {
    forall i :: 0 <= i < |log| && (log[i].RegisterCalled? || log[i].UpdateCalled?) ==> LinkUp(log[..i])
  }

  lemma AppendLinked(log: seq<Event>, e: Event)
    requires CallsLinked(log) && (e.RegisterCalled? || e.UpdateCalled? ==> LinkUp(log))
    ensures CallsLinked(log + [e])
    ensures LinkUp(log + [e]) <==>
      if e.Connecting? then e.up else LinkUp(log) && !e.RegisterFailed? && !e.UpdateFailed?
  {
    assert (log + [e])[..|log|] == log;
    assert forall i :: 0 <= i < |log| ==> (log + [e])[..i] == log[..i];
  }

  ghost predicate LinkInv(s: State) {
    && (s.connected ==> LinkUp(s.log))
    && (s.pc == Register || s.pc == AwaitRegister || s.pc == TakeBatch || s.pc == Update || s.pc == AwaitUpdate ==>
          LinkUp(s.log))
    && CallsLinked(s.log)
  }

  lemma LinkConnect(s: State, c: Choice)
    requires LinkInv(s) && FeederEnabled(s, c) && s.pc == Connect
    ensures LinkInv(FeederStep(s, c))
  {
    AppendLinked(s.log, Connecting(c.up));
  }

  lemma LinkCall(s: State, c: Choice)
    requires LinkInv(s) && FeederEnabled(s, c) && (s.pc == Register || s.pc == Update)
    ensures LinkInv(FeederStep(s, c))
  {
    if s.pc == Register {
      AppendLinked(s.log, RegisterCalled);
    } else {
      AppendLinked(s.log, UpdateCalled(s.ids, s.pending, s.batch, c.request));
    }
  }

  lemma LinkOutcome(s: State, c: Choice)
    requires LinkInv(s) && FeederEnabled(s, c) && (s.pc == AwaitRegister || s.pc == AwaitUpdate)
    ensures LinkInv(FeederStep(s, c))
  {
    if s.pc == AwaitRegister {
      AppendLinked(s.log, if c.Reply? then Registered else RegisterFailed);
    } else {
      AppendLinked(s.log, if c.Error? then UpdateFailed(c.applied) else UpdateAcked);
    }
  }

  lemma LinkLogged(s: State, c: Choice)
    requires LinkInv(s) && FeederEnabled(s, c) && Logs(s.pc)
    ensures LinkInv(FeederStep(s, c))
  {
    if s.pc == Connect {
      LinkConnect(s, c);
    } else if s.pc == Register || s.pc == Update {
      LinkCall(s, c);
    } else {
      LinkOutcome(s, c);
    }
  }

  lemma LinkLocal(s: State, c: Choice)
    requires LinkInv(s) && FeederEnabled(s, c) && !Logs(s.pc)
    ensures LinkInv(FeederStep(s, c))
  {
    assert FeederStep(s, c).log == s.log;
  }

  lemma LinkKept(s: State, a: Action)
    requires LinkInv(s) && Enabled(s, a) && a != Subscriber(true)
    ensures LinkInv(Step(s, a))
  {
    match a
    case Feeder(c) =>
      if Logs(s.pc) {
        LinkLogged(s, c);
      } else {
        LinkLocal(s, c);
      }
    case _ =>
  }

  lemma {:induction false} LinkRun(s: State, actions: seq<Action>)
    requires LinkInv(s) && Runs(s, actions) && FeederRaisesOnly(actions)
    ensures LinkInv(Exec(s, actions))
    decreases |actions|
  {
    if actions != [] {
      assert actions[0] != Subscriber(true);
      assert forall i :: 0 <= i < |actions| - 1 ==> actions[1..][i] == actions[i + 1];
      LinkKept(s, actions[0]);
      LinkRun(Step(s, actions[0]), actions[1..]);
    }
  }

  /** If only the feeder's own wait raises the flag, no call is made after a failed call or a failed
      connection attempt before an attempt has succeeded. */
  lemma CallsOnlyWhileLinked(config: seq<Metadata<Datapoint>>, actions: seq<Action>, i: nat)
    requires Runs(Init(config), actions) && FeederRaisesOnly(actions)
    requires var log := Exec(Init(config), actions).log;
      i < |log| && (log[i].RegisterCalled? || log[i].UpdateCalled?)
    ensures LinkUp(Exec(Init(config), actions).log[..i])
  {
    LinkRun(Init(config), actions);
  }

  /** So whatever fails, the next thing the thread does towards the broker is to connect again. */
  lemma FailureReconnects(config: seq<Metadata<Datapoint>>, actions: seq<Action>, i: nat)
    requires Runs(Init(config), actions) && FeederRaisesOnly(actions)
    requires var log := Exec(Init(config), actions).log;
      i + 1 < |log| && (log[i].RegisterFailed? || log[i].UpdateFailed? || log[i] == Connecting(false))
    ensures Exec(Init(config), actions).log[i + 1].Connecting?
  {
    TrafficInOrder(config, actions);
    LinkRun(Init(config), actions);
    var log := Exec(Init(config), actions).log;
    assert MayFollow(log[i], log[i + 1]);
    assert log[..i + 1][|log[..i + 1]| - 1] == log[i];
    assert !LinkUp(log[..i + 1]);
  }
}
