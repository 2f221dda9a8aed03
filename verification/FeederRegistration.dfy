/** Registration before update, the first update of a connection, and what the connection
    flag shared with the subscriber does to both. */
module FeederRegistration {
  import opened Options
  import opened FeederBuffer
  import opened FeederProtocol
  import opened FeederDelivery

  /** Between skipping registration and entering the feed loop. */
  predicate InGap(s: State) {
    ((s.pc == FeedCheckActive && s.active) || s.pc == FeedCheckConnected) && !RegisteredNow(s.log)
  }

  /** Somewhere in the run the subscriber raises the flag inside that gap. */
  ghost predicate RaisesInGap(s: State, actions: seq<Action>)
    requires Runs(s, actions)
    decreases |actions|
  {
    actions != [] &&
    ((InGap(s) && actions[0] == Subscriber(true)) || RaisesInGap(Step(s, actions[0]), actions[1..]))
  }

  ghost predicate Sending(pc: Pc) {
    pc == TakeBatch || InFlight(pc) || pc == WaitCheckActive || pc == WaitCheckConnected
    || pc == WaitLock || pc.Waiting?
  }

  ghost predicate RegistrationInv(s: State) {
    && (s.pc == FeedCheckActive ==> RegisteredNow(s.log) || !s.connected || !s.active)
    && (s.pc == FeedCheckConnected ==> RegisteredNow(s.log) || !s.connected)
    && (Sending(s.pc) ==> RegisteredNow(s.log))
    && UpdatesRegistered(s.log)
  }

  ghost predicate UpdatesRegistered(log: seq<Event>) {
    forall i :: 0 <= i < |log| && log[i].UpdateCalled? ==> RegisteredNow(log[..i])
  }

  lemma AppendRegistered(log: seq<Event>, e: Event)
    requires UpdatesRegistered(log) && (e.UpdateCalled? ==> RegisteredNow(log))
    ensures UpdatesRegistered(log + [e])
    ensures RegisteredNow(log + [e]) <==> e == Registered || (!e.Connecting? && RegisteredNow(log))
  {
    assert (log + [e])[..|log|] == log;
    assert forall i :: 0 <= i < |log| ==> (log + [e])[..i] == log[..i];
  }

  lemma RegistrationLogged(s: State, c: Choice)
    requires FeederEnabled(s, c) && RegistrationInv(s)
    requires s.pc == Connect || s.pc == Register || s.pc == AwaitRegister || s.pc == Update || s.pc == AwaitUpdate
    ensures RegistrationInv(FeederStep(s, c))
  {
    AppendRegistered(s.log, FeederStep(s, c).log[|s.log|]);
  }

  lemma RegistrationLocal(s: State, c: Choice)
    requires FeederEnabled(s, c) && RegistrationInv(s)
    requires s.pc != Connect && s.pc != Register && s.pc != AwaitRegister && s.pc != Update && s.pc != AwaitUpdate
    ensures RegistrationInv(FeederStep(s, c))
  {
  }

  lemma RegistrationKept(s: State, a: Action)
    requires Enabled(s, a) && RegistrationInv(s)
    requires !(InGap(s) && a == Subscriber(true))
    ensures RegistrationInv(Step(s, a))
  {
    match a
    case Feeder(c) =>
      if s.pc == Connect || s.pc == Register || s.pc == AwaitRegister || s.pc == Update || s.pc == AwaitUpdate {
        RegistrationLogged(s, c);
      } else {
        RegistrationLocal(s, c);
      }
    case _ =>
  }

  lemma {:induction false} RegistrationRun(s: State, actions: seq<Action>)
    requires Runs(s, actions) && RegistrationInv(s) && !RaisesInGap(s, actions)
    ensures RegistrationInv(Exec(s, actions))
    decreases |actions|
  {
    if actions != [] {
      RegistrationKept(s, actions[0]);
      RegistrationRun(Step(s, actions[0]), actions[1..]);
    }
  }

  /** Unless the subscriber raises the flag in the gap, every update follows a registration
      that succeeded after the feeder last connected. */
  lemma RegisterBeforeUpdate(config: seq<Metadata<Datapoint>>, actions: seq<Action>, i: nat)
    requires Runs(Init(config), actions) && !RaisesInGap(Init(config), actions)
    requires var log := Exec(Init(config), actions).log; i < |log| && log[i].UpdateCalled?
    ensures RegisteredNow(Exec(Init(config), actions).log[..i])
  {
    RegistrationRun(Init(config), actions);
  }

  lemma {:induction false} NoRaiseNoGap(s: State, actions: seq<Action>)
    requires Runs(s, actions) && FeederRaisesOnly(actions)
    ensures !RaisesInGap(s, actions)
    decreases |actions|
  {
    if actions != [] {
      assert actions[0] != Subscriber(true);
      assert forall i :: 0 <= i < |actions| - 1 ==> actions[1..][i] == actions[i + 1];
      NoRaiseNoGap(Step(s, actions[0]), actions[1..]);
    }
  }

  /** In particular when only the feeder's own wait raises the flag. */
  lemma RegisterBeforeUpdateUnshared(config: seq<Metadata<Datapoint>>, actions: seq<Action>, i: nat)
    requires Runs(Init(config), actions) && FeederRaisesOnly(actions)
    requires var log := Exec(Init(config), actions).log; i < |log| && log[i].UpdateCalled?
    ensures RegisteredNow(Exec(Init(config), actions).log[..i])
  {
    NoRaiseNoGap(Init(config), actions);
    RegisterBeforeUpdate(config, actions, i);
  }

  /** The condition is sharp: raising the flag in the gap lets the feeder go on to send an
      update without a registration. */
  lemma RaiseInGapSendsUnregistered(s: State)
    requires InGap(s)
    ensures exists t ::
      && Reaches(Step(s, Subscriber(true)), t)
      && |t.log| == |s.log| + 1 && t.log[|s.log|].UpdateCalled? && !RegisteredNow(t.log[..|s.log|])
  {
    var s0 := s.(connected := true);
    var s1 := BatchTaken(s0);
    FeedLoopTakesBatch(s0);
    var build := Build(SomeRequest(s1.batch, s1.ids));
    ReachesNext(s0, s1, Feeder(build));
    assert FeederStep(s1, build).log[..|s.log|] == s.log;
  }

  /** `s` moved on to where its stored values are about to be sent. */
  function BatchTaken(s: State): State {
    s.(pc := Update, stored := map[], pending := s.stored,
       batch := if s.alsoInitial then InsertInitial(s.stored, s.config) else s.stored)
  }

  lemma FeedLoopTakesBatch(s: State)
    requires s.connected && ((s.pc == FeedCheckActive && s.active) || s.pc == FeedCheckConnected)
    ensures Reaches(s, BatchTaken(s))
  {
    ReachesSelf(s);
    if s.pc == FeedCheckActive {
      ReachesNext(s, s, Feeder(Go));
    }
    var s1 := s.(pc := FeedCheckConnected);
    ReachesNext(s, s1, Feeder(Go));
    var s2 := s.(pc := TakeBatch);
    assert FeederStep(s1, Go) == s2;
    ReachesNext(s, s2, Feeder(Go));
    assert FeederStep(s2, Go) == BatchTaken(s);
  }

  /** A request that can be built from the batch. */
  ghost function SomeRequest(batch: Values, ids: map<string, int>): (request: map<int, Item>)
    ensures IsRequest(request, batch, ids)
  {
    var known := set n | n in batch && n in ids;
    map id | id in IdsOf(known, ids) :: batch[NameOf(known, ids, id)]
  }

  ghost function IdsOf(names: set<string>, ids: map<string, int>): set<int>
    requires names <= ids.Keys
  {
    set n | n in names :: ids[n]
  }

  ghost function NameOf(names: set<string>, ids: map<string, int>, id: int): (n: string)
    requires names <= ids.Keys && id in IdsOf(names, ids)
    ensures n in names && ids[n] == id
  {
    var n :| n in names && ids[n] == id;
    n
  }

  // ----- the first update after connecting

  ghost predicate FirstUpdateInv(s: State) {
    && (s.pc == RegisterCheckActive || s.pc == RegisterCheckConnected || s.pc == Register || s.pc == AwaitRegister
        ==> NoUpdateYet(s.log) && s.alsoInitial)
    && (s.pc == FeedCheckActive || s.pc == FeedCheckConnected || s.pc == TakeBatch || s.pc == Update
        || s.pc == WaitCheckActive || s.pc == WaitCheckConnected || s.pc == WaitLock || s.pc.Waiting?
        ==> s.alsoInitial == NoUpdateYet(s.log))
    && (s.pc == AwaitUpdate || s.pc == Restore ==> !NoUpdateYet(s.log))
    && (s.pc == Update ==> s.batch == if s.alsoInitial then InsertInitial(s.pending, s.config) else s.pending)
    && BatchesComplete(s.config, s.log)
  }

  ghost predicate BatchesComplete(config: seq<Metadata<Item>>, log: seq<Event>) {
    forall i :: 0 <= i < |log| && log[i].UpdateCalled? ==> BatchComplete(config, log[..i], log[i])
  }

  ghost predicate BatchComplete(config: seq<Metadata<Item>>, before: seq<Event>, e: Event)
    requires e.UpdateCalled?
  {
    e.batch == if NoUpdateYet(before) then InsertInitial(e.pending, config) else e.pending
  }

  lemma AppendComplete(config: seq<Metadata<Item>>, log: seq<Event>, e: Event)
    requires BatchesComplete(config, log) && (e.UpdateCalled? ==> BatchComplete(config, log, e))
    ensures BatchesComplete(config, log + [e])
    ensures NoUpdateYet(log + [e]) <==> e.Connecting? || (!e.UpdateCalled? && NoUpdateYet(log))
  {
    assert (log + [e])[..|log|] == log;
    assert forall i :: 0 <= i < |log| ==> (log + [e])[..i] == log[..i];
  }

  lemma FirstUpdateLogged(s: State, c: Choice)
    requires FeederEnabled(s, c) && FirstUpdateInv(s)
    requires s.pc == Connect || s.pc == Register || s.pc == AwaitRegister || s.pc == Update || s.pc == AwaitUpdate
    ensures FirstUpdateInv(FeederStep(s, c))
  {
    AppendComplete(s.config, s.log, FeederStep(s, c).log[|s.log|]);
  }

  lemma FirstUpdateLocal(s: State, c: Choice)
    requires FeederEnabled(s, c) && FirstUpdateInv(s)
    requires s.pc != Connect && s.pc != Register && s.pc != AwaitRegister && s.pc != Update && s.pc != AwaitUpdate
    ensures FirstUpdateInv(FeederStep(s, c))
  {
  }

  lemma FirstUpdateKept(s: State, a: Action)
    requires Enabled(s, a) && FirstUpdateInv(s)
    ensures FirstUpdateInv(Step(s, a))
  {
    match a
    case Feeder(c) =>
      if s.pc == Connect || s.pc == Register || s.pc == AwaitRegister || s.pc == Update || s.pc == AwaitUpdate {
        FirstUpdateLogged(s, c);
      } else {
        FirstUpdateLocal(s, c);
      }
    case _ =>
  }

  lemma {:induction false} FirstUpdateRun(s: State, actions: seq<Action>)
    requires Runs(s, actions) && FirstUpdateInv(s)
    ensures FirstUpdateInv(Exec(s, actions))
    decreases |actions|
  {
    if actions != [] {
      FirstUpdateKept(s, actions[0]);
      FirstUpdateRun(Step(s, actions[0]), actions[1..]);
    }
  }

  /** The first update after connecting carries, for every configured name with an id of its own,
      the pending value if there is one and the configured initial value otherwise; later
      updates carry pending values only. */
  lemma FirstUpdateCoversConfig(config: seq<Metadata<Datapoint>>, actions: seq<Action>, i: nat, n: string)
    requires Runs(Init(config), actions)
    requires var log := Exec(Init(config), actions).log;
      i < |log| && log[i].UpdateCalled? && OwnId(n, log[i].batch, log[i].ids)
    ensures var log := Exec(Init(config), actions).log;
      var e := log[i];
      && (NoUpdateYet(log[..i]) ==>
            && (n in e.pending ==> Carries(e.request, e.ids, n, e.pending[n]))
            && (n !in e.pending ==> forall v :: ConfiguredInitial(config, n) == Some(v) ==>
                  Carries(e.request, e.ids, n, Item(v, Initial))))
      && (!NoUpdateYet(log[..i]) ==>
            forall v :: Carries(e.request, e.ids, n, v) <==> n in e.pending && e.pending[n] == v)
  {
    FirstUpdateRun(Init(config), actions);
    InitInv(config);
    RunKeeps(Init(config), actions);
    ConfigUnchanged(Init(config), actions);
    TagConfigInitial(config, n);
    var s := Exec(Init(config), actions);
    var e := s.log[i];
    assert GenuineEvent(s, e);
    assert BatchComplete(s.config, s.log[..i], e);
    InsertInitialAt(e.pending, s.config, n);
    forall v {
      RequestExact(e.request, e.batch, e.ids, n, v);
    }
  }
}
