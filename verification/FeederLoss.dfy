/** When a fed value is lost before shutdown, and that it is then lost for good. */
module FeederLoss {
  import opened Options
  import opened FeederBuffer
  import opened FeederProtocol
  import opened FeederDelivery
  import opened FeederRegistration

  // ----- an acknowledged value is never sent again

  /** After an acknowledged batch with feed `k` of `n`, no later batch has it. */
  ghost predicate OnceInLog(log: seq<Event>, n: string, k: nat) {
    forall i, j :: AckedAt(log, i) && i < j < |log| && log[j].UpdateCalled? && Holds(log[i].batch, n, k) ==>
      !Holds(log[j].batch, n, k)
  }

  /** Feed `k` of `n` is in at most one place: stored, in flight or in an acknowledged batch. */
  ghost predicate OnePlace(s: State, n: string, k: nat) {
    && (InFlight(s.pc) ==> !(Holds(s.batch, n, k) && Holds(s.stored, n, k)))
    && (Delivered(s.log, n, k) ==> !Holds(s.stored, n, k) && (InFlight(s.pc) ==> !Holds(s.batch, n, k)))
    && OnceInLog(s.log, n, k)
  }

  lemma AppendOther(log: seq<Event>, e: Event, n: string, k: nat)
    requires OnceInLog(log, n, k) && e != UpdateAcked
    requires e.UpdateCalled? && Delivered(log, n, k) ==> !Holds(e.batch, n, k)
    ensures OnceInLog(log + [e], n, k)
    ensures Delivered(log + [e], n, k) ==> Delivered(log, n, k)
  {
    var log' := log + [e];
    forall i | AckedAt(log', i) ensures AckedAt(log, i) && log'[i] == log[i] {
    }
    if Delivered(log', n, k) {
      var i :| AckedAt(log', i) && Holds(log'[i].batch, n, k);
      assert AckedAt(log, i);
    }
  }

  lemma AppendAck(log: seq<Event>, n: string, k: nat)
    requires OnceInLog(log, n, k) && log != [] && log[|log| - 1].UpdateCalled?
    ensures OnceInLog(log + [UpdateAcked], n, k)
    ensures Delivered(log + [UpdateAcked], n, k) ==> Delivered(log, n, k) || Holds(log[|log| - 1].batch, n, k)
  {
    var log' := log + [UpdateAcked];
    forall i | AckedAt(log', i) ensures log'[i] == log[i] && (i == |log| - 1 || AckedAt(log, i)) {
    }
    if Delivered(log', n, k) {
      var i :| AckedAt(log', i) && Holds(log'[i].batch, n, k);
      assert i == |log| - 1 || AckedAt(log, i);
    }
  }

  lemma AckKeepsPlace(s: State, n: string, k: nat)
    requires Inv(s) && OnePlace(s, n, k) && s.pc == AwaitUpdate
    ensures OnePlace(FeederStep(s, Go), n, k)
  {
    AppendAck(s.log, n, k);
  }

  lemma LoggedKeepsPlace(s: State, c: Choice, n: string, k: nat)
    requires OnePlace(s, n, k) && FeederEnabled(s, c)
    requires s.pc == Connect || s.pc == Register || s.pc == AwaitRegister || s.pc == Update
             || (s.pc == AwaitUpdate && c.Error?)
    ensures OnePlace(FeederStep(s, c), n, k)
  {
    var s' := FeederStep(s, c);
    AppendOther(s.log, s'.log[|s.log|], n, k);
  }

  lemma TakeKeepsPlace(s: State, n: string, k: nat)
    requires OnePlace(s, n, k) && InitialConfig(s) && s.pc == TakeBatch
    ensures OnePlace(FeederStep(s, Go), n, k)
  {
    InsertInitialAt(s.stored, s.config, n);
  }

  lemma LocalKeepsPlace(s: State, c: Choice, n: string, k: nat)
    requires OnePlace(s, n, k) && FeederEnabled(s, c) && s.pc != TakeBatch
    requires s.pc != Connect && s.pc != Register && s.pc != AwaitRegister && s.pc != Update && s.pc != AwaitUpdate
    ensures OnePlace(FeederStep(s, c), n, k)
  {
    assert FeederStep(s, c).log == s.log;
  }

  /** What is about to be fed is in no batch yet. */
  lemma NextFeedIsNew(s: State, n: string)
    requires Inv(s)
    ensures !Holds(s.batch, n, |s.feeds|) && !Delivered(s.log, n, |s.feeds|)
  {
    GenuineBehind(s, s.batch);
    forall i | AckedAt(s.log, i) ensures !Holds(s.log[i].batch, n, |s.feeds|) {
      assert GenuineEvent(s, s.log[i]);
      GenuineBehind(s, s.log[i].batch);
    }
  }

  lemma StoreKeepsPlace(s: State, values: map<string, Datapoint>, n: string, k: nat)
    requires Inv(s) && OnePlace(s, n, k) && s.producers > 0
    ensures OnePlace(Step(s, ProducerStore(values)), n, k)
  {
    NextFeedIsNew(s, n);
    StoreOnePlace(s, Step(s, ProducerStore(values)), values, n, k);
  }

  lemma StoreOnePlace(s: State, s': State, values: map<string, Datapoint>, n: string, k: nat)
    requires OnePlace(s, n, k) && !Holds(s.batch, n, |s.feeds|) && !Delivered(s.log, n, |s.feeds|)
    requires s'.log == s.log && s'.batch == s.batch && s'.pc == Notified(s.pc)
    requires s'.stored == s.stored + Tag(values, |s.feeds|)
    ensures OnePlace(s', n, k)
  {
    assert Holds(s'.stored, n, k) ==> k == |s.feeds| || Holds(s.stored, n, k);
  }

  lemma StepKeepsPlace(s: State, a: Action, n: string, k: nat)
    requires Inv(s) && OnePlace(s, n, k) && Enabled(s, a)
    ensures OnePlace(Step(s, a), n, k)
  {
    match a
    case Feeder(c) =>
      if s.pc == AwaitUpdate && c.Go? {
        AckKeepsPlace(s, n, k);
      } else if s.pc == Connect || s.pc == Register || s.pc == AwaitRegister || s.pc == Update || s.pc == AwaitUpdate {
        LoggedKeepsPlace(s, c, n, k);
      } else if s.pc == TakeBatch {
        TakeKeepsPlace(s, n, k);
      } else {
        LocalKeepsPlace(s, c, n, k);
      }
    case ProducerStore(values) => StoreKeepsPlace(s, values, n, k);
    case _ =>
  }

  lemma {:induction false} RunKeepsPlace(s: State, actions: seq<Action>, n: string, k: nat)
    requires Inv(s) && OnePlace(s, n, k) && Runs(s, actions)
    ensures OnePlace(Exec(s, actions), n, k)
    decreases |actions|
  {
    if actions != [] {
      StepKeeps(s, actions[0]);
      StepKeepsPlace(s, actions[0], n, k);
      RunKeepsPlace(Step(s, actions[0]), actions[1..], n, k);
    }
  }

  /** Once a batch with a fed value has been acknowledged, no later update has that value, whether
      or not the request carried it. */
  lemma AckedNeverSentAgain(config: seq<Metadata<Datapoint>>, actions: seq<Action>, n: string, k: nat, i: nat, j: nat)
    requires Runs(Init(config), actions)
    requires var log := Exec(Init(config), actions).log;
      AckedAt(log, i) && Holds(log[i].batch, n, k) && i < j < |log| && log[j].UpdateCalled?
    ensures !Holds(Exec(Init(config), actions).log[j].batch, n, k)
  {
    InitInv(config);
    RunKeepsPlace(Init(config), actions, n, k);
  }

  // ----- exactly when the newest value is lost

  /** The value is stored, on its way, or has arrived. */
  ghost predicate Kept(s: State, n: string, item: Item) {
    Has(s.stored, n, item) || (InFlight(s.pc) && Has(s.batch, n, item)) || Arrived(s.log, n, item)
  }

  lemma DroppedIsGone(s: State, n: string, k: nat, item: Item)
    requires OnePlace(s, n, k) && item.origin == Fed(k) && Dropped(s.log, n, item)
    ensures !Kept(s, n, item)
  {
    var i :| AckedAt(s.log, i) && Has(s.log[i].batch, n, item) && !Carries(s.log[i].request, s.log[i].ids, n, item);
    assert Holds(s.log[i].batch, n, k);
    forall j | AckedAt(s.log, j) && Has(s.log[j].batch, n, item) ensures j == i {
      assert Holds(s.log[j].batch, n, k);
    }
  }

  /** Until shutdown the newest value of a name is stored, in flight or has arrived, if and only if no
      acknowledged update had it in its batch without carrying it. */
  lemma NewestValueConserved(config: seq<Metadata<Datapoint>>, actions: seq<Action>, n: string, k: nat)
    requires Runs(Init(config), actions)
    requires var s := Exec(Init(config), actions); s.active && Newest(s.feeds, n, k)
    ensures var s := Exec(Init(config), actions);
      var item := Item(s.feeds[k][n], Fed(k));
      Kept(s, n, item) <==> !Dropped(s.log, n, item)
  {
    NewestIsSomewhere(config, actions, n, k);
    InitInv(config);
    RunKeepsPlace(Init(config), actions, n, k);
    var s := Exec(Init(config), actions);
    var item := Item(s.feeds[k][n], Fed(k));
    if Dropped(s.log, n, item) {
      DroppedIsGone(s, n, k, item);
    }
  }

  lemma {:induction false} LogGrows(s: State, actions: seq<Action>)
    requires Runs(s, actions)
    ensures s.log <= Exec(s, actions).log
    decreases |actions|
  {
    if actions != [] {
      LogGrows(Step(s, actions[0]), actions[1..]);
    }
  }

  /** A value that was dropped is lost for good: whatever happens afterwards, shutdown included, it is
      never again stored, in flight or delivered. */
  lemma LostForGood(config: seq<Metadata<Datapoint>>, actions: seq<Action>, more: seq<Action>, n: string, k: nat,
                    item: Item)
    requires Runs(Init(config), actions) && Runs(Exec(Init(config), actions), more)
    requires item.origin == Fed(k) && Dropped(Exec(Init(config), actions).log, n, item)
    ensures !Kept(Exec(Exec(Init(config), actions), more), n, item)
  {
    InitInv(config);
    var s := Exec(Init(config), actions);
    RunKeeps(Init(config), actions);
    RunKeepsPlace(Init(config), actions, n, k);
    RunKeepsPlace(s, more, n, k);
    LogGrows(s, more);
    var t := Exec(s, more);
    var i :| AckedAt(s.log, i) && Has(s.log[i].batch, n, item) && !Carries(s.log[i].request, s.log[i].ids, n, item);
    assert AckedAt(t.log, i) && Has(t.log[i].batch, n, item) && !Carries(t.log[i].request, t.log[i].ids, n, item);
    DroppedIsGone(t, n, k, item);
  }

  // ----- a condition that rules loss out

  /** A reply that gives `n` an id of its own. */
  ghost predicate OwnReply(ids: map<string, int>, n: string) {
    n in ids && forall m :: m in ids && ids[m] == ids[n] ==> m == n
  }

  /** Every registration that succeeds gives `n` an id of its own. */
  ghost predicate RepliesOwn(actions: seq<Action>, n: string) {
    forall i :: 0 <= i < |actions| && actions[i].Feeder? && actions[i].choice.Reply? ==>
      OwnReply(actions[i].choice.ids, n)
  }

  /** About to look at the flags of the feed loop, and not going to leave because of shutdown. */
  predicate AtFeedLoop(s: State) {
    (s.pc == FeedCheckActive && s.active) || s.pc == FeedCheckConnected
  }

  /** The subscriber raises the flag at the feed loop while the feeder has no id for `n`. */
  predicate RaisedNameless(s: State, a: Action, n: string) {
    AtFeedLoop(s) && n !in s.ids && a == Subscriber(true)
  }

  ghost predicate RaisesNameless(s: State, actions: seq<Action>, n: string)
    requires Runs(s, actions)
    decreases |actions|
  {
    actions != [] && (RaisedNameless(s, actions[0], n) || RaisesNameless(Step(s, actions[0]), actions[1..], n))
  }

  ghost predicate AddressInv(s: State, n: string) {
    && (s.ids == map[] || OwnReply(s.ids, n))
    && (AtFeedLoop(s) && s.connected ==> n in s.ids)
    && (Sending(s.pc) ==> n in s.ids)
    && (forall i :: 0 <= i < |s.log| && s.log[i].UpdateCalled? ==> OwnReply(s.log[i].ids, n))
  }

  lemma AddressLogged(s: State, c: Choice, n: string)
    requires AddressInv(s, n) && FeederEnabled(s, c) && (c.Reply? ==> OwnReply(c.ids, n))
    requires s.pc == Connect || s.pc == Register || s.pc == AwaitRegister || s.pc == Update || s.pc == AwaitUpdate
    ensures AddressInv(FeederStep(s, c), n)
  {
    var log' := FeederStep(s, c).log;
    assert log' == s.log + [log'[|s.log|]];
    assert log'[|s.log|].UpdateCalled? ==> OwnReply(log'[|s.log|].ids, n);
  }

  lemma AddressLocal(s: State, c: Choice, n: string)
    requires AddressInv(s, n) && FeederEnabled(s, c)
    requires s.pc != Connect && s.pc != Register && s.pc != AwaitRegister && s.pc != Update && s.pc != AwaitUpdate
    ensures AddressInv(FeederStep(s, c), n)
  {
    assert FeederStep(s, c).log == s.log && FeederStep(s, c).ids == s.ids;
  }

  lemma AddressKept(s: State, a: Action, n: string)
    requires AddressInv(s, n) && Enabled(s, a) && !RaisedNameless(s, a, n)
    requires a.Feeder? && a.choice.Reply? ==> OwnReply(a.choice.ids, n)
    ensures AddressInv(Step(s, a), n)
  {
    match a
    case Feeder(c) =>
      if s.pc == Connect || s.pc == Register || s.pc == AwaitRegister || s.pc == Update || s.pc == AwaitUpdate {
        AddressLogged(s, c, n);
      } else {
        AddressLocal(s, c, n);
      }
    case _ =>
  }

  lemma {:induction false} AddressRun(s: State, actions: seq<Action>, n: string)
    requires AddressInv(s, n) && Runs(s, actions) && RepliesOwn(actions, n) && !RaisesNameless(s, actions, n)
    ensures AddressInv(Exec(s, actions), n)
    decreases |actions|
  {
    if actions != [] {
      AddressKept(s, actions[0], n);
      assert forall i :: 0 <= i < |actions| - 1 ==> actions[1..][i] == actions[i + 1];
      AddressRun(Step(s, actions[0]), actions[1..], n);
    }
  }

  /** If every registration gives `n` an id of its own, and the subscriber does not raise the flag at the
      feed loop while there is none yet, the newest value of `n` is never lost before shutdown. */
  lemma NeverLost(config: seq<Metadata<Datapoint>>, actions: seq<Action>, n: string, k: nat)
    requires Runs(Init(config), actions) && RepliesOwn(actions, n) && !RaisesNameless(Init(config), actions, n)
    requires var s := Exec(Init(config), actions); s.active && Newest(s.feeds, n, k)
    ensures var s := Exec(Init(config), actions); Kept(s, n, Item(s.feeds[k][n], Fed(k)))
  {
    AddressRun(Init(config), actions, n);
    AddressedValueConserved(config, actions, n, k);
  }

  // ----- and both parts of it are needed

  /** Some request that can be built from the batch does not carry the value of `n`. */
  ghost predicate CanMiss(batch: Values, ids: map<string, int>, n: string)
    requires n in batch
  {
    exists request :: IsRequest(request, batch, ids) && !Carries(request, ids, n, batch[n])
  }

  /** Exactly if the name has no id, or shares one with a name of the batch that has another value. */
  lemma CanMissIff(batch: Values, ids: map<string, int>, n: string)
    requires n in batch
    ensures CanMiss(batch, ids, n) <==>
      n !in ids || exists m :: Known(m, batch, ids) && ids[m] == ids[n] && batch[m] != batch[n]
  {
    var some := SomeRequest(batch, ids);
    if n !in ids {
      assert IsRequest(some, batch, ids) && !Carries(some, ids, n, batch[n]);
    } else if m :| Known(m, batch, ids) && ids[m] == ids[n] && batch[m] != batch[n] {
      RequestWith(some, batch, ids, m);
      assert !Carries(some[ids[m] := batch[m]], ids, n, batch[n]);
    } else {
      forall request | IsRequest(request, batch, ids) ensures Carries(request, ids, n, batch[n]) {
        assert Known(n, batch, ids) && ids[n] in request;
      }
    }
  }

  lemma RequestWith(request: map<int, Item>, batch: Values, ids: map<string, int>, m: string)
    requires IsRequest(request, batch, ids) && Known(m, batch, ids)
    ensures IsRequest(request[ids[m] := batch[m]], batch, ids)
  {
    var request' := request[ids[m] := batch[m]];
    forall id | id in request' ensures exists n :: Known(n, batch, ids) && ids[n] == id && request'[id] == batch[n] {
      if id == ids[m] {
        assert Known(m, batch, ids);
      } else {
        assert id in request;
      }
    }
  }

  /** From the feed loop, a stored value whose request can miss it can be acknowledged away. */
  ghost predicate CanBeDropped(s: State, n: string, item: Item) {
    exists t :: Reaches(s, t) && t.active && t.feeds == s.feeds && Dropped(t.log, n, item)
  }

  lemma UpdateDrops(s: State, request: map<int, Item>, n: string, item: Item)
    requires s.pc == Update && s.active && Has(s.batch, n, item)
    requires IsRequest(request, s.batch, s.ids) && !Carries(request, s.ids, n, item)
    ensures CanBeDropped(s, n, item)
  {
    ReachesSelf(s);
    ReachesNext(s, s, Feeder(Build(request)));
    var s1 := FeederStep(s, Build(request));
    ReachesNext(s, s1, Feeder(Go));
    var t := FeederStep(s1, Go);
    AckDrops(s.log, UpdateCalled(s.ids, s.pending, s.batch, request), n, item);
    assert t.log == s.log + [UpdateCalled(s.ids, s.pending, s.batch, request)] + [UpdateAcked];
  }

  lemma AckDrops(log: seq<Event>, e: Event, n: string, item: Item)
    requires e.UpdateCalled? && Has(e.batch, n, item) && !Carries(e.request, e.ids, n, item)
    ensures Dropped(log + [e] + [UpdateAcked], n, item)
  {
    assert AckedAt(log + [e] + [UpdateAcked], |log|);
  }

  lemma FeedLoopDrops(s: State, n: string, item: Item)
    requires AtFeedLoop(s) && s.active && s.connected && Has(s.stored, n, item)
    requires n in BatchTaken(s).batch && CanMiss(BatchTaken(s).batch, s.ids, n)
    ensures CanBeDropped(s, n, item)
  {
    FeedLoopTakesBatch(s);
    InsertInitialAt(s.stored, s.config, n);
    var s1 := BatchTaken(s);
    var request :| IsRequest(request, s1.batch, s1.ids) && !Carries(request, s1.ids, n, s1.batch[n]);
    UpdateDrops(s1, request, n, item);
    var t :| Reaches(s1, t) && t.active && t.feeds == s1.feeds && Dropped(t.log, n, item);
    ReachesThen(s, s1, t);
  }

  lemma BatchHasStored(s: State, n: string)
    requires n in s.stored
    ensures n in BatchTaken(s).batch && BatchTaken(s).batch[n] == s.stored[n]
  {
    InsertInitialAt(s.stored, s.config, n);
  }

  /** Wherever the subscriber raises the flag at the feed loop while the feeder has no id for `n`, a
      value stored for it can be lost. */
  lemma RaiseInGapLosesValues(s: State, n: string, item: Item)
    requires RaisedNameless(s, Subscriber(true), n) && s.active && Has(s.stored, n, item)
    ensures CanBeDropped(Step(s, Subscriber(true)), n, item)
  {
    var s' := s.(connected := true);
    BatchHasStored(s', n);
    CanMissIff(BatchTaken(s').batch, s'.ids, n);
    FeedLoopDrops(s', n, item);
  }

  /** Whenever a registration gives `n` no id, or one shared with another stored name of another
      value, a value stored for it can be lost. */
  lemma ReplyLosesValues(s: State, ids: map<string, int>, n: string, item: Item)
    requires s.pc == AwaitRegister && s.active && s.connected && Has(s.stored, n, item)
    requires n !in ids || exists m :: Known(m, s.stored, ids) && ids[m] == ids[n] && s.stored[m] != item
    ensures CanBeDropped(Step(s, Feeder(Reply(ids))), n, item)
  {
    var s' := Step(s, Feeder(Reply(ids)));
    BatchHasStored(s', n);
    if n in ids {
      var m :| Known(m, s.stored, ids) && ids[m] == ids[n] && s.stored[m] != item;
      BatchHasStored(s', m);
      assert Known(m, BatchTaken(s').batch, ids);
    }
    CanMissIff(BatchTaken(s').batch, ids, n);
    FeedLoopDrops(s', n, item);
  }

  // ----- a run from the start

  /** A value is fed while the feeder is still connecting. */
  lemma FeedWhileConnecting(config: seq<Metadata<Datapoint>>, values: map<string, Datapoint>)
    ensures Reaches(Init(config), Init(config).(pc := Connect, stored := Tag(values, 0), feeds := [values]))
  {
    var s0 := Init(config);
    ReachesSelf(s0);
    ReachesNext(s0, s0, Feeder(Go));
    var s1 := s0.(pc := Connect);
    ReachesNext(s0, s1, ProducerCheck);
    var s2 := s1.(producers := 1);
    ReachesNext(s0, s2, ProducerStore(values));
    assert map[] + Tag(values, 0) == Tag(values, 0);
  }

  /** The channel does not come up in time, so registration is skipped. */
  lemma SkipRegistration(s: State)
    requires s.pc == Connect && s.active
    ensures Reaches(s, s.(pc := FeedCheckActive, connected := false, alsoInitial := true,
                          log := s.log + [Connecting(false)]))
  {
    ReachesSelf(s);
    ReachesNext(s, s, Feeder(Channel(false)));
    var s1 := FeederStep(s, Channel(false));
    ReachesNext(s, s1, Feeder(Go));
    var s2 := s1.(pc := RegisterCheckConnected);
    assert FeederStep(s1, Go) == s2;
    ReachesNext(s, s2, Feeder(Go));
  }

  /** The gap with a stored value and no ids is reached right after start-up. */
  lemma GapReachedAtStart(config: seq<Metadata<Datapoint>>, values: map<string, Datapoint>)
    ensures exists s ::
      && Reaches(Init(config), s) && InGap(s) && AtFeedLoop(s) && s.active && s.ids == map[]
      && s.feeds == [values] && s.stored == Tag(values, 0)
  {
    FeedWhileConnecting(config, values);
    var s1 := Init(config).(pc := Connect, stored := Tag(values, 0), feeds := [values]);
    SkipRegistration(s1);
    var s2 := s1.(pc := FeedCheckActive, connected := false, alsoInitial := true, log := s1.log + [Connecting(false)]);
    ReachesThen(Init(config), s1, s2);
    assert s2.log == [Connecting(false)] && InGap(s2);
  }

  /** So with the shared flag a fed value of a configured datapoint can be lost before shutdown. */
  lemma SharedFlagLosesValue(config: seq<Metadata<Datapoint>>, n: string, v: Datapoint)
    ensures exists t ::
      && Reaches(Init(config), t) && t.active && Newest(t.feeds, n, 0) && t.feeds[0][n] == v
      && Dropped(t.log, n, Item(v, Fed(0)))
  {
    GapReachedAtStart(config, map[n := v]);
    var s :|
      && Reaches(Init(config), s) && InGap(s) && AtFeedLoop(s) && s.active && s.ids == map[]
      && s.feeds == [map[n := v]] && s.stored == Tag(map[n := v], 0);
    RaiseInGapLosesValues(s, n, Item(v, Fed(0)));
    var s' := Step(s, Subscriber(true));
    var t :| Reaches(s', t) && t.active && t.feeds == s'.feeds && Dropped(t.log, n, Item(v, Fed(0)));
    ReachesNext(Init(config), s, Subscriber(true));
    ReachesThen(Init(config), s', t);
  }
}
