/** The broker feeder as a protocol between its own thread, any number of producers, any
    number of `Shutdown` callers, and the subscriber that shares the collector client.

    One action is one critical section, one read of an unlocked flag, or one half of a
    remote call. Every outcome the environment decides is a parameter of the action. */
module FeederProtocol {
  import opened Options
  import opened FeederBuffer

  /** A protobuf datapoint, by its serialized form. */
  type Datapoint = seq<bv8>

  /** Where a value came from: the configuration, or the producers' `index`-th feed. */
  datatype Origin = Initial | Fed(index: nat)

  datatype Item = Item(value: Datapoint, origin: Origin)

  type Values = map<string, Item>

  /** Where the feeder thread stands in `Run`. */
  datatype Pc =
    | LoopTop                // reads feeder_active_ of the outer loop
    | Connect                // in WaitForConnected
    | RegisterCheckActive    // the two reads before registration
    | RegisterCheckConnected
    | Register               // about to call RegisterDatapoints
    | AwaitRegister
    | FeedCheckActive        // the two reads of the inner loop
    | FeedCheckConnected
    | TakeBatch              // about to swap out the stored values
    | Update                 // about to call UpdateDatapoints
    | AwaitUpdate
    | Restore                // about to put a failed batch back
    | WaitCheckActive        // the two reads before waiting
    | WaitCheckConnected
    | WaitLock               // about to lock and look whether anything is stored
    | Waiting(notified: bool)
    | Exited

  /** What the feeder thread did towards the broker, in order. */
  datatype Event =
    | Connecting(up: bool)
    | RegisterCalled
    | Registered
    | RegisterFailed
    | UpdateCalled(ids: map<string, int>, pending: Values, batch: Values, request: map<int, Item>)
    | UpdateAcked
    | UpdateFailed(applied: bool)

  datatype State = State(
    config: seq<Metadata<Item>>,
    active: bool,                            // feeder_active_
    connected: bool,                         // connected_ of the shared client
    stored: Values,                          // stored_values_
    ids: map<string, int>,                   // id_map_
    pc: Pc,
    alsoInitial: bool,                       // also_feed_initial_values
    pending: Values,                         // what the last swap took out
    batch: Values,                           // values_to_feed
    producers: nat,                          // feeds past their check of feeder_active_
    stoppers: nat,                           // shutdowns past their check of feeder_active_
    notifiers: nat,                          // shutdowns that still have to notify
    feeds: seq<map<string, Datapoint>>,      // history: what the producers stored
    log: seq<Event>)                         // history: the broker traffic

  datatype Choice =
    | Go                                     // nothing to decide
    | Spurious                               // the wait ends without a notification
    | Channel(up: bool)                      // result of waiting for the channel
    | Reply(ids: map<string, int>)           // a call succeeds
    | Error(applied: bool)                   // a call fails, maybe after taking effect
    | Build(request: map<int, Item>)         // the request built from the batch

  datatype Action =
    | Feeder(choice: Choice)
    | ProducerCheck
    | ProducerStore(values: map<string, Datapoint>)
    | StopperCheck
    | StopperClear
    | StopperNotify
    | Subscriber(connected: bool)            // the other user of the client writes connected_

  function TagConfig(config: seq<Metadata<Datapoint>>): seq<Metadata<Item>> {
    seq(|config|, i requires 0 <= i < |config| =>
      Metadata(config[i].name, Item(config[i].initialValue, Initial)))
  }

  function Init(config: seq<Metadata<Datapoint>>): State {
    State(TagConfig(config), true, false, map[], map[], LoopTop, true, map[], map[], 0, 0, 0, [], [])
  }

  function Tag(values: map<string, Datapoint>, index: nat): Values {
    map n | n in values :: Item(values[n], Fed(index))
  }

  function Notified(pc: Pc): Pc {
    if pc.Waiting? then Waiting(true) else pc
  }

  // ----- the steps

  ghost predicate FeederEnabled(s: State, c: Choice) {
    match s.pc
    case Connect => c.Channel?
    case AwaitRegister => c.Reply? || c.Error?
    case Update => c.Build? && IsRequest(c.request, s.batch, s.ids)
    case AwaitUpdate => c.Go? || c.Error?
    case Waiting(notified) => if notified then c.Go? else c.Spurious?
    case Exited => false
    case _ => c.Go?
  }

  function NextPc(s: State, c: Choice): Pc {
    match s.pc
    case LoopTop => if s.active then Connect else Exited
    case Connect => RegisterCheckActive
    case RegisterCheckActive => if s.active then RegisterCheckConnected else FeedCheckActive
    case RegisterCheckConnected => if s.connected then Register else FeedCheckActive
    case Register => AwaitRegister
    case AwaitRegister => if c.Reply? then FeedCheckActive else LoopTop
    case FeedCheckActive => if s.active then FeedCheckConnected else LoopTop
    case FeedCheckConnected => if s.connected then TakeBatch else LoopTop
    case TakeBatch => Update
    case Update => AwaitUpdate
    case AwaitUpdate => if c.Go? then WaitCheckActive else Restore
    case Restore => WaitCheckActive
    case WaitCheckActive => if s.active then WaitCheckConnected else FeedCheckActive
    case WaitCheckConnected => if s.connected then WaitLock else FeedCheckActive
    case WaitLock => if s.stored == map[] then Waiting(false) else FeedCheckActive
    case Waiting(_) => FeedCheckActive
    case Exited => Exited
  }

  /** The wait for the channel sets the flag, any failed call clears it. */
  function NextConnected(s: State, c: Choice): bool {
    if c.Channel? then c.up else s.connected && !c.Error?
  }

  function NextStored(s: State): Values {
    if s.pc == TakeBatch then map[] else if s.pc == Restore then s.batch + s.stored else s.stored
  }

  function NextBatch(s: State): Values {
    if s.pc != TakeBatch then s.batch
    else if s.alsoInitial then InsertInitial(s.stored, s.config)
    else s.stored
  }

  /** The feed loop is entered with initial values due; each round through it feeds them. */
  function NextAlsoInitial(s: State, c: Choice): bool {
    if s.pc == Connect then true else s.alsoInitial && !(s.pc == Restore || (s.pc == AwaitUpdate && c.Go?))
  }

  function NextLog(s: State, c: Choice): seq<Event> {
    match s.pc
    case Connect => if c.Channel? then s.log + [Connecting(c.up)] else s.log
    case Register => s.log + [RegisterCalled]
    case AwaitRegister => s.log + [if c.Reply? then Registered else RegisterFailed]
    case Update => if c.Build? then s.log + [UpdateCalled(s.ids, s.pending, s.batch, c.request)] else s.log
    case AwaitUpdate => s.log + [if c.Error? then UpdateFailed(c.applied) else UpdateAcked]
    case _ => s.log
  }

  function FeederStep(s: State, c: Choice): State
    requires FeederEnabled(s, c)
  {
    s.(pc := NextPc(s, c),
       connected := NextConnected(s, c),
       stored := NextStored(s),
       ids := if c.Reply? then c.ids else s.ids,
       alsoInitial := NextAlsoInitial(s, c),
       pending := if s.pc == TakeBatch then s.stored else s.pending,
       batch := NextBatch(s),
       log := NextLog(s, c))
  }

  ghost predicate Enabled(s: State, a: Action) {
    match a
    case Feeder(c) => FeederEnabled(s, c)
    case ProducerCheck => s.active
    case ProducerStore(_) => s.producers > 0
    case StopperCheck => s.active
    case StopperClear => s.stoppers > 0
    case StopperNotify => s.notifiers > 0
    case Subscriber(_) => true
  }

  function Step(s: State, a: Action): State
    requires Enabled(s, a)
  {
    match a
    case Feeder(c) => FeederStep(s, c)
    case ProducerCheck => s.(producers := s.producers + 1)
    case ProducerStore(values) =>
      s.(producers := s.producers - 1,
         stored := s.stored + Tag(values, |s.feeds|),
         feeds := s.feeds + [values],
         pc := Notified(s.pc))
    case StopperCheck => s.(stoppers := s.stoppers + 1)
    case StopperClear =>
      s.(stoppers := s.stoppers - 1, notifiers := s.notifiers + 1, stored := map[], active := false)
    case StopperNotify => s.(notifiers := s.notifiers - 1, pc := Notified(s.pc))
    case Subscriber(up) => s.(connected := up)
  }

  ghost predicate Runs(s: State, actions: seq<Action>)
    decreases |actions|
  {
    actions != [] ==> Enabled(s, actions[0]) && Runs(Step(s, actions[0]), actions[1..])
  }

  function Exec(s: State, actions: seq<Action>): State
    requires Runs(s, actions)
    decreases |actions|
  {
    if actions == [] then s else Exec(Step(s, actions[0]), actions[1..])
  }

  /** The steps of `actions` followed by those of `more`. */
  lemma {:induction false} RunsThen(s: State, actions: seq<Action>, more: seq<Action>)
    requires Runs(s, actions) && Runs(Exec(s, actions), more)
    ensures Runs(s, actions + more) && Exec(s, actions + more) == Exec(Exec(s, actions), more)
    decreases |actions|
  {
    if actions == [] {
      assert actions + more == more;
    } else {
      RunsThen(Step(s, actions[0]), actions[1..], more);
      assert (actions + more)[1..] == actions[1..] + more;
    }
  }

  /** Some run leads from `s` to `t`. */
  ghost predicate Reaches(s: State, t: State) {
    exists actions :: Runs(s, actions) && Exec(s, actions) == t
  }

  lemma ReachesSelf(s: State)
    ensures Reaches(s, s)
  {
    assert Runs(s, []) && Exec(s, []) == s;
  }

  lemma ReachesNext(s: State, t: State, a: Action)
    requires Reaches(s, t) && Enabled(t, a)
    ensures Reaches(s, Step(t, a))
  {
    var actions :| Runs(s, actions) && Exec(s, actions) == t;
    assert Runs(Step(t, a), []);
    RunsThen(s, actions, [a]);
  }

  lemma ReachesThen(s: State, t: State, u: State)
    requires Reaches(s, t) && Reaches(t, u)
    ensures Reaches(s, u)
  {
    var first :| Runs(s, first) && Exec(s, first) == t;
    var second :| Runs(t, second) && Exec(t, second) == u;
    RunsThen(s, first, second);
  }

  // ----- vocabulary of the properties

  /** `k` is the newest feed that has a value for `n`. */
  ghost predicate Newest(feeds: seq<map<string, Datapoint>>, n: string, k: nat) {
    k < |feeds| && n in feeds[k] && forall j :: k < j < |feeds| ==> n !in feeds[j]
  }

  ghost predicate Holds(values: Values, n: string, k: nat) {
    n in values && values[n].origin == Fed(k)
  }

  /** The batch has been taken out and its fate is not decided yet. */
  predicate InFlight(pc: Pc) {
    pc == Update || pc == AwaitUpdate || pc == Restore
  }

  /** `log[i]` is an update that the broker acknowledged. */
  ghost predicate AckedAt(log: seq<Event>, i: int) {
    0 <= i && i + 1 < |log| && log[i].UpdateCalled? && log[i + 1] == UpdateAcked
  }

  /** An acknowledged update was made from a batch holding feed `k` of `n`. */
  ghost predicate Delivered(log: seq<Event>, n: string, k: nat) {
    exists i :: AckedAt(log, i) && Holds(log[i].batch, n, k)
  }

  /** The item is what a producer fed, or the configured initial value. */
  ghost predicate Genuine(s: State, n: string, item: Item) {
    match item.origin
    case Initial => ConfiguredInitial(s.config, n) == Some(item)
    case Fed(k) => k < |s.feeds| && n in s.feeds[k] && s.feeds[k][n] == item.value
  }

  ghost predicate AllGenuine(s: State, values: Values) {
    forall n :: n in values ==> Genuine(s, n, values[n])
  }

  /** Wherever both hold a fed value of a name, `older` is not ahead of `newer`. */
  ghost predicate NotAhead(older: Values, newer: Values) {
    forall n, j, k :: Holds(older, n, j) && Holds(newer, n, k) ==> j <= k
  }

  /** A registration succeeded since the last time the feeder connected. */
  predicate RegisteredNow(log: seq<Event>) {
    log != [] &&
    (log[|log| - 1] == Registered || (!log[|log| - 1].Connecting? && RegisteredNow(log[..|log| - 1])))
  }

  /** No update was sent since the last time the feeder connected. */
  predicate NoUpdateYet(log: seq<Event>) {
    log == [] || log[|log| - 1].Connecting? ||
    (!log[|log| - 1].UpdateCalled? && NoUpdateYet(log[..|log| - 1]))
  }

  /** Only the feeder's own wait raises the connection flag. */
  predicate FeederRaisesOnly(actions: seq<Action>) {
    forall i :: 0 <= i < |actions| ==> actions[i] != Subscriber(true)
  }

  // ----- invariants

  /** A sent update was built from genuine values. */
  ghost predicate GenuineEvent(s: State, e: Event) {
    e.UpdateCalled? ==>
      AllGenuine(s, e.batch) && AllGenuine(s, e.pending) && IsRequest(e.request, e.batch, e.ids)
  }

  /** History and batch agree. */
  ghost predicate Consistent(s: State) {
    && (InFlight(s.pc) ==> forall n :: n in s.stored ==> s.stored[n].origin.Fed?)
    && (s.pc == AwaitUpdate ==>
          s.log != [] && s.log[|s.log| - 1].UpdateCalled? && s.log[|s.log| - 1].batch == s.batch)
    && AllGenuine(s, s.stored) && AllGenuine(s, s.batch) && AllGenuine(s, s.pending)
    && (forall i :: 0 <= i < |s.log| ==> GenuineEvent(s, s.log[i]))
  }

  /** A waiting feeder that nobody has notified has nothing to send. */
  predicate NoLostWakeup(s: State) {
    s.pc == Waiting(false) ==> s.stored == map[]
  }

  /** Until shutdown no newest value is anywhere but stored, in flight or acknowledged. */
  ghost predicate Conserved(s: State) {
    s.active ==>
      && (forall n, k :: Holds(s.stored, n, k) ==> Newest(s.feeds, n, k))
      && (InFlight(s.pc) ==> forall n, k :: Holds(s.batch, n, k) && n !in s.stored ==> Newest(s.feeds, n, k))
      && (forall n, k :: Newest(s.feeds, n, k) ==>
            Holds(s.stored, n, k) || (InFlight(s.pc) && Holds(s.batch, n, k)) || Delivered(s.log, n, k))
  }

  /** Everything sent is behind everything that may still be sent, and in order. */
  ghost predicate Ordered(s: State) {
    && (InFlight(s.pc) ==> NotAhead(s.batch, s.stored))
    && (forall i :: 0 <= i < |s.log| && s.log[i].UpdateCalled? ==>
          && NotAhead(s.log[i].batch, s.stored)
          && (InFlight(s.pc) ==> NotAhead(s.log[i].batch, s.batch)))
    && (forall i, j :: 0 <= i < j < |s.log| && s.log[i].UpdateCalled? && s.log[j].UpdateCalled? ==>
          NotAhead(s.log[i].batch, s.log[j].batch))
  }

  // ----- each invariant is kept by each step

  lemma GenuineLater(s: State, s': State, values: Values)
    requires AllGenuine(s, values) && s'.config == s.config && s.feeds <= s'.feeds
    ensures AllGenuine(s', values)
  {
    forall n | n in values ensures Genuine(s', n, values[n]) {
      assert Genuine(s, n, values[n]);
    }
  }

  lemma AllGenuineLater(s: State, s': State)
    requires Consistent(s) && s'.config == s.config && s.feeds <= s'.feeds
    ensures AllGenuine(s', s.stored) && AllGenuine(s', s.batch) && AllGenuine(s', s.pending)
    ensures forall i :: 0 <= i < |s.log| ==> GenuineEvent(s', s.log[i])
  {
    GenuineLater(s, s', s.stored);
    GenuineLater(s, s', s.batch);
    GenuineLater(s, s', s.pending);
    forall i | 0 <= i < |s.log| ensures GenuineEvent(s', s.log[i]) {
      assert GenuineEvent(s, s.log[i]);
      if s.log[i].UpdateCalled? {
        GenuineLater(s, s', s.log[i].batch);
        GenuineLater(s, s', s.log[i].pending);
      }
    }
  }

  /** Configured values are tagged as such. */
  ghost predicate InitialConfig(s: State) {
    forall n :: ConfiguredInitial(s.config, n).Some? ==> ConfiguredInitial(s.config, n).value.origin == Initial
  }

  lemma InsertInitialGenuine(s: State)
    requires AllGenuine(s, s.stored) && InitialConfig(s)
    ensures AllGenuine(s, InsertInitial(s.stored, s.config))
  {
    var r := InsertInitial(s.stored, s.config);
    forall n | n in r ensures Genuine(s, n, r[n]) {
      InsertInitialAt(s.stored, s.config, n);
    }
  }

  lemma {:induction false} TagConfigInitial(config: seq<Metadata<Datapoint>>, n: string)
    ensures var r := ConfiguredInitial(TagConfig(config), n);
            r == match ConfiguredInitial(config, n) case None => None case Some(v) => Some(Item(v, Initial))
    decreases |config|
  {
    if config != [] {
      assert TagConfig(config)[1..] == TagConfig(config[1..]);
      TagConfigInitial(config[1..], n);
    }
  }

  /** The step neither moves values nor decides about a batch. */
  ghost predicate Quiet(s: State, s': State) {
    && s'.config == s.config && s'.stored == s.stored && s'.batch == s.batch && s'.pending == s.pending
    && s'.feeds == s.feeds && s'.active == s.active
    && !InFlight(s'.pc) && !InFlight(s.pc)
    && (s'.pc == Waiting(false) ==> s.pc == Waiting(false) || s.stored == map[])
    && (s'.log == s.log || (|s'.log| == |s.log| + 1 && s.log <= s'.log && !s'.log[|s.log|].UpdateCalled?))
  }

  /** The step only touches flags and counters. */
  ghost predicate FlagsOnly(s: State, s': State) {
    s' == s.(pc := s'.pc, connected := s'.connected, producers := s'.producers, stoppers := s'.stoppers,
             notifiers := s'.notifiers)
    && (s'.pc == s.pc || s'.pc == Notified(s.pc))
  }

  lemma FeederStepQuiet(s: State, c: Choice)
    requires FeederEnabled(s, c) && s.pc != TakeBatch && !InFlight(s.pc)
    ensures Quiet(s, FeederStep(s, c))
  {
  }

  ghost predicate Inv(s: State) {
    InitialConfig(s) && Consistent(s) && NoLostWakeup(s) && Conserved(s) && Ordered(s)
  }

  lemma DeliveredLater(log: seq<Event>, log': seq<Event>, n: string, k: nat)
    requires log <= log' && Delivered(log, n, k)
    ensures Delivered(log', n, k)
  {
    var i :| AckedAt(log, i) && Holds(log[i].batch, n, k);
    assert AckedAt(log', i) && Holds(log'[i].batch, n, k);
  }

  lemma DeliveredAllLater(log: seq<Event>, log': seq<Event>)
    requires log <= log'
    ensures forall n, k :: Delivered(log, n, k) ==> Delivered(log', n, k)
  {
    forall n, k | Delivered(log, n, k) ensures Delivered(log', n, k) {
      DeliveredLater(log, log', n, k);
    }
  }

  lemma QuietKeepsConserved(s: State, s': State)
    requires Conserved(s) && (Quiet(s, s') || FlagsOnly(s, s'))
    ensures Conserved(s')
  {
    DeliveredAllLater(s.log, s'.log);
  }

  lemma QuietKeepsOrdered(s: State, s': State)
    requires Ordered(s) && (Quiet(s, s') || FlagsOnly(s, s'))
    ensures Ordered(s')
  {
    assert forall i :: 0 <= i < |s'.log| && s'.log[i].UpdateCalled? ==> i < |s.log| && s'.log[i] == s.log[i];
  }

  lemma QuietKeeps(s: State, s': State)
    requires Inv(s) && (Quiet(s, s') || FlagsOnly(s, s'))
    ensures Inv(s')
  {
    QuietKeepsConserved(s, s');
    QuietKeepsOrdered(s, s');
    AllGenuineLater(s, s');
    assert forall i :: 0 <= i < |s'.log| && s'.log[i].UpdateCalled? ==> i < |s.log| && s'.log[i] == s.log[i];
  }

  /** The store after a feed holds the new values and the untouched old ones. */
  lemma StoredAfterFeed(s: State, values: map<string, Datapoint>)
    ensures var stored := s.stored + Tag(values, |s.feeds|);
      forall n, k: nat :: Holds(stored, n, k) <==>
        if n in values then k == |s.feeds| else Holds(s.stored, n, k)
  {
  }

  lemma NewestAfterFeed(feeds: seq<map<string, Datapoint>>, values: map<string, Datapoint>, n: string, k: nat)
    ensures Newest(feeds + [values], n, k) <==> if n in values then k == |feeds| else Newest(feeds, n, k)
  {
    var feeds' := feeds + [values];
    assert feeds'[|feeds|] == values;
    assert forall j :: 0 <= j < |feeds| ==> feeds'[j] == feeds[j];
  }

  lemma ProducerStoreConserves(s: State, values: map<string, Datapoint>)
    requires Inv(s) && s.producers > 0
    ensures Conserved(Step(s, ProducerStore(values)))
  {
    var s' := Step(s, ProducerStore(values));
    StoredAfterFeed(s, values);
    forall n, k: nat
      ensures Newest(s'.feeds, n, k) <==> if n in values then k == |s.feeds| else Newest(s.feeds, n, k)
    {
      NewestAfterFeed(s.feeds, values, n, k);
    }
  }

  lemma ProducerStoreOrders(s: State, values: map<string, Datapoint>)
    requires Inv(s) && s.producers > 0
    ensures Ordered(Step(s, ProducerStore(values)))
  {
    var s' := Step(s, ProducerStore(values));
    StoredAfterFeed(s, values);
    forall i | 0 <= i < |s.log| && s.log[i].UpdateCalled? ensures NotAhead(s.log[i].batch, s'.stored) {
      assert GenuineEvent(s, s.log[i]);
      GenuineBehind(s, s.log[i].batch);
    }
    GenuineBehind(s, s.batch);
  }

  lemma ProducerStoreKeeps(s: State, values: map<string, Datapoint>)
    requires Inv(s) && s.producers > 0
    ensures Inv(Step(s, ProducerStore(values)))
  {
    ProducerStoreConserves(s, values);
    ProducerStoreOrders(s, values);
    var s' := Step(s, ProducerStore(values));
    AllGenuineLater(s, s');
    forall n | n in s'.stored ensures Genuine(s', n, s'.stored[n]) {
      if n in values {
        assert s'.feeds[|s.feeds|] == values;
      } else {
        assert Genuine(s', n, s.stored[n]);
      }
    }
  }

  /** A fed value has been fed already. */
  lemma GenuineBehind(s: State, values: Values)
    requires AllGenuine(s, values)
    ensures forall n, k: nat :: Holds(values, n, k) ==> k < |s.feeds|
  {
    forall n, k: nat | Holds(values, n, k) ensures k < |s.feeds| {
      assert Genuine(s, n, values[n]);
    }
  }

  lemma StopperClearKeeps(s: State)
    requires Inv(s) && s.stoppers > 0
    ensures Inv(Step(s, StopperClear))
  {
    var s' := Step(s, StopperClear);
    AllGenuineLater(s, s');
  }

  lemma TakeBatchKeeps(s: State)
    requires Inv(s) && s.pc == TakeBatch
    ensures Inv(FeederStep(s, Go))
  {
    var s' := FeederStep(s, Go);
    forall n ensures n in s.stored ==> n in s'.batch && s'.batch[n] == s.stored[n] {
      InsertInitialAt(s.stored, s.config, n);
    }
    forall n, k | Holds(s'.batch, n, k) ensures Holds(s.stored, n, k) {
      InsertInitialAt(s.stored, s.config, n);
    }
    InsertInitialGenuine(s);
    GenuineLater(s, s', s'.batch);
    AllGenuineLater(s, s');
  }

  lemma NotAheadOfItself(values: Values)
    ensures NotAhead(values, values)
  {
  }

  lemma UpdateOrders(s: State, c: Choice)
    requires Inv(s) && s.pc == Update && FeederEnabled(s, c)
    ensures Ordered(FeederStep(s, c))
  {
    NotAheadOfItself(s.batch);
    var log' := FeederStep(s, c).log;
    forall i | 0 <= i < |log'| && log'[i].UpdateCalled?
      ensures NotAhead(log'[i].batch, s.stored) && NotAhead(log'[i].batch, s.batch)
    {
      assert i < |s.log| ==> log'[i] == s.log[i];
    }
    forall i, j | 0 <= i < j < |log'| && log'[i].UpdateCalled? && log'[j].UpdateCalled?
      ensures NotAhead(log'[i].batch, log'[j].batch)
    {
      assert log'[i] == s.log[i] && (j < |s.log| ==> log'[j] == s.log[j]);
    }
  }

  lemma UpdateKeeps(s: State, c: Choice)
    requires Inv(s) && s.pc == Update && FeederEnabled(s, c)
    ensures Inv(FeederStep(s, c))
  {
    UpdateOrders(s, c);
    DeliveredAllLater(s.log, FeederStep(s, c).log);
    AllGenuineLater(s, FeederStep(s, c));
  }

  lemma AwaitUpdateConserves(s: State, c: Choice)
    requires Inv(s) && s.pc == AwaitUpdate && FeederEnabled(s, c)
    ensures Conserved(FeederStep(s, c))
  {
    var s' := FeederStep(s, c);
    DeliveredAllLater(s.log, s'.log);
    if c.Go? {
      assert AckedAt(s'.log, |s.log| - 1);
      assert s'.log[|s.log| - 1].batch == s.batch;
    }
  }

  lemma AwaitUpdateOrders(s: State, c: Choice)
    requires Inv(s) && s.pc == AwaitUpdate && FeederEnabled(s, c)
    ensures Ordered(FeederStep(s, c))
  {
    var log' := FeederStep(s, c).log;
    assert forall i :: 0 <= i < |log'| && log'[i].UpdateCalled? ==> i < |s.log| && log'[i] == s.log[i];
  }

  lemma AwaitUpdateKeeps(s: State, c: Choice)
    requires Inv(s) && s.pc == AwaitUpdate && FeederEnabled(s, c)
    ensures Inv(FeederStep(s, c))
  {
    AwaitUpdateConserves(s, c);
    AwaitUpdateOrders(s, c);
    AllGenuineLater(s, FeederStep(s, c));
  }

  lemma StoredAfterRestore(s: State)
    ensures var stored := s.batch + s.stored;
      forall n, k: nat :: Holds(stored, n, k) <==> Holds(s.stored, n, k) || (n !in s.stored && Holds(s.batch, n, k))
  {
  }

  lemma RestoreConserves(s: State)
    requires Inv(s) && s.pc == Restore
    ensures Conserved(FeederStep(s, Go))
  {
    StoredAfterRestore(s);
    forall n, k: nat | s.active && Newest(s.feeds, n, k) && Holds(s.batch, n, k) && n in s.stored
      ensures Holds(s.stored, n, k)
    {
      var j := s.stored[n].origin.index;
      assert Holds(s.stored, n, j);
      assert Newest(s.feeds, n, j);
    }
  }

  lemma NotAheadOfBoth(older: Values, batch: Values, stored: Values)
    requires NotAhead(older, batch) && NotAhead(older, stored)
    ensures NotAhead(older, batch + stored)
  {
    forall n, j, k | Holds(older, n, j) && Holds(batch + stored, n, k) ensures j <= k {
      assert Holds(batch, n, k) || Holds(stored, n, k);
    }
  }

  lemma RestoreOrders(s: State)
    requires Inv(s) && s.pc == Restore
    ensures Ordered(FeederStep(s, Go))
  {
    var s' := FeederStep(s, Go);
    forall i | 0 <= i < |s'.log| && s'.log[i].UpdateCalled? ensures NotAhead(s'.log[i].batch, s'.stored) {
      NotAheadOfBoth(s.log[i].batch, s.batch, s.stored);
    }
  }

  lemma RestoreKeeps(s: State)
    requires Inv(s) && s.pc == Restore
    ensures Inv(FeederStep(s, Go))
  {
    RestoreConserves(s);
    RestoreOrders(s);
    AllGenuineLater(s, FeederStep(s, Go));
  }

  lemma FeederStepKeeps(s: State, c: Choice)
    requires Inv(s) && FeederEnabled(s, c)
    ensures Inv(FeederStep(s, c))
  {
    match s.pc
    case TakeBatch => TakeBatchKeeps(s);
    case Update => UpdateKeeps(s, c);
    case AwaitUpdate => AwaitUpdateKeeps(s, c);
    case Restore => RestoreKeeps(s);
    case _ =>
      FeederStepQuiet(s, c);
      QuietKeeps(s, FeederStep(s, c));
  }

  lemma StepKeeps(s: State, a: Action)
    requires Inv(s) && Enabled(s, a)
    ensures Inv(Step(s, a))
  {
    match a
    case Feeder(c) => FeederStepKeeps(s, c);
    case ProducerStore(values) => ProducerStoreKeeps(s, values);
    case StopperClear => StopperClearKeeps(s);
    case _ => QuietKeeps(s, Step(s, a));
  }

  lemma {:induction false} RunKeeps(s: State, actions: seq<Action>)
    requires Inv(s) && Runs(s, actions)
    ensures Inv(Exec(s, actions))
    decreases |actions|
  {
    if actions != [] {
      StepKeeps(s, actions[0]);
      RunKeeps(Step(s, actions[0]), actions[1..]);
    }
  }

  lemma InitInv(config: seq<Metadata<Datapoint>>)
    ensures Inv(Init(config))
  {
    forall n ensures var r := ConfiguredInitial(TagConfig(config), n); r.Some? ==> r.value.origin == Initial {
      TagConfigInitial(config, n);
    }
  }
}
