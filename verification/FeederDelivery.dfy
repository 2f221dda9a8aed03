/** What producers and the broker may rely on, over every run of the feeder. */
module FeederDelivery {
  import opened Options
  import opened FeederBuffer
  import opened FeederProtocol

  /** `n` has the value `item` in `values`. */
  ghost predicate Has(values: Values, n: string, item: Item) {
    n in values && values[n] == item
  }

  /** An acknowledged update had `item` in its batch and carried it as the value of `n`. */
  ghost predicate Arrived(log: seq<Event>, n: string, item: Item) {
    exists i :: AckedAt(log, i) && Has(log[i].batch, n, item) && Carries(log[i].request, log[i].ids, n, item)
  }

  /** An acknowledged update had `item` in its batch and did not carry it. */
  ghost predicate Dropped(log: seq<Event>, n: string, item: Item) {
    exists i :: AckedAt(log, i) && Has(log[i].batch, n, item) && !Carries(log[i].request, log[i].ids, n, item)
  }

  /** Every update was sent while `n` had a broker id of its own. */
  ghost predicate AlwaysAddressed(log: seq<Event>, n: string) {
    forall i :: 0 <= i < |log| && log[i].UpdateCalled? ==> OwnId(n, log[i].batch, log[i].ids)
  }

  /** Until shutdown the newest value of a name is stored, in flight, or was in an acknowledged batch. */
  lemma NewestIsSomewhere(config: seq<Metadata<Datapoint>>, actions: seq<Action>, n: string, k: nat)
    requires Runs(Init(config), actions)
    requires var s := Exec(Init(config), actions); s.active && Newest(s.feeds, n, k)
    ensures var s := Exec(Init(config), actions);
      var item := Item(s.feeds[k][n], Fed(k));
      || Has(s.stored, n, item)
      || (InFlight(s.pc) && Has(s.batch, n, item))
      || Arrived(s.log, n, item)
      || Dropped(s.log, n, item)
  {
    InitInv(config);
    RunKeeps(Init(config), actions);
    var s := Exec(Init(config), actions);
    var item := Item(s.feeds[k][n], Fed(k));
    if Holds(s.stored, n, k) {
      assert Genuine(s, n, s.stored[n]);
    } else if InFlight(s.pc) && Holds(s.batch, n, k) {
      assert Genuine(s, n, s.batch[n]);
    } else {
      var i :| AckedAt(s.log, i) && Holds(s.log[i].batch, n, k);
      assert GenuineEvent(s, s.log[i]);
      assert Genuine(s, n, s.log[i].batch[n]);
      assert Has(s.log[i].batch, n, item);
    }
  }

  /** A value is dropped only by an update whose ids had none for the name, or one shared with
      another name of the batch. */
  lemma DroppedIsUnaddressed(config: seq<Metadata<Datapoint>>, actions: seq<Action>, n: string, item: Item)
    requires Runs(Init(config), actions) && Dropped(Exec(Init(config), actions).log, n, item)
    ensures !AlwaysAddressed(Exec(Init(config), actions).log, n)
  {
    InitInv(config);
    RunKeeps(Init(config), actions);
    var s := Exec(Init(config), actions);
    var i :| AckedAt(s.log, i) && Has(s.log[i].batch, n, item) && !Carries(s.log[i].request, s.log[i].ids, n, item);
    var e := s.log[i];
    assert GenuineEvent(s, e);
    if OwnId(n, e.batch, e.ids) {
      RequestExact(e.request, e.batch, e.ids, n, item);
    }
  }

  /** For a name that is addressed in every update nothing is ever lost before shutdown. */
  lemma AddressedValueConserved(config: seq<Metadata<Datapoint>>, actions: seq<Action>, n: string, k: nat)
    requires Runs(Init(config), actions)
    requires var s := Exec(Init(config), actions);
      s.active && Newest(s.feeds, n, k) && AlwaysAddressed(s.log, n)
    ensures var s := Exec(Init(config), actions);
      var item := Item(s.feeds[k][n], Fed(k));
      Has(s.stored, n, item) || (InFlight(s.pc) && Has(s.batch, n, item)) || Arrived(s.log, n, item)
  {
    NewestIsSomewhere(config, actions, n, k);
    var s := Exec(Init(config), actions);
    var item := Item(s.feeds[k][n], Fed(k));
    if Dropped(s.log, n, item) {
      DroppedIsUnaddressed(config, actions, n, item);
    }
  }

  /** `item` is what the producers' feed of that index had for `n`, or the configured initial value. */
  ghost predicate FedOrInitial(config: seq<Metadata<Datapoint>>, feeds: seq<map<string, Datapoint>>, n: string,
                               item: Item)
  {
    match item.origin
    case Fed(k) => k < |feeds| && n in feeds[k] && feeds[k][n] == item.value
    case Initial => ConfiguredInitial(config, n) == Some(item.value)
  }

  lemma BatchesGenuine(config: seq<Metadata<Datapoint>>, actions: seq<Action>, i: nat)
    requires Runs(Init(config), actions)
    requires var log := Exec(Init(config), actions).log; i < |log| && log[i].UpdateCalled?
    ensures var s := Exec(Init(config), actions);
      && IsRequest(s.log[i].request, s.log[i].batch, s.log[i].ids)
      && forall n :: n in s.log[i].batch ==> FedOrInitial(config, s.feeds, n, s.log[i].batch[n])
  {
    InitInv(config);
    RunKeeps(Init(config), actions);
    ConfigUnchanged(Init(config), actions);
    var s := Exec(Init(config), actions);
    var e := s.log[i];
    assert GenuineEvent(s, e);
    forall n | n in e.batch ensures FedOrInitial(config, s.feeds, n, e.batch[n]) {
      assert Genuine(s, n, e.batch[n]);
      TagConfigInitial(config, n);
    }
  }

  /** Every value ever sent, in the first update as in the last, is what a producer fed or the
      configured initial value: of the name itself if its id is its own, and in any case of a
      name registered under the same id. */
  lemma SentIsGenuine(config: seq<Metadata<Datapoint>>, actions: seq<Action>, n: string, i: nat, x: Item)
    requires Runs(Init(config), actions)
    requires var log := Exec(Init(config), actions).log;
      i < |log| && log[i].UpdateCalled? && Carries(log[i].request, log[i].ids, n, x)
    ensures var s := Exec(Init(config), actions);
      var e := s.log[i];
      && (OwnId(n, e.batch, e.ids) ==> FedOrInitial(config, s.feeds, n, x))
      && (exists m :: Known(m, e.batch, e.ids) && e.ids[m] == e.ids[n] && FedOrInitial(config, s.feeds, m, x))
  {
    BatchesGenuine(config, actions, i);
    var s := Exec(Init(config), actions);
    var e := s.log[i];
    var id := e.ids[n];
    var m :| Known(m, e.batch, e.ids) && e.ids[m] == id && e.request[id] == e.batch[m];
    assert FedOrInitial(config, s.feeds, m, x);
  }

  /** Whatever failures and retries occur, shutdown included, the producer values sent for a name
      never go back in feed order. */
  lemma DeliveryInFeedOrder(config: seq<Metadata<Datapoint>>, actions: seq<Action>, n: string,
                            i: nat, j: nat, x: Item, y: Item)
    requires Runs(Init(config), actions)
    requires var log := Exec(Init(config), actions).log;
      && i < j < |log| && log[i].UpdateCalled? && log[j].UpdateCalled?
      && OwnId(n, log[i].batch, log[i].ids) && OwnId(n, log[j].batch, log[j].ids)
      && Carries(log[i].request, log[i].ids, n, x) && Carries(log[j].request, log[j].ids, n, y)
    ensures var feeds := Exec(Init(config), actions).feeds;
      && FedOrInitial(config, feeds, n, x) && FedOrInitial(config, feeds, n, y)
      && (x.origin.Fed? && y.origin.Fed? ==> x.origin.index <= y.origin.index)
  {
    SentIsGenuine(config, actions, n, i, x);
    SentIsGenuine(config, actions, n, j, y);
    InitInv(config);
    RunKeeps(Init(config), actions);
    var s := Exec(Init(config), actions);
    var e, f := s.log[i], s.log[j];
    assert GenuineEvent(s, e) && GenuineEvent(s, f);
    RequestExact(e.request, e.batch, e.ids, n, x);
    RequestExact(f.request, f.batch, f.ids, n, y);
    if x.origin.Fed? && y.origin.Fed? {
      assert NotAhead(e.batch, f.batch);
      assert Holds(e.batch, n, x.origin.index) && Holds(f.batch, n, y.origin.index);
    }
  }

  lemma {:induction false} ConfigUnchanged(s: State, actions: seq<Action>)
    requires Runs(s, actions)
    ensures Exec(s, actions).config == s.config
    decreases |actions|
  {
    if actions != [] {
      ConfigUnchanged(Step(s, actions[0]), actions[1..]);
    }
  }

  /** A feeder that waits without having been notified has nothing to send. */
  lemma WaitingMeansEmpty(config: seq<Metadata<Datapoint>>, actions: seq<Action>)
    requires Runs(Init(config), actions)
    ensures var s := Exec(Init(config), actions);
      s.pc == Waiting(false) ==> s.stored == map[]
  {
    InitInv(config);
    RunKeeps(Init(config), actions);
  }
}
