/** Publication of the telemetry message: a tick every so often, a flag raised by an
    unsynchronised writer, and a heartbeat that does not depend on the flag. */
module TelemetryHeartbeat {
  import opened Options

  const HEARTBEAT_MS := 500

  /** Where the publisher stands in one call of `publishState`. */
  datatype Pc =
    | Idle
    | CheckUp          // reads awsConnectionOk
    | LoadFlag         // the two halves of needTransmit |= ...
    | StoreFlag
    | CheckBinary      // reads binary
    | CheckFlag        // reads needTransmit
    | Serialize
    | Publish
    | SaveTime
    | ClearFlag

  /** A finished tick: its time, the last publication and the number of changes when it began,
      whether it found the connection up and binary mode on, the snapshot it tried to send, and
      whether some repeated leaf was erased but not filled in that snapshot. */
  datatype Tick = Tick(
    time: int, lastBefore: int, changesBefore: nat, open: bool, attempted: Option<nat>, ok: bool, torn: bool)

  datatype State = State(
    changes: nat,          // changes made to the tree; a snapshot is the number it contains
    halfway: nat,          // repeated leaves erased whose writer has not filled them yet
    raising: nat,          // changes whose writer has not raised the flag yet
    flag: bool,            // needTransmit
    last: int,             // lastStatePublish
    up: bool,              // awsConnectionOk
    binary: bool,
    pc: Pc,
    now: int,              // currentTime
    loaded: bool,
    lastBefore: int,
    changesBefore: nat,
    snapshot: nat,
    torn: bool,            // the snapshot was taken with a leaf halfway
    ticks: seq<Tick>)

  datatype Choice = Go | Clock(time: int) | Sent(ok: bool)

  datatype Action =
    | Publisher(choice: Choice)
    | Change                 // a singular leaf is set
    | Erase                  // a repeated leaf is emptied, ...
    | Fill(ok: bool)         // ... and filled, or the values are refused and it stays empty
    | RaiseFlag
    | Configure(up: bool, binary: bool)

  function Init(last: int, up: bool, binary: bool): State {
    State(0, 0, 0, false, last, up, binary, Idle, last, false, last, 0, 0, false, [])
  }

  predicate PublisherEnabled(s: State, c: Choice) {
    match s.pc
    case Idle => c.Clock?
    case Publish => c.Sent?
    case _ => c.Go?
  }

  function Finish(s: State, open: bool, attempted: Option<nat>, ok: bool): State {
    s.(pc := Idle, ticks := s.ticks + [TickOf(s, open, attempted, ok)])
  }

  function TickOf(s: State, open: bool, attempted: Option<nat>, ok: bool): Tick {
    Tick(s.now, s.lastBefore, s.changesBefore, open, attempted, ok, attempted.Some? && s.torn)
  }

  function PublisherStep(s: State, c: Choice): State
    requires PublisherEnabled(s, c)
  {
    match s.pc
    case Idle => s.(now := c.time, lastBefore := s.last, changesBefore := s.changes, pc := CheckUp)
    case CheckUp => if s.up then s.(pc := LoadFlag) else Finish(s, false, None, false)
    case LoadFlag => s.(loaded := s.flag, pc := StoreFlag)
    case StoreFlag => s.(flag := s.loaded || s.now - s.last > HEARTBEAT_MS, pc := CheckBinary)
    case CheckBinary => if s.binary then s.(pc := CheckFlag) else Finish(s, false, None, false)
    case CheckFlag => if s.flag then s.(pc := Serialize) else Finish(s, true, None, false)
    case Serialize => s.(snapshot := s.changes, torn := s.halfway > 0, pc := Publish)
    case Publish => if c.ok then s.(pc := SaveTime) else Finish(s, true, Some(s.snapshot), false)
    case SaveTime => s.(last := s.now, pc := ClearFlag)
    case ClearFlag => Finish(s.(flag := false), true, Some(s.snapshot), true)
  }

  predicate Enabled(s: State, a: Action) {
    match a
    case Publisher(c) => PublisherEnabled(s, c)
    case Change => true
    case Erase => true
    case Fill(_) => s.halfway > 0
    case RaiseFlag => s.raising > 0
    case Configure(_, _) => true
  }

  function Step(s: State, a: Action): State
    requires Enabled(s, a)
  {
    match a
    case Publisher(c) => PublisherStep(s, c)
    case Change => s.(changes := s.changes + 1, raising := s.raising + 1)
    case Erase => s.(halfway := s.halfway + 1)
    case Fill(ok) =>
      if ok then s.(halfway := s.halfway - 1, changes := s.changes + 1, raising := s.raising + 1)
      else s.(halfway := s.halfway - 1)
    case RaiseFlag => s.(raising := s.raising - 1, flag := true)
    case Configure(up, binary) => s.(up := up, binary := binary)
  }

  /** The step is not the publisher's: it leaves the tick in progress and its history alone. */
  ghost predicate Outside(s: State, s': State) {
    && s' == s.(changes := s'.changes, halfway := s'.halfway, raising := s'.raising, flag := s'.flag, up := s'.up,
                binary := s'.binary)
    && s.changes <= s'.changes && (s.flag ==> s'.flag)
  }

  lemma OthersStep(s: State, a: Action)
    requires Enabled(s, a) && !a.Publisher?
    ensures Outside(s, Step(s, a)) && (a != RaiseFlag ==> Step(s, a).flag == s.flag)
  {
  }

  predicate Runs(s: State, actions: seq<Action>)
    decreases |actions|
  {
    actions != [] ==> Enabled(s, actions[0]) && Runs(Step(s, actions[0]), actions[1..])
  }

  function Exec(s: State, actions: seq<Action>): State
    requires Runs(s, actions)
    decreases |actions|
  {
    if actions == [] then s else Exec(Step(s, actions[0]), actions[1..])
  }

  // ----- invariant

  /** The time of the last successful publication. */
  function LastOk(ticks: seq<Tick>, start: int): int {
    if ticks == [] then start
    else if ticks[|ticks| - 1].ok then ticks[|ticks| - 1].time
    else LastOk(ticks[..|ticks| - 1], start)
  }

  predicate Failed(t: Tick) {
    t.attempted.Some? && !t.ok
  }

  /** A publication has failed and none has succeeded since. */
  predicate Owed(ticks: seq<Tick>) {
    ticks != [] && !ticks[|ticks| - 1].ok && (Failed(ticks[|ticks| - 1]) || Owed(ticks[..|ticks| - 1]))
  }

  predicate Overdue(s: State) {
    s.now - s.lastBefore > HEARTBEAT_MS
  }

  /** What a tick is promised to have done. */
  predicate TickGood(t: Tick) {
    && (t.open && t.time - t.lastBefore > HEARTBEAT_MS ==>
          t.attempted.Some? && t.attempted.value >= t.changesBefore)
    && (t.attempted.Some? ==> t.open && t.attempted.value >= t.changesBefore)
  }

  ghost predicate LogGood(ticks: seq<Tick>, start: int) {
    forall i :: 0 <= i < |ticks| ==> EntryGood(ticks, start, i)
  }

  ghost predicate EntryGood(ticks: seq<Tick>, start: int, i: nat)
    requires i < |ticks|
  {
    && TickGood(ticks[i])
    && ticks[i].lastBefore == LastOk(ticks[..i], start)
    && (Owed(ticks[..i]) && ticks[i].open ==> ticks[i].attempted.Some?)
  }

  ghost predicate Inv(s: State, start: int) {
    && LogGood(s.ticks, start)
    && (s.pc != ClearFlag ==> s.last == LastOk(s.ticks, start))
    && (s.pc == ClearFlag ==> s.last == s.now)
    && (s.pc != Idle ==> s.lastBefore == LastOk(s.ticks, start) && s.changesBefore <= s.changes)
    // an overdue tick keeps the flag up until it has published
    && (s.pc == CheckBinary || s.pc == CheckFlag ==> Overdue(s) ==> s.flag)
    && (s.pc == Publish || s.pc == SaveTime || s.pc == ClearFlag ==> s.snapshot >= s.changesBefore)
    // so does every one since a failed one
    && (s.pc == Idle || s.pc == CheckUp || s.pc == LoadFlag || s.pc == CheckBinary || s.pc == CheckFlag ==>
          Owed(s.ticks) ==> s.flag)
    && (s.pc == StoreFlag ==> Owed(s.ticks) ==> s.loaded)
    && (s.pc == Publish ==> s.flag)
    && (s.pc == Serialize ==> s.flag)
  }

  lemma AppendGood(ticks: seq<Tick>, t: Tick, start: int)
    requires LogGood(ticks, start) && TickGood(t) && t.lastBefore == LastOk(ticks, start)
    requires Owed(ticks) && t.open ==> t.attempted.Some?
    ensures LogGood(ticks + [t], start)
    ensures LastOk(ticks + [t], start) == if t.ok then t.time else LastOk(ticks, start)
    ensures Owed(ticks + [t]) <==> !t.ok && (Failed(t) || Owed(ticks))
  {
    var ticks' := ticks + [t];
    assert ticks'[..|ticks|] == ticks;
    forall i | 0 <= i < |ticks'| ensures EntryGood(ticks', start, i) {
      if i < |ticks| {
        assert EntryGood(ticks, start, i);
        assert ticks'[..i] == ticks[..i];
      }
    }
  }

  /** The step ends the tick. */
  predicate Ends(s: State, c: Choice) {
    match s.pc
    case CheckUp => !s.up
    case CheckBinary => !s.binary
    case CheckFlag => !s.flag
    case Publish => c.Sent? && !c.ok
    case ClearFlag => true
    case _ => false
  }

  lemma LocalStepKeeps(s: State, c: Choice, start: int)
    requires Inv(s, start) && PublisherEnabled(s, c) && !Ends(s, c)
    ensures Inv(PublisherStep(s, c), start)
  {
    assert PublisherStep(s, c).ticks == s.ticks;
  }

  /** Ending a tick keeps the invariant if the tick is good and a failure leaves the flag up. */
  lemma FinishKeeps(s: State, open: bool, attempted: Option<nat>, ok: bool, start: int)
    requires LogGood(s.ticks, start) && s.lastBefore == LastOk(s.ticks, start)
    requires TickGood(TickOf(s, open, attempted, ok))
    requires Owed(s.ticks) && open ==> attempted.Some?
    requires !ok && (attempted.Some? || Owed(s.ticks)) ==> s.flag
    requires s.last == if ok then s.now else LastOk(s.ticks, start)
    ensures Inv(Finish(s, open, attempted, ok), start)
  {
    AppendGood(s.ticks, TickOf(s, open, attempted, ok), start);
  }

  lemma EndKeeps(s: State, c: Choice, start: int)
    requires Inv(s, start) && PublisherEnabled(s, c) && Ends(s, c)
    ensures Inv(PublisherStep(s, c), start)
  {
    match s.pc
    case CheckUp | CheckBinary => FinishKeeps(s, false, None, false, start);
    case CheckFlag => FinishKeeps(s, true, None, false, start);
    case Publish => FinishKeeps(s, true, Some(s.snapshot), false, start);
    case ClearFlag => FinishKeeps(s.(flag := false), true, Some(s.snapshot), true, start);
  }

  lemma PublisherKeeps(s: State, c: Choice, start: int)
    requires Inv(s, start) && PublisherEnabled(s, c)
    ensures Inv(PublisherStep(s, c), start)
  {
    if Ends(s, c) {
      EndKeeps(s, c, start);
    } else {
      LocalStepKeeps(s, c, start);
    }
  }

  lemma StepKeeps(s: State, a: Action, start: int)
    requires Inv(s, start) && Enabled(s, a)
    ensures Inv(Step(s, a), start)
  {
    if a.Publisher? {
      PublisherKeeps(s, a.choice, start);
    } else {
      OthersStep(s, a);
      OutsideKeeps(s, Step(s, a), start);
    }
  }

  lemma OutsideKeeps(s: State, s': State, start: int)
    requires Inv(s, start) && Outside(s, s')
    ensures Inv(s', start)
  {
  }

  lemma {:induction false} RunKeeps(s: State, actions: seq<Action>, start: int)
    requires Inv(s, start) && Runs(s, actions)
    ensures Inv(Exec(s, actions), start)
    decreases |actions|
  {
    if actions != [] {
      StepKeeps(s, actions[0], start);
      RunKeeps(Step(s, actions[0]), actions[1..], start);
    }
  }

  // ----- results

  /** Whatever the writer does, the first tick more than 500 ms after the last successful
      publication tries to send a snapshot with every change made before the tick. */
  lemma HeartbeatBound(last: int, up: bool, binary: bool, actions: seq<Action>, i: nat)
    requires Runs(Init(last, up, binary), actions)
    requires i < |Exec(Init(last, up, binary), actions).ticks|
    ensures var ticks := Exec(Init(last, up, binary), actions).ticks;
      var t := ticks[i];
      t.open && t.time - LastOk(ticks[..i], last) > 500 ==>
        t.attempted.Some? && t.attempted.value >= t.changesBefore
  {
    RunKeeps(Init(last, up, binary), actions, last);
    assert EntryGood(Exec(Init(last, up, binary), actions).ticks, last, i);
  }

  lemma {:induction false} OwedSince(ticks: seq<Tick>, i: nat)
    requires i < |ticks| && Failed(ticks[i]) && forall j :: i < j < |ticks| ==> !ticks[j].ok
    ensures Owed(ticks)
    decreases |ticks|
  {
    if i < |ticks| - 1 {
      OwedSince(ticks[..|ticks| - 1], i);
    }
  }

  /** After a failed publication every tick that finds the connection up and binary mode on tries
      again until one succeeds, however little time has passed and whatever happened in between. */
  lemma FailureRetried(last: int, up: bool, binary: bool, actions: seq<Action>, i: nat, j: nat)
    requires Runs(Init(last, up, binary), actions)
    requires var ticks := Exec(Init(last, up, binary), actions).ticks;
      i < j < |ticks| && Failed(ticks[i]) && NoneOk(ticks, i, j)
    ensures var t := Exec(Init(last, up, binary), actions).ticks[j];
      t.open ==> t.attempted.Some? && t.attempted.value >= t.changesBefore
  {
    RunKeeps(Init(last, up, binary), actions, last);
    var ticks := Exec(Init(last, up, binary), actions).ticks;
    assert EntryGood(ticks, last, j);
    OwedSince(ticks[..j], i);
  }

  // ----- a raised flag and what becomes of it

  /** None of the ticks from `from` up to `to` succeeded. */
  predicate NoneOk(ticks: seq<Tick>, from: nat, to: nat)
    requires to <= |ticks|
  {
    forall i :: from <= i < to ==> !ticks[i].ok
  }

  /** The tick tried to send every one of the first `c` changes. */
  predicate Covers(t: Tick, c: nat) {
    t.attempted.Some? && t.attempted.value >= c
  }

  /** A flag raised now is going to be overwritten: the publisher is about to store a value it loaded
      before, or is past serialization and about to clear the flag. */
  predicate Overwriting(s: State) {
    || (s.pc == StoreFlag && !s.loaded && s.now - s.last <= 500)
    || s.pc == Publish || s.pc == SaveTime || s.pc == ClearFlag
  }

  /** The first `c` changes are on their way from tick `k` on: every open tick tries to send them
      until one succeeds, and the flag or the snapshot says so. */
  ghost predicate Heard(s: State, k: nat, c: nat) {
    && c <= s.changes && k <= |s.ticks|
    && (forall i :: k <= i < |s.ticks| && NoneOk(s.ticks, k, i) && s.ticks[i].open ==> Covers(s.ticks[i], c))
    && (NoneOk(s.ticks, k, |s.ticks|) ==>
          match s.pc
          case StoreFlag => s.loaded || s.now - s.last > HEARTBEAT_MS
          case Publish => s.flag && s.snapshot >= c
          case SaveTime => s.snapshot >= c
          case ClearFlag => s.snapshot >= c
          case _ => s.flag)
  }

  lemma HeardAppend(ticks: seq<Tick>, t: Tick, k: nat, c: nat)
    requires k <= |ticks|
    requires forall i :: k <= i < |ticks| && NoneOk(ticks, k, i) && ticks[i].open ==> Covers(ticks[i], c)
    requires NoneOk(ticks, k, |ticks|) && t.open ==> Covers(t, c)
    ensures var ticks' := ticks + [t];
      && (forall i :: k <= i < |ticks'| && NoneOk(ticks', k, i) && ticks'[i].open ==> Covers(ticks'[i], c))
      && (NoneOk(ticks', k, |ticks'|) <==> NoneOk(ticks, k, |ticks|) && !t.ok)
  {
    var ticks' := ticks + [t];
    forall i | k <= i < |ticks'| && NoneOk(ticks', k, i) && ticks'[i].open ensures Covers(ticks'[i], c) {
      assert forall j :: k <= j < i ==> ticks'[j] == ticks[j];
      if i < |ticks| {
        assert NoneOk(ticks, k, i);
      } else {
        assert NoneOk(ticks, k, |ticks|);
      }
    }
    if NoneOk(ticks', k, |ticks'|) {
      assert !ticks'[|ticks|].ok;
      assert forall j :: k <= j < |ticks| ==> ticks'[j] == ticks[j];
    }
  }

  lemma HeardEnd(s: State, choice: Choice, k: nat, c: nat)
    requires Heard(s, k, c) && PublisherEnabled(s, choice) && Ends(s, choice)
    ensures Heard(PublisherStep(s, choice), k, c)
  {
    HeardAppend(s.ticks, PublisherStep(s, choice).ticks[|s.ticks|], k, c);
  }

  lemma HeardStep(s: State, a: Action, k: nat, c: nat)
    requires Heard(s, k, c) && Enabled(s, a)
    ensures Heard(Step(s, a), k, c)
  {
    if a.Publisher? {
      if Ends(s, a.choice) {
        HeardEnd(s, a.choice, k, c);
      } else {
        HeardLocal(s, a.choice, k, c);
      }
    } else {
      OthersStep(s, a);
      HeardOutside(s, Step(s, a), k, c);
    }
  }

  lemma HeardLocal(s: State, choice: Choice, k: nat, c: nat)
    requires Heard(s, k, c) && PublisherEnabled(s, choice) && !Ends(s, choice)
    ensures Heard(PublisherStep(s, choice), k, c)
  {
    assert PublisherStep(s, choice).ticks == s.ticks;
  }

  lemma HeardOutside(s: State, s': State, k: nat, c: nat)
    requires Heard(s, k, c) && Outside(s, s')
    ensures Heard(s', k, c)
  {
  }

  lemma {:induction false} HeardRun(s: State, actions: seq<Action>, k: nat, c: nat)
    requires Heard(s, k, c) && Runs(s, actions)
    ensures Heard(Exec(s, actions), k, c)
    decreases |actions|
  {
    if actions != [] {
      HeardStep(s, actions[0], k, c);
      HeardRun(Step(s, actions[0]), actions[1..], k, c);
    }
  }

  /** A flag raised outside the windows is heard, by the tick in progress or the next ones: every open
      tick from there on tries to send all changes made by then, until one succeeds. */
  lemma RaiseHeard(last: int, up: bool, binary: bool, before: seq<Action>, after: seq<Action>, i: nat)
    requires Runs(Init(last, up, binary), before) && Raises(Exec(Init(last, up, binary), before), after)
    requires var s := Exec(Init(last, up, binary), before);
      var ticks := Exec(Step(s, RaiseFlag), after).ticks;
      !Overwriting(s) && |s.ticks| <= i < |ticks| && NoneOk(ticks, |s.ticks|, i) && ticks[i].open
    ensures var s := Exec(Init(last, up, binary), before);
      Covers(Exec(Step(s, RaiseFlag), after).ticks[i], s.changes)
  {
    var s := Exec(Init(last, up, binary), before);
    HeardRun(Step(s, RaiseFlag), after, |s.ticks|, s.changes);
  }

  /** A writer that has made its change raises the flag in `s`, and `after` happens. */
  ghost predicate Raises(s: State, after: seq<Action>) {
    Enabled(s, RaiseFlag) && Runs(Step(s, RaiseFlag), after)
  }

  predicate Late(t: Tick) {
    t.time - t.lastBefore > 500
  }

  predicate NoneLate(ticks: seq<Tick>, from: nat, to: nat)
    requires to <= |ticks|
  {
    forall i :: from <= i < to ==> !Late(ticks[i])
  }

  /** From tick `k` on nothing is tried before the heartbeat is due. */
  ghost predicate Quiet(s: State, k: nat) {
    && k <= |s.ticks|
    && (forall i :: k <= i < |s.ticks| && NoneLate(s.ticks, k, i + 1) ==> s.ticks[i].attempted == None)
    && (NoneLate(s.ticks, k, |s.ticks|) ==>
          match s.pc
          case Idle | CheckUp | LoadFlag => !s.flag
          case StoreFlag => !s.loaded
          case CheckBinary | CheckFlag => !s.flag || Overdue(s)
          case _ => Overdue(s))
  }

  lemma QuietAppend(ticks: seq<Tick>, t: Tick, k: nat)
    requires k <= |ticks|
    requires forall i :: k <= i < |ticks| && NoneLate(ticks, k, i + 1) ==> ticks[i].attempted == None
    requires NoneLate(ticks, k, |ticks|) && !Late(t) ==> t.attempted == None
    ensures var ticks' := ticks + [t];
      && (forall i :: k <= i < |ticks'| && NoneLate(ticks', k, i + 1) ==> ticks'[i].attempted == None)
      && (NoneLate(ticks', k, |ticks'|) <==> NoneLate(ticks, k, |ticks|) && !Late(t))
  {
    var ticks' := ticks + [t];
    assert forall j :: k <= j < |ticks| ==> ticks'[j] == ticks[j];
    forall i | k <= i < |ticks'| && NoneLate(ticks', k, i + 1) ensures ticks'[i].attempted == None {
      assert !Late(ticks'[i]);
      if i < |ticks| {
        assert NoneLate(ticks, k, i + 1);
      } else {
        assert NoneLate(ticks, k, |ticks|);
      }
    }
    if NoneLate(ticks', k, |ticks'|) {
      assert !Late(ticks'[|ticks|]);
    }
  }

  lemma QuietEnd(s: State, c: Choice, k: nat)
    requires Quiet(s, k) && PublisherEnabled(s, c) && Ends(s, c)
    ensures Quiet(PublisherStep(s, c), k)
  {
    QuietAppend(s.ticks, PublisherStep(s, c).ticks[|s.ticks|], k);
  }

  lemma QuietStep(s: State, a: Action, k: nat, start: int)
    requires Inv(s, start) && Quiet(s, k) && Enabled(s, a) && a != RaiseFlag
    ensures Quiet(Step(s, a), k)
  {
    if a.Publisher? {
      if Ends(s, a.choice) {
        QuietEnd(s, a.choice, k);
      } else {
        QuietLocal(s, a.choice, k, start);
      }
    } else {
      OthersStep(s, a);
      QuietOutside(s, Step(s, a), k);
    }
  }

  lemma QuietLocal(s: State, c: Choice, k: nat, start: int)
    requires Inv(s, start) && Quiet(s, k) && PublisherEnabled(s, c) && !Ends(s, c)
    ensures Quiet(PublisherStep(s, c), k)
  {
    assert PublisherStep(s, c).ticks == s.ticks;
  }

  lemma QuietOutside(s: State, s': State, k: nat)
    requires Quiet(s, k) && Outside(s, s') && s'.flag == s.flag
    ensures Quiet(s', k)
  {
  }

  lemma {:induction false} QuietRun(s: State, actions: seq<Action>, k: nat, start: int)
    requires Inv(s, start) && Quiet(s, k) && Runs(s, actions) && RaiseFlag !in actions
    ensures Quiet(Exec(s, actions), k)
    decreases |actions|
  {
    if actions != [] {
      QuietStep(s, actions[0], k, start);
      StepKeeps(s, actions[0], start);
      QuietRun(Step(s, actions[0]), actions[1..], k, start);
    }
  }

  lemma {:induction false} TicksGrow(s: State, actions: seq<Action>)
    requires Runs(s, actions)
    ensures s.ticks <= Exec(s, actions).ticks
    decreases |actions|
  {
    if actions != [] {
      StepTicks(s, actions[0]);
      TicksGrow(Step(s, actions[0]), actions[1..]);
    }
  }

  lemma PublisherTicks(s: State, c: Choice)
    requires PublisherEnabled(s, c)
    ensures s.ticks <= PublisherStep(s, c).ticks
  {
    var ticks' := PublisherStep(s, c).ticks;
    if Ends(s, c) {
      assert ticks' == s.ticks + [ticks'[|s.ticks|]];
    } else {
      assert ticks' == s.ticks;
    }
  }

  lemma StepTicks(s: State, a: Action)
    requires Enabled(s, a)
    ensures s.ticks <= Step(s, a).ticks
  {
    if a.Publisher? {
      PublisherTicks(s, a.choice);
    } else {
      OthersStep(s, a);
    }
  }

  predicate PastSerialization(pc: Pc) {
    pc == Publish || pc == SaveTime || pc == ClearFlag
  }

  lemma ClearedStep(s: State, a: Action)
    requires PastSerialization(s.pc) && Enabled(s, a) && a != RaiseFlag
    ensures var s' := Step(s, a);
      || (PastSerialization(s'.pc) && s'.ticks == s.ticks)
      || (s'.pc == Idle && |s'.ticks| == |s.ticks| + 1 && (s'.ticks[|s.ticks|].ok ==> Quiet(s', |s.ticks| + 1)))
  {
    if !a.Publisher? {
      OthersStep(s, a);
    }
  }

  /** Past serialization: if the tick in progress succeeds, it takes the flag down with it. */
  lemma {:induction false} ClearedRun(s: State, actions: seq<Action>, start: int)
    requires Inv(s, start) && PastSerialization(s.pc) && Runs(s, actions) && RaiseFlag !in actions
    requires var ticks := Exec(s, actions).ticks; |s.ticks| < |ticks| && ticks[|s.ticks|].ok
    ensures Quiet(Exec(s, actions), |s.ticks| + 1)
    decreases |actions|
  {
    var s' := Step(s, actions[0]);
    StepKeeps(s, actions[0], start);
    ClearedStep(s, actions[0]);
    TicksGrow(s', actions[1..]);
    if s'.pc == Idle {
      QuietRun(s', actions[1..], |s.ticks| + 1, start);
    } else {
      ClearedRun(s', actions[1..], start);
    }
  }

  /** The first tick after which a raised flag is missing: the one in progress if it is about to store
      a stale value, otherwise the one after it. */
  function FirstMissing(s: State): nat {
    if s.pc == StoreFlag then |s.ticks| else |s.ticks| + 1
  }

  /** A flag raised inside a window is lost: unless the publication in progress fails, and until
      another change raises the flag, no tick tries to send anything before the heartbeat is due. */
  lemma RaiseLost(last: int, up: bool, binary: bool, before: seq<Action>, after: seq<Action>, i: nat)
    requires Runs(Init(last, up, binary), before) && Raises(Exec(Init(last, up, binary), before), after)
    requires RaiseFlag !in after
    requires var s := Exec(Init(last, up, binary), before);
      var ticks := Exec(Step(s, RaiseFlag), after).ticks;
      && Overwriting(s) && FirstMissing(s) <= i < |ticks|
      && (s.pc != StoreFlag ==> ticks[|s.ticks|].ok)
      && NoneLate(ticks, FirstMissing(s), i + 1)
    ensures var s := Exec(Init(last, up, binary), before);
      Exec(Step(s, RaiseFlag), after).ticks[i].attempted == None
  {
    RunKeeps(Init(last, up, binary), before, last);
    var s := Exec(Init(last, up, binary), before);
    var s' := Step(s, RaiseFlag);
    StepKeeps(s, RaiseFlag, last);
    if s.pc == StoreFlag {
      QuietRun(s', after, |s.ticks|, last);
    } else {
      ClearedRun(s', after, last);
    }
  }

  /** Ticks begun since there were `c` changes know of them. */
  ghost predicate Begun(s: State, k: nat, c: nat) {
    && c <= s.changes
    && (|s.ticks| > k && s.pc != Idle ==> c <= s.changesBefore)
    && (forall i :: k < i < |s.ticks| ==> c <= s.ticks[i].changesBefore)
  }

  lemma BegunEnd(s: State, choice: Choice, k: nat, c: nat)
    requires Begun(s, k, c) && PublisherEnabled(s, choice) && Ends(s, choice)
    ensures Begun(PublisherStep(s, choice), k, c)
  {
    var s' := PublisherStep(s, choice);
    assert s'.ticks[|s.ticks|].changesBefore == s.changesBefore && s'.pc == Idle;
  }

  lemma BegunStep(s: State, a: Action, k: nat, c: nat)
    requires Begun(s, k, c) && Enabled(s, a)
    ensures Begun(Step(s, a), k, c)
  {
    if a.Publisher? {
      if Ends(s, a.choice) {
        BegunEnd(s, a.choice, k, c);
      } else {
        BegunLocal(s, a.choice, k, c);
      }
    } else {
      OthersStep(s, a);
    }
  }

  lemma BegunLocal(s: State, choice: Choice, k: nat, c: nat)
    requires Begun(s, k, c) && PublisherEnabled(s, choice) && !Ends(s, choice)
    ensures Begun(PublisherStep(s, choice), k, c)
  {
    assert PublisherStep(s, choice).ticks == s.ticks && PublisherStep(s, choice).changes == s.changes;
  }

  lemma {:induction false} BegunRun(s: State, actions: seq<Action>, k: nat, c: nat)
    requires Begun(s, k, c) && Runs(s, actions)
    ensures Begun(Exec(s, actions), k, c)
    decreases |actions|
  {
    if actions != [] {
      BegunStep(s, actions[0], k, c);
      BegunRun(Step(s, actions[0]), actions[1..], k, c);
    }
  }

  /** What is lost is only the prompt: wherever the flag was raised, any later open tick that is due
      for the heartbeat tries to send all changes made by then, and so does every open tick until the
      next success if the publication in progress failed. */
  lemma LostRaiseCaught(last: int, up: bool, binary: bool, before: seq<Action>, after: seq<Action>, i: nat)
    requires Runs(Init(last, up, binary), before) && Raises(Exec(Init(last, up, binary), before), after)
    requires var s := Exec(Init(last, up, binary), before);
      var ticks := Exec(Step(s, RaiseFlag), after).ticks;
      && |s.ticks| < i < |ticks| && ticks[i].open
      && (Late(ticks[i]) || (Failed(ticks[|s.ticks|]) && NoneOk(ticks, |s.ticks|, i)))
    ensures var s := Exec(Init(last, up, binary), before);
      Covers(Exec(Step(s, RaiseFlag), after).ticks[i], s.changes)
  {
    RunKeeps(Init(last, up, binary), before, last);
    var s := Exec(Init(last, up, binary), before);
    var s' := Step(s, RaiseFlag);
    StepKeeps(s, RaiseFlag, last);
    RunKeeps(s', after, last);
    BegunRun(s', after, |s.ticks|, s.changes);
    var ticks := Exec(s', after).ticks;
    assert EntryGood(ticks, last, i);
    if !Late(ticks[i]) {
      OwedSince(ticks[..i], |s.ticks|);
    }
  }

  // ----- both windows are real

  /** Some run leads from `s` to `t`. */
  ghost predicate Reaches(s: State, t: State) {
    exists actions :: Runs(s, actions) && Exec(s, actions) == t
  }

  lemma ReachesSelf(s: State)
    ensures Reaches(s, s)
  {
    assert Runs(s, []) && Exec(s, []) == s;
  }

  lemma StepReaches(s: State, a: Action, t: State)
    requires Enabled(s, a) && Reaches(Step(s, a), t)
    ensures Reaches(s, t)
  {
    var rest :| Runs(Step(s, a), rest) && Exec(Step(s, a), rest) == t;
    assert ([a] + rest)[1..] == rest;
    assert Runs(s, [a] + rest) && Exec(s, [a] + rest) == t;
  }

  /** The one change ever made is complete, the flag is down, and no snapshot had it. */
  ghost predicate ChangeMissed(s: State, ticks: seq<Tick>) {
    && s.pc == Idle && s.changes == 1 && s.halfway == 0 && s.raising == 0 && !s.flag
    && s.ticks == ticks && forall t :: t in ticks ==> !Covers(t, 1)
  }

  /** A change between load and store: the same tick, though open, tries nothing. */
  lemma LostBetweenLoadAndStore(last: int)
    ensures exists s ::
      Reaches(Init(last, true, true), s) && ChangeMissed(s, [Tick(last, last, 0, true, None, false, false)])
  {
    var s0 := Init(last, true, true);
    var s1 := Step(s0, Publisher(Clock(last)));
    var s2 := Step(s1, Publisher(Go));
    var s3 := Step(s2, Publisher(Go));
    var s := StaleStore(s3);
    StepReaches(s2, Publisher(Go), s);
    StepReaches(s1, Publisher(Go), s);
    StepReaches(s0, Publisher(Clock(last)), s);
  }

  lemma StaleStore(s: State) returns (t: State)
    requires s.pc == StoreFlag && !s.loaded && s.now - s.last <= HEARTBEAT_MS && s.binary && s.raising == 0
    ensures Reaches(s, t) && t.pc == Idle && t.changes == s.changes + 1 && t.halfway == s.halfway && t.raising == 0
    ensures !t.flag
    ensures t.ticks == s.ticks + [TickOf(s, true, None, false)]
  {
    var s1 := Step(s, Change);
    var s2 := Step(s1, RaiseFlag);
    var s3 := Step(s2, Publisher(Go));
    var s4 := Step(s3, Publisher(Go));
    t := Step(s4, Publisher(Go));
    ReachesSelf(t);
    StepReaches(s4, Publisher(Go), t);
    StepReaches(s3, Publisher(Go), t);
    StepReaches(s2, Publisher(Go), t);
    StepReaches(s1, RaiseFlag, t);
    StepReaches(s, Change, t);
  }

  /** A change between serialization and clearing: the snapshot sent does not have it. */
  lemma LostBeforeClear(last: int)
    ensures exists s ::
      Reaches(Init(last, true, true), s) && ChangeMissed(s, [Tick(last + 501, last, 0, true, Some(0), true, false)])
  {
    var s0 := Init(last, true, true);
    var s1 := Step(s0, Publisher(Clock(last + 501)));
    var s2 := Step(s1, Publisher(Go));
    var s3 := Step(s2, Publisher(Go));
    var s4 := Step(s3, Publisher(Go));
    var s5 := Step(s4, Publisher(Go));
    var s6 := Step(s5, Publisher(Go));
    var s7 := Step(s6, Publisher(Go));
    var s := LateChange(s7);
    StepReaches(s6, Publisher(Go), s);
    StepReaches(s5, Publisher(Go), s);
    StepReaches(s4, Publisher(Go), s);
    StepReaches(s3, Publisher(Go), s);
    StepReaches(s2, Publisher(Go), s);
    StepReaches(s1, Publisher(Go), s);
    StepReaches(s0, Publisher(Clock(last + 501)), s);
  }

  lemma LateChange(s: State) returns (t: State)
    requires s.pc == Publish && s.raising == 0
    ensures Reaches(s, t) && t.pc == Idle && t.changes == s.changes + 1 && t.halfway == s.halfway && t.raising == 0
    ensures !t.flag && t.ticks == s.ticks + [TickOf(s, true, Some(s.snapshot), true)]
  {
    var s1 := Step(s, Change);
    var s2 := Step(s1, RaiseFlag);
    t := ClearAfter(s2);
    StepReaches(s1, RaiseFlag, t);
    StepReaches(s, Change, t);
  }

  // ----- torn snapshots

  /** The tick numbered `k` has the snapshot with `c` changes, torn or not, in hand or has tried to send it. */
  ghost predicate HasSnapshot(s: State, k: nat, c: nat, torn: bool) {
    if |s.ticks| == k then PastSerialization(s.pc) && s.snapshot == c && s.torn == torn
    else |s.ticks| > k && s.ticks[k].attempted == Some(c) && s.ticks[k].torn == torn
  }

  lemma {:induction false} SnapshotRun(s: State, actions: seq<Action>, k: nat, c: nat, torn: bool)
    requires HasSnapshot(s, k, c, torn) && Runs(s, actions)
    ensures HasSnapshot(Exec(s, actions), k, c, torn)
    decreases |actions|
  {
    if actions != [] {
      SnapshotStep(s, actions[0], k, c, torn);
      SnapshotRun(Step(s, actions[0]), actions[1..], k, c, torn);
    }
  }

  lemma SnapshotStep(s: State, a: Action, k: nat, c: nat, torn: bool)
    requires HasSnapshot(s, k, c, torn) && Enabled(s, a)
    ensures HasSnapshot(Step(s, a), k, c, torn)
  {
    StepTicks(s, a);
    if |s.ticks| == k {
      if a.Publisher? {
        PublishSnapshot(s, a.choice);
      } else {
        OthersStep(s, a);
      }
    }
  }

  lemma PublishSnapshot(s: State, c: Choice)
    requires PastSerialization(s.pc) && PublisherEnabled(s, c)
    ensures HasSnapshot(PublisherStep(s, c), |s.ticks|, s.snapshot, s.torn)
  {
  }

  /** What a tick tries to send is what it serialized, whatever is written meanwhile: all changes made
      by then, and a repeated leaf empty if and only if its writer was between erasing and filling. */
  lemma SnapshotExact(last: int, up: bool, binary: bool, before: seq<Action>, after: seq<Action>)
    requires Runs(Init(last, up, binary), before)
    requires var s := Exec(Init(last, up, binary), before);
      && s.pc == Serialize && Runs(Step(s, Publisher(Go)), after)
      && |Exec(Step(s, Publisher(Go)), after).ticks| > |s.ticks|
    ensures var s := Exec(Init(last, up, binary), before);
      var t := Exec(Step(s, Publisher(Go)), after).ticks[|s.ticks|];
      t.attempted == Some(s.changes) && (t.torn <==> s.halfway > 0)
  {
    var s := Exec(Init(last, up, binary), before);
    SnapshotRun(Step(s, Publisher(Go)), after, |s.ticks|, s.changes, s.halfway > 0);
  }

  /** Torn snapshots are sent, and not corrected before the heartbeat: a leaf is erased before and
      filled after the serialization, and its flag is cleared with the publication. */
  lemma TornSnapshotSent(last: int)
    ensures exists s ::
      Reaches(Init(last, true, true), s) && ChangeMissed(s, [Tick(last + 501, last, 0, true, Some(0), true, true)])
  {
    var s0 := Init(last, true, true);
    var s1 := Step(s0, Publisher(Clock(last + 501)));
    var s2 := Step(s1, Publisher(Go));
    var s3 := Step(s2, Publisher(Go));
    var s4 := Step(s3, Publisher(Go));
    var s5 := Step(s4, Publisher(Go));
    var s6 := Step(s5, Publisher(Go));
    var s := TornPublication(s6);
    StepReaches(s5, Publisher(Go), s);
    StepReaches(s4, Publisher(Go), s);
    StepReaches(s3, Publisher(Go), s);
    StepReaches(s2, Publisher(Go), s);
    StepReaches(s1, Publisher(Go), s);
    StepReaches(s0, Publisher(Clock(last + 501)), s);
  }

  lemma TornPublication(s: State) returns (t: State)
    requires s.pc == Serialize && s.raising == 0
    ensures Reaches(s, t) && t.pc == Idle && t.changes == s.changes + 1 && t.halfway == s.halfway && t.raising == 0
    ensures !t.flag
    ensures t.ticks == s.ticks + [Tick(s.now, s.lastBefore, s.changesBefore, true, Some(s.changes), true, true)]
  {
    var s1 := Step(s, Erase);
    var s2 := Step(s1, Publisher(Go));
    var s3 := Step(s2, Fill(true));
    var s4 := Step(s3, RaiseFlag);
    t := ClearAfter(s4);
    StepReaches(s3, RaiseFlag, t);
    StepReaches(s2, Fill(true), t);
    StepReaches(s1, Publisher(Go), t);
    StepReaches(s, Erase, t);
  }

  lemma ClearAfter(s: State) returns (t: State)
    requires s.pc == Publish
    ensures Reaches(s, t) && t.pc == Idle && t.changes == s.changes && t.halfway == s.halfway && t.raising == s.raising
    ensures !t.flag && t.ticks == s.ticks + [TickOf(s, true, Some(s.snapshot), true)]
  {
    var s1 := Step(s, Publisher(Sent(true)));
    var s2 := Step(s1, Publisher(Go));
    t := Step(s2, Publisher(Go));
    ReachesSelf(t);
    StepReaches(s2, Publisher(Go), t);
    StepReaches(s1, Publisher(Go), t);
    StepReaches(s, Publisher(Sent(true)), t);
  }
  // ----- no more than promised

  /** As long as no change raises the flag, ticks at most 500 ms after the last publication send nothing. */
  lemma NothingSentEarly(last: int, up: bool, binary: bool, actions: seq<Action>, i: nat)
    requires Runs(Init(last, up, binary), actions) && RaiseFlag !in actions
    requires var ticks := Exec(Init(last, up, binary), actions).ticks;
      i < |ticks| && forall j :: 0 <= j <= i ==> ticks[j].time - LastOk(ticks[..j], last) <= 500
    ensures Exec(Init(last, up, binary), actions).ticks[i].attempted == None
  {
    var s0 := Init(last, up, binary);
    RunKeeps(s0, actions, last);
    QuietRun(s0, actions, 0, last);
    var ticks := Exec(s0, actions).ticks;
    forall j | 0 <= j < i + 1 ensures !Late(ticks[j]) {
      assert EntryGood(ticks, last, j);
    }
  }

  ghost predicate UpInv(s: State) {
    s.up && s.binary && forall i :: 0 <= i < |s.ticks| ==> s.ticks[i].open
  }

  lemma UpPublisher(s: State, c: Choice)
    requires UpInv(s) && PublisherEnabled(s, c)
    ensures UpInv(PublisherStep(s, c))
  {
  }

  predicate LeavesUp(a: Action) {
    a.Configure? ==> a.up && a.binary
  }

  lemma {:induction false} UpRun(s: State, actions: seq<Action>)
    requires UpInv(s) && Runs(s, actions) && forall i :: 0 <= i < |actions| ==> LeavesUp(actions[i])
    ensures UpInv(Exec(s, actions))
    decreases |actions|
  {
    if actions != [] {
      var s' := Step(s, actions[0]);
      if actions[0].Publisher? {
        UpPublisher(s, actions[0].choice);
      } else {
        OthersStep(s, actions[0]);
        assert LeavesUp(actions[0]);
      }
      UpRun(s', actions[1..]);
    }
  }

  /** With the connection up and binary mode on throughout, every tick more than 500 ms after the last
      successful publication tries to send every change made before it. */
  lemma HeartbeatWhileUp(last: int, actions: seq<Action>, i: nat)
    requires Runs(Init(last, true, true), actions) && forall j :: 0 <= j < |actions| ==> LeavesUp(actions[j])
    requires var ticks := Exec(Init(last, true, true), actions).ticks;
      i < |ticks| && ticks[i].time - LastOk(ticks[..i], last) > 500
    ensures var t := Exec(Init(last, true, true), actions).ticks[i];
      t.attempted.Some? && t.attempted.value >= t.changesBefore
  {
    UpRun(Init(last, true, true), actions);
    HeartbeatBound(last, true, true, actions, i);
  }
  /** Nothing is being sent, and nothing was: the connection is down, or binary mode is off. */
  ghost predicate DownInv(s: State) {
    && (!s.up || !s.binary) && !PastSerialization(s.pc) && s.pc != Serialize
    && (!s.up ==> s.pc == Idle || s.pc == CheckUp)
    && (!s.binary ==> s.pc != CheckFlag)
    && forall i :: 0 <= i < |s.ticks| ==> s.ticks[i].attempted == None
  }

  lemma DownPublisher(s: State, c: Choice)
    requires DownInv(s) && PublisherEnabled(s, c)
    ensures DownInv(PublisherStep(s, c))
  {
  }

  predicate NoConfigure(actions: seq<Action>) {
    forall i :: 0 <= i < |actions| ==> !actions[i].Configure?
  }

  lemma {:induction false} DownRun(s: State, actions: seq<Action>)
    requires DownInv(s) && Runs(s, actions) && NoConfigure(actions)
    ensures DownInv(Exec(s, actions))
    decreases |actions|
  {
    if actions != [] {
      var s' := Step(s, actions[0]);
      if actions[0].Publisher? {
        DownPublisher(s, actions[0].choice);
      } else {
        OthersStep(s, actions[0]);
        assert !actions[0].Configure?;
      }
      DownRun(s', actions[1..]);
    }
  }

  /** While the connection is down or binary mode is off nothing is sent, however long it lasts. */
  lemma NothingSentWhileDown(last: int, up: bool, binary: bool, actions: seq<Action>, i: nat)
    requires !(up && binary) && Runs(Init(last, up, binary), actions) && NoConfigure(actions)
    requires i < |Exec(Init(last, up, binary), actions).ticks|
    ensures Exec(Init(last, up, binary), actions).ticks[i].attempted == None
  {
    DownRun(Init(last, up, binary), actions);
  }
}
