/** The actuator subscriber: its reconnect loop racing with `Shutdown`. */
module SubscriberProtocol {
  import opened Options

  /** A response lists (path, value) pairs. */
  type Response = seq<(string, string)>

  datatype Pc =
    | Start                  // Run has been entered, the active flag is not raised yet
    | LoopTop                // reads the active flag of the outer loop
    | Connect                // in WaitForConnected, for `backoff` seconds
    | Subscribe              // about to lock, create the context and subscribe
    | ReadCheck              // reads the active flag of the read loop
    | Read                   // blocked in reader->Read
    | Collect                // walks through the response, reading the flag per update
    | CallbackCheck          // reads the flag before the callback
    | Callback               // about to call back
    | Finish                 // in reader->Finish
    | FailCheck              // reads the flag after a failed stream
    | Drop                   // about to lock and destroy the context
    | Done

  datatype Wait = Wait(seconds: nat, connected: bool)

  datatype State = State(
    active: bool,                       // subscriber_active_
    context: Option<nat>,               // subscriber_context_, by the number of the subscription
    reader: nat,                        // the subscription the reader belongs to
    created: nat,                       // subscriptions so far
    cancelled: set<nat>,                // contexts that were cancelled
    ended: bool,                        // the reader has seen the end of its stream
    pc: Pc,
    backoff: nat,
    response: Response,
    taken: nat,                         // updates of the response already looked at
    changes: map<string, string>,
    clearing: nat,                      // shutdowns past their check of the flag
    cancelling: nat,                    // shutdowns that cleared the flag and want the lock
    stopped: nat,                       // shutdowns that found the flag raised and have returned
    ignored: nat,                       // shutdowns that found it down and have returned
    waits: seq<Wait>,                   // history: connection waits
    received: seq<Response>,              // history: responses that were read
    calls: seq<(Response, map<string, string>)>)  // history: callbacks with their response

  datatype Choice =
    | Go
    | Outcome(ok: bool)                 // a connection wait, a stream end
    | Message(response: Response)       // Read returns a response
    | EndOfStream                       // Read returns false

  datatype Action =
    | Run(choice: Choice)
    | ShutdownCheck
    | ShutdownClear
    | ShutdownCancel
    | ShutdownIgnored                   // a whole Shutdown that finds the flag down

  function Init(): State {
    State(false, None, 0, 0, {}, false, Start, 1, [], 0, map[], 0, 0, 0, 0, [], [], [])
  }

  predicate RunEnabled(s: State, c: Choice) {
    match s.pc
    case Connect => c.Outcome?
    case Read => c.Message? || c.EndOfStream?
    case Finish => c.Outcome?
    case Done => false
    case _ => c.Go?
  }

  function RunStep(s: State, c: Choice): State
    requires RunEnabled(s, c)
  {
    match s.pc
    case Start => s.(active := true, backoff := 1, pc := LoopTop)
    case LoopTop => s.(pc := if s.active then Connect else Done)
    case Connect =>
      var waits := s.waits + [Wait(s.backoff, c.ok)];
      if c.ok then s.(backoff := 1, waits := waits, pc := Subscribe)
      else s.(backoff := if s.backoff < 10 then s.backoff + 1 else s.backoff, waits := waits, pc := LoopTop)
    case Subscribe =>
      s.(context := Some(s.created), reader := s.created, created := s.created + 1, ended := false, pc := ReadCheck)
    case ReadCheck => s.(pc := if s.active then Read else Finish)
    case Read =>
      if c.Message?
      then
        s.(response := c.response, received := s.received + [c.response], taken := 0, changes := map[],
           pc := Collect)
      else s.(ended := true, pc := Finish)
    case Collect =>
      if s.taken < |s.response| && s.active then
        var (path, value) := s.response[s.taken];
        s.(taken := s.taken + 1, changes := if path in s.changes then s.changes else s.changes[path := value])
      else
        s.(pc := CallbackCheck)
    case CallbackCheck => s.(pc := if s.active then Callback else ReadCheck)
    case Callback => s.(calls := s.calls + [(s.response, s.changes)], pc := ReadCheck)
    case Finish => s.(pc := if c.ok then Drop else FailCheck)
    case FailCheck => s.(pc := Drop)
    case Drop => s.(context := None, pc := LoopTop)
    case Done => s
  }

  predicate Enabled(s: State, a: Action) {
    match a
    case Run(c) => RunEnabled(s, c)
    case ShutdownCheck => s.active
    case ShutdownClear => s.clearing > 0
    case ShutdownCancel => s.cancelling > 0
    case ShutdownIgnored => !s.active
  }

  function Step(s: State, a: Action): State
    requires Enabled(s, a)
  {
    match a
    case Run(c) => RunStep(s, c)
    case ShutdownCheck => s.(clearing := s.clearing + 1)
    case ShutdownClear => s.(clearing := s.clearing - 1, cancelling := s.cancelling + 1, active := false)
    case ShutdownCancel =>
      s.(cancelling := s.cancelling - 1, stopped := s.stopped + 1,
         cancelled := if s.context.Some? then s.cancelled + {s.context.value} else s.cancelled)
    case ShutdownIgnored => s.(ignored := s.ignored + 1)
  }

  predicate Runs(s: State, actions: seq<Action>)
    decreases |actions|
  {
    actions != [] ==> Enabled(s, actions[0]) && Runs(Step(s, actions[0]), actions[1..])
  }

  function Exec(s: State, actions: seq<Action>): State
    requires Runs(s, actions)
    decreases |actions|
  {
    if actions == [] then s else Exec(Step(s, actions[0]), actions[1..])
  }

  // ----- vocabulary

  /** The first value listed for each path. */
  function FirstValues(response: Response): map<string, string> {
    if response == [] then map[]
    else
      var before := FirstValues(response[..|response| - 1]);
      var (path, value) := response[|response| - 1];
      if path in before then before else before[path := value]
  }

  /** How many waits in a row have just failed. */
  function FailuresInARow(waits: seq<Wait>): nat {
    if waits == [] || waits[|waits| - 1].connected then 0 else 1 + FailuresInARow(waits[..|waits| - 1])
  }

  function Min(a: nat, b: nat): nat {
    if a < b then a else b
  }

  // ----- invariant

  predicate Streaming(pc: Pc) {
    pc == ReadCheck || pc == Read || pc == Collect || pc == CallbackCheck || pc == Callback
    || pc == Finish || pc == FailCheck || pc == Drop
  }

  /** Past the check of the read loop. */
  predicate Reading(pc: Pc) {
    pc == Read || pc == Collect || pc == CallbackCheck || pc == Callback
  }

  ghost predicate ContextInv(s: State) {
    // the context exists exactly while a stream is open
    && (if Streaming(s.pc) then s.context == Some(s.reader) else s.context == None)
    // the flag stays raised until a shutdown clears it
    && (s.pc == Start ==> !s.active && s.clearing == 0)
    && (s.cancelling > 0 || s.stopped > 0 ==> !s.active && s.pc != Start)
    && (s.active ==> s.pc != Start && s.pc != Done)
    // a returned shutdown has cancelled what is being read
    && (s.stopped > 0 && Reading(s.pc) ==> s.reader in s.cancelled)
    && (s.pc == ReadCheck || Reading(s.pc) ==> !s.ended)
    // subscriptions are numbered in the order they are made
    && (s.context.Some? ==> s.context.value < s.created)
    && (forall c :: c in s.cancelled ==> c < s.created)
  }

  /** While the flag is up, no update has been skipped. */
  ghost predicate CollectInv(s: State) {
    && s.taken <= |s.response|
    && ((s.pc == Collect || s.pc == CallbackCheck || s.pc == Callback) ==>
          s.changes == FirstValues(s.response[..s.taken]))
    && (s.pc == CallbackCheck && s.active ==> s.taken == |s.response|)
    && (s.pc == Callback ==> s.taken == |s.response|)
    && (forall i :: 0 <= i < |s.calls| ==> s.calls[i].1 == FirstValues(s.calls[i].0))
  }

  ghost predicate BackoffInv(s: State) {
    && (s.pc != Start ==> s.backoff == Min(1 + FailuresInARow(s.waits), 10))
    && (s.pc == Start ==> s.waits == [])
    && WaitsCountFailures(s.waits)
  }

  ghost predicate WaitsCountFailures(waits: seq<Wait>) {
    forall i :: 0 <= i < |waits| ==> waits[i].seconds == Min(1 + FailuresInARow(waits[..i]), 10)
  }

  lemma AppendWait(waits: seq<Wait>, w: Wait)
    requires WaitsCountFailures(waits) && w.seconds == Min(1 + FailuresInARow(waits), 10)
    ensures WaitsCountFailures(waits + [w])
    ensures FailuresInARow(waits + [w]) == if w.connected then 0 else 1 + FailuresInARow(waits)
  {
    var longer := waits + [w];
    assert longer[..|waits|] == waits;
    forall i | 0 <= i < |longer| ensures longer[i].seconds == Min(1 + FailuresInARow(longer[..i]), 10) {
      if i < |waits| {
        assert longer[..i] == waits[..i] && longer[i] == waits[i];
      }
    }
  }

  ghost predicate Inv(s: State) {
    ContextInv(s) && CollectInv(s) && BackoffInv(s)
  }

  /** Steps that leave the context, the flag and the shutdowns alone. */
  lemma StreamStepContext(s: State, c: Choice)
    requires ContextInv(s) && RunEnabled(s, c) && Streaming(s.pc) && s.pc != Drop
    ensures ContextInv(RunStep(s, c))
  {
    var s' := RunStep(s, c);
    assert s'.context == s.context && s'.reader == s.reader && s'.cancelled == s.cancelled && s'.created == s.created;
    assert s'.active == s.active && Streaming(s'.pc);
  }

  lemma OuterStepContext(s: State, c: Choice)
    requires ContextInv(s) && RunEnabled(s, c) && (!Streaming(s.pc) || s.pc == Drop)
    ensures ContextInv(RunStep(s, c))
  {
    assert RunStep(s, c).cancelled == s.cancelled;
  }

  lemma RunStepContext(s: State, c: Choice)
    requires ContextInv(s) && RunEnabled(s, c)
    ensures ContextInv(RunStep(s, c))
  {
    if Streaming(s.pc) && s.pc != Drop {
      StreamStepContext(s, c);
    } else {
      OuterStepContext(s, c);
    }
  }

  lemma TakeUpdate(s: State, c: Choice)
    requires CollectInv(s) && RunEnabled(s, c) && s.pc == Collect
    ensures CollectInv(RunStep(s, c))
  {
    if s.taken < |s.response| {
      assert s.response[..s.taken + 1][..s.taken] == s.response[..s.taken];
    }
  }

  lemma MakeCall(s: State, c: Choice)
    requires CollectInv(s) && RunEnabled(s, c) && s.pc == Callback
    ensures CollectInv(RunStep(s, c))
  {
    assert s.response[..s.taken] == s.response;
  }

  lemma RunStepCollect(s: State, c: Choice)
    requires ContextInv(s) && CollectInv(s) && RunEnabled(s, c)
    ensures CollectInv(RunStep(s, c))
  {
    if s.pc == Collect {
      TakeUpdate(s, c);
    } else if s.pc == Callback {
      MakeCall(s, c);
    } else {
      assert RunStep(s, c).calls == s.calls;
    }
  }

  lemma ConnectBackoff(s: State, c: Choice)
    requires BackoffInv(s) && RunEnabled(s, c) && s.pc == Connect
    ensures BackoffInv(RunStep(s, c))
  {
    AppendWait(s.waits, Wait(s.backoff, c.ok));
  }

  lemma OtherBackoff(s: State, c: Choice)
    requires RunEnabled(s, c) && s.pc != Connect && s.pc != Start
    ensures var s' := RunStep(s, c); s'.waits == s.waits && s'.backoff == s.backoff && s'.pc != Start
  {
  }

  lemma RunStepBackoff(s: State, c: Choice)
    requires BackoffInv(s) && RunEnabled(s, c)
    ensures BackoffInv(RunStep(s, c))
  {
    if s.pc == Connect {
      ConnectBackoff(s, c);
    } else if s.pc != Start {
      OtherBackoff(s, c);
    }
  }

  lemma StepKeeps(s: State, a: Action)
    requires Inv(s) && Enabled(s, a)
    ensures Inv(Step(s, a))
  {
    if a.Run? {
      RunStepContext(s, a.choice);
      RunStepCollect(s, a.choice);
      RunStepBackoff(s, a.choice);
    }
  }

  lemma {:induction false} RunKeeps(s: State, actions: seq<Action>)
    requires Inv(s) && Runs(s, actions)
    ensures Inv(Exec(s, actions))
    decreases |actions|
  {
    if actions != [] {
      StepKeeps(s, actions[0]);
      RunKeeps(Step(s, actions[0]), actions[1..]);
    }
  }

  // ----- results

  /** Once a `Shutdown` that found the flag raised has returned, any read the subscriber is
      still blocked in belongs to a cancelled context. */
  lemma BlockedReadIsCancelled(actions: seq<Action>)
    requires Runs(Init(), actions)
    ensures var s := Exec(Init(), actions);
      s.stopped > 0 && s.pc == Read ==> s.context == Some(s.reader) && s.reader in s.cancelled
  {
    RunKeeps(Init(), actions);
  }

  /** Every callback gets the first value of every path of its response: a shutdown in the
      middle of a response leads to no callback rather than to a partial one. */
  lemma CallbacksAreComplete(actions: seq<Action>, i: nat)
    requires Runs(Init(), actions) && i < |Exec(Init(), actions).calls|
    ensures var (response, changes) := Exec(Init(), actions).calls[i];
      changes == FirstValues(response)
  {
    RunKeeps(Init(), actions);
  }

  // ----- every response is delivered

  /** Between reading a response and being done with it. */
  predicate Handling(pc: Pc) {
    pc == Collect || pc == CallbackCheck || pc == Callback
  }

  /** The callbacks so far were for the responses in order, and a new response is read only when the
      one before has been called back. */
  ghost predicate ReadInv(s: State) {
    && |s.calls| <= |s.received| <= |s.calls| + 1
    && (forall i :: 0 <= i < |s.calls| ==> s.calls[i].0 == s.received[i])
    && (Handling(s.pc) ==> |s.received| == |s.calls| + 1 && s.response == s.received[|s.calls|])
    && (s.pc == Read || s.pc == Start || (s.active && !Handling(s.pc)) ==> |s.received| == |s.calls|)
  }

  lemma HandlingStep(s: State, c: Choice)
    requires ContextInv(s) && ReadInv(s) && RunEnabled(s, c) && (s.pc == Read || s.pc == Callback)
    ensures ReadInv(RunStep(s, c))
  {
  }

  lemma OtherReadStep(s: State, c: Choice)
    requires ContextInv(s) && ReadInv(s) && RunEnabled(s, c) && s.pc != Read && s.pc != Callback
    ensures ReadInv(RunStep(s, c))
  {
    var s' := RunStep(s, c);
    assert s'.calls == s.calls && s'.received == s.received && s'.response == s.response;
  }

  lemma ReadStep(s: State, a: Action)
    requires ContextInv(s) && ReadInv(s) && Enabled(s, a)
    ensures ReadInv(Step(s, a))
  {
    if a.Run? {
      if s.pc == Read || s.pc == Callback {
        HandlingStep(s, a.choice);
      } else {
        OtherReadStep(s, a.choice);
      }
    }
  }

  lemma {:induction false} ReadRun(s: State, actions: seq<Action>)
    requires Inv(s) && ReadInv(s) && Runs(s, actions)
    ensures ReadInv(Exec(s, actions))
    decreases |actions|
  {
    if actions != [] {
      StepKeeps(s, actions[0]);
      ReadStep(s, actions[0]);
      ReadRun(Step(s, actions[0]), actions[1..]);
    }
  }

  /** The callbacks are made for the responses in the order they were read, one for each, with the
      first value of every path; only the response at which a shutdown intervened can be without. */
  lemma OneCallbackPerResponse(actions: seq<Action>)
    requires Runs(Init(), actions)
    ensures var s := Exec(Init(), actions);
      && |s.calls| <= |s.received| <= |s.calls| + 1
      && (forall i :: 0 <= i < |s.calls| ==> s.calls[i] == (s.received[i], FirstValues(s.received[i])))
      && (s.active && !Handling(s.pc) ==> |s.received| == |s.calls|)
  {
    RunKeeps(Init(), actions);
    ReadRun(Init(), actions);
    var s := Exec(Init(), actions);
    forall i | 0 <= i < |s.calls| ensures s.calls[i] == (s.received[i], FirstValues(s.received[i])) {
      assert s.calls[i].1 == FirstValues(s.calls[i].0);
    }
  }

  /** How many steps of `Run` are left until the callback for the response at hand. */
  function StepsToCallback(s: State): nat {
    match s.pc
    case Collect => if s.taken <= |s.response| then |s.response| - s.taken + 3 else 0
    case CallbackCheck => 2
    case Callback => 1
    case _ => 0
  }

  ghost predicate BeingDelivered(s: State, r: Response, i: nat) {
    Inv(s) && s.active && |s.calls| == i && s.response == r && Handling(s.pc)
  }

  lemma DeliveringStep(s: State, a: Action, r: Response, i: nat)
    requires BeingDelivered(s, r, i) && Enabled(s, a) && a != ShutdownClear
    ensures var s' := Step(s, a);
      || (|s'.calls| == i + 1 && s'.calls[i] == (r, FirstValues(r)) && s.pc == Callback && a.Run?)
      || (BeingDelivered(s', r, i) && StepsToCallback(s') + (if a.Run? then 1 else 0) == StepsToCallback(s))
  {
    StepKeeps(s, a);
    if s.pc == Callback {
      assert s.response[..s.taken] == s.response;
    }
  }

  lemma CallsGrowStep(s: State, a: Action)
    requires Enabled(s, a)
    ensures s.calls <= Step(s, a).calls
  {
    if !(a.Run? && s.pc == Callback) {
      assert Step(s, a).calls == s.calls;
    }
  }

  lemma {:induction false} CallsGrow(s: State, actions: seq<Action>)
    requires Runs(s, actions)
    ensures s.calls <= Exec(s, actions).calls
    decreases |actions|
  {
    if actions != [] {
      CallsGrowStep(s, actions[0]);
      CallsGrow(Step(s, actions[0]), actions[1..]);
    }
  }

  lemma {:induction false} DeliveringRun(s: State, actions: seq<Action>, r: Response, i: nat)
    requires BeingDelivered(s, r, i) && Runs(s, actions) && ShutdownClear !in actions
    requires RunSteps(actions) >= StepsToCallback(s)
    ensures var calls := Exec(s, actions).calls; i < |calls| && calls[i] == (r, FirstValues(r))
    decreases |actions|
  {
    if actions != [] {
      var s' := Step(s, actions[0]);
      DeliveringStep(s, actions[0], r, i);
      if |s'.calls| == i {
        DeliveringRun(s', actions[1..], r, i);
      } else {
        CallsGrow(s', actions[1..]);
      }
    }
  }

  /** Whatever is read while the flag is up is called back: after a response with `|r|` updates, at the
      latest `|r| + 3` steps of `Run` later, unless a shutdown clears the flag. */
  lemma ResponseIsDelivered(before: seq<Action>, r: Response, after: seq<Action>)
    requires Runs(Init(), before) && Exec(Init(), before).pc == Read && Exec(Init(), before).active
    requires Runs(Step(Exec(Init(), before), Run(Message(r))), after)
    requires ShutdownClear !in after && RunSteps(after) >= |r| + 3
    ensures var s := Exec(Init(), before);
      var calls := Exec(Step(s, Run(Message(r))), after).calls;
      |s.calls| < |calls| && calls[|s.calls|] == (r, FirstValues(r))
  {
    RunKeeps(Init(), before);
    var s := Exec(Init(), before);
    StepKeeps(s, Run(Message(r)));
    DeliveringRun(Step(s, Run(Message(r))), after, r, |s.calls|);
  }

  // ----- while the flag is up, the next response is waited for

  /** Waits for the connection succeed, and nobody clears the flag. */
  predicate Cooperates(a: Action) {
    a != ShutdownClear && a != Run(Outcome(false))
  }

  /** How many steps of `Run` are left until it reads. */
  function StepsToRead(s: State): nat {
    match s.pc
    case Read => 0
    case ReadCheck => 1
    case Subscribe | Callback => 2
    case Connect | CallbackCheck => 3
    case LoopTop => 4
    case Drop => 5
    case FailCheck => 6
    case Finish => 7
    case Collect => if s.taken <= |s.response| then |s.response| - s.taken + 4 else 0
    case Start | Done => 0
  }

  lemma CloserToRead(s: State, a: Action)
    requires Inv(s) && s.active && Enabled(s, a) && Cooperates(a) && s.pc != Read
    ensures Step(s, a).active && StepsToRead(Step(s, a)) + (if a.Run? then 1 else 0) <= StepsToRead(s)
  {
  }

  /** Somewhere in the run `Run` is reading. */
  ghost predicate VisitsRead(s: State, actions: seq<Action>)
    requires Runs(s, actions)
    decreases |actions|
  {
    s.pc == Read || (actions != [] && VisitsRead(Step(s, actions[0]), actions[1..]))
  }

  lemma {:induction false} VisitsReadFrom(s: State, actions: seq<Action>)
    requires Inv(s) && s.active && Runs(s, actions)
    requires forall i :: 0 <= i < |actions| ==> Cooperates(actions[i])
    requires RunSteps(actions) >= StepsToRead(s)
    ensures VisitsRead(s, actions)
    decreases |actions|
  {
    if s.pc != Read && actions != [] {
      assert Cooperates(actions[0]);
      CloserToRead(s, actions[0]);
      StepKeeps(s, actions[0]);
      VisitsReadFrom(Step(s, actions[0]), actions[1..]);
    }
  }

  /** From wherever it stands with the flag up, `Run` comes to read within seven steps, and within four
      more than there are updates left if it is handling a response. */
  lemma ReadsAgain(before: seq<Action>, after: seq<Action>)
    requires Runs(Init(), before) && Exec(Init(), before).active && Runs(Exec(Init(), before), after)
    requires forall i :: 0 <= i < |after| ==> Cooperates(after[i])
    requires RunSteps(after) >= StepsToRead(Exec(Init(), before))
    ensures VisitsRead(Exec(Init(), before), after)
  {
    RunKeeps(Init(), before);
    VisitsReadFrom(Exec(Init(), before), after);
  }

  /** How many waits have succeeded. */
  function Successes(waits: seq<Wait>): nat {
    if waits == [] then 0
    else Successes(waits[..|waits| - 1]) + if waits[|waits| - 1].connected then 1 else 0
  }

  predicate SubscriptionsMatch(s: State) {
    Successes(s.waits) == s.created + if s.pc == Subscribe then 1 else 0
  }

  lemma SubscriptionStep(s: State, c: Choice)
    requires SubscriptionsMatch(s) && RunEnabled(s, c)
    ensures SubscriptionsMatch(RunStep(s, c))
  {
    if s.pc == Connect {
      SuccessesAppend(s.waits, Wait(s.backoff, c.ok));
    } else if s.pc != Start {
      OtherBackoff(s, c);
      OtherCreated(s, c);
    }
  }

  lemma SuccessesAppend(waits: seq<Wait>, w: Wait)
    ensures Successes(waits + [w]) == Successes(waits) + if w.connected then 1 else 0
  {
    assert (waits + [w])[..|waits|] == waits;
  }

  lemma OtherCreated(s: State, c: Choice)
    requires RunEnabled(s, c) && s.pc != Connect
    ensures var s' := RunStep(s, c); s'.pc != Subscribe && s'.created == s.created + if s.pc == Subscribe then 1 else 0
  {
  }

  /** There is one subscription for every wait that succeeded, and none for one that failed. */
  lemma {:induction false} SubscribesIffConnected(s: State, actions: seq<Action>)
    requires SubscriptionsMatch(s) && Runs(s, actions)
    ensures SubscriptionsMatch(Exec(s, actions))
    decreases |actions|
  {
    if actions != [] {
      if actions[0].Run? {
        SubscriptionStep(s, actions[0].choice);
      }
      SubscribesIffConnected(Step(s, actions[0]), actions[1..]);
    }
  }

  /** After k failed waits in a row the next one lasts min(1 + k, 10) seconds, and a success
      starts over, in every run. */
  lemma BackoffCountsFailures(actions: seq<Action>, i: nat)
    requires Runs(Init(), actions) && i < |Exec(Init(), actions).waits|
    ensures var waits := Exec(Init(), actions).waits;
      && waits[i].seconds == Min(1 + FailuresInARow(waits[..i]), 10)
      && (i > 0 && waits[i - 1].connected ==> waits[i].seconds == 1)
  {
    RunKeeps(Init(), actions);
    var waits := Exec(Init(), actions).waits;
    assert WaitsCountFailures(waits);
    if i > 0 && waits[i - 1].connected {
      var before := waits[..i];
      assert before[|before| - 1] == waits[i - 1];
      assert FailuresInARow(before) == 0;
    }
  }

  /** First values, independently: the listed value with the least position. */
  lemma {:induction false} FirstValuesMeaning(response: Response, path: string)
    ensures path in FirstValues(response) <==> exists i :: 0 <= i < |response| && response[i].0 == path
    ensures path in FirstValues(response) ==>
      exists i :: 0 <= i < |response| && response[i] == (path, FirstValues(response)[path])
               && forall j :: 0 <= j < i ==> response[j].0 != path
  {
    if response != [] {
      var n := |response| - 1;
      var before := response[..n];
      FirstValuesMeaning(before, path);
      if path in FirstValues(before) {
        var i :| 0 <= i < n && before[i] == (path, FirstValues(before)[path])
              && forall j :: 0 <= j < i ==> before[j].0 != path;
        assert response[i] == before[i];
        assert forall j :: 0 <= j < i ==> response[j] == before[j];
      } else {
        assert forall j :: 0 <= j < n ==> before[j] == response[j] && response[j].0 != path;
        if response[n].0 == path {
          assert response[n] == (path, FirstValues(response)[path]);
        }
      }
    }
  }

  // ----- after the flag is cleared

  const MAX_STEPS := 8

  /** An upper bound on the steps `Run` still takes once the flag is cleared. */
  function StepsLeft(pc: Pc): (n: nat)
    ensures n <= MAX_STEPS
  {
    match pc
    case Done | Start => 0
    case LoopTop => 1
    case Drop => 2
    case FailCheck => 3
    case Finish => 4
    case ReadCheck => 5
    case CallbackCheck | Callback | Subscribe => 6
    case Collect | Connect => 7
    case Read => 8
  }

  function RunSteps(actions: seq<Action>): nat
    decreases |actions|
  {
    if actions == [] then 0 else (if actions[0].Run? then 1 else 0) + RunSteps(actions[1..])
  }

  lemma StepAfterClear(s: State, a: Action)
    requires Enabled(s, a) && !s.active && s.pc != Start
    ensures var s' := Step(s, a);
      && !s'.active && s'.pc != Start
      && StepsLeft(s'.pc) + (if a.Run? then 1 else 0) <= StepsLeft(s.pc)
      && |s'.calls| + (if s'.pc == Callback then 1 else 0) <= |s.calls| + (if s.pc == Callback then 1 else 0)
  {
  }

  /** After the flag is cleared `Run` takes at most eight more steps, and calls back at most once
      more: only if it was already past its last check. Whether it gets to take those steps is a
      matter of the calls it makes; see `StaysUncancelledExactly`. */
  lemma {:induction false} ShutdownBounds(s: State, actions: seq<Action>)
    requires Runs(s, actions) && !s.active && s.pc != Start
    ensures var s' := Exec(s, actions);
      && RunSteps(actions) + StepsLeft(s'.pc) <= StepsLeft(s.pc) <= MAX_STEPS
      && |s'.calls| + (if s'.pc == Callback then 1 else 0) <= |s.calls| + (if s.pc == Callback then 1 else 0)
    decreases |actions|
  {
    if actions != [] {
      StepAfterClear(s, actions[0]);
      ShutdownBounds(Step(s, actions[0]), actions[1..]);
    }
  }

  /** `Run` is in a call that only the broker can end: the stream is open and nobody has cancelled it. */
  predicate NeedsBroker(s: State) {
    (s.pc == Read || s.pc == Finish) && !s.ended && s.reader !in s.cancelled
  }

  /** A step that does not depend on the broker ending or feeding an open stream. */
  predicate CanGoOn(s: State, c: Choice) {
    RunEnabled(s, c) && !NeedsBroker(s)
  }

  /** Until it is done `Run` can always go on by itself, except in such a call. */
  lemma RunCanStep(s: State)
    ensures (exists c :: CanGoOn(s, c)) <==> s.pc != Done && !NeedsBroker(s)
  {
    if s.pc != Done && !NeedsBroker(s) {
      var c := if s.pc == Connect || s.pc == Finish then Outcome(false) else if s.pc == Read then EndOfStream else Go;
      assert CanGoOn(s, c);
    }
  }

  /** Every `Shutdown` that found the flag raised has returned. */
  predicate AllReturned(s: State) {
    s.stopped > 0 && s.clearing == 0 && s.cancelling == 0
  }

  /** The subscription is yet to be made, or was made after the last cancellation and not read from. */
  predicate SubscribesTooLate(s: State) {
    || s.pc == Connect || s.pc == Subscribe
    || ((s.pc == ReadCheck || s.pc == Finish) && !s.ended && s.reader !in s.cancelled)
  }

  lemma TooLateKept(s: State, a: Action)
    requires Inv(s) && AllReturned(s) && !SubscribesTooLate(s) && Enabled(s, a)
    ensures AllReturned(Step(s, a)) && !SubscribesTooLate(Step(s, a))
  {
  }

  lemma {:induction false} NeverTooLate(s: State, actions: seq<Action>)
    requires Inv(s) && AllReturned(s) && !SubscribesTooLate(s) && Runs(s, actions)
    ensures !NeedsBroker(Exec(s, actions))
    decreases |actions|
  {
    if actions != [] {
      StepKeeps(s, actions[0]);
      TooLateKept(s, actions[0]);
      NeverTooLate(Step(s, actions[0]), actions[1..]);
    }
  }

  /** Some run leads from `s` into a call that only the broker can end. */
  ghost predicate MayNeedBroker(s: State) {
    exists actions :: Runs(s, actions) && NeedsBroker(Exec(s, actions))
  }

  lemma StepMayNeed(s: State, a: Action)
    requires Enabled(s, a) && MayNeedBroker(Step(s, a))
    ensures MayNeedBroker(s)
  {
    var actions :| Runs(Step(s, a), actions) && NeedsBroker(Exec(Step(s, a), actions));
    assert ([a] + actions)[1..] == actions;
    assert Runs(s, [a] + actions) && NeedsBroker(Exec(s, [a] + actions));
  }

  lemma TooLateNeeds(s: State)
    requires Inv(s) && AllReturned(s) && SubscribesTooLate(s)
    ensures MayNeedBroker(s)
  {
    match s.pc
    case Connect =>
      FreshNeeds(RunStep(s, Outcome(true)));
      StepMayNeed(s, Run(Outcome(true)));
    case Subscribe => FreshNeeds(s);
    case ReadCheck =>
      NeedsNow(RunStep(s, Go));
      StepMayNeed(s, Run(Go));
    case Finish => NeedsNow(s);
  }

  lemma NeedsNow(s: State)
    requires NeedsBroker(s)
    ensures MayNeedBroker(s)
  {
    assert Runs(s, []) && NeedsBroker(Exec(s, []));
  }

  /** A subscription made with the flag down is finished without being read or cancelled. */
  lemma FreshNeeds(s: State)
    requires s.pc == Subscribe && !s.active && s.created !in s.cancelled
    ensures MayNeedBroker(s)
  {
    var s1 := RunStep(s, Go);
    var s2 := RunStep(s1, Go);
    NeedsNow(s2);
    StepMayNeed(s1, Run(Go));
    StepMayNeed(s, Run(Go));
  }

  /** After every `Shutdown` has returned, `Run` can come to depend on the broker exactly if it was
      about to subscribe, or had subscribed after the last cancellation: such a subscription is not
      read, and `Finish` waits for the end of a live stream that nobody cancels any more. */
  lemma StaysUncancelledExactly(actions: seq<Action>)
    requires Runs(Init(), actions) && AllReturned(Exec(Init(), actions))
    ensures MayNeedBroker(Exec(Init(), actions)) <==> SubscribesTooLate(Exec(Init(), actions))
  {
    RunKeeps(Init(), actions);
    var s := Exec(Init(), actions);
    if SubscribesTooLate(s) {
      TooLateNeeds(s);
    } else {
      forall more | Runs(s, more) ensures !NeedsBroker(Exec(s, more)) {
        NeverTooLate(s, more);
      }
    }
  }

  /** Nobody but the broker can then end the call: no other thread has a step that changes anything. */
  lemma {:induction false} OnlyBrokerEnds(s: State, actions: seq<Action>)
    requires Inv(s) && AllReturned(s) && NeedsBroker(s) && Runs(s, actions) && RunSteps(actions) == 0
    ensures NeedsBroker(Exec(s, actions)) && AllReturned(Exec(s, actions))
    decreases |actions|
  {
    if actions != [] {
      StepKeeps(s, actions[0]);
      OnlyBrokerEnds(Step(s, actions[0]), actions[1..]);
    }
  }

  /** Outside that condition `Run` returns by itself: in at most eight steps, none of which waits for
      the broker. */
  lemma {:induction false} OtherwiseRunReturns(before: seq<Action>, after: seq<Action>)
    requires Runs(Init(), before) && Runs(Exec(Init(), before), after)
    requires var s := Exec(Init(), before); AllReturned(s) && !SubscribesTooLate(s)
    ensures RunSteps(after) <= MAX_STEPS
    ensures var t := Exec(Exec(Init(), before), after); t.pc == Done || exists c :: CanGoOn(t, c)
  {
    RunKeeps(Init(), before);
    var s := Exec(Init(), before);
    ShutdownBounds(s, after);
    NeverTooLate(s, after);
    RunCanStep(Exec(s, after));
  }

  /** The window is real: a whole `Shutdown` fits into the wait for the connection. */
  lemma ShutdownCanMissSubscription()
    ensures exists actions ::
      && Runs(Init(), actions) && AllReturned(Exec(Init(), actions)) && MayNeedBroker(Exec(Init(), actions))
  {
    var s1 := Step(Init(), Run(Go));
    var s2 := Step(s1, Run(Go));
    var shutdown := WholeShutdown(s2);
    Prepend(s1, Run(Go), shutdown);
    Prepend(Init(), Run(Go), [Run(Go)] + shutdown);
    StaysUncancelledExactly([Run(Go)] + ([Run(Go)] + shutdown));
  }

  lemma WholeShutdown(s: State) returns (actions: seq<Action>)
    requires s.active && s.clearing == 0 && s.cancelling == 0
    ensures Runs(s, actions) && AllReturned(Exec(s, actions)) && Exec(s, actions).pc == s.pc
  {
    var s1 := Step(s, ShutdownCheck);
    var s2 := Step(s1, ShutdownClear);
    Prepend(s2, ShutdownCancel, []);
    Prepend(s1, ShutdownClear, [ShutdownCancel]);
    actions := [ShutdownCheck] + ([ShutdownClear] + [ShutdownCancel]);
    Prepend(s, ShutdownCheck, [ShutdownClear] + [ShutdownCancel]);
  }

  lemma Prepend(s: State, a: Action, rest: seq<Action>)
    requires Enabled(s, a) && Runs(Step(s, a), rest)
    ensures Runs(s, [a] + rest) && Exec(s, [a] + rest) == Exec(Step(s, a), rest)
  {
    assert ([a] + rest)[1..] == rest;
  }

  /** A `Shutdown` that comes before `Run` has raised the flag finds it down, does nothing and is
      gone: nothing then bounds the steps of `Run`. */
  lemma EarlyShutdownIgnored(n: nat)
    ensures exists actions ::
      && Runs(Init(), [ShutdownIgnored] + actions)
      && RunSteps(actions) == |actions| > n
      && Exec(Init(), [ShutdownIgnored] + actions).active
  {
    var s0 := Step(Init(), ShutdownIgnored);
    var rest := KeepConnecting(Step(s0, Run(Go)), n);
    Prepend(s0, Run(Go), rest);
    Prepend(Init(), ShutdownIgnored, [Run(Go)] + rest);
    assert ([Run(Go)] + rest)[1..] == rest;
    assert RunSteps([Run(Go)] + rest) == 1 + RunSteps(rest);
  }

  lemma {:induction false} KeepConnecting(s: State, n: nat) returns (actions: seq<Action>)
    requires s.pc == LoopTop && s.active
    ensures Runs(s, actions) && RunSteps(actions) == |actions| >= n && Exec(s, actions).active
    decreases n
  {
    if n == 0 {
      actions := [];
    } else {
      var s1 := Step(s, Run(Go));
      var s2 := Step(s1, Run(Outcome(false)));
      var rest := KeepConnecting(s2, n - 1);
      var more := [Run(Outcome(false))] + rest;
      Prepend(s1, Run(Outcome(false)), rest);
      Prepend(s, Run(Go), more);
      actions := [Run(Go)] + more;
      assert more[1..] == rest && actions[1..] == more;
    }
  }
}
