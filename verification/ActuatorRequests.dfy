/** From a set of actuator values to SOME/IP requests: every matched node writes its field into
    one payload shared by all of them, and sends that payload as it then stands. */
module ActuatorRequests {
  import opened Bytes
  import opened PayloadCodec

  type Targets = map<string, Datapoint>

  /** A node that has a new value, with the ids of its mapping. */
  datatype Match = Match(serviceId: nat, instanceId: nat, node: Node)

  datatype Request = Request(serviceId: nat, instanceId: nat, methodId: nat, payload: seq<byte>)

  datatype Write = Write(at: nat, bytes: seq<byte>)

  const ZEROS: seq<byte> := [0, 0, 0, 0, 0, 0]

  // ----- what is sent

  function MatchedNodes(m: Mapping, nodes: seq<Node>, targets: Targets): (r: seq<Match>)
    ensures forall x :: x in r ==> x.node in nodes && x.node.name in targets
  {
    if nodes == [] then []
    else
      (if nodes[0].name in targets then [Match(m.serviceId, m.instanceId, nodes[0])] else []) +
      MatchedNodes(m, nodes[1..], targets)
  }

  /** The nodes that take part, in the order of the configuration. */
  function Matched(config: seq<Mapping>, targets: Targets): (r: seq<Match>)
    ensures forall x :: x in r ==> x.node.name in targets
  {
    if config == [] then []
    else
      (if config[0].serviceType == "Method" then MatchedNodes(config[0], config[0].nodes, targets) else []) +
      Matched(config[1..], targets)
  }

  /** The configuration fits the values of all matched nodes. */
  predicate AllEncodable(config: seq<Mapping>, targets: Targets) {
    forall i, j :: 0 <= i < |config| && 0 <= j < |config[i].nodes| ==>
      NodeEncodable(config[i], config[i].nodes[j], targets)
  }

  predicate NodeEncodable(mapping: Mapping, node: Node, targets: Targets) {
    mapping.serviceType == "Method" && node.name in targets ==> Encodable(node, targets[node.name])
  }

  function WriteOf(m: Match, targets: Targets): (w: Write)
    ensures InRange(w)
  {
    if m.node.name in targets && Encodable(m.node, targets[m.node.name])
    then Write(m.node.byteOffset, Field(m.node, targets[m.node.name]))
    else Write(m.node.byteOffset, [])
  }

  function Writes(matches: seq<Match>, targets: Targets): (r: seq<Write>)
    ensures |r| == |matches| && AllInRange(r)
  {
    seq(|matches|, i requires 0 <= i < |matches| => WriteOf(matches[i], targets))
  }

  predicate InRange(w: Write) {
    w.bytes == [] || w.at + |w.bytes| <= PAYLOAD_SIZE
  }

  predicate AllInRange(writes: seq<Write>) {
    forall i :: 0 <= i < |writes| ==> InRange(writes[i])
  }

  /** The writes applied one after the other. */
  function OverlayAll(buf: seq<byte>, writes: seq<Write>): (r: seq<byte>)
    requires |buf| == PAYLOAD_SIZE && AllInRange(writes)
    ensures |r| == PAYLOAD_SIZE
    decreases |writes|
  {
    if writes == [] then buf
    else
      var n := |writes| - 1;
      Overlay(OverlayAll(buf, writes[..n]), writes[n].at, writes[n].bytes)
  }

  predicate Sendable(m: Match, ready: bool) {
    ready && m.serviceId != 0 && m.instanceId != 0 && m.node.methodId != 0
  }

  /** The k-th matched node sends the overlay of the writes of the first k. */
  function Requests(matches: seq<Match>, targets: Targets, ready: bool): seq<Request>
    decreases |matches|
  {
    if matches == [] then []
    else
      var n := |matches| - 1;
      var m := matches[n];
      Requests(matches[..n], targets, ready) +
      (if Sendable(m, ready)
       then [Request(m.serviceId, m.instanceId, m.node.methodId, OverlayAll(ZEROS, Writes(matches, targets)))]
       else [])
  }

  // ----- the code

  /** The payload and the requests are those of the nodes done so far. */
  ghost predicate UpToDate(payload: seq<byte>, sent: seq<Request>, done: seq<Match>, targets: Targets, ready: bool) {
    payload == OverlayAll(ZEROS, Writes(done, targets)) && sent == Requests(done, targets, ready)
  }

  /** One matched node: write the field, then send the payload. */
  method SendNode(payload: array<byte>, m: Match, targets: Targets, ready: bool, already: seq<Request>,
                  ghost done: seq<Match>)
    returns (sent: seq<Request>)
    requires payload.Length == PAYLOAD_SIZE && UpToDate(payload[..], already, done, targets, ready)
    requires m.node.name in targets && Encodable(m.node, targets[m.node.name])
    modifies payload
    ensures UpToDate(payload[..], sent, done + [m], targets, ready)
  {
    WriteField(payload, m.node, targets[m.node.name]);
    StepOverlay(done, m, targets, ready);
    sent := already;
    if ready && m.serviceId != 0 && m.instanceId != 0 && m.node.methodId != 0 {
      sent := sent + [Request(m.serviceId, m.instanceId, m.node.methodId, payload[..])];
    }
  }

  /** The nodes of one mapping. */
  method SendMapping(payload: array<byte>, mapping: Mapping, targets: Targets, ready: bool, already: seq<Request>,
                     ghost done: seq<Match>)
    returns (sent: seq<Request>)
    requires payload.Length == PAYLOAD_SIZE && UpToDate(payload[..], already, done, targets, ready)
    requires mapping.serviceType == "Method"
    requires forall j :: 0 <= j < |mapping.nodes| ==> NodeEncodable(mapping, mapping.nodes[j], targets)
    modifies payload
    ensures UpToDate(payload[..], sent, done + MatchedNodes(mapping, mapping.nodes, targets), targets, ready)
  {
    sent := already;
    ghost var now := done;
    var j := 0;
    while j < |mapping.nodes|
      invariant j <= |mapping.nodes|
      invariant now + MatchedNodes(mapping, mapping.nodes[j..], targets)
             == done + MatchedNodes(mapping, mapping.nodes, targets)
      invariant UpToDate(payload[..], sent, now, targets, ready)
    {
      var node := mapping.nodes[j];
      NextNode(mapping, j, targets, now);
      if node.name in targets {
        var m := Match(mapping.serviceId, mapping.instanceId, node);
        assert NodeEncodable(mapping, node, targets);
        sent := SendNode(payload, m, targets, ready, sent, now);
        now := now + [m];
      }
      j := j + 1;
    }
    assert now + [] == now;
  }

  /** What is matched from node `j` on, split behind that node. */
  lemma {:induction false} NextNode(m: Mapping, j: nat, targets: Targets, now: seq<Match>)
    requires j < |m.nodes|
    ensures var rest := MatchedNodes(m, m.nodes[j + 1..], targets);
      now + MatchedNodes(m, m.nodes[j..], targets) ==
      if m.nodes[j].name in targets then now + [Match(m.serviceId, m.instanceId, m.nodes[j])] + rest else now + rest
  {
    assert m.nodes[j..][1..] == m.nodes[j + 1..];
    var rest := MatchedNodes(m, m.nodes[j + 1..], targets);
    Associative(now, [Match(m.serviceId, m.instanceId, m.nodes[j])], rest);
    assert [] + rest == rest;
  }

  /** The same for the mappings. */
  lemma {:induction false} NextMapping(config: seq<Mapping>, i: nat, targets: Targets, now: seq<Match>)
    requires i < |config|
    ensures var later := Matched(config[i + 1..], targets);
      now + Matched(config[i..], targets) ==
      if config[i].serviceType == "Method"
      then now + MatchedNodes(config[i], config[i].nodes, targets) + later else now + later
  {
    assert config[i..][1..] == config[i + 1..];
    var later := Matched(config[i + 1..], targets);
    Associative(now, MatchedNodes(config[i], config[i].nodes, targets), later);
    assert [] + later == later;
  }

  method OnActuatorChange(config: seq<Mapping>, targets: Targets, ready: bool) returns (sent: seq<Request>)
    requires AllEncodable(config, targets)
    ensures sent == Requests(Matched(config, targets), targets, ready)
  {
    var payload := new byte[PAYLOAD_SIZE](_ => 0);
    sent := [];
    ghost var done: seq<Match> := [];
    assert payload[..] == ZEROS;
    var i := 0;
    while i < |config|
      invariant i <= |config|
      invariant done + Matched(config[i..], targets) == Matched(config, targets)
      invariant UpToDate(payload[..], sent, done, targets, ready)
    {
      var mapping := config[i];
      NextMapping(config, i, targets, done);
      if mapping.serviceType == "Method" {
        sent := SendMapping(payload, mapping, targets, ready, sent, done);
        done := done + MatchedNodes(mapping, mapping.nodes, targets);
      }
      i := i + 1;
    }
    assert done + [] == done;
  }

  lemma Associative<T>(a: seq<T>, b: seq<T>, c: seq<T>)
    ensures a + (b + c) == (a + b) + c
  {
  }

  lemma {:induction false} WritesOneMore(done: seq<Match>, m: Match, targets: Targets)
    ensures Writes(done + [m], targets) == Writes(done, targets) + [WriteOf(m, targets)]
  {
    assert forall i :: 0 <= i < |done| ==> (done + [m])[i] == done[i];
  }

  lemma {:induction false} OverlayOneMore(buf: seq<byte>, writes: seq<Write>, w: Write)
    requires |buf| == PAYLOAD_SIZE && AllInRange(writes) && InRange(w)
    ensures AllInRange(writes + [w])
    ensures OverlayAll(buf, writes + [w]) == Overlay(OverlayAll(buf, writes), w.at, w.bytes)
  {
    assert (writes + [w])[..|writes|] == writes;
  }

  lemma {:induction false} StepOverlay(done: seq<Match>, m: Match, targets: Targets, ready: bool)
    ensures OverlayAll(ZEROS, Writes(done + [m], targets)) ==
      Overlay(OverlayAll(ZEROS, Writes(done, targets)), WriteOf(m, targets).at, WriteOf(m, targets).bytes)
    ensures Requests(done + [m], targets, ready) == Requests(done, targets, ready) +
      (if Sendable(m, ready)
       then [Request(m.serviceId, m.instanceId, m.node.methodId, OverlayAll(ZEROS, Writes(done + [m], targets)))]
       else [])
  {
    assert (done + [m])[..|done|] == done;
    WritesOneMore(done, m, targets);
    OverlayOneMore(ZEROS, Writes(done, targets), WriteOf(m, targets));
  }

  /** How many of the matched nodes can send. */
  function Senders(matches: seq<Match>, ready: bool): (n: nat)
    ensures n <= |matches|
    decreases |matches|
  {
    if matches == [] then 0
    else Senders(matches[..|matches| - 1], ready) + (if Sendable(matches[|matches| - 1], ready) then 1 else 0)
  }

  lemma {:induction false} OneRequestEach(matches: seq<Match>, targets: Targets, ready: bool)
    ensures |Requests(matches, targets, ready)| == Senders(matches, ready)
    decreases |matches|
  {
    if matches != [] {
      OneRequestEach(matches[..|matches| - 1], targets, ready);
    }
  }

  /** Every matched node that can send does so, in its turn among those that can and under its own
      ids: the k-th node sends the overlay of the writes of nodes 1 to k on six zero bytes, whether
      or not those could send. */
  lemma {:induction false} KthRequest(matches: seq<Match>, targets: Targets, ready: bool, k: nat)
    requires k < |matches|
    requires ready && matches[k].serviceId != 0 && matches[k].instanceId != 0 && matches[k].node.methodId != 0
    ensures |Requests(matches, targets, ready)| == Senders(matches, ready)
    ensures Senders(matches[..k], ready) < Senders(matches, ready)
    ensures var m := matches[k];
      Requests(matches, targets, ready)[Senders(matches[..k], ready)] ==
      Request(m.serviceId, m.instanceId, m.node.methodId, OverlayAll(ZEROS, Writes(matches[..k + 1], targets)))
    decreases |matches|
  {
    var n := |matches| - 1;
    OneRequestEach(matches, targets, ready);
    OneRequestEach(matches[..n], targets, ready);
    if k == n {
      assert matches[..k + 1] == matches;
    } else {
      KthRequest(matches[..n], targets, ready, k);
      assert matches[..n][..k + 1] == matches[..k + 1] && matches[..n][..k] == matches[..k];
    }
  }

  /** Nobody else sends: every request is that of a matched node whose three ids are nonzero, made with
      a client at hand. */
  lemma {:induction false} EveryRequestHasSender(matches: seq<Match>, targets: Targets, ready: bool, r: Request)
    requires r in Requests(matches, targets, ready)
    ensures ready
    ensures exists k ::
      && 0 <= k < |matches|
      && matches[k].serviceId != 0 && matches[k].instanceId != 0 && matches[k].node.methodId != 0
      && r == Request(matches[k].serviceId, matches[k].instanceId, matches[k].node.methodId,
                      OverlayAll(ZEROS, Writes(matches[..k + 1], targets)))
    decreases |matches|
  {
    var n := |matches| - 1;
    if r in Requests(matches[..n], targets, ready) {
      EveryRequestHasSender(matches[..n], targets, ready, r);
      var k :| 0 <= k < n
        && matches[..n][k].serviceId != 0 && matches[..n][k].instanceId != 0 && matches[..n][k].node.methodId != 0
        && r == Request(matches[..n][k].serviceId, matches[..n][k].instanceId, matches[..n][k].node.methodId,
                        OverlayAll(ZEROS, Writes(matches[..n][..k + 1], targets)));
      assert matches[..n][k] == matches[k] && matches[..n][..k + 1] == matches[..k + 1];
    } else {
      assert matches[..n + 1] == matches;
    }
  }

  // ----- what a payload holds

  predicate Covers(w: Write, p: nat) {
    w.at <= p < w.at + |w.bytes|
  }

  ghost predicate LastCovering(writes: seq<Write>, k: int, p: nat) {
    0 <= k < |writes| && Covers(writes[k], p) && forall j :: k < j < |writes| ==> !Covers(writes[j], p)
  }

  /** `k` is the last write that covers `p`, or -1 if none does. */
  ghost predicate Decides(writes: seq<Write>, k: int, p: nat) {
    if k == -1 then forall j :: 0 <= j < |writes| ==> !Covers(writes[j], p) else LastCovering(writes, k, p)
  }

  /** Dropping a last write that does not decide leaves the decision as it was. */
  lemma {:induction false} DecidesWithoutLast(writes: seq<Write>, k: int, p: nat)
    requires writes != [] && Decides(writes, k, p) && k != |writes| - 1
    ensures !Covers(writes[|writes| - 1], p) && Decides(writes[..|writes| - 1], k, p)
  {
    var n := |writes| - 1;
    assert forall j :: 0 <= j < n ==> writes[..n][j] == writes[j];
  }

  lemma ByteAfterWrite(buf: seq<byte>, w: Write, p: nat)
    requires |buf| == PAYLOAD_SIZE && InRange(w) && p < PAYLOAD_SIZE
    ensures Overlay(buf, w.at, w.bytes)[p] == if Covers(w, p) then w.bytes[p - w.at] else buf[p]
  {
  }

  /** Each byte comes from the last write that covers it, or else from the buffer. */
  lemma {:induction false} LastWriteWins(buf: seq<byte>, writes: seq<Write>, k: int, p: nat)
    requires |buf| == PAYLOAD_SIZE && AllInRange(writes) && p < PAYLOAD_SIZE && Decides(writes, k, p)
    ensures OverlayAll(buf, writes)[p] == if k == -1 then buf[p] else writes[k].bytes[p - writes[k].at]
    decreases |writes|
  {
    if writes != [] {
      var n := |writes| - 1;
      ByteAfterWrite(OverlayAll(buf, writes[..n]), writes[n], p);
      if k != n {
        DecidesWithoutLast(writes, k, p);
        LastWriteWins(buf, writes[..n], k, p);
      }
    }
  }

  /** Footprints do not meet. */
  ghost predicate Disjoint(writes: seq<Write>) {
    forall i, j, p :: 0 <= i < j < |writes| ==> !(Covers(writes[i], p) && Covers(writes[j], p))
  }

  /** The payload holds the bytes of every write, and zeros wherever nothing is written. */
  ghost predicate HoldsAll(payload: seq<byte>, writes: seq<Write>) {
    && |payload| == PAYLOAD_SIZE && AllInRange(writes)
    && (forall k, p :: 0 <= k < |writes| && 0 <= p < |writes[k].bytes| ==>
          payload[writes[k].at + p] == writes[k].bytes[p])
    && (forall p :: 0 <= p < PAYLOAD_SIZE && (forall k :: 0 <= k < |writes| ==> !Covers(writes[k], p)) ==>
          payload[p] == 0)
  }

  lemma {:induction false} CoveringDecides(writes: seq<Write>, k: nat, p: nat)
    requires Disjoint(writes) && k < |writes| && Covers(writes[k], p)
    ensures Decides(writes, k, p)
  {
  }

  lemma {:induction false} WrittenByte(writes: seq<Write>, k: nat, p: nat)
    requires AllInRange(writes) && Disjoint(writes) && k < |writes| && p < |writes[k].bytes|
    ensures writes[k].at + p < PAYLOAD_SIZE && OverlayAll(ZEROS, writes)[writes[k].at + p] == writes[k].bytes[p]
  {
    assert InRange(writes[k]);
    CoveringDecides(writes, k, writes[k].at + p);
    LastWriteWins(ZEROS, writes, k, writes[k].at + p);
  }

  lemma {:induction false} DisjointWritesIntact(writes: seq<Write>)
    requires AllInRange(writes) && Disjoint(writes)
    ensures HoldsAll(OverlayAll(ZEROS, writes), writes)
  {
    forall k, p | 0 <= k < |writes| && 0 <= p < |writes[k].bytes|
      ensures writes[k].at + p < PAYLOAD_SIZE && OverlayAll(ZEROS, writes)[writes[k].at + p] == writes[k].bytes[p]
    {
      WrittenByte(writes, k, p);
    }
    forall p | 0 <= p < PAYLOAD_SIZE && (forall k :: 0 <= k < |writes| ==> !Covers(writes[k], p))
      ensures OverlayAll(ZEROS, writes)[p] == 0
    {
      LastWriteWins(ZEROS, writes, -1, p);
    }
  }

  lemma {:induction false} MatchedNodesEncodable(mapping: Mapping, nodes: seq<Node>, targets: Targets)
    requires mapping.serviceType == "Method"
    requires forall j :: 0 <= j < |nodes| ==> NodeEncodable(mapping, nodes[j], targets)
    ensures forall m :: m in MatchedNodes(mapping, nodes, targets) ==> Encodable(m.node, targets[m.node.name])
    decreases |nodes|
  {
    if nodes != [] {
      assert NodeEncodable(mapping, nodes[0], targets);
      MatchedNodesEncodable(mapping, nodes[1..], targets);
    }
  }

  lemma {:induction false} MatchedEncodable(config: seq<Mapping>, targets: Targets)
    requires AllEncodable(config, targets)
    ensures forall m :: m in Matched(config, targets) ==> Encodable(m.node, targets[m.node.name])
    decreases |config|
  {
    if config != [] {
      if config[0].serviceType == "Method" {
        MatchedNodesEncodable(config[0], config[0].nodes, targets);
      }
      MatchedEncodable(config[1..], targets);
    }
  }

  // ----- the fields of the matched nodes

  /** The configuration fits the value of every one of the nodes. */
  predicate Encodes(matches: seq<Match>, targets: Targets) {
    forall k :: 0 <= k < |matches| ==> CanEncode(matches[k], targets)
  }

  predicate CanEncode(m: Match, targets: Targets) {
    m.node.name in targets && Encodable(m.node, targets[m.node.name])
  }

  /** The encoded field of every one of the nodes, at the offset configured for it. */
  function Fields(matches: seq<Match>, targets: Targets): (r: seq<Write>)
    requires Encodes(matches, targets)
    ensures |r| == |matches|
  {
    seq(|matches|, k requires 0 <= k < |matches| => FieldOf(matches[k], targets))
  }

  function FieldOf(m: Match, targets: Targets): Write
    requires CanEncode(m, targets)
  {
    Write(m.node.byteOffset, Field(m.node, targets[m.node.name]))
  }

  /** No byte belongs to the fields of two nodes. */
  ghost predicate FieldsApart(matches: seq<Match>, targets: Targets)
    requires Encodes(matches, targets)
  {
    Disjoint(Fields(matches, targets))
  }

  /** The payload holds every field intact, and zeros wherever there is none. */
  ghost predicate HoldsFields(payload: seq<byte>, matches: seq<Match>, targets: Targets)
    requires Encodes(matches, targets)
  {
    HoldsAll(payload, Fields(matches, targets))
  }

  /** What all matched nodes together have written. */
  function FinalPayload(config: seq<Mapping>, targets: Targets): seq<byte> {
    OverlayAll(ZEROS, Writes(Matched(config, targets), targets))
  }

  /** Every matched node of a fitting configuration writes its field. */
  lemma MatchedEncode(config: seq<Mapping>, targets: Targets)
    requires AllEncodable(config, targets)
    ensures Encodes(Matched(config, targets), targets)
  {
    MatchedEncodable(config, targets);
    var matches := Matched(config, targets);
    forall k | 0 <= k < |matches| ensures CanEncode(matches[k], targets) {
      assert matches[k] in matches;
    }
  }

  lemma {:induction false} WritesAreFields(matches: seq<Match>, targets: Targets)
    requires Encodes(matches, targets)
    ensures Writes(matches, targets) == Fields(matches, targets)
  {
    forall k | 0 <= k < |matches| ensures Writes(matches, targets)[k] == Fields(matches, targets)[k] {
      assert CanEncode(matches[k], targets);
    }
  }

  /** With disjoint fields every field is intact and all other bytes are zero. */
  lemma {:induction false} DisjointFieldsIntact(matches: seq<Match>, targets: Targets)
    requires Encodes(matches, targets) && FieldsApart(matches, targets)
    ensures HoldsFields(OverlayAll(ZEROS, Writes(matches, targets)), matches, targets)
  {
    WritesAreFields(matches, targets);
    DisjointWritesIntact(Writes(matches, targets));
  }

  /** End to end: if the fields of the matched nodes are disjoint and the last of them can send, the last
      request made carries every field, and zeros elsewhere. */
  lemma {:induction false} LastRequestHoldsAllFields(config: seq<Mapping>, targets: Targets, ready: bool)
    requires AllEncodable(config, targets)
    requires var matches := Matched(config, targets);
      matches != [] && Sendable(matches[|matches| - 1], ready)
    ensures Encodes(Matched(config, targets), targets)
    ensures var matches := Matched(config, targets);
      var sent := Requests(matches, targets, ready);
      sent != [] && (FieldsApart(matches, targets) ==> HoldsFields(sent[|sent| - 1].payload, matches, targets))
  {
    MatchedEncode(config, targets);
    if FieldsApart(Matched(config, targets), targets) {
      DisjointFieldsIntact(Matched(config, targets), targets);
    }
  }

  // ----- the order of the nodes

  /** All nodes of all method mappings, in the order of the configuration. */
  function MethodNodes(config: seq<Mapping>): seq<Match> {
    if config == [] then []
    else
      (if config[0].serviceType == "Method" then Located(config[0], config[0].nodes) else []) + MethodNodes(config[1..])
  }

  function Located(m: Mapping, nodes: seq<Node>): seq<Match> {
    if nodes == [] then [] else [Match(m.serviceId, m.instanceId, nodes[0])] + Located(m, nodes[1..])
  }

  /** The same nodes in another order, within a mapping or across mappings of the same ids. */
  ghost predicate Reordered(config: seq<Mapping>, other: seq<Mapping>) {
    multiset(MethodNodes(config)) == multiset(MethodNodes(other))
  }

  lemma {:induction false} MatchedNodesCount(m: Mapping, nodes: seq<Node>, targets: Targets, x: Match)
    ensures multiset(MatchedNodes(m, nodes, targets))[x] ==
      if x.node.name in targets then multiset(Located(m, nodes))[x] else 0
    decreases |nodes|
  {
    if nodes != [] {
      MatchedNodesCount(m, nodes[1..], targets, x);
    }
  }

  lemma {:induction false} MatchedCount(config: seq<Mapping>, targets: Targets, x: Match)
    ensures multiset(Matched(config, targets))[x] ==
      if x.node.name in targets then multiset(MethodNodes(config))[x] else 0
    decreases |config|
  {
    if config != [] {
      MatchedCount(config[1..], targets, x);
      MatchedNodesCount(config[0], config[0].nodes, targets, x);
    }
  }

  lemma {:induction false} ReorderedMatch(config: seq<Mapping>, other: seq<Mapping>, targets: Targets)
    requires Reordered(config, other)
    ensures forall m :: m in Matched(config, targets) <==> m in Matched(other, targets)
  {
    forall m ensures m in Matched(config, targets) <==> m in Matched(other, targets) {
      MatchedCount(config, targets, m);
      MatchedCount(other, targets, m);
      assert m in Matched(config, targets) <==> m in multiset(Matched(config, targets));
      assert m in Matched(other, targets) <==> m in multiset(Matched(other, targets));
    }
  }

  lemma {:induction false} FindLast(writes: seq<Write>, p: nat) returns (k: int)
    ensures Decides(writes, k, p)
    decreases |writes|
  {
    if writes == [] {
      k := -1;
    } else {
      var n := |writes| - 1;
      if Covers(writes[n], p) {
        k := n;
      } else {
        k := FindLast(writes[..n], p);
        assert forall j :: 0 <= j < n ==> writes[..n][j] == writes[j];
      }
    }
  }

  /** With disjoint footprints only which writes are made matters, not in which order. */
  lemma {:induction false} SameWritesSamePayload(writes: seq<Write>, others: seq<Write>)
    requires AllInRange(writes) && AllInRange(others) && Disjoint(writes)
    requires forall w :: w in writes <==> w in others
    ensures OverlayAll(ZEROS, others) == OverlayAll(ZEROS, writes)
  {
    forall p | 0 <= p < PAYLOAD_SIZE ensures OverlayAll(ZEROS, others)[p] == OverlayAll(ZEROS, writes)[p] {
      var k := FindLast(others, p);
      LastWriteWins(ZEROS, others, k, p);
      if k == -1 {
        forall j | 0 <= j < |writes| ensures !Covers(writes[j], p) {
          assert writes[j] in others;
        }
        LastWriteWins(ZEROS, writes, -1, p);
      } else {
        assert others[k] in writes;
        var j :| 0 <= j < |writes| && writes[j] == others[k];
        assert LastCovering(writes, j, p);
        LastWriteWins(ZEROS, writes, j, p);
      }
    }
  }

  lemma {:induction false} WritesOfSame(matches: seq<Match>, others: seq<Match>, targets: Targets, w: Write)
    requires forall m :: m in matches ==> m in others
    requires w in Writes(matches, targets)
    ensures w in Writes(others, targets)
  {
    var k :| 0 <= k < |matches| && Writes(matches, targets)[k] == w;
    assert matches[k] in others;
    var j :| 0 <= j < |others| && others[j] == matches[k];
    assert Writes(others, targets)[j] == w;
  }

  /** A method node with a value is among the matched ones. */
  lemma {:induction false} NodeIsMatched(m: Mapping, nodes: seq<Node>, targets: Targets, j: nat)
    requires j < |nodes| && nodes[j].name in targets
    ensures Match(m.serviceId, m.instanceId, nodes[j]) in MatchedNodes(m, nodes, targets)
    decreases |nodes|
  {
    if j > 0 {
      NodeIsMatched(m, nodes[1..], targets, j - 1);
    }
  }

  lemma {:induction false} MethodNodeIsMatched(config: seq<Mapping>, targets: Targets, i: nat, j: nat)
    requires i < |config| && config[i].serviceType == "Method"
    requires j < |config[i].nodes| && config[i].nodes[j].name in targets
    ensures Match(config[i].serviceId, config[i].instanceId, config[i].nodes[j]) in Matched(config, targets)
    decreases |config|
  {
    if i == 0 {
      NodeIsMatched(config[0], config[0].nodes, targets, j);
    } else {
      MethodNodeIsMatched(config[1..], targets, i - 1, j);
    }
  }

  lemma {:induction false} ReorderedEncodable(config: seq<Mapping>, other: seq<Mapping>, targets: Targets)
    requires AllEncodable(config, targets) && Reordered(config, other)
    ensures AllEncodable(other, targets)
  {
    MatchedEncodable(config, targets);
    ReorderedMatch(config, other, targets);
    forall i, j | 0 <= i < |other| && 0 <= j < |other[i].nodes|
      ensures NodeEncodable(other[i], other[i].nodes[j], targets)
    {
      if other[i].serviceType == "Method" && other[i].nodes[j].name in targets {
        MethodNodeIsMatched(other, targets, i, j);
      }
    }
  }

  /** With disjoint fields the nodes can be configured in any order: the values still fit, and the final
      payload is the same. */
  lemma {:induction false} OrderDoesNotMatter(config: seq<Mapping>, other: seq<Mapping>, targets: Targets)
    requires AllEncodable(config, targets) && Reordered(config, other)
    ensures AllEncodable(other, targets) && Encodes(Matched(config, targets), targets)
    ensures FieldsApart(Matched(config, targets), targets) ==>
      FinalPayload(other, targets) == FinalPayload(config, targets)
  {
    ReorderedEncodable(config, other, targets);
    MatchedEncode(config, targets);
    var matches, others := Matched(config, targets), Matched(other, targets);
    if FieldsApart(matches, targets) {
      WritesAreFields(matches, targets);
      ReorderedMatch(config, other, targets);
      var writes, written := Writes(matches, targets), Writes(others, targets);
      forall w ensures w in writes <==> w in written {
        if w in writes {
          WritesOfSame(matches, others, targets, w);
        }
        if w in written {
          WritesOfSame(others, matches, targets, w);
        }
      }
      SameWritesSamePayload(writes, written);
    }
  }
}
