/** The fixed-layout wiper event and wiper request payloads. Floats are their four bytes in memory. */
module WiperPoc {
  import opened Bytes

  const EVENT_PAYLOAD_SIZE := 20
  const SET_PAYLOAD_SIZE := 6

  datatype Event = Event(
    sequenceCounter: byte,
    actualPosition: Float32,
    driveCurrent: Float32,
    tempGear: byte,
    isWiping: byte,
    isEndingWipeCycle: byte,
    isWiperError: byte,
    isPositionReached: byte,
    isBlocked: byte,
    isOverheated: byte,
    ecuTemp: byte,
    linError: byte,
    isOverVoltage: byte,
    isUnderVoltage: byte)

  /** The mode is an enumeration stored as a 32-bit word. */
  datatype Request = Request(frequency: byte, targetPosition: Float32, mode: bv32)

  const ZERO_FLOAT := Float32(0, 0, 0, 0)
  const ZERO_EVENT := Event(0, ZERO_FLOAT, ZERO_FLOAT, 0, 0, 0, 0, 0, 0, 0, 0, 0, 0, 0)

  // ----- the layouts

  /** Decoding a float takes its first byte as the most significant one. */
  function BytesToFloat(data: seq<byte>, at: nat): Float32
    requires at + 4 <= |data|
  {
    Float32(data[at + 3], data[at + 2], data[at + 1], data[at])
  }

  /** What the payload of an event holds at each index. */
  ghost predicate EventLayout(p: seq<byte>, e: Event) {
    && |p| >= EVENT_PAYLOAD_SIZE
    && p[0] == e.sequenceCounter
    && p[1] == e.actualPosition.b0 && p[2] == e.actualPosition.b1
    && p[3] == e.actualPosition.b2 && p[4] == e.actualPosition.b3
    && p[5] == e.driveCurrent.b0 && p[6] == e.driveCurrent.b1
    && p[7] == e.driveCurrent.b2 && p[8] == e.driveCurrent.b3
    && p[9] == e.tempGear && p[10] == e.isWiping && p[11] == e.isEndingWipeCycle && p[12] == e.isWiperError
    && p[13] == e.isPositionReached && p[14] == e.isBlocked && p[15] == e.isOverheated && p[16] == e.ecuTemp
    && p[17] == e.linError && p[18] == e.isOverVoltage && p[19] == e.isUnderVoltage
  }

  function EventOf(p: seq<byte>): Event
    requires |p| >= EVENT_PAYLOAD_SIZE
  {
    Event(p[0], BytesToFloat(p, 1), BytesToFloat(p, 5), p[9], p[10], p[11], p[12], p[13], p[14],
          p[15], p[16], p[17], p[18], p[19])
  }

  function RequestBytes(r: Request): (p: seq<byte>)
    ensures |p| == SET_PAYLOAD_SIZE
  {
    var t := r.targetPosition;
    [r.frequency, t.b0, t.b1, t.b2, t.b3, Low8(r.mode)]
  }

  /** What the payload of a request holds at each index. */
  ghost predicate RequestLayout(p: seq<byte>, r: Request) {
    && |p| >= SET_PAYLOAD_SIZE
    && p[0] == r.frequency
    && p[1] == r.targetPosition.b0 && p[2] == r.targetPosition.b1
    && p[3] == r.targetPosition.b2 && p[4] == r.targetPosition.b3
    && p[5] as bv32 == r.mode % 0x100
  }

  lemma RequestBytesLayout(r: Request)
    ensures RequestLayout(RequestBytes(r), r)
  {
    LowBitsValue(r.mode);
  }

  function RequestOf(p: seq<byte>): Request
    requires |p| >= SET_PAYLOAD_SIZE
  {
    Request(p[0], BytesToFloat(p, 1), p[5] as bv32)
  }

  // ----- the code

  method FloatToBytes(v: Float32, data: array<byte>, offset: nat)
    requires offset + 4 <= data.Length
    modifies data
    ensures forall k :: 0 <= k < data.Length ==>
      data[k] == if offset <= k < offset + 4 then FloatImage(v)[k - offset] else old(data[k])
  {
    var image := FloatImage(v);
    var i := 0;
    while i < 4
      invariant i <= 4
      invariant forall k :: 0 <= k < data.Length ==>
        data[k] == if offset <= k < offset + i then image[k - offset] else old(data[k])
    {
      data[offset + i] := image[i];
      i := i + 1;
    }
  }

  method ClearPayload(payload: array<byte>)
    modifies payload
    ensures forall k :: 0 <= k < payload.Length ==> payload[k] == 0
  {
    var i := 0;
    while i < payload.Length
      invariant i <= payload.Length
      invariant forall k :: 0 <= k < i ==> payload[k] == 0
    {
      payload[i] := 0;
      i := i + 1;
    }
  }

  method SerializeWiperEvent(event: Event, payload: array<byte>) returns (ok: bool)
    modifies payload
    ensures ok <==> payload.Length >= 20
    ensures !ok ==> payload[..] == old(payload[..])
    ensures ok ==> EventLayout(payload[..], event)
    ensures ok ==> forall k :: EVENT_PAYLOAD_SIZE <= k < payload.Length ==> payload[k] == 0
  {
    if payload.Length < EVENT_PAYLOAD_SIZE {
      return false;
    }
    ClearPayload(payload);
    payload[0] := event.sequenceCounter;
    FloatToBytes(event.actualPosition, payload, 1);
    FloatToBytes(event.driveCurrent, payload, 5);
    SerializeStatus(event, payload);
    return true;
  }

  /** The single-byte fields behind the floats. */
  method SerializeStatus(event: Event, payload: array<byte>)
    requires payload.Length >= EVENT_PAYLOAD_SIZE
    modifies payload
    ensures payload[9] == event.tempGear && payload[10] == event.isWiping
    ensures payload[11] == event.isEndingWipeCycle && payload[12] == event.isWiperError
    ensures payload[13] == event.isPositionReached && payload[14] == event.isBlocked
    ensures payload[15] == event.isOverheated && payload[16] == event.ecuTemp && payload[17] == event.linError
    ensures payload[18] == event.isOverVoltage && payload[19] == event.isUnderVoltage
    ensures forall k :: 0 <= k < 9 || 20 <= k < payload.Length ==> payload[k] == old(payload[k])
  {
    payload[9] := event.tempGear;
    payload[10] := event.isWiping;
    payload[11] := event.isEndingWipeCycle;
    payload[12] := event.isWiperError;
    payload[13] := event.isPositionReached;
    payload[14] := event.isBlocked;
    SerializeFaults(event, payload);
  }

  method SerializeFaults(event: Event, payload: array<byte>)
    requires payload.Length >= EVENT_PAYLOAD_SIZE
    modifies payload
    ensures payload[15] == event.isOverheated && payload[16] == event.ecuTemp && payload[17] == event.linError
    ensures payload[18] == event.isOverVoltage && payload[19] == event.isUnderVoltage
    ensures forall k :: 0 <= k < 15 || 20 <= k < payload.Length ==> payload[k] == old(payload[k])
  {
    payload[15] := event.isOverheated;
    payload[16] := event.ecuTemp;
    payload[17] := event.linError;
    payload[18] := event.isOverVoltage;
    payload[19] := event.isUnderVoltage;
  }

  method DeserializeEvent(payload: array<byte>) returns (ok: bool, event: Event)
    ensures ok <==> payload.Length >= 20
    ensures event == if ok then EventOf(payload[..]) else ZERO_EVENT
  {
    event := ZERO_EVENT;
    if payload.Length < EVENT_PAYLOAD_SIZE {
      return false, event;
    }
    event := event.(sequenceCounter := payload[0]);
    var tmp := [payload[1], payload[2], payload[3], payload[4]];
    event := event.(actualPosition := BytesToFloat(tmp, 0));
    tmp := [payload[5], payload[6], payload[7], payload[8]];
    event := event.(driveCurrent := BytesToFloat(tmp, 0));
    event := event.(tempGear := payload[9], isWiping := payload[10], isEndingWipeCycle := payload[11],
                    isWiperError := payload[12], isPositionReached := payload[13], isBlocked := payload[14],
                    isOverheated := payload[15], ecuTemp := payload[16], linError := payload[17],
                    isOverVoltage := payload[18], isUnderVoltage := payload[19]);
    return true, event;
  }

  method SerializeVssRequest(payload: array<byte>, request: Request) returns (ok: bool)
    modifies payload
    ensures ok <==> payload.Length >= 6
    ensures forall k :: 0 <= k < payload.Length ==>
      payload[k] == if ok && k < SET_PAYLOAD_SIZE then RequestBytes(request)[k] else old(payload[k])
    ensures ok ==> RequestLayout(payload[..], request)
  {
    RequestBytesLayout(request);
    if payload.Length < SET_PAYLOAD_SIZE {
      return false;
    }
    var tmp := FloatImage(request.targetPosition);
    payload[0] := request.frequency;
    var i := 0;
    while i < 4
      invariant i <= 4
      invariant payload[0] == request.frequency
      invariant forall k :: 1 <= k < payload.Length ==>
        payload[k] == if k < 1 + i then tmp[k - 1] else old(payload[k])
    {
      payload[1 + i] := tmp[i];
      i := i + 1;
    }
    payload[5] := Low8(request.mode);
    return true;
  }

  method DeserializeVssRequest(payload: array<byte>) returns (ok: bool, request: Request)
    ensures ok <==> payload.Length >= 6
    ensures request == if ok then RequestOf(payload[..]) else Request(0, ZERO_FLOAT, 0)
  {
    request := Request(0, ZERO_FLOAT, 0);
    if payload.Length < SET_PAYLOAD_SIZE {
      return false, request;
    }
    request := request.(frequency := payload[0]);
    var tmp: seq<byte> := [];
    var i := 0;
    while i < 4
      invariant i <= 4
      invariant tmp == payload[1..1 + i]
    {
      tmp := tmp + [payload[1 + i]];
      i := i + 1;
    }
    request := request.(targetPosition := BytesToFloat(tmp, 0));
    request := request.(mode := payload[5] as bv32);
    return true, request;
  }

  // ----- encode and decode disagree on the byte order of floats

  function TurnedEvent(e: Event): Event {
    e.(actualPosition := Reversed(e.actualPosition), driveCurrent := Reversed(e.driveCurrent))
  }

  function TurnedRequest(r: Request): Request {
    r.(targetPosition := Reversed(r.targetPosition))
  }

  /** A serialized event comes back with every byte field intact and both floats byte-reversed,
      so it comes back unchanged exactly when both floats read the same in either direction;
      a second pass restores it. */
  lemma EventRoundTrip(e: Event, p: seq<byte>, q: seq<byte>)
    requires EventLayout(p, e) && EventLayout(q, EventOf(p))
    ensures EventOf(p) == TurnedEvent(e)
    ensures EventOf(p) == e <==>
      Reversed(e.actualPosition) == e.actualPosition && Reversed(e.driveCurrent) == e.driveCurrent
    ensures EventOf(q) == e
  {
  }

  /** The same for a request; its mode also has to fit a byte. */
  lemma RequestRoundTrip(r: Request)
    ensures RequestOf(RequestBytes(r)) == TurnedRequest(r).(mode := r.mode & 0xFF)
    ensures RequestOf(RequestBytes(r)) == r <==> Reversed(r.targetPosition) == r.targetPosition && r.mode < 256
    ensures RequestOf(RequestBytes(RequestOf(RequestBytes(r)))) == r <==> r.mode < 256
  {
  }

  /** Decoding a payload and encoding the event again turns around the four bytes of each float
      and keeps every other byte; doing it twice gives the payload back. */
  lemma EventPayloadRoundTrip(p: seq<byte>, q: seq<byte>, r: seq<byte>)
    requires |p| == |q| == |r| == EVENT_PAYLOAD_SIZE
    requires EventLayout(q, EventOf(p)) && EventLayout(r, EventOf(q))
    ensures q[0] == p[0]
    ensures forall i :: 1 <= i <= 4 ==> q[i] == p[5 - i]
    ensures forall i :: 5 <= i <= 8 ==> q[i] == p[13 - i]
    ensures forall i :: 9 <= i < EVENT_PAYLOAD_SIZE ==> q[i] == p[i]
    ensures r == p
  {
    assert forall i :: 0 <= i < EVENT_PAYLOAD_SIZE ==> r[i] == p[i];
  }

  function TurnedRequestPayload(p: seq<byte>): (q: seq<byte>)
    requires |p| == SET_PAYLOAD_SIZE
    ensures |q| == |p|
  {
    [p[0], p[4], p[3], p[2], p[1], p[5]]
  }

  lemma RequestPayloadRoundTrip(p: seq<byte>)
    requires |p| == SET_PAYLOAD_SIZE
    ensures RequestBytes(RequestOf(p)) == TurnedRequestPayload(p)
    ensures RequestBytes(RequestOf(RequestBytes(RequestOf(p)))) == p
  {
    var q := TurnedRequestPayload(p);
    assert RequestBytes(RequestOf(p)) == q;
    assert RequestBytes(RequestOf(q)) == TurnedRequestPayload(q);
  }
}
