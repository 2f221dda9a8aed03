/** The field codec of the adapter: which bytes a node contributes to a request payload, and
    what value a node reads from an event payload. */
module PayloadCodec {
  import opened Bytes

  const PAYLOAD_SIZE := 6

  datatype DataType =
    | BOOL | STRING | FLOAT | UINT32 | UINT8 | INT8 | UINT16 | INT16
    | UINT8_ARRAY | UINT16_ARRAY | INT16_ARRAY | INT8_UINT16

  /** A JSON value of a transform table. Strings and doubles are their bytes in memory. */
  datatype Json =
    | JBool(b: bool)
    | JString(chars: seq<byte>)
    | JInt(int32: bv32)
    | JUInt(uint32: bv32)
    | JInt64(int64: bv64)
    | JUInt64(uint64: bv64)
    | JDouble(image: seq<byte>)
    | JOther

  /** A value set on an actuator, and a value fed to the broker. */
  datatype Datapoint =
    | Bool(b: bool)
    | Uint32(u: bv32)
    | Int32(i: bv32)
    | Uint64(ul: bv64)
    | Int64(il: bv64)
    | Float(f: Float32)
    | Double(d: seq<byte>)
    | Str(s: seq<byte>)
    | Uint32Array(us: seq<bv32>)
    | Int32Array(ints: seq<bv32>)
    | Unset

  datatype Node = Node(
    name: string,
    dataType: string,
    byteOffset: nat,
    length: nat,
    methodId: nat,
    transform: map<string, Json>)

  datatype Mapping = Mapping(serviceType: string, serviceId: nat, instanceId: nat, nodes: seq<Node>)

  function GetDataType(s: string): DataType {
    if s == "BOOL" || s == "bool" then BOOL
    else if s == "STRING" || s == "string" then STRING
    else if s == "FLOAT" || s == "float" then FLOAT
    else if s == "UINT32" || s == "uint32" then UINT32
    else if s == "UINT8" || s == "uint8" then UINT8
    else if s == "INT8" || s == "int8" then INT8
    else if s == "UINT16" || s == "uint16" then UINT16
    else if s == "INT16" || s == "int16" then INT16
    else if s == "UINT8[]" || s == "uint8[]" then UINT8_ARRAY
    else if s == "UINT16[]" || s == "uint16[]" then UINT16_ARRAY
    else if s == "INT16[]" || s == "int16[]" then INT16_ARRAY
    else if s == "INT8_UINT16" || s == "int8_uint16" then INT8_UINT16
    else STRING
  }

  // ----- encoding

  /** The getters of the protobuf value: the default when another case is set. */
  function BoolOf(d: Datapoint): bool { d.Bool? && d.b }
  function Uint32Of(d: Datapoint): bv32 { if d.Uint32? then d.u else 0 }
  function Int32Of(d: Datapoint): bv32 { if d.Int32? then d.i else 0 }
  function FloatOf(d: Datapoint): Float32 { if d.Float? then d.f else Float32(0, 0, 0, 0) }

  /** The bytes in memory a JSON value is copied from. */
  function JsonImage(j: Json): seq<byte> {
    match j
    case JBool(b) => [if b then 1 else 0]
    case JString(chars) => chars + [0]
    case JInt(v) => LittleEndian32(v)
    case JUInt(v) => LittleEndian32(v)
    case JInt64(v) => LittleEndian64(v)
    case JUInt64(v) => LittleEndian64(v)
    case JDouble(image) => image
    case JOther => []
  }

  /** The key looked up in the transform table of an actuator. */
  function TransformKey(d: Datapoint): string { if BoolOf(d) then "1" else "0" }

  /** Swapping the bytes of a value that has been widened to 32 bits. */
  function Swap32(v: bv32): bv32 { (v >> 8) | (v << 8) }

  /** The configuration fits the data: no copy reads past its source, no array is too short,
      no write leaves the payload, and no text is copied as an object. */
  predicate Encodable(node: Node, d: Datapoint) {
    node.length > 0 ==>
      if node.transform != map[] then
        TransformKey(d) in node.transform ==>
          && node.length <= |JsonImage(node.transform[TransformKey(d)])|
          && node.byteOffset + node.length <= PAYLOAD_SIZE
      else
        match GetDataType(node.dataType)
        case BOOL | UINT8 | INT8 => node.byteOffset < PAYLOAD_SIZE
        case UINT16 | INT16 => node.length <= 2 && node.byteOffset + node.length <= PAYLOAD_SIZE
        case UINT32 => node.length <= 4 && node.byteOffset + node.length <= PAYLOAD_SIZE
        case FLOAT => node.byteOffset + 4 <= PAYLOAD_SIZE
        case UINT8_ARRAY =>
          d.Uint32Array? ==> node.length <= |d.us| && node.byteOffset + node.length <= PAYLOAD_SIZE
        case UINT16_ARRAY => d.Uint32Array? ==> |d.us| >= 2 && node.byteOffset + 3 <= PAYLOAD_SIZE
        case INT16_ARRAY => d.Int32Array? ==> |d.ints| >= 2 && node.byteOffset + 4 <= PAYLOAD_SIZE
        case INT8_UINT16 => d.Int32Array? ==> |d.ints| >= 2 && node.byteOffset + 3 <= PAYLOAD_SIZE
        case STRING => false
  }

  /** An array of bytes; one of four bytes ends in a 16-bit id, moved to its last byte. */
  function ByteArray(values: seq<bv32>, offset: nat, length: nat): (b: seq<byte>)
    requires length <= |values| && offset + length <= PAYLOAD_SIZE
    ensures |b| == length
  {
    var b := LowBytes(values, length);
    if length == 4 then b[3 - offset := b[2 - offset]][2 - offset := 0] else b
  }

  function LowBytes(values: seq<bv32>, length: nat): (b: seq<byte>)
    requires length <= |values|
    ensures |b| == length
  {
    seq(length, i requires 0 <= i < length => Low8(values[i]))
  }

  /** The bytes a node writes from its offset on; none if it writes nothing. */
  function Field(node: Node, d: Datapoint): (b: seq<byte>)
    requires Encodable(node, d)
    ensures b == [] || node.byteOffset + |b| <= PAYLOAD_SIZE
  {
    if node.length == 0 then []
    else if node.transform != map[] then
      var key := TransformKey(d);
      if key in node.transform then JsonImage(node.transform[key])[..node.length] else []
    else
      match GetDataType(node.dataType)
      case BOOL => [if BoolOf(d) then 1 else 0]
      case UINT8 => [Low8(Uint32Of(d))]
      case INT8 => [Low8(Int32Of(d))]
      case UINT16 => LittleEndian16(Low16(Uint32Of(d)))[..node.length]
      case INT16 => LittleEndian16(Low16(Int32Of(d)))[..node.length]
      case UINT32 => LittleEndian32(Uint32Of(d))[..node.length]
      case FLOAT => FloatImage(FloatOf(d))
      case UINT8_ARRAY => if d.Uint32Array? then ByteArray(d.us, node.byteOffset, node.length) else []
      case UINT16_ARRAY =>
        if d.Uint32Array? then [Low8(d.us[0])] + LittleEndian32(Swap32(d.us[1]))[..2] else []
      case INT16_ARRAY =>
        if d.Int32Array?
        then LittleEndian16(ByteSwap(Low16(d.ints[0]))) + LittleEndian16(ByteSwap(Low16(d.ints[1])))
        else []
      case INT8_UINT16 =>
        if d.Int32Array? then [Low8(d.ints[0])] + LittleEndian16(ByteSwap(Low16(d.ints[1]))) else []
  }

  /** `bytes` copied over `buf` from `at` on. */
  function Overlay(buf: seq<byte>, at: nat, bytes: seq<byte>): (r: seq<byte>)
    requires bytes == [] || at + |bytes| <= |buf|
    ensures |r| == |buf|
    ensures forall i :: 0 <= i < |buf| ==> r[i] == if at <= i < at + |bytes| then bytes[i - at] else buf[i]
  {
    if bytes == [] then buf else buf[..at] + bytes + buf[at + |bytes|..]
  }

  /** Copies `bytes` into the payload, as memcpy does. */
  method Copy(payload: array<byte>, at: nat, bytes: seq<byte>)
    requires at + |bytes| <= payload.Length
    modifies payload
    ensures payload[..] == Overlay(old(payload[..]), at, bytes)
  {
    var i := 0;
    while i < |bytes|
      invariant i <= |bytes|
      invariant forall k :: 0 <= k < payload.Length ==>
        payload[k] == if at <= k < at + i then bytes[k - at] else old(payload[k])
    {
      payload[at + i] := bytes[i];
      i := i + 1;
    }
  }

  /** Writes the elements of a byte array one by one. */
  method WriteLowBytes(payload: array<byte>, offset: nat, length: nat, values: seq<bv32>)
    requires length <= |values| && offset + length <= payload.Length
    modifies payload
    ensures payload[..] == Overlay(old(payload[..]), offset, LowBytes(values, length))
  {
    ghost var bytes := LowBytes(values, length);
    var i := 0;
    while i < length
      invariant i <= length
      invariant forall k :: 0 <= k < payload.Length ==>
        payload[k] == if offset <= k < offset + i then bytes[k - offset] else old(payload[k])
    {
      payload[offset + i] := Low8(values[i]);
      i := i + 1;
    }
  }

  /** Bytes 2 and 3 of the payload are bytes of the array, wherever it starts. */
  lemma MovedId(buf: seq<byte>, offset: nat, b: seq<byte>)
    requires |buf| == PAYLOAD_SIZE && |b| == 4 && offset + 4 <= PAYLOAD_SIZE
    ensures var p := Overlay(buf, offset, b);
      p[3 := p[2]][2 := 0] == Overlay(buf, offset, b[3 - offset := b[2 - offset]][2 - offset := 0])
  {
  }

  /** Writes the elements of a byte array, then moves the id of a four-byte one. */
  method WriteByteArray(payload: array<byte>, offset: nat, length: nat, values: seq<bv32>)
    requires payload.Length == PAYLOAD_SIZE
    requires length <= |values| && offset + length <= PAYLOAD_SIZE
    modifies payload
    ensures payload[..] == Overlay(old(payload[..]), offset, ByteArray(values, offset, length))
  {
    WriteLowBytes(payload, offset, length, values);
    if length == 4 {
      MovedId(old(payload[..]), offset, LowBytes(values, length));
      payload[3] := payload[2];
      payload[2] := 0;
    }
  }

  method SetByte(payload: array<byte>, at: nat, b: byte)
    requires at < payload.Length
    modifies payload
    ensures payload[..] == Overlay(old(payload[..]), at, [b])
  {
    payload[at] := b;
  }

  lemma AdjacentOverlays(buf: seq<byte>, at: nat, first: seq<byte>, second: seq<byte>)
    requires at + |first| + |second| <= |buf|
    ensures Overlay(Overlay(buf, at, first), at + |first|, second) == Overlay(buf, at, first + second)
  {
  }

  /** Two adjacent copies. */
  method CopyBoth(payload: array<byte>, at: nat, first: seq<byte>, second: seq<byte>)
    requires at + |first| + |second| <= payload.Length
    modifies payload
    ensures payload[..] == Overlay(old(payload[..]), at, first + second)
  {
    Copy(payload, at, first);
    Copy(payload, at + |first|, second);
    AdjacentOverlays(old(payload[..]), at, first, second);
  }

  /** Writes one node without a transform table, type by type. */
  method WriteTyped(payload: array<byte>, node: Node, d: Datapoint)
    requires payload.Length == PAYLOAD_SIZE && Encodable(node, d) && node.length > 0 && node.transform == map[]
    modifies payload
    ensures payload[..] == Overlay(old(payload[..]), node.byteOffset, Field(node, d))
  {
    var at := node.byteOffset;
    match GetDataType(node.dataType)
    case BOOL => SetByte(payload, at, if BoolOf(d) then 1 else 0);
    case UINT8 => SetByte(payload, at, Low8(Uint32Of(d)));
    case INT8 => SetByte(payload, at, Low8(Int32Of(d)));
    case UINT8_ARRAY =>
      if d.Uint32Array? {
        WriteByteArray(payload, at, node.length, d.us);
      }
    case UINT16 => Copy(payload, at, LittleEndian16(Low16(Uint32Of(d)))[..node.length]);
    case UINT16_ARRAY =>
      if d.Uint32Array? {
        CopyBoth(payload, at, [Low8(d.us[0])], LittleEndian32(Swap32(d.us[1]))[..2]);
      }
    case INT16 => Copy(payload, at, LittleEndian16(Low16(Int32Of(d)))[..node.length]);
    case INT16_ARRAY =>
      if d.Int32Array? {
        CopyBoth(payload, at, LittleEndian16(ByteSwap(Low16(d.ints[0]))), LittleEndian16(ByteSwap(Low16(d.ints[1]))));
      }
    case INT8_UINT16 =>
      if d.Int32Array? {
        CopyBoth(payload, at, [Low8(d.ints[0])], LittleEndian16(ByteSwap(Low16(d.ints[1]))));
      }
    case UINT32 => Copy(payload, at, LittleEndian32(Uint32Of(d))[..node.length]);
    case FLOAT => Copy(payload, at, FloatImage(FloatOf(d)));
  }

  /** Writes one node into the shared payload. */
  method WriteField(payload: array<byte>, node: Node, d: Datapoint)
    requires payload.Length == PAYLOAD_SIZE && Encodable(node, d)
    modifies payload
    ensures payload[..] == Overlay(old(payload[..]), node.byteOffset, Field(node, d))
  {
    if node.length > 0 {
      if node.transform != map[] {
        var key := TransformKey(d);
        if key in node.transform {
          Copy(payload, node.byteOffset, JsonImage(node.transform[key])[..node.length]);
        }
      } else {
        WriteTyped(payload, node, d);
      }
    }
  }
}
