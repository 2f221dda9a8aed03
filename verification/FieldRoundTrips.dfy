/** What an event node reads back from a field written by the request encoder. */
module FieldRoundTrips {
  import opened Bytes
  import opened Options
  import opened PayloadCodec
  import opened EventDecoding
  import opened FieldMeaning

  /** The 16-bit word in network order at `at`. */
  function WordAt(payload: seq<byte>, at: nat): bv16
    requires at + 2 <= |payload|
  {
    BigEndian16(payload[at], payload[at + 1])
  }

  predicate Reads16(reader: Node) {
    reader.length > 0 && (GetDataType(reader.dataType) == UINT16 || GetDataType(reader.dataType) == INT16)
  }

  /** The value the event decoder makes of the bytes at the reader's offset. */
  function ValueRead(reader: Node, payload: seq<byte>): Option<Datapoint>
    requires reader.length > 0 && Fits(reader, payload)
  {
    DecodedValue(reader, OwnBytes(reader, payload))
  }

  /** A 16-bit word as an unsigned or signed reader reports it. */
  function Reported(reader: Node, w: bv16): Datapoint {
    if GetDataType(reader.dataType) == UINT16 then Uint32(w as bv32) else Int32(SignExtend16(w))
  }

  lemma ReaderReports(reader: Node, payload: seq<byte>)
    requires Reads16(reader) && Fits(reader, payload)
    ensures ValueRead(reader, payload) == Some(Reported(reader, WordAt(payload, reader.byteOffset)))
  {
    var own := OwnBytes(reader, payload);
    assert own[0] == payload[reader.byteOffset] && own[1] == payload[reader.byteOffset + 1];
  }

  lemma SwappedWordReadsBack(v: bv16)
    ensures var b := LittleEndian16(ByteSwap(v)); BigEndian16(b[0], b[1]) == v
  {
  }

  lemma OverlaidBytes(payload: seq<byte>, at: nat, bytes: seq<byte>, k: nat)
    requires at + |bytes| <= |payload| && k + 2 <= |bytes|
    ensures WordAt(Overlay(payload, at, bytes), at + k) == BigEndian16(bytes[k], bytes[k + 1])
  {
  }

  lemma Int16ArrayWords(node: Node, d: Datapoint, payload: seq<byte>)
    requires GetDataType(node.dataType) == INT16_ARRAY && node.transform == map[] && node.length > 0
    requires Encodable(node, d) && d.Int32Array? && |payload| == PAYLOAD_SIZE
    ensures var p := Overlay(payload, node.byteOffset, Field(node, d));
      && WordAt(p, node.byteOffset) == Low16(d.ints[0])
      && WordAt(p, node.byteOffset + 2) == Low16(d.ints[1])
  {
    var first, second := LittleEndian16(ByteSwap(Low16(d.ints[0]))), LittleEndian16(ByteSwap(Low16(d.ints[1])));
    assert Field(node, d) == first + second;
    OverlaidBytes(payload, node.byteOffset, first + second, 0);
    OverlaidBytes(payload, node.byteOffset, first + second, 2);
    SwappedWordReadsBack(Low16(d.ints[0]));
    SwappedWordReadsBack(Low16(d.ints[1]));
  }

  /** A 16-bit event node over element `k` of an INT16 array reads it modulo 2^16, for every offset
      and prior buffer. */
  lemma Int16ArrayReadsBack(node: Node, d: Datapoint, payload: seq<byte>, k: nat, reader: Node)
    requires GetDataType(node.dataType) == INT16_ARRAY && node.transform == map[] && node.length > 0
    requires Encodable(node, d) && d.Int32Array? && |payload| == PAYLOAD_SIZE
    requires k < 2 && Reads16(reader) && reader.byteOffset == node.byteOffset + 2 * k
    ensures ValueRead(reader, Overlay(payload, node.byteOffset, Field(node, d))) ==
      Some(Reported(reader, Low16(d.ints[k])))
  {
    Int16ArrayWords(node, d, payload);
    ReaderReports(reader, Overlay(payload, node.byteOffset, Field(node, d)));
    assert k == 0 || k == 1;
  }

  /** A signed one reads the element itself exactly when it is between -2^15 and 2^15 - 1. */
  lemma Int16ArrayKeepsSign(node: Node, d: Datapoint, payload: seq<byte>, k: nat, reader: Node)
    requires GetDataType(node.dataType) == INT16_ARRAY && node.transform == map[] && node.length > 0
    requires Encodable(node, d) && d.Int32Array? && |payload| == PAYLOAD_SIZE
    requires k < 2 && Reads16(reader) && reader.byteOffset == node.byteOffset + 2 * k
    requires GetDataType(reader.dataType) == INT16
    ensures ValueRead(reader, Overlay(payload, node.byteOffset, Field(node, d))) == Some(Int32(d.ints[k]))
       <==> -0x8000 <= Signed(d.ints[k]) < 0x8000
  {
    Int16ArrayReadsBack(node, d, payload, k, reader);
    SignSurvives16(d.ints[k]);
    assert InInt16Range(d.ints[k]) <==> -0x8000 <= Signed(d.ints[k]) < 0x8000;
  }

  lemma Int8Uint16Word(node: Node, d: Datapoint, payload: seq<byte>)
    requires GetDataType(node.dataType) == INT8_UINT16 && node.transform == map[] && node.length > 0
    requires Encodable(node, d) && d.Int32Array? && |payload| == PAYLOAD_SIZE
    ensures var p := Overlay(payload, node.byteOffset, Field(node, d));
      && p[node.byteOffset] == Low8(d.ints[0])
      && WordAt(p, node.byteOffset + 1) == Low16(d.ints[1])
  {
    SwappedWordReadsBack(Low16(d.ints[1]));
  }

  lemma ByteReaderReports(reader: Node, payload: seq<byte>)
    requires reader.length > 0 && GetDataType(reader.dataType) == INT8 && Fits(reader, payload)
    ensures ValueRead(reader, payload) == Some(Int32(SignExtend8(payload[reader.byteOffset])))
  {
  }

  /** An INT8 node reads the first part of an INT8_UINT16 field modulo 2^8 with its sign, and a
      16-bit node the second part modulo 2^16. */
  lemma Int8Uint16ReadsBack(node: Node, d: Datapoint, payload: seq<byte>, small: Node, reader: Node)
    requires GetDataType(node.dataType) == INT8_UINT16 && node.transform == map[] && node.length > 0
    requires Encodable(node, d) && d.Int32Array? && |payload| == PAYLOAD_SIZE
    requires small.length > 0 && GetDataType(small.dataType) == INT8 && small.byteOffset == node.byteOffset
    requires Reads16(reader) && reader.byteOffset == node.byteOffset + 1
    ensures var p := Overlay(payload, node.byteOffset, Field(node, d));
      && ValueRead(small, p) == Some(Int32(SignExtend8(Low8(d.ints[0]))))
      && ValueRead(reader, p) == Some(Reported(reader, Low16(d.ints[1])))
  {
    var p := Overlay(payload, node.byteOffset, Field(node, d));
    Int8Uint16Word(node, d, payload);
    ByteReaderReports(small, p);
    ReaderReports(reader, p);
  }

  lemma WidenedSwapReadsBack(x: bv32)
    ensures var b := LittleEndian32(Swap32(x));
      && (BigEndian16(b[0], b[1]) == Low16(x) <==> ((x >> 16) & 0xFF) & !(x & 0xFF) == 0)
      && (x < 0x10000 ==> BigEndian16(b[0], b[1]) == Low16(x))
  {
  }

  lemma Uint16ArrayWord(node: Node, d: Datapoint, payload: seq<byte>)
    requires GetDataType(node.dataType) == UINT16_ARRAY && node.transform == map[] && node.length > 0
    requires Encodable(node, d) && d.Uint32Array? && |payload| == PAYLOAD_SIZE
    ensures var p := Overlay(payload, node.byteOffset, Field(node, d));
      var x := d.us[1];
      && p[node.byteOffset] == Low8(d.us[0])
      && (WordAt(p, node.byteOffset + 1) == Low16(x) <==> ((x >> 16) & 0xFF) & !(x & 0xFF) == 0)
      && (x < 0x10000 ==> WordAt(p, node.byteOffset + 1) == Low16(x))
  {
    WidenedSwapReadsBack(d.us[1]);
  }

  /** Widening a word loses nothing, with or without its sign. */
  lemma WidenedKeepsWord(v: bv16)
    ensures Low16(v as bv32) == v && Low16(SignExtend16(v)) == v
  {
  }

  lemma ReportedDiffer(reader: Node, v: bv16, w: bv16)
    requires v != w
    ensures Reported(reader, v) != Reported(reader, w)
  {
    WidenedKeepsWord(v);
    WidenedKeepsWord(w);
  }

  /** A UINT16 array is swapped at 32 bits: a UINT16 node reads its word modulo 2^16 for every value
      below 2^16, and otherwise exactly when bits 16 to 23 are a subset of bits 0 to 7. */
  lemma Uint16ArrayReadsBack(node: Node, d: Datapoint, payload: seq<byte>, reader: Node)
    requires GetDataType(node.dataType) == UINT16_ARRAY && node.transform == map[] && node.length > 0
    requires Encodable(node, d) && d.Uint32Array? && |payload| == PAYLOAD_SIZE
    requires Reads16(reader) && GetDataType(reader.dataType) == UINT16 && reader.byteOffset == node.byteOffset + 1
    ensures var back := ValueRead(reader, Overlay(payload, node.byteOffset, Field(node, d)));
      var x := d.us[1];
      && (back == Some(Reported(reader, Low16(x))) <==> ((x >> 16) & 0xFF) & !(x & 0xFF) == 0)
      && (x < 0x10000 ==> back == Some(Reported(reader, Low16(x))))
  {
    var p := Overlay(payload, node.byteOffset, Field(node, d));
    Uint16ArrayWord(node, d, payload);
    ReaderReports(reader, p);
    if WordAt(p, reader.byteOffset) != Low16(d.us[1]) {
      ReportedDiffer(reader, WordAt(p, reader.byteOffset), Low16(d.us[1]));
    }
  }

  lemma UnswappedWordReadsBack(v: bv16)
    ensures var b := LittleEndian16(v); BigEndian16(b[0], b[1]) == ByteSwap(v)
    ensures ByteSwap(v) == v <==> v & 0xFF == v >> 8
  {
  }

  lemma PlainWordField(node: Node, d: Datapoint)
    requires GetDataType(node.dataType) == UINT16 || GetDataType(node.dataType) == INT16
    requires node.transform == map[] && node.length == 2 && Encodable(node, d)
    ensures Field(node, d) == LittleEndian16(PlainWord(node, d))
  {
  }

  /** The 16-bit value of a plain word. */
  function PlainWord(node: Node, d: Datapoint): bv16 {
    Low16(if GetDataType(node.dataType) == UINT16 then Uint32Of(d) else Int32Of(d))
  }

  lemma OverlaidWord(payload: seq<byte>, at: nat, v: bv16)
    requires at + 2 <= |payload|
    ensures WordAt(Overlay(payload, at, LittleEndian16(v)), at) == ByteSwap(v)
  {
    UnswappedWordReadsBack(v);
  }

  /** A plain UINT16 or INT16 is written in host order but read in network order: a 16-bit node at
      its offset reads it with its bytes exchanged, so as itself exactly when both bytes are equal. */
  lemma PlainWordComesBackSwapped(node: Node, d: Datapoint, payload: seq<byte>, reader: Node)
    requires GetDataType(node.dataType) == UINT16 || GetDataType(node.dataType) == INT16
    requires node.transform == map[] && node.length == 2
    requires Encodable(node, d) && |payload| == PAYLOAD_SIZE
    requires Reads16(reader) && reader.byteOffset == node.byteOffset
    ensures var back := ValueRead(reader, Overlay(payload, node.byteOffset, Field(node, d)));
      var v := PlainWord(node, d);
      && back == Some(Reported(reader, ByteSwap(v)))
      && (back == Some(Reported(reader, v)) <==> v & 0xFF == v >> 8)
  {
    var v := PlainWord(node, d);
    PlainWordField(node, d);
    OverlaidWord(payload, node.byteOffset, v);
    ReaderReports(reader, Overlay(payload, node.byteOffset, Field(node, d)));
    UnswappedWordReadsBack(v);
    if ByteSwap(v) != v {
      ReportedDiffer(reader, ByteSwap(v), v);
    }
  }
  // ----- fields of one byte

  lemma ByteRead(reader: Node, payload: seq<byte>)
    requires reader.length > 0 && Fits(reader, payload)
    requires GetDataType(reader.dataType) == BOOL || GetDataType(reader.dataType) == UINT8
    ensures Word(reader, OwnBytes(reader, payload)) == payload[reader.byteOffset] as bv32
  {
  }

  lemma TruthRead(reader: Node, payload: seq<byte>, b: bool)
    requires reader.length > 0 && Fits(reader, payload) && GetDataType(reader.dataType) == BOOL
    requires payload[reader.byteOffset] == if b then 1 else 0
    ensures ValueRead(reader, payload) == Some(Bool(b))
  {
    ByteRead(reader, payload);
  }

  /** A boolean set on an actuator is what a BOOL event node at its place reads. */
  lemma BoolReadsBack(node: Node, b: bool, payload: seq<byte>, reader: Node)
    requires Plain(node, BOOL) && Encodable(node, Bool(b)) && |payload| == PAYLOAD_SIZE
    requires reader.length > 0 && GetDataType(reader.dataType) == BOOL && reader.byteOffset == node.byteOffset
    ensures ValueRead(reader, Sent(payload, node, Bool(b))) == Some(Bool(b))
  {
    BoolSent(node, Bool(b), payload);
    TruthRead(reader, Sent(payload, node, Bool(b)), b);
  }

  lemma SmallIffSame(u: bv32)
    ensures u % 0x100 == u <==> u < 0x100
  {
  }

  /** A UINT8 event node reads an unsigned byte modulo 2^8, so as itself exactly when it is below 2^8. */
  lemma Uint8ReadsBack(node: Node, u: bv32, payload: seq<byte>, reader: Node)
    requires Plain(node, UINT8) && Encodable(node, Uint32(u)) && |payload| == PAYLOAD_SIZE
    requires reader.length > 0 && GetDataType(reader.dataType) == UINT8 && reader.byteOffset == node.byteOffset
    ensures var back := ValueRead(reader, Sent(payload, node, Uint32(u)));
      back == Some(Uint32(u % 0x100)) && (back == Some(Uint32(u)) <==> u < 0x100)
  {
    ByteSent(node, Uint32(u), payload);
    ByteRead(reader, Sent(payload, node, Uint32(u)));
    SmallIffSame(u);
  }

  /** An INT8 event node reads a signed byte as itself exactly when it is between -2^7 and 2^7 - 1. */
  lemma Int8ReadsBack(node: Node, i: bv32, payload: seq<byte>, reader: Node)
    requires Plain(node, INT8) && Encodable(node, Int32(i)) && |payload| == PAYLOAD_SIZE
    requires reader.length > 0 && GetDataType(reader.dataType) == INT8 && reader.byteOffset == node.byteOffset
    ensures ValueRead(reader, Sent(payload, node, Int32(i))) == Some(Int32(i)) <==> -0x80 <= Signed(i) < 0x80
  {
    Int8Written(node, i, payload);
    ByteReaderReports(reader, Sent(payload, node, Int32(i)));
    SignSurvives8(i);
    assert InInt8Range(i) <==> -0x80 <= Signed(i) < 0x80;
  }

  lemma Int8Written(node: Node, i: bv32, payload: seq<byte>)
    requires Plain(node, INT8) && Encodable(node, Int32(i)) && |payload| == PAYLOAD_SIZE
    ensures Sent(payload, node, Int32(i))[node.byteOffset] == Low8(i)
  {
  }

  /** A UINT8 event node over an element of a byte array reads it modulo 2^8, except where the id of a
      four-byte array is moved. */
  lemma ByteArrayReadsBack(node: Node, values: seq<bv32>, payload: seq<byte>, k: nat, reader: Node)
    requires Plain(node, UINT8_ARRAY) && Encodable(node, Uint32Array(values)) && |payload| == PAYLOAD_SIZE
    requires k < node.length && reader.length > 0 && GetDataType(reader.dataType) == UINT8
    requires reader.byteOffset == node.byteOffset + k
    ensures ValueRead(reader, Sent(payload, node, Uint32Array(values))) ==
      Some(Uint32(if node.length == 4 && node.byteOffset + k == 2 then 0
                  else if node.length == 4 && node.byteOffset + k == 3 then values[2 - node.byteOffset] % 0x100
                  else values[k] % 0x100))
  {
    BytesSent(node, values, payload, k);
    ByteRead(reader, Sent(payload, node, Uint32Array(values)));
  }

  // ----- fields of four bytes

  lemma WordRead(reader: Node, payload: seq<byte>, b: seq<byte>)
    requires reader.length > 0 && Fits(reader, payload) && GetDataType(reader.dataType) == UINT32
    requires |b| == 4 && b == payload[reader.byteOffset..reader.byteOffset + 4]
    ensures ValueRead(reader, payload) == Some(Uint32(Join32(b[0], b[1], b[2], b[3])))
  {
  }

  lemma OverlaidFour(payload: seq<byte>, at: nat, b: seq<byte>)
    requires |b| == 4 && at + 4 <= |payload|
    ensures Overlay(payload, at, b)[at..at + 4] == b
  {
  }

  /** A UINT32 event node over a four-byte field reads the value itself. */
  lemma Uint32ReadsBack(node: Node, u: bv32, payload: seq<byte>, reader: Node)
    requires Plain(node, UINT32) && node.length == 4 && Encodable(node, Uint32(u)) && |payload| == PAYLOAD_SIZE
    requires reader.length > 0 && GetDataType(reader.dataType) == UINT32 && reader.byteOffset == node.byteOffset
    ensures ValueRead(reader, Sent(payload, node, Uint32(u))) == Some(Uint32(u))
  {
    WordField(node, Uint32(u));
    OverlaidFour(payload, node.byteOffset, LittleEndian32(u));
    WordRead(reader, Sent(payload, node, Uint32(u)), LittleEndian32(u));
    JoinOfImage(u);
  }

  lemma FloatRead(reader: Node, payload: seq<byte>, f: Float32)
    requires reader.length > 0 && Fits(reader, payload) && GetDataType(reader.dataType) == FLOAT
    requires payload[reader.byteOffset..reader.byteOffset + 4] == [f.b0, f.b1, f.b2, f.b3]
    ensures ValueRead(reader, payload) == Some(Float(Reversed(f)))
  {
    assert OwnBytes(reader, payload) == [f.b0, f.b1, f.b2, f.b3];
  }

  /** A FLOAT event node reads a float with its bytes reversed, so as itself exactly when they read the
      same in either direction. */
  lemma FloatReadsBack(node: Node, f: Float32, payload: seq<byte>, reader: Node)
    requires Plain(node, FLOAT) && Encodable(node, Float(f)) && |payload| == PAYLOAD_SIZE
    requires reader.length > 0 && GetDataType(reader.dataType) == FLOAT && reader.byteOffset == node.byteOffset
    ensures var back := ValueRead(reader, Sent(payload, node, Float(f)));
      back == Some(Float(Reversed(f))) && (back == Some(Float(f)) <==> f.b0 == f.b3 && f.b1 == f.b2)
  {
    FloatSent(node, f, payload);
    FloatRead(reader, Sent(payload, node, Float(f)), f);
  }

  /** A STRING event node reads as many bytes as it is long. */
  lemma StringRead(reader: Node, payload: seq<byte>)
    requires reader.length > 0 && Fits(reader, payload) && GetDataType(reader.dataType) == STRING
    ensures reader.byteOffset + reader.length <= |payload|
    ensures ValueRead(reader, payload) == Some(Str(payload[reader.byteOffset..reader.byteOffset + reader.length]))
  {
  }
}
