/** What a request carries for a value, type by type, in terms of the value itself. */
module FieldMeaning {
  import opened Bytes
  import opened PayloadCodec

  /** The payload after a node has written its field. */
  function Sent(payload: seq<byte>, node: Node, d: Datapoint): (r: seq<byte>)
    requires |payload| == PAYLOAD_SIZE && Encodable(node, d)
    ensures |r| == PAYLOAD_SIZE
  {
    Overlay(payload, node.byteOffset, Field(node, d))
  }

  predicate Plain(node: Node, t: DataType) {
    GetDataType(node.dataType) == t && node.transform == map[] && node.length > 0
  }

  // ----- names of types

  /** The two names a type has in a configuration. */
  function NamesOf(t: DataType): (string, string) {
    match t
    case BOOL => ("BOOL", "bool")
    case STRING => ("STRING", "string")
    case FLOAT => ("FLOAT", "float")
    case UINT32 => ("UINT32", "uint32")
    case UINT8 => ("UINT8", "uint8")
    case INT8 => ("INT8", "int8")
    case UINT16 => ("UINT16", "uint16")
    case INT16 => ("INT16", "int16")
    case UINT8_ARRAY => ("UINT8[]", "uint8[]")
    case UINT16_ARRAY => ("UINT16[]", "uint16[]")
    case INT16_ARRAY => ("INT16[]", "int16[]")
    case INT8_UINT16 => ("INT8_UINT16", "int8_uint16")
  }

  /** Every type is found under its names in upper and in lower case. */
  lemma TypeHasName(t: DataType)
    ensures GetDataType(NamesOf(t).0) == t && GetDataType(NamesOf(t).1) == t
  {
    match t
    case BOOL | STRING | FLOAT | UINT32 => FirstNames(t);
    case UINT8 | INT8 => ByteNames(t);
    case UINT16 | INT16 => HalfNames(t);
    case UINT8_ARRAY | UINT16_ARRAY => UnsignedArrayNames(t);
    case INT16_ARRAY => SignedArrayNames();
    case INT8_UINT16 => MixedNames();
  }

  lemma FirstNames(t: DataType)
    requires t == BOOL || t == STRING || t == FLOAT || t == UINT32
    ensures GetDataType(NamesOf(t).0) == t && GetDataType(NamesOf(t).1) == t
  {
  }

  lemma ByteNames(t: DataType)
    requires t == UINT8 || t == INT8
    ensures GetDataType(NamesOf(t).0) == t && GetDataType(NamesOf(t).1) == t
  {
  }

  lemma HalfNames(t: DataType)
    requires t == UINT16 || t == INT16
    ensures GetDataType(NamesOf(t).0) == t && GetDataType(NamesOf(t).1) == t
  {
  }

  lemma UnsignedArrayNames(t: DataType)
    requires t == UINT8_ARRAY || t == UINT16_ARRAY
    ensures GetDataType(NamesOf(t).0) == t && GetDataType(NamesOf(t).1) == t
  {
  }

  lemma SignedArrayNames()
    ensures GetDataType("INT16[]") == INT16_ARRAY && GetDataType("int16[]") == INT16_ARRAY
  {
  }

  lemma MixedNames()
    ensures GetDataType("INT8_UINT16") == INT8_UINT16 && GetDataType("int8_uint16") == INT8_UINT16
  {
  }

  /** And under no other; whatever else is configured is a string. */
  lemma NoOtherName(s: string)
    ensures GetDataType(s) == STRING || s == NamesOf(GetDataType(s)).0 || s == NamesOf(GetDataType(s)).1
  {
  }

  // ----- the bytes of a field

  /** A boolean is sent as 1 or 0; a value of another kind as false. */
  lemma BoolSent(node: Node, d: Datapoint, payload: seq<byte>)
    requires Plain(node, BOOL) && Encodable(node, d) && |payload| == PAYLOAD_SIZE
    ensures Sent(payload, node, d)[node.byteOffset] == if d == Bool(true) then 1 else 0
  {
  }

  /** An unsigned or signed byte is the value modulo 2^8. */
  lemma ByteSent(node: Node, d: Datapoint, payload: seq<byte>)
    requires (Plain(node, UINT8) || Plain(node, INT8)) && Encodable(node, d) && |payload| == PAYLOAD_SIZE
    ensures Sent(payload, node, d)[node.byteOffset] as bv32 == NumberFor(node, d) % 0x100
  {
    LowBitsValue(NumberFor(node, d));
  }

  /** The number a field gets: the value set if it is of the kind the type asks for, and 0 otherwise. */
  function NumberFor(node: Node, d: Datapoint): bv32 {
    match d
    case Uint32(u) => if GetDataType(node.dataType) in {UINT8, UINT16, UINT32} then u else 0
    case Int32(i) => if GetDataType(node.dataType) in {INT8, INT16} then i else 0
    case _ => 0
  }

  /** A plain 16-bit field is the low half of the value, low byte first. */
  lemma HalfSent(node: Node, d: Datapoint, payload: seq<byte>)
    requires (Plain(node, UINT16) || Plain(node, INT16)) && node.length == 2
    requires Encodable(node, d) && |payload| == PAYLOAD_SIZE
    ensures var p := Sent(payload, node, d);
      (p[node.byteOffset] as bv16) + 0x100 * (p[node.byteOffset + 1] as bv16) == Low16(NumberFor(node, d))
  {
    HalfField(node, d);
    LittleEndian16Value(Low16(NumberFor(node, d)));
  }

  lemma HalfField(node: Node, d: Datapoint)
    requires (Plain(node, UINT16) || Plain(node, INT16)) && node.length == 2 && Encodable(node, d)
    ensures Field(node, d) == LittleEndian16(Low16(NumberFor(node, d)))
  {
  }

  lemma WordField(node: Node, d: Datapoint)
    requires Plain(node, UINT32) && node.length == 4 && Encodable(node, d)
    ensures Field(node, d) == LittleEndian32(NumberFor(node, d))
  {
  }

  /** A 32-bit field is the value, lowest byte first. */
  lemma WordSent(node: Node, d: Datapoint, payload: seq<byte>)
    requires Plain(node, UINT32) && node.length == 4 && Encodable(node, d) && |payload| == PAYLOAD_SIZE
    ensures var p, at := Sent(payload, node, d), node.byteOffset;
      (p[at] as bv32) + 0x100 * (p[at + 1] as bv32) + 0x1_0000 * (p[at + 2] as bv32) + 0x100_0000 * (p[at + 3] as bv32)
      == NumberFor(node, d)
  {
    WordField(node, d);
    LittleEndian32Value(NumberFor(node, d));
  }

  /** A field configured shorter than its type has the lowest bytes of the value. */
  lemma LowestBytesSent(node: Node, d: Datapoint, payload: seq<byte>, k: nat)
    requires Plain(node, UINT16) || Plain(node, INT16) || Plain(node, UINT32)
    requires Encodable(node, d) && |payload| == PAYLOAD_SIZE && k < node.length
    ensures |Field(node, d)| == node.length
    ensures Sent(payload, node, d)[node.byteOffset + k] ==
      if GetDataType(node.dataType) == UINT32 then LittleEndian32(NumberFor(node, d))[k]
      else LittleEndian16(Low16(NumberFor(node, d)))[k]
  {
    if GetDataType(node.dataType) == UINT32 {
      assert Field(node, d) == LittleEndian32(NumberFor(node, d))[..node.length];
    } else {
      assert Field(node, d) == LittleEndian16(Low16(NumberFor(node, d)))[..node.length];
    }
  }

  /** A float is sent as it lies in memory. */
  lemma FloatSent(node: Node, f: Float32, payload: seq<byte>)
    requires Plain(node, FLOAT) && Encodable(node, Float(f)) && |payload| == PAYLOAD_SIZE
    ensures var p := Sent(payload, node, Float(f));
      p[node.byteOffset..node.byteOffset + 4] == [f.b0, f.b1, f.b2, f.b3]
  {
  }

  /** A byte array is sent element by element, modulo 2^8; of one of four bytes, byte 2 of the payload
      is moved to byte 3, and 0 takes its place. */
  lemma BytesSent(node: Node, values: seq<bv32>, payload: seq<byte>, k: nat)
    requires Plain(node, UINT8_ARRAY) && Encodable(node, Uint32Array(values)) && |payload| == PAYLOAD_SIZE
    requires k < node.length
    ensures var p, at := Sent(payload, node, Uint32Array(values)), node.byteOffset;
      p[at + k] as bv32 ==
        if node.length == 4 && at + k == 2 then 0
        else if node.length == 4 && at + k == 3 then values[2 - at] % 0x100
        else values[k] % 0x100
  {
    BytesField(node, values);
    ArrayByte(values, node.byteOffset, node.length, k);
  }

  lemma BytesField(node: Node, values: seq<bv32>)
    requires Plain(node, UINT8_ARRAY) && Encodable(node, Uint32Array(values))
    ensures node.length <= |values| && node.byteOffset + node.length <= PAYLOAD_SIZE
    ensures Field(node, Uint32Array(values)) == ByteArray(values, node.byteOffset, node.length)
  {
  }

  lemma ArrayByte(values: seq<bv32>, at: nat, length: nat, k: nat)
    requires k < length <= |values| && at + length <= PAYLOAD_SIZE
    ensures ByteArray(values, at, length)[k] as bv32 ==
      if length == 4 && at + k == 2 then 0
      else if length == 4 && at + k == 3 then values[2 - at] % 0x100
      else values[k] % 0x100
  {
    var from := if length == 4 && at + k == 3 then 2 - at else k;
    ArrayElement(values, at, length, k, from);
    LowBitsValue(values[from]);
  }

  lemma ArrayElement(values: seq<bv32>, at: nat, length: nat, k: nat, from: int)
    requires k < length <= |values| && at + length <= PAYLOAD_SIZE
    requires from == if length == 4 && at + k == 3 then 2 - at else k
    ensures 0 <= from < length
    ensures ByteArray(values, at, length)[k] == if length == 4 && at + k == 2 then 0 else Low8(values[from])
  {
  }

  /** A node with a table sends the beginning of the memory image of the entry under "1" for true, and
      of the one under "0" otherwise; without such an entry it leaves the payload alone. */
  lemma TableSent(node: Node, d: Datapoint, payload: seq<byte>)
    requires node.transform != map[] && node.length > 0 && Encodable(node, d) && |payload| == PAYLOAD_SIZE
    ensures var key := if d == Bool(true) then "1" else "0";
      var p, at := Sent(payload, node, d), node.byteOffset;
      if key in node.transform
      then at + node.length <= PAYLOAD_SIZE && node.length <= |JsonImage(node.transform[key])|
           && p[at..at + node.length] == JsonImage(node.transform[key])[..node.length]
      else p == payload
  {
  }

  /** The memory image of a table entry: one byte for a boolean, the characters and a final 0 for a
      text, and the digits in base 256, lowest first, for an integer. */
  lemma ImageOfEntry(j: Json)
    ensures j.JBool? ==> JsonImage(j) == [if j.b then 1 else 0]
    ensures j.JString? ==> |JsonImage(j)| == |j.chars| + 1 && JsonImage(j)[..|j.chars|] == j.chars
                           && JsonImage(j)[|j.chars|] == 0
    ensures j.JInt? || j.JUInt? ==> var v := if j.JInt? then j.int32 else j.uint32;
      && |JsonImage(j)| == 4
      && var b := JsonImage(j);
         v == (b[0] as bv32) + 0x100 * (b[1] as bv32) + 0x1_0000 * (b[2] as bv32) + 0x100_0000 * (b[3] as bv32)
  {
    match j
    case JInt(v) => LittleEndian32Value(v);
    case JUInt(v) => LittleEndian32Value(v);
    case _ =>
  }
}
