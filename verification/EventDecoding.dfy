/** From a SOME/IP event payload to the values fed to the broker, node by node. */
module EventDecoding {
  import opened Bytes
  import opened Options
  import opened PayloadCodec

  /** The host's conversion of a float to an integer. */
  type Truncation = Float32 -> int

  // ----- what a node reads

  function DigitsOf(n: nat): string
    decreases n
  {
    var last := ["0", "1", "2", "3", "4", "5", "6", "7", "8", "9"][n % 10];
    if n < 10 then last else DigitsOf(n / 10) + last
  }

  /** The decimal form of an integer, as std::to_string gives it. */
  function ToString(i: int): string {
    if i < 0 then "-" + DigitsOf(-i) else DigitsOf(i)
  }

  /** How many bytes a node reads. */
  function Width(node: Node): nat {
    if node.length == 0 then 0
    else
      match GetDataType(node.dataType)
      case BOOL | UINT8 | INT8 => 1
      case UINT16 | INT16 => 2
      case UINT32 | FLOAT => 4
      case STRING => node.length
      case _ => 0
  }

  function BigEndian16(hi: byte, lo: byte): bv16 {
    (lo as bv16) | ((hi as bv16) << 8)
  }

  /** How many bytes an integer field has. */
  function WordSize(t: DataType): nat {
    match t
    case BOOL | UINT8 | INT8 => 1
    case UINT16 | INT16 => 2
    case UINT32 => 4
    case _ => 0
  }

  /** The integer that bytes stand for, as the bits of a C++ `int`. */
  function WordOf(t: DataType, field: seq<byte>): bv32
    requires |field| >= WordSize(t)
  {
    match t
    case BOOL | UINT8 => field[0] as bv32
    case INT8 => SignExtend8(field[0])
    case UINT16 => BigEndian16(field[0], field[1]) as bv32
    case INT16 => SignExtend16(BigEndian16(field[0], field[1]))
    case UINT32 => Join32(field[0], field[1], field[2], field[3])
    case _ => 0
  }

  /** The integer read from the node's own bytes. */
  function Word(node: Node, field: seq<byte>): bv32
    requires |field| == Width(node) && node.length > 0
  {
    WordOf(GetDataType(node.dataType), field)
  }

  /** The value read from the node's own bytes; none for the types events do not support. */
  function DecodedValue(node: Node, field: seq<byte>): Option<Datapoint>
    requires |field| == Width(node) && node.length > 0
  {
    match GetDataType(node.dataType)
    case BOOL => Some(Bool(Word(node, field) != 0))
    case UINT8 | UINT16 | UINT32 => Some(Uint32(Word(node, field)))
    case INT8 | INT16 => Some(Int32(Word(node, field)))
    case FLOAT => Some(Float(Float32(field[3], field[2], field[1], field[0])))
    case STRING => Some(Str(field))
    case _ => None
  }

  /** The integer looked up in the transform table. */
  function DecodedKey(node: Node, field: seq<byte>, truncate: Truncation): int
    requires |field| == Width(node) && node.length > 0
  {
    if GetDataType(node.dataType) == FLOAT then truncate(Float32(field[3], field[2], field[1], field[0]))
    else Signed(Word(node, field))
  }

  /** The datapoint made from a table entry. */
  function FromJson(j: Json): Datapoint {
    match j
    case JBool(b) => Bool(b)
    case JString(chars) => Str(chars)
    case JInt(v) => Int32(v)
    case JUInt(v) => Uint32(v)
    case JInt64(v) => Int64(v)
    case JUInt64(v) => Uint64(v)
    case JDouble(image) => Double(image)
    case JOther => Unset
  }

  /** What is fed for a node, as a function of its configuration and its own bytes. */
  function NodeFeed(node: Node, field: seq<byte>, truncate: Truncation): Option<Datapoint>
    requires |field| == Width(node)
  {
    if node.length == 0 then None
    else if node.transform != map[] then
      var key := ToString(DecodedKey(node, field, truncate));
      if key in node.transform then Some(FromJson(node.transform[key])) else None
    else DecodedValue(node, field)
  }

  /** The payload has the bytes the node reads. */
  predicate Fits(node: Node, payload: seq<byte>) {
    node.byteOffset + Width(node) <= |payload|
  }

  /** The payload is long enough for the nodes of this event. */
  predicate LongEnough(nodes: seq<Node>, eventId: nat, payload: seq<byte>) {
    forall i :: 0 <= i < |nodes| && nodes[i].methodId == eventId ==> Fits(nodes[i], payload)
  }

  /** The mapping is for events, and the message came from the service it is configured for. */
  predicate Concerned(m: Mapping, forUs: bool) {
    m.serviceType == "Event" && forUs
  }

  predicate AllLongEnough(config: seq<Mapping>, forUs: bool, eventId: nat, payload: seq<byte>) {
    forall i :: 0 <= i < |config| && Concerned(config[i], forUs) ==> LongEnough(config[i].nodes, eventId, payload)
  }

  function OwnBytes(node: Node, payload: seq<byte>): (field: seq<byte>)
    requires Fits(node, payload)
    ensures |field| == Width(node)
  {
    payload[node.byteOffset..node.byteOffset + Width(node)]
  }

  /** The values fed for the nodes of one event, in order. */
  function Feeds(nodes: seq<Node>, eventId: nat, payload: seq<byte>, truncate: Truncation): seq<(string, Datapoint)>
    requires LongEnough(nodes, eventId, payload)
    decreases |nodes|
  {
    if nodes == [] then []
    else
      var n := |nodes| - 1;
      var node := nodes[n];
      var fed := if node.methodId == eventId then NodeFeed(node, OwnBytes(node, payload), truncate) else None;
      Feeds(nodes[..n], eventId, payload, truncate) + (if fed.Some? then [(node.name, fed.value)] else [])
  }

  function AllFeeds(config: seq<Mapping>, forUs: bool, eventId: nat, payload: seq<byte>, truncate: Truncation)
    : seq<(string, Datapoint)>
    requires AllLongEnough(config, forUs, eventId, payload)
    decreases |config|
  {
    if config == [] then []
    else
      var n := |config| - 1;
      AllFeeds(config[..n], forUs, eventId, payload, truncate) +
      (if Concerned(config[n], forUs) then Feeds(config[n].nodes, eventId, payload, truncate) else [])
  }

  // ----- the code

  /** Decodes one field, overwriting the value left by the node before. */
  method DecodeField(node: Node, payload: array<byte>, truncate: Truncation, previous: Datapoint)
    returns (value: Datapoint, key: int, feed: bool)
    requires node.length > 0 && Fits(node, payload[..])
    ensures var field := OwnBytes(node, payload[..]);
      && key == DecodedKey(node, field, truncate)
      && feed == DecodedValue(node, field).Some?
      && value == if feed then DecodedValue(node, field).value else previous
  {
    var at := node.byteOffset;
    value, key, feed := previous, 0, false;
    match GetDataType(node.dataType)
    case BOOL =>
      var word := ReadWord(node, payload);
      value, key, feed := Bool(word != 0), Signed(word), true;
    case UINT8 | UINT16 | UINT32 =>
      var word := ReadWord(node, payload);
      value, key, feed := Uint32(word), Signed(word), true;
    case INT8 | INT16 =>
      var word := ReadWord(node, payload);
      value, key, feed := Int32(word), Signed(word), true;
    case FLOAT =>
      var f := Float32(payload[at + 3], payload[at + 2], payload[at + 1], payload[at]);
      value, key, feed := Float(f), truncate(f), true;
    case STRING =>
      value, feed := Str(payload[at..at + node.length]), true;
      ZeroIsZero();
    case _ =>
      ZeroIsZero();
  }

  lemma ZeroIsZero()
    ensures Signed(0) == 0
  {
  }

  /** The bytes of an integer field, put together in the order of its type. */
  method PutTogether(t: DataType, field: seq<byte>) returns (word: bv32)
    requires |field| >= WordSize(t)
    ensures word == WordOf(t, field)
  {
    match t
    case BOOL | UINT8 => word := field[0] as bv32;
    case INT8 => word := SignExtend8(field[0]);
    case UINT16 => word := BigEndian16(field[0], field[1]) as bv32;
    case INT16 => word := SignExtend16(BigEndian16(field[0], field[1]));
    case UINT32 => word := Join32(field[0], field[1], field[2], field[3]);
    case _ => word := 0;
  }

  method ReadWord(node: Node, payload: array<byte>) returns (word: bv32)
    requires node.length > 0 && Fits(node, payload[..])
    ensures word == Word(node, OwnBytes(node, payload[..]))
  {
    var field := payload[node.byteOffset..node.byteOffset + Width(node)];
    assert field == OwnBytes(node, payload[..]);
    word := PutTogether(GetDataType(node.dataType), field);
  }

  /** The nodes of one mapping, with a single value variable carried from node to node. */
  method DecodeNodes(nodes: seq<Node>, eventId: nat, payload: array<byte>, truncate: Truncation, leftover: Datapoint)
    returns (fed: seq<(string, Datapoint)>, value: Datapoint)
    requires LongEnough(nodes, eventId, payload[..])
    ensures fed == Feeds(nodes, eventId, payload[..], truncate)
  {
    fed, value := [], leftover;
    var j := 0;
    while j < |nodes|
      invariant j <= |nodes|
      invariant fed == Feeds(nodes[..j], eventId, payload[..], truncate)
    {
      var node := nodes[j];
      assert nodes[..j + 1][..j] == nodes[..j];
      if node.methodId == eventId && node.length > 0 {
        var key, feed;
        value, key, feed := DecodeField(node, payload, truncate, value);
        if node.transform != map[] {
          if ToString(key) in node.transform {
            value, feed := FromJson(node.transform[ToString(key)]), true;
          } else {
            feed := false;
          }
        }
        if feed {
          fed := fed + [(node.name, value)];
        }
      }
      j := j + 1;
    }
    assert nodes[..j] == nodes;
  }

  method OnSomeipMessage(config: seq<Mapping>, forUs: bool, eventId: nat, payload: array<byte>, truncate: Truncation)
    returns (fed: seq<(string, Datapoint)>)
    requires AllLongEnough(config, forUs, eventId, payload[..])
    ensures fed == AllFeeds(config, forUs, eventId, payload[..], truncate)
  {
    fed := [];
    var value := Unset;
    var i := 0;
    while i < |config|
      invariant i <= |config|
      invariant fed == AllFeeds(config[..i], forUs, eventId, payload[..], truncate)
    {
      assert config[..i + 1][..i] == config[..i];
      if config[i].serviceType == "Event" && forUs {
        var more;
        more, value := DecodeNodes(config[i].nodes, eventId, payload, truncate, value);
        fed := fed + more;
      }
      i := i + 1;
    }
    assert config[..i] == config;
  }

  // ----- numbers and keys

  /** What the bytes of an integer field stand for, as a number in base 256. One byte: itself, less
      2^8 if the type is signed and the top bit is set. */
  lemma ByteMeaning(b: byte)
    ensures WordOf(BOOL, [b]) == b as bv32 && WordOf(UINT8, [b]) == b as bv32
    ensures WordOf(INT8, [b]) == if b >= 0x80 then (b as bv32) - 0x100 else b as bv32
  {
    SignExtendValue(0, b);
  }

  /** Two bytes: in network order, less 2^16 if the type is signed and the top bit is set. */
  lemma HalfMeaning(hi: byte, lo: byte)
    ensures WordOf(UINT16, [hi, lo]) == 0x100 * (hi as bv32) + (lo as bv32)
    ensures hi < 0x80 ==> WordOf(INT16, [hi, lo]) == 0x100 * (hi as bv32) + (lo as bv32)
    ensures hi >= 0x80 ==> WordOf(INT16, [hi, lo]) == 0x100 * (hi as bv32) + (lo as bv32) - 0x1_0000
  {
    NetworkOrder(hi, lo);
    SignExtendValue(BigEndian16(hi, lo), 0);
  }

  lemma NetworkOrder(hi: byte, lo: byte)
    ensures BigEndian16(hi, lo) as bv32 == 0x100 * (hi as bv32) + (lo as bv32)
    ensures BigEndian16(hi, lo) >= 0x8000 <==> hi >= 0x80
  {
  }

  /** Four bytes: lowest first. */
  lemma WordMeaning(b0: byte, b1: byte, b2: byte, b3: byte)
    ensures WordOf(UINT32, [b0, b1, b2, b3]) ==
      (b0 as bv32) + 0x100 * (b1 as bv32) + 0x1_0000 * (b2 as bv32) + 0x100_0000 * (b3 as bv32)
  {
    Join32Value(b0, b1, b2, b3);
  }

  /** The key looked up in a table is the number that would be fed without one, taken as a signed
      integer; for a float it is the truncated float, for everything else 0. */
  lemma KeyMatchesValue(node: Node, field: seq<byte>, truncate: Truncation)
    requires |field| == Width(node) && node.length > 0
    ensures var key := DecodedKey(node, field, truncate);
      match DecodedValue(node, field)
      case Some(Uint32(u)) => key == Signed(u)
      case Some(Int32(i)) => key == Signed(i)
      case Some(Float(f)) => key == truncate(f)
      case Some(Bool(b)) => b <==> key != 0
      case _ => key == 0
  {
    ZeroIsZero();
    SignedZero(Word(node, field));
  }

  function ParseDigits(s: string): int {
    if s == [] then 0 else 10 * ParseDigits(s[..|s| - 1]) + (s[|s| - 1] as int - '0' as int)
  }

  /** The number a decimal string stands for. */
  function Parse(s: string): int {
    if s != [] && s[0] == '-' then -ParseDigits(s[1..]) else ParseDigits(s)
  }

  lemma {:induction false} ParseDigitsOf(n: nat)
    ensures ParseDigits(DigitsOf(n)) == n && |DigitsOf(n)| >= 1 && '0' <= DigitsOf(n)[0] <= '9'
    ensures DigitsOf(n)[0] == '0' ==> n == 0
    decreases n
  {
    var last := ["0", "1", "2", "3", "4", "5", "6", "7", "8", "9"][n % 10];
    assert |last| == 1 && last[0] as int == '0' as int + n % 10;
    if n < 10 {
      assert last[..0] == [];
    } else {
      ParseDigitsOf(n / 10);
      var s := DigitsOf(n / 10);
      assert (s + last)[..|s|] == s;
      assert (s + last)[|s|] == last[0] && (s + last)[0] == s[0];
    }
  }

  /** The string looked up is the decimal form of the key: it reads back as the key, and has no
      leading zeros. */
  lemma ParseToString(i: int)
    ensures Parse(ToString(i)) == i
    ensures i != 0 ==> ToString(i)[if i < 0 then 1 else 0] != '0'
  {
    ParseDigitsOf(if i < 0 then -i else i);
    if i < 0 {
      assert ToString(i)[1..] == DigitsOf(-i);
    }
  }

  /** So different keys are looked up under different strings. */
  lemma KeysDiffer(i: int, j: int)
    ensures ToString(i) == ToString(j) <==> i == j
  {
    ParseToString(i);
    ParseToString(j);
  }

  /** The bytes a datapoint has in memory. */
  function ImageOf(d: Datapoint): seq<byte> {
    match d
    case Bool(b) => [if b then 1 else 0]
    case Uint32(v) => LittleEndian32(v)
    case Int32(v) => LittleEndian32(v)
    case Uint64(v) => LittleEndian64(v)
    case Int64(v) => LittleEndian64(v)
    case Float(f) => FloatImage(f)
    case Double(image) => image
    case Str(s) => s + [0]
    case _ => []
  }

  /** A table entry is fed as what a request would send for it: the same bytes, signed if the entry is
      a signed integer, and as a truth value, text or number just as the entry is one. */
  lemma EntryKept(j: Json)
    ensures ImageOf(FromJson(j)) == JsonImage(j)
    ensures FromJson(j).Bool? <==> j.JBool?
    ensures FromJson(j).Str? <==> j.JString?
    ensures FromJson(j).Int32? <==> j.JInt?
    ensures FromJson(j).Uint32? <==> j.JUInt?
    ensures FromJson(j).Int64? <==> j.JInt64?
    ensures FromJson(j).Uint64? <==> j.JUInt64?
    ensures FromJson(j).Double? <==> j.JDouble?
  {
  }

  // ----- what it means

  /** The bytes of `p` and `q` agree wherever a node of the event reads. */
  ghost predicate AgreeOn(nodes: seq<Node>, eventId: nat, p: seq<byte>, q: seq<byte>)
    requires LongEnough(nodes, eventId, p) && LongEnough(nodes, eventId, q)
  {
    forall i :: 0 <= i < |nodes| && nodes[i].methodId == eventId ==> OwnBytes(nodes[i], p) == OwnBytes(nodes[i], q)
  }

  ghost predicate AllAgree(config: seq<Mapping>, forUs: bool, eventId: nat, p: seq<byte>, q: seq<byte>)
    requires AllLongEnough(config, forUs, eventId, p) && AllLongEnough(config, forUs, eventId, q)
  {
    forall i :: 0 <= i < |config| && Concerned(config[i], forUs) ==> AgreeOn(config[i].nodes, eventId, p, q)
  }

  lemma {:induction false} NodesReadOwnBytes(nodes: seq<Node>, eventId: nat, p: seq<byte>, q: seq<byte>,
                                             truncate: Truncation)
    requires LongEnough(nodes, eventId, p) && LongEnough(nodes, eventId, q) && AgreeOn(nodes, eventId, p, q)
    ensures Feeds(nodes, eventId, p, truncate) == Feeds(nodes, eventId, q, truncate)
    decreases |nodes|
  {
    if nodes != [] {
      var n := |nodes| - 1;
      assert nodes[n].methodId == eventId ==> OwnBytes(nodes[n], p) == OwnBytes(nodes[n], q);
      assert forall i :: 0 <= i < n ==> nodes[..n][i] == nodes[i];
      NodesReadOwnBytes(nodes[..n], eventId, p, q, truncate);
    }
  }

  /** A message is read only where nodes of its event are configured: neither other bytes nor the
      length of the payload matter for anything that is fed. */
  lemma {:induction false} OnlyOwnBytesMatter(config: seq<Mapping>, forUs: bool, eventId: nat,
                                              p: seq<byte>, q: seq<byte>, truncate: Truncation)
    requires AllLongEnough(config, forUs, eventId, p) && AllLongEnough(config, forUs, eventId, q)
    requires AllAgree(config, forUs, eventId, p, q)
    ensures AllFeeds(config, forUs, eventId, p, truncate) == AllFeeds(config, forUs, eventId, q, truncate)
    decreases |config|
  {
    if config != [] {
      var n := |config| - 1;
      assert forall i :: 0 <= i < n ==> config[..n][i] == config[i];
      OnlyOwnBytesMatter(config[..n], forUs, eventId, p, q, truncate);
      if Concerned(config[n], forUs) {
        NodesReadOwnBytes(config[n].nodes, eventId, p, q, truncate);
      }
    }
  }

  lemma LongEnoughParts(before: seq<Node>, after: seq<Node>, eventId: nat, payload: seq<byte>)
    requires LongEnough(before + after, eventId, payload)
    ensures LongEnough(before, eventId, payload) && LongEnough(after, eventId, payload)
  {
    forall i | 0 <= i < |before| && before[i].methodId == eventId ensures Fits(before[i], payload) {
      assert (before + after)[i] == before[i];
    }
    forall i | 0 <= i < |after| && after[i].methodId == eventId ensures Fits(after[i], payload) {
      assert (before + after)[|before| + i] == after[i];
    }
  }

  /** The feeds of a list are those of its parts: no node influences another. */
  lemma {:induction false} NodesAreIndependent(before: seq<Node>, after: seq<Node>, eventId: nat, payload: seq<byte>,
                                               truncate: Truncation)
    requires LongEnough(before + after, eventId, payload)
    ensures LongEnough(before, eventId, payload) && LongEnough(after, eventId, payload)
    ensures Feeds(before + after, eventId, payload, truncate) ==
      Feeds(before, eventId, payload, truncate) + Feeds(after, eventId, payload, truncate)
    decreases |after|
  {
    LongEnoughParts(before, after, eventId, payload);
    if after == [] {
      assert before + after == before;
    } else {
      var n := |after| - 1;
      assert (before + after)[..|before| + n] == before + after[..n];
      NodesAreIndependent(before, after[..n], eventId, payload, truncate);
    }
  }

  lemma AllLongEnoughParts(before: seq<Mapping>, after: seq<Mapping>, forUs: bool, eventId: nat, payload: seq<byte>)
    requires AllLongEnough(before + after, forUs, eventId, payload)
    ensures AllLongEnough(before, forUs, eventId, payload) && AllLongEnough(after, forUs, eventId, payload)
  {
    forall i | 0 <= i < |before| && Concerned(before[i], forUs) ensures LongEnough(before[i].nodes, eventId, payload) {
      assert (before + after)[i] == before[i];
    }
    forall i | 0 <= i < |after| && Concerned(after[i], forUs) ensures LongEnough(after[i].nodes, eventId, payload) {
      assert (before + after)[|before| + i] == after[i];
    }
  }

  /** Neither does one mapping influence another. */
  lemma {:induction false} MappingsAreIndependent(before: seq<Mapping>, after: seq<Mapping>, forUs: bool, eventId: nat,
                                                  payload: seq<byte>, truncate: Truncation)
    requires AllLongEnough(before + after, forUs, eventId, payload)
    ensures AllLongEnough(before, forUs, eventId, payload) && AllLongEnough(after, forUs, eventId, payload)
    ensures AllFeeds(before + after, forUs, eventId, payload, truncate) ==
      AllFeeds(before, forUs, eventId, payload, truncate) + AllFeeds(after, forUs, eventId, payload, truncate)
    decreases |after|
  {
    AllLongEnoughParts(before, after, forUs, eventId, payload);
    if after == [] {
      assert before + after == before;
    } else {
      var n := |after| - 1;
      assert (before + after)[..|before| + n] == before + after[..n];
      MappingsAreIndependent(before, after[..n], forUs, eventId, payload, truncate);
    }
  }

  // ----- one node in a message

  /** The message's configuration, opened up around one node. */
  datatype Place = Place(
    left: seq<Mapping>, mapping: Mapping, before: seq<Node>, node: Node, after: seq<Node>, right: seq<Mapping>)

  ghost predicate At(p: Place, config: seq<Mapping>) {
    config == p.left + ([p.mapping] + p.right) && p.mapping.nodes == p.before + ([p.node] + p.after)
  }

  ghost predicate PartsFit(p: Place, forUs: bool, eventId: nat, payload: seq<byte>) {
    && AllLongEnough(p.left, forUs, eventId, payload) && AllLongEnough(p.right, forUs, eventId, payload)
    && LongEnough(p.before, eventId, payload) && LongEnough([p.node], eventId, payload)
    && LongEnough(p.after, eventId, payload)
  }

  /** What the nodes ahead of this one feed, and what the nodes behind it feed. */
  ghost function Ahead(p: Place, forUs: bool, eventId: nat, payload: seq<byte>, truncate: Truncation)
    : seq<(string, Datapoint)>
    requires PartsFit(p, forUs, eventId, payload)
  {
    AllFeeds(p.left, forUs, eventId, payload, truncate) + Feeds(p.before, eventId, payload, truncate)
  }

  ghost function Behind(p: Place, forUs: bool, eventId: nat, payload: seq<byte>, truncate: Truncation)
    : seq<(string, Datapoint)>
    requires PartsFit(p, forUs, eventId, payload)
  {
    Feeds(p.after, eventId, payload, truncate) + AllFeeds(p.right, forUs, eventId, payload, truncate)
  }

  lemma {:induction false} FeedsOfOne(node: Node, eventId: nat, payload: seq<byte>, truncate: Truncation)
    requires LongEnough([node], eventId, payload)
    ensures node.methodId == eventId ==> Fits(node, payload)
    ensures Feeds([node], eventId, payload, truncate) ==
      if node.methodId == eventId && NodeFeed(node, OwnBytes(node, payload), truncate).Some?
      then [(node.name, NodeFeed(node, OwnBytes(node, payload), truncate).value)] else []
  {
    assert [node][0] == node;
    assert [node][..0] == [];
  }

  lemma {:induction false} FeedsOfOneMapping(m: Mapping, forUs: bool, eventId: nat, payload: seq<byte>,
                                             truncate: Truncation)
    requires AllLongEnough([m], forUs, eventId, payload) && Concerned(m, forUs)
    ensures LongEnough(m.nodes, eventId, payload)
    ensures AllFeeds([m], forUs, eventId, payload, truncate) == Feeds(m.nodes, eventId, payload, truncate)
  {
    assert [m][0] == m;
    assert [m][..0] == [];
  }

  lemma Regroup<T>(a: seq<T>, b: seq<T>, c: seq<T>, d: seq<T>, e: seq<T>)
    ensures a + ((b + (c + d)) + e) == (a + b) + c + (d + e)
  {
  }

  /** What a message feeds ahead of a node and behind it does not depend on the node, and the node's
      own part depends on nothing else. */
  lemma {:induction false} NodeInMessage(p: Place, config: seq<Mapping>, forUs: bool, eventId: nat, payload: seq<byte>,
                                         truncate: Truncation)
    requires At(p, config) && AllLongEnough(config, forUs, eventId, payload)
    requires p.mapping.serviceType == "Event" && forUs
    ensures PartsFit(p, forUs, eventId, payload)
    ensures AllFeeds(config, forUs, eventId, payload, truncate) ==
      Ahead(p, forUs, eventId, payload, truncate) + Feeds([p.node], eventId, payload, truncate)
      + Behind(p, forUs, eventId, payload, truncate)
  {
    MappingsAreIndependent(p.left, [p.mapping] + p.right, forUs, eventId, payload, truncate);
    MappingsAreIndependent([p.mapping], p.right, forUs, eventId, payload, truncate);
    FeedsOfOneMapping(p.mapping, forUs, eventId, payload, truncate);
    NodesAreIndependent(p.before, [p.node] + p.after, eventId, payload, truncate);
    NodesAreIndependent([p.node], p.after, eventId, payload, truncate);
    Regroup(AllFeeds(p.left, forUs, eventId, payload, truncate), Feeds(p.before, eventId, payload, truncate),
            Feeds([p.node], eventId, payload, truncate), Feeds(p.after, eventId, payload, truncate),
            AllFeeds(p.right, forUs, eventId, payload, truncate));
  }

  /** Wherever in a message a node with a table stands: the table's value for its decoded key is fed
      between the feeds of the nodes ahead and those behind if the key is in the table, and nothing
      is otherwise. Types that events do not decode have the key zero. */
  lemma {:induction false} FedIffKeyInTable(p: Place, config: seq<Mapping>, forUs: bool, eventId: nat,
                                            payload: seq<byte>, truncate: Truncation)
    requires At(p, config) && AllLongEnough(config, forUs, eventId, payload)
    requires p.mapping.serviceType == "Event" && forUs
    requires p.node.methodId == eventId && p.node.length > 0 && p.node.transform != map[]
    ensures PartsFit(p, forUs, eventId, payload) && Fits(p.node, payload)
    ensures AllFeeds(config, forUs, eventId, payload, truncate) ==
      Ahead(p, forUs, eventId, payload, truncate)
      + TableFeed(p.node, ToString(DecodedKey(p.node, OwnBytes(p.node, payload), truncate)))
      + Behind(p, forUs, eventId, payload, truncate)
  {
    NodeInMessage(p, config, forUs, eventId, payload, truncate);
    FeedsOfOne(p.node, eventId, payload, truncate);
  }

  function TableFeed(node: Node, key: string): seq<(string, Datapoint)> {
    if key in node.transform then [(node.name, FromJson(node.transform[key]))] else []
  }
  /** Wherever in a message a node without a table stands: its decoded value is fed there if it is
      configured for this event, has a length and a type that events support; nothing otherwise. */
  lemma {:induction false} PlainNodeFed(p: Place, config: seq<Mapping>, forUs: bool, eventId: nat,
                                        payload: seq<byte>, truncate: Truncation)
    requires At(p, config) && AllLongEnough(config, forUs, eventId, payload)
    requires p.mapping.serviceType == "Event" && forUs
    requires p.node.transform == map[]
    ensures PartsFit(p, forUs, eventId, payload)
    ensures p.node.methodId == eventId ==> Fits(p.node, payload)
    ensures AllFeeds(config, forUs, eventId, payload, truncate) ==
      Ahead(p, forUs, eventId, payload, truncate)
      + (if p.node.methodId == eventId && p.node.length > 0 && DecodedValue(p.node, OwnBytes(p.node, payload)).Some?
         then [(p.node.name, DecodedValue(p.node, OwnBytes(p.node, payload)).value)] else [])
      + Behind(p, forUs, eventId, payload, truncate)
  {
    NodeInMessage(p, config, forUs, eventId, payload, truncate);
    FeedsOfOne(p.node, eventId, payload, truncate);
  }

  /** A message from another service, or a configuration without event mappings, feeds nothing. */
  lemma {:induction false} OthersFeedNothing(config: seq<Mapping>, forUs: bool, eventId: nat, payload: seq<byte>,
                                             truncate: Truncation)
    requires !forUs || forall i :: 0 <= i < |config| ==> config[i].serviceType != "Event"
    ensures AllLongEnough(config, forUs, eventId, payload)
    ensures AllFeeds(config, forUs, eventId, payload, truncate) == []
    decreases |config|
  {
    if config != [] {
      OthersFeedNothing(config[..|config| - 1], forUs, eventId, payload, truncate);
    }
  }
}
