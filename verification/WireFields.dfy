/**
 Protobuf field lists: what one field means on the wire, and the wire switch that the three parsers of
 the sing-box client share.
 */
module WireFields {
  import opened Options
  import opened Varint

  datatype Field =
    | Number(num: nat, value: nat)          // wire type 0
    | Fixed64(num: nat, raw: seq<Byte>)     // wire type 1
    | Text(num: nat, data: seq<Byte>)       // wire type 2
    | Fixed32(num: nat, raw: seq<Byte>)     // wire type 5

  /** Why a field could not be read. The parsers answer these differently. */
  datatype Fault = BadVarint | ShortFixed | ShortText | BadWire

  datatype FieldRead =
    | Broken(fault: Fault)
    | Read(field: Field, next: nat)

  ghost predicate Encodable(f: Field)
  {
    && f.num < TWO_32
    && match f
       case Number(_, v) => v < TWO_64
       case Fixed64(_, raw) => |raw| == 8
       case Text(_, data) => |data| < TWO_64
       case Fixed32(_, raw) => |raw| == 4
  }

  ghost function Wire(f: Field): (w: nat)
    ensures w < 8
  {
    match f case Number(_, _) => 0 case Fixed64(_, _) => 1 case Text(_, _) => 2 case Fixed32(_, _) => 5
  }

  ghost function Payload(f: Field): (bytes: seq<Byte>)
  {
    match f
    case Number(_, v) => Encode(v)
    case Fixed64(_, raw) => raw
    case Text(_, data) => Encode(|data|) + data
    case Fixed32(_, raw) => raw
  }

  ghost function Serialize(f: Field): (bytes: seq<Byte>)
    ensures |bytes| > 0
  {
    Encode(f.num * 8 + Wire(f)) + Payload(f)
  }

  ghost function SerializeAll(fs: seq<Field>): (bytes: seq<Byte>)
  {
    if |fs| == 0 then [] else Serialize(fs[0]) + SerializeAll(fs[1..])
  }

  /** The key byte of a field below 16: the number shifted by three, with 0, 1, 2 or 5 for the wire type. */
  lemma KeyByte(num: nat, v: nat, data: seq<Byte>, raw: seq<Byte>)
    requires num < 16
    ensures Serialize(Number(num, v)) == [num * 8] + Encode(v)
    ensures Serialize(Fixed64(num, raw)) == [num * 8 + 1] + raw
    ensures Serialize(Text(num, data)) == [num * 8 + 2] + Encode(|data|) + data
    ensures Serialize(Fixed32(num, raw)) == [num * 8 + 5] + raw
  {
    assert [num * 8 + 2] + Encode(|data|) + data == [num * 8 + 2] + (Encode(|data|) + data);
  }

  /** The field that starts at `pos` of a message ending at `end`. */
  function FieldAt(buf: seq<Byte>, end: nat, pos: nat): (r: FieldRead)
    requires pos < end <= |buf|
    ensures r.Read? ==> pos < r.next <= end
  {
    match Scan(buf, end, pos)
    case Stuck(_) => Broken(BadVarint)
    case Got(key, p) => PayloadAt(buf, end, p, key / 8 % TWO_32, key % 8)
  }

  function PayloadAt(buf: seq<Byte>, end: nat, p: nat, num: nat, wire: nat): (r: FieldRead)
    requires p <= end <= |buf|
    ensures r.Read? ==> p <= r.next <= end
  {
    match wire
    case 0 => (
      match Scan(buf, end, p)
      case Stuck(_) => Broken(BadVarint)
      case Got(v, q) => Read(Number(num, v), q)
    )
    case 1 => if end - p < 8 then Broken(ShortFixed) else Read(Fixed64(num, buf[p..p + 8]), p + 8)
    case 2 => (
      match Scan(buf, end, p)
      case Stuck(_) => Broken(ShortText)
      case Got(size, q) =>
        if size > end - q then Broken(ShortText) else Read(Text(num, buf[q..q + size]), q + size)
    )
    case 5 => if end - p < 4 then Broken(ShortFixed) else Read(Fixed32(num, buf[p..p + 4]), p + 4)
    case _ => Broken(BadWire)
  }

  /** The key read and the wire switch at the head of each parser loop. */
  method ReadField(buf: seq<Byte>, end: nat, start: nat) returns (r: FieldRead)
    requires start < end <= |buf|
    ensures r == FieldAt(buf, end, start)
  {
    var ok, key, pos := ReadVarint(buf, end, start);
    if !ok { return Broken(BadVarint); }
    var num, wire := key / 8 % TWO_32, key % 8;
    match wire {
      case 0 =>
        var good, value, next := ReadVarint(buf, end, pos);
        r := if good then Read(Number(num, value), next) else Broken(BadVarint);
      case 1 =>
        r := if end - pos < 8 then Broken(ShortFixed) else Read(Fixed64(num, buf[pos..pos + 8]), pos + 8);
      case 2 =>
        var good, size, next := ReadVarint(buf, end, pos);
        r := if !good || size > end - next then Broken(ShortText)
             else Read(Text(num, buf[next..next + size]), next + size);
      case 5 =>
        r := if end - pos < 4 then Broken(ShortFixed) else Read(Fixed32(num, buf[pos..pos + 4]), pos + 4);
      case _ =>
        r := Broken(BadWire);
    }
  }

  /** `part` sits at `pos` of `buf`. */
  ghost predicate Holds(buf: seq<Byte>, pos: nat, part: seq<Byte>)
  {
    pos + |part| <= |buf| && buf[pos..pos + |part|] == part
  }

  lemma HoldsSplit(buf: seq<Byte>, pos: nat, left: seq<Byte>, right: seq<Byte>)
    requires Holds(buf, pos, left + right)
    ensures Holds(buf, pos, left) && Holds(buf, pos + |left|, right)
  {
    assert buf[pos..pos + |left|] == (left + right)[..|left|];
    assert buf[pos + |left|..pos + |left| + |right|] == (left + right)[|left|..];
  }

  lemma PayloadAtInverts(buf: seq<Byte>, end: nat, p: nat, f: Field)
    requires Encodable(f) && Holds(buf, p, Payload(f)) && p + |Payload(f)| <= end <= |buf|
    ensures PayloadAt(buf, end, p, f.num, Wire(f)) == Read(f, p + |Payload(f)|)
  {
    match f
    case Number(_, v) =>
      ScanInvertsEncode(buf, end, p, v);
    case Text(_, data) =>
      HoldsSplit(buf, p, Encode(|data|), data);
      ScanInvertsEncode(buf, end, p, |data|);
    case Fixed64(_, raw) =>
    case Fixed32(_, raw) =>
  }

  /** The key splits back into field number and wire type. */
  lemma KeyParts(buf: seq<Byte>, end: nat, pos: nat, p: nat, num: nat, wire: nat)
    requires num < TWO_32 && wire < 8
    requires pos < end <= |buf| && Scan(buf, end, pos) == Got(num * 8 + wire, p)
    ensures p <= end && FieldAt(buf, end, pos) == PayloadAt(buf, end, p, num, wire)
  {
    var key := num * 8 + wire;
    assert key / 8 % TWO_32 == num && key % 8 == wire;
  }

  lemma KeyAtInverts(buf: seq<Byte>, end: nat, pos: nat, key: nat, payload: seq<Byte>)
    requires key < TWO_64 && Holds(buf, pos, Encode(key) + payload) && pos + |Encode(key)| <= end <= |buf|
    ensures Scan(buf, end, pos) == Got(key, pos + |Encode(key)|) && Holds(buf, pos + |Encode(key)|, payload)
  {
    HoldsSplit(buf, pos, Encode(key), payload);
    ScanInvertsEncode(buf, end, pos, key);
  }

  /** A serialised field reads back as itself, wherever it sits in a message. */
  lemma FieldAtInvertsSerialize(buf: seq<Byte>, end: nat, pos: nat, f: Field)
    requires Encodable(f) && Holds(buf, pos, Serialize(f)) && pos + |Serialize(f)| <= end <= |buf|
    ensures FieldAt(buf, end, pos) == Read(f, pos + |Serialize(f)|)
  {
    hide Encode, Payload, PayloadAt, FieldAt, Scan;
    var num, wire, payload := f.num, Wire(f), Payload(f);
    var p := pos + |Encode(num * 8 + wire)|;
    KeyAtInverts(buf, end, pos, num * 8 + wire, payload);
    KeyParts(buf, end, pos, p, num, wire);
    PayloadAtInverts(buf, end, p, f);
  }

  /** The fields of a message in order, and the fault that cut the list short, if any. */
  datatype Fields = Fields(list: seq<Field>, stop: Option<Fault>)

  ghost function FieldsFrom(buf: seq<Byte>, end: nat, pos: nat): (r: Fields)
    requires end <= |buf|
    decreases end - pos
  {
    if pos >= end then Fields([], None)
    else
      match FieldAt(buf, end, pos)
      case Broken(fault) => Fields([], Some(fault))
      case Read(f, next) =>
        var rest := FieldsFrom(buf, end, next);
        Fields([f] + rest.list, rest.stop)
  }

  /** Every field list survives the wire. */
  lemma {:induction false} FieldsFromInvertsSerialize(buf: seq<Byte>, end: nat, pos: nat, fs: seq<Field>)
    requires forall i :: 0 <= i < |fs| ==> Encodable(fs[i])
    requires Holds(buf, pos, SerializeAll(fs)) && pos + |SerializeAll(fs)| == end
    ensures FieldsFrom(buf, end, pos) == Fields(fs, None)
    decreases |fs|
  {
    hide FieldAt, Serialize;
    if |fs| > 0 {
      var f, more := fs[0], fs[1..];
      HoldsSplit(buf, pos, Serialize(f), SerializeAll(more));
      FieldAtInvertsSerialize(buf, end, pos, f);
      FieldsFromInvertsSerialize(buf, end, pos + |Serialize(f)|, more);
      assert fs == [f] + more;
    }
  }

  /** What makes a field with a one-byte key unreadable. */
  lemma FaultAt(buf: seq<Byte>, end: nat, pos: nat)
    requires pos < end <= |buf|
    ensures buf[pos] >= 128 && end == pos + 1 ==> FieldAt(buf, end, pos) == Broken(BadVarint)
    ensures buf[pos] < 128 ==>
              var wire, left := buf[pos] % 8, end - pos - 1;
              && (wire in {3, 4, 6, 7} ==> FieldAt(buf, end, pos) == Broken(BadWire))
              && (wire == 0 && left == 0 ==> FieldAt(buf, end, pos) == Broken(BadVarint))
              && (wire == 1 && left < 8 ==> FieldAt(buf, end, pos) == Broken(ShortFixed))
              && (wire == 5 && left < 4 ==> FieldAt(buf, end, pos) == Broken(ShortFixed))
              && (wire == 2 && (left == 0 || left <= buf[pos + 1] < 128) ==>
                    FieldAt(buf, end, pos) == Broken(ShortText))
  {
    var byte := buf[pos];
    assert ScanGroups(buf, end, pos, MAX_GROUPS) == if byte < 128 then Got(byte, pos + 1) else
        ScanGroups(buf, end, pos, MAX_GROUPS);
    if byte < 128 {
      assert Scan(buf, end, pos) == Got(byte, pos + 1);
      assert byte / 8 % TWO_32 == byte / 8;
    }
  }

  /** The fields before an unreadable one are read, and the fault says why the list ends. */
  lemma {:induction false} FieldsThenFault(buf: seq<Byte>, end: nat, pos: nat, fs: seq<Field>, fault: Fault)
    requires forall i :: 0 <= i < |fs| ==> Encodable(fs[i])
    requires Holds(buf, pos, SerializeAll(fs)) && pos + |SerializeAll(fs)| < end <= |buf|
    requires FieldAt(buf, end, pos + |SerializeAll(fs)|) == Broken(fault)
    ensures FieldsFrom(buf, end, pos) == Fields(fs, Some(fault))
    decreases |fs|
  {
    hide FieldAt, Serialize;
    if |fs| > 0 {
      var f, more := fs[0], fs[1..];
      HoldsSplit(buf, pos, Serialize(f), SerializeAll(more));
      FieldAtInvertsSerialize(buf, end, pos, f);
      FieldsThenFault(buf, end, pos + |Serialize(f)|, more, fault);
      assert fs == [f] + more;
    }
  }

  /** Big-endian length of the 5-byte gRPC-Web frame header. */
  function Big32(b: seq<Byte>): (n: nat)
    requires |b| >= 5
    ensures n < TWO_32
  {
    var b1: int, b2: int, b3: int := b[1], b[2], b[3];
    b1 * 0x100_0000 + b2 * 0x1_0000 + b3 * 0x100 + b[4]
  }

  /** The frame around a message: flag byte, big-endian length, message. */
  function Frame(flag: Byte, message: seq<Byte>): (frame: seq<Byte>)
    requires |message| < TWO_32
    ensures |frame| == 5 + |message| && frame[0] == flag && frame[5..] == message
    ensures Big32(frame) == |message|
  {
    var n := |message|;
    BigDigits(n);
    [flag, n / 0x100_0000, n / 0x1_0000 % 256, n / 0x100 % 256, n % 256] + message
  }

  /** A reader finds the header and the message of a frame whatever comes behind it. */
  lemma FramedMessage(flag: Byte, message: seq<Byte>, tail: seq<Byte>)
    requires |message| < TWO_32
    ensures var buf := Frame(flag, message) + tail;
            |buf| >= 5 + |message| && buf[0] == flag && Big32(buf) == |message| && Holds(buf, 5, message)
  {
    var buf := Frame(flag, message) + tail;
    assert buf[5..5 + |message|] == Frame(flag, message)[5..];
  }

  /** The fields of a frame's message, or None when the frame cannot be opened. */
  ghost function MessageFields(frame: seq<Byte>): (r: Option<Fields>)
  {
    if |frame| < 5 || Big32(frame) > |frame| - 5 then None else Some(FieldsFrom(frame, 5 + Big32(frame), 5))
  }

  lemma MessageFieldsOfFrame(flag: Byte, fs: seq<Field>, tail: seq<Byte>)
    requires |SerializeAll(fs)| < TWO_32 && forall i :: 0 <= i < |fs| ==> Encodable(fs[i])
    ensures MessageFields(Frame(flag, SerializeAll(fs)) + tail) == Some(Fields(fs, None))
  {
    hide FieldsFrom, Frame, SerializeAll, Big32;
    var message := SerializeAll(fs);
    FramedMessage(flag, message, tail);
    FieldsFromInvertsSerialize(Frame(flag, message) + tail, 5 + |message|, 5, fs);
  }

  /** A message whose fields `fs` are followed by an unreadable rest, in a frame. */
  lemma MessageFieldsOfBroken(flag: Byte, fs: seq<Field>, bad: seq<Byte>, tail: seq<Byte>, fault: Fault)
    requires |SerializeAll(fs) + bad| < TWO_32 && forall i :: 0 <= i < |fs| ==> Encodable(fs[i])
    requires |bad| > 0
    requires var buf := Frame(flag, SerializeAll(fs) + bad) + tail;
             FieldAt(buf, 5 + |SerializeAll(fs) + bad|, 5 + |SerializeAll(fs)|) == Broken(fault)
    ensures MessageFields(Frame(flag, SerializeAll(fs) + bad) + tail) == Some(Fields(fs, Some(fault)))
  {
    hide FieldsFrom, Frame, SerializeAll, Big32, FieldAt, Encodable;
    var message := SerializeAll(fs) + bad;
    FramedMessage(flag, message, tail);
    var buf := Frame(flag, message) + tail;
    HoldsSplit(buf, 5, SerializeAll(fs), bad);
    FieldsThenFault(buf, 5 + |message|, 5, fs, fault);
  }

  lemma BigDigits(n: nat)
    requires n < TWO_32
    ensures n / 0x100_0000 < 256
    ensures n / 0x100_0000 * 0x100_0000 + n / 0x1_0000 % 256 * 0x1_0000 + n / 0x100 % 256 * 0x100 + n % 256 == n
  {
    assert n / 0x1_0000 == n / 0x100 / 256;
    assert n / 0x100_0000 == n / 0x1_0000 / 256;
  }
}
