/** The first gRPC-Web data frame of SubscribeStatus, decoded into a status sample. */
module StatusFrame {
  import opened Options
  import opened Varint
  import opened WireFields

  const INT32_MAX := 0x7fff_ffff

  datatype Status = Status(
    memory: nat, goroutines: nat, connectionsIn: nat, connectionsOut: nat, trafficAvailable: bool,
    uplink: int, downlink: int, uplinkTotal: int, downlinkTotal: int)

  /** Return values 0, -1 and 1 of the status parsers. */
  datatype Parsed = NeedMore | Reject | Complete(status: Status)

  const ZERO := Status(0, 0, 0, 0, false, 0, 0, 0, 0)

  /** The cast from `uint64_t` to `int64_t`. */
  function Signed64(v: nat): (r: int)
  {
    if v < 0x8000_0000_0000_0000 then v else v - TWO_64
  }

  /** The cast undoes two's complement. */
  lemma SignedInverts(x: int)
    requires -0x8000_0000_0000_0000 <= x < 0x8000_0000_0000_0000
    ensures Signed64(if x >= 0 then x else x + 0x1_0000_0000_0000_0000) == x
  {
  }

  predicate IsInt32Field(num: nat) { 2 <= num <= 4 }

  predicate FitsField(f: Field)
  {
    f.Number? && IsInt32Field(f.num) ==> f.value <= INT32_MAX
  }

  function Store(s: Status, f: Field): (r: Status)
  {
    if !f.Number? then s else
    match f.num
    case 1 => s.(memory := f.value)
    case 2 => s.(goroutines := f.value)
    case 3 => s.(connectionsIn := f.value)
    case 4 => s.(connectionsOut := f.value)
    case 5 => s.(trafficAvailable := f.value != 0)
    case 6 => s.(uplink := Signed64(f.value))
    case 7 => s.(downlink := Signed64(f.value))
    case 8 => s.(uplinkTotal := Signed64(f.value))
    case 9 => s.(downlinkTotal := Signed64(f.value))
    case _ => s
  }

  // What the protobuf document promises of a field list: the last value of each field counts.

  ghost predicate Fits(fs: seq<Field>)
  {
    forall i :: 0 <= i < |fs| ==> FitsField(fs[i])
  }

  /** The last varint value of field `num`, 0 when there is none. */
  ghost function LastNumber(fs: seq<Field>, num: nat): (v: nat)
  {
    if |fs| == 0 then 0
    else
      var f := fs[|fs| - 1];
      if f.Number? && f.num == num then f.value else LastNumber(fs[..|fs| - 1], num)
  }

  /** `LastNumber` is the value at the last occurrence. */
  lemma {:induction false} LastNumberIsLast(fs: seq<Field>, num: nat, i: nat)
    requires i < |fs| && fs[i].Number? && fs[i].num == num
    requires forall j :: i < j < |fs| && fs[j].Number? ==> fs[j].num != num
    ensures LastNumber(fs, num) == fs[i].value
    decreases |fs|
  {
    if i < |fs| - 1 {
      LastNumberIsLast(fs[..|fs| - 1], num, i);
    }
  }

  ghost function LastWins(fs: seq<Field>): (s: Status)
  {
    Status(LastNumber(fs, 1), LastNumber(fs, 2), LastNumber(fs, 3), LastNumber(fs, 4), LastNumber(fs, 5) != 0,
           Signed64(LastNumber(fs, 6)), Signed64(LastNumber(fs, 7)),
           Signed64(LastNumber(fs, 8)), Signed64(LastNumber(fs, 9)))
  }

  /** Which field of the message fills which component, and no other. */
  lemma FieldMeaning(v: nat)
    ensures LastWins([]) == ZERO == Status(0, 0, 0, 0, false, 0, 0, 0, 0)
    ensures LastWins([Number(1, v)]) == ZERO.(memory := v)
    ensures LastWins([Number(2, v)]) == ZERO.(goroutines := v)
    ensures LastWins([Number(3, v)]) == ZERO.(connectionsIn := v)
    ensures LastWins([Number(4, v)]) == ZERO.(connectionsOut := v)
    ensures LastWins([Number(5, v)]) == ZERO.(trafficAvailable := v != 0)
    ensures LastWins([Number(6, v)]) == ZERO.(uplink := Signed64(v))
    ensures LastWins([Number(7, v)]) == ZERO.(downlink := Signed64(v))
    ensures LastWins([Number(8, v)]) == ZERO.(uplinkTotal := Signed64(v))
    ensures LastWins([Number(9, v)]) == ZERO.(downlinkTotal := Signed64(v))
  {
    LastNumberOfNone();
    LastNumberOfOne(v);
  }

  lemma LastNumberOfNone()
    ensures forall num :: LastNumber([], num) == 0
  {
  }

  lemma LastNumberOfOne(v: nat)
    ensures forall k, num :: LastNumber([Number(k, v)], num) == if k == num then v else 0
  {
    forall k, num ensures LastNumber([Number(k, v)], num) == if k == num then v else 0 {
      assert [Number(k, v)][..0] == [];
    }
  }

  /** The fields of a message are independent, and later values of a field replace earlier ones. */
  lemma FieldsAreIndependent(fs: seq<Field>, f: Field)
    requires f.Number?
    ensures LastNumber(fs + [f], f.num) == f.value
    ensures forall num :: num != f.num ==> LastNumber(fs + [f], num) == LastNumber(fs, num)
  {
    assert (fs + [f])[..|fs|] == fs;
  }

  /** The meaning of a status message, complete or cut short. */
  ghost function StatusOf(fields: Fields): (r: Parsed)
  {
    if !Fits(fields.list) || fields.stop in {Some(BadVarint), Some(BadWire)} then Reject
    else if fields.stop.Some? then NeedMore
    else Complete(LastWins(fields.list))
  }

  ghost function ParseStatus(buf: seq<Byte>): (r: Parsed)
  {
    if |buf| < 5 then NeedMore
    else if buf[0] >= 128 then Reject
    else
      match MessageFields(buf)
      case None => NeedMore
      case Some(fields) => StatusOf(fields)
  }

  method ParseStatusFrame(buf: seq<Byte>) returns (r: Parsed)
    ensures r == ParseStatus(buf)
  {
    hide FieldAt, LastWins, Store;
    if |buf| < 5 { return NeedMore; }
    if buf[0] >= 128 { return Reject; }
    var messageLen := Big32(buf);
    if messageLen > |buf| - 5 { return NeedMore; }
    var pos, end, status := 5, 5 + messageLen, ZERO;
    ghost var done: seq<Field> := [];
    ghost var all := FieldsFrom(buf, end, 5);
    assert all.list == [] + all.list;
    LastWinsOfNothing();
    while pos < end
      invariant pos <= end && Fits(done) && status == LastWins(done)
      invariant all.list == done + FieldsFrom(buf, end, pos).list && all.stop == FieldsFrom(buf, end, pos).stop
    {
      var field := ReadField(buf, end, pos);
      match field {
        case Broken(fault) =>
          assert all.list == done;
          return if fault == BadVarint || fault == BadWire then Reject else NeedMore;
        case Read(f, next) =>
          assert all.list[|done|] == f;
          if !FitsField(f) { return Reject; }
          StoreIsLastWins(done, f);
          status, pos, done := Store(status, f), next, done + [f];
      }
    }
    assert all.list == done;
    r := Complete(status);
  }

  lemma LastWinsOfNothing()
    ensures LastWins([]) == ZERO
  {
  }

  lemma StoreIsLastWins(done: seq<Field>, f: Field)
    ensures Store(LastWins(done), f) == LastWins(done + [f])
  {
    assert (done + [f])[..|done|] == done;
  }

  /**
   For any field list in a data frame, whatever follows the frame: the parser returns the last-wins
   reading exactly when the int32 fields fit, and rejects the frame otherwise.
   */
  lemma StatusOfSerialized(flag: Byte, fs: seq<Field>, tail: seq<Byte>)
    requires flag < 128 && |SerializeAll(fs)| < TWO_32
    requires forall i :: 0 <= i < |fs| ==> Encodable(fs[i])
    ensures ParseStatus(Frame(flag, SerializeAll(fs)) + tail)
         == if Fits(fs) then Complete(LastWins(fs)) else Reject
  {
    MessageFieldsOfFrame(flag, fs, tail);
    FramedMessage(flag, SerializeAll(fs), tail);
  }

  /**
   A frame whose fields end in one that cannot be read: a missing value, a cut key and an unknown wire type are
   refused, a fixed or delimited field that is cut short asks for more.
   */
  lemma StatusOfBroken(flag: Byte, fs: seq<Field>, bad: seq<Byte>, tail: seq<Byte>)
    requires flag < 128 && |SerializeAll(fs) + bad| < TWO_32 && |bad| > 0
    requires Fits(fs) && forall i :: 0 <= i < |fs| ==> Encodable(fs[i])
    ensures var r := ParseStatus(Frame(flag, SerializeAll(fs) + bad) + tail);
            && (bad[0] >= 128 && |bad| == 1 ==> r == Reject)
            && (bad[0] < 128 && bad[0] % 8 in {3, 4, 6, 7} ==> r == Reject)
            && (bad[0] < 128 && bad[0] % 8 == 0 && |bad| == 1 ==> r == Reject)
            && (bad[0] < 128 && bad[0] % 8 == 1 && |bad| < 9 ==> r == NeedMore)
            && (bad[0] < 128 && bad[0] % 8 == 5 && |bad| < 5 ==> r == NeedMore)
            && (bad[0] < 128 && bad[0] % 8 == 2 && (|bad| == 1 || |bad| - 1 <= bad[1] < 128) ==> r == NeedMore)
  {
    hide SerializeAll, FieldAt, FieldsFrom, Frame, Big32, LastWins;
    var message := SerializeAll(fs) + bad;
    var buf, at := Frame(flag, message) + tail, 5 + |SerializeAll(fs)|;
    FramedMessage(flag, message, tail);
    HoldsSplit(buf, 5, SerializeAll(fs), bad);
    assert buf[at] == buf[at..at + |bad|][0] && (|bad| > 1 ==> buf[at + 1] == buf[at..at + |bad|][1]);
    FaultAt(buf, 5 + |message|, at);
    var read := FieldAt(buf, 5 + |message|, at);
    if read.Broken? { MessageFieldsOfBroken(flag, fs, bad, tail, read.fault); }
  }
}
