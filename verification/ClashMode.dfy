/** Clash-mode messages: the mode list reader, the single-string reader and the SetClashMode writer. */
module ClashMode {
  import opened Options
  import opened Varint
  import opened WireFields

  const MAX_MODES := 32
  const MODE_SIZE := 64          // with the terminating NUL
  const MODE_FIELD := 3
  const MAX_REQUEST := 256

  datatype ModeStatus = ModeStatus(modes: seq<seq<Byte>>, current: seq<Byte>)

  /** What fits in a C buffer of `size` bytes next to its NUL. */
  function Cut(data: seq<Byte>, size: nat): (r: seq<Byte>)
    requires size > 0
    ensures |r| < size && r <= data
    ensures |data| < size ==> r == data
  {
    if |data| < size - 1 then data else data[..size - 1]
  }

  function KeepMode(s: ModeStatus, f: Field): (r: ModeStatus)
  {
    if !f.Text? then s
    else if f.num == 1 && |s.modes| < MAX_MODES then s.(modes := s.modes + [Cut(f.data, MODE_SIZE)])
    else if f.num == 2 then s.(current := Cut(f.data, MODE_SIZE))
    else s
  }

  /** A mode list without a current mode is not a mode list. */
  predicate HasCurrent(s: ModeStatus)
  {
    |s.current| > 0 && s.current[0] != 0
  }

  /** The strings of field `num`, in order. */
  ghost function Texts(fs: seq<Field>, num: nat): (r: seq<seq<Byte>>)
  {
    if |fs| == 0 then []
    else
      var f := fs[|fs| - 1];
      Texts(fs[..|fs| - 1], num) + if f.Text? && f.num == num then [Cut(f.data, MODE_SIZE)] else []
  }

  ghost function ModeReading(fs: seq<Field>): (s: ModeStatus)
  {
    var names, currents := Texts(fs, 1), Texts(fs, 2);
    ModeStatus(if |names| <= MAX_MODES then names else names[..MAX_MODES],
               if currents == [] then [] else currents[|currents| - 1])
  }

  lemma KeepIsReading(done: seq<Field>, f: Field)
    ensures KeepMode(ModeReading(done), f) == ModeReading(done + [f])
  {
    assert (done + [f])[..|done|] == done;
  }

  ghost function ModeStatusOf(frame: seq<Byte>): (r: Option<ModeStatus>)
    ensures r.Some? ==> HasCurrent(r.value)
  {
    if |frame| < 5 || frame[0] >= 128 then None
    else
      match MessageFields(frame)
      case None => None
      case Some(fields) =>
        if fields.stop.None? && HasCurrent(ModeReading(fields.list)) then Some(ModeReading(fields.list)) else None
  }

  method ParseClashModeStatus(frame: seq<Byte>) returns (r: Option<ModeStatus>)
    ensures r == ModeStatusOf(frame)
  {
    hide FieldAt;
    if |frame| < 5 || frame[0] >= 128 || Big32(frame) > |frame| - 5 { return None; }
    var pos, end, s := 5, 5 + Big32(frame), ModeStatus([], []);
    ghost var done: seq<Field> := [];
    ghost var all := FieldsFrom(frame, end, 5);
    assert all.list == [] + all.list;
    while pos < end
      invariant pos <= end && s == ModeReading(done)
      invariant all.list == done + FieldsFrom(frame, end, pos).list && all.stop == FieldsFrom(frame, end, pos).stop
    {
      var field := ReadField(frame, end, pos);
      if field.Broken? { return None; }
      KeepIsReading(done, field.field);
      s, pos, done := KeepMode(s, field.field), field.next, done + [field.field];
    }
    assert all.list == done;
    r := if HasCurrent(s) then Some(s) else None;
  }

  /** The first string of field `wanted` in a field list. */
  ghost function FirstText(fs: seq<Field>, wanted: nat): (r: Option<seq<Byte>>)
  {
    if |fs| == 0 then None
    else if fs[0].Text? && fs[0].num == wanted then Some(fs[0].data)
    else FirstText(fs[1..], wanted)
  }

  ghost function StringFieldOf(frame: seq<Byte>, wanted: nat, outCap: nat): (r: Option<seq<Byte>>)
    ensures r.Some? ==> |r.value| < outCap
  {
    if |frame| < 5 || outCap == 0 || frame[0] >= 128 then None
    else
      match MessageFields(frame)
      case None => None
      case Some(fields) =>
        var first := FirstText(fields.list, wanted);
        if first.None? then None else Some(Cut(first.value, outCap))
  }

  method ParseStringField(frame: seq<Byte>, wanted: nat, outCap: nat) returns (r: Option<seq<Byte>>)
    ensures r == StringFieldOf(frame, wanted, outCap)
  {
    hide FieldAt;
    if |frame| < 5 || outCap == 0 || frame[0] >= 128 || Big32(frame) > |frame| - 5 { return None; }
    var pos, end := 5, 5 + Big32(frame);
    while pos < end
      invariant pos <= end
      invariant FirstText(FieldsFrom(frame, end, 5).list, wanted) == FirstText(FieldsFrom(frame, end, pos).list, wanted)
    {
      var field := ReadField(frame, end, pos);
      if field.Broken? { return None; }
      var f := field.field;
      assert ([f] + FieldsFrom(frame, end, field.next).list)[1..] == FieldsFrom(frame, end, field.next).list;
      if f.Text? && f.num == wanted { return Some(Cut(f.data, outCap)); }
      pos := field.next;
    }
    r := None;
  }

  /** The SetClashMode message: the key byte 0x1a, the length as a varint, the mode. */
  method EncodeSetClashMode(mode: seq<Byte>) returns (r: Option<seq<Byte>>)
    ensures r.Some? <==> 0 < |mode| <= 255
    ensures r.Some? ==> r.value == Serialize(Text(MODE_FIELD, mode))
  {
    if |mode| == 0 || |mode| > 255 { return None; }
    var request: seq<Byte> := [0x1a];
    var length: nat := |mode|;
    while length >= 128
      invariant [0x1a] + Encode(|mode|) == request + Encode(length)
    {
      request := request + [length % 128 + 128];
      length := length / 128;
    }
    request := request + [length];
    assert Encode(length) == [length];
    assert Encode(MODE_FIELD * 8 + 2) == [0x1a];
    r := Some(request + mode);
    assert r.value == [0x1a] + (Encode(|mode|) + mode);
  }

  /** The frame that `grpc_web_unary_call` sends; its stack buffer holds 256 message bytes. */
  method FrameRequest(request: seq<Byte>) returns (r: Option<seq<Byte>>)
    ensures r == if |request| > MAX_REQUEST then None else Some(Frame(0, request))
  {
    var n := |request|;
    if n > MAX_REQUEST { return None; }
    var header: seq<Byte> := [0, n / 0x100_0000 % 256, n / 0x1_0000 % 256, n / 0x100 % 256, n % 256];
    r := Some(header + request);
    assert n / 0x100_0000 % 256 == n / 0x100_0000;
  }

  /**
   The mode reader returns the first 32 strings of field 1 and the last string of field 2, each cut to
   63 bytes, exactly when that last string is not empty.
   */
  lemma ModesOfSerialized(flag: Byte, fs: seq<Field>, tail: seq<Byte>)
    requires flag < 128 && |SerializeAll(fs)| < TWO_32
    requires forall i :: 0 <= i < |fs| ==> Encodable(fs[i])
    ensures ModeStatusOf(Frame(flag, SerializeAll(fs)) + tail)
         == if HasCurrent(ModeReading(fs)) then Some(ModeReading(fs)) else None
  {
    FramedMessage(flag, SerializeAll(fs), tail);
    MessageFieldsOfFrame(flag, fs, tail);
  }

  /** The modes of a list come back in order: the first 32 of them, each with its first 63 bytes. */
  lemma {:induction false} ModesInOrder(names: seq<seq<Byte>>, current: seq<Byte>)
    ensures var fs := seq(|names|, i requires 0 <= i < |names| => Text(1, names[i]));
            var s := ModeReading(fs + [Text(2, current)]);
            && |s.modes| == (if |names| <= 32 then |names| else 32)
            && (forall i :: 0 <= i < |s.modes| ==>
                  s.modes[i] == if |names[i]| <= 63 then names[i] else names[i][..63])
            && s.current == if |current| <= 63 then current else current[..63]
  {
    hide Texts;
    var fs := seq(|names|, i requires 0 <= i < |names| => Text(1, names[i]));
    TextsOfNames(names);
    TextsMore(fs, Text(2, current));
  }

  lemma TextsMore(fs: seq<Field>, f: Field)
    requires f.Text?
    ensures forall num :: Texts(fs + [f], num) == Texts(fs, num) + if f.num == num then [Cut(f.data, 64)] else []
  {
    assert (fs + [f])[..|fs|] == fs;
  }

  lemma {:induction false} TextsOfNames(names: seq<seq<Byte>>)
    ensures var fs := seq(|names|, i requires 0 <= i < |names| => Text(1, names[i]));
            Texts(fs, 2) == []
            && Texts(fs, 1) == seq(|names|, i requires 0 <= i < |names| => Cut(names[i], 64))
  {
    var fs := seq(|names|, i requires 0 <= i < |names| => Text(1, names[i]));
    if |names| > 0 {
      var n := |names| - 1;
      TextsOfNames(names[..n]);
      assert fs[..n] == seq(n, i requires 0 <= i < n => Text(1, names[..n][i]));
    }
  }

  /** A mode list with a field that cannot be read is refused; a single string in front of it is still found. */
  lemma ModesOfBroken(
      flag: Byte, fs: seq<Field>, bad: seq<Byte>, tail: seq<Byte>, fault: Fault, wanted: nat, outCap: nat)
    requires outCap > 0 && flag < 128 && |SerializeAll(fs) + bad| < TWO_32 && |bad| > 0
    requires forall i :: 0 <= i < |fs| ==> Encodable(fs[i])
    requires FieldAt(Frame(flag, SerializeAll(fs) + bad) + tail, 5 + |SerializeAll(fs) + bad|, 5 + |SerializeAll(fs)|)
          == Broken(fault)
    ensures ModeStatusOf(Frame(flag, SerializeAll(fs) + bad) + tail) == None
    ensures StringFieldOf(Frame(flag, SerializeAll(fs) + bad) + tail, wanted, outCap)
         == match FirstText(fs, wanted) case None => None case Some(t) => Some(Cut(t, outCap))
  {
    FramedMessage(flag, SerializeAll(fs) + bad, tail);
    MessageFieldsOfBroken(flag, fs, bad, tail, fault);
  }

  lemma StringOfSerialized(flag: Byte, fs: seq<Field>, tail: seq<Byte>, wanted: nat, outCap: nat)
    requires flag < 128 && |SerializeAll(fs)| < TWO_32 && outCap > 0
    requires forall i :: 0 <= i < |fs| ==> Encodable(fs[i])
    ensures StringFieldOf(Frame(flag, SerializeAll(fs)) + tail, wanted, outCap)
         == match FirstText(fs, wanted) case None => None case Some(t) => Some(Cut(t, outCap))
  {
    FramedMessage(flag, SerializeAll(fs), tail);
    MessageFieldsOfFrame(flag, fs, tail);
  }

  /**
   A SetClashMode request is framed exactly for modes of up to 253 bytes (the writer accepts 255, the
   frame buffer does not), and what is framed reads back as the mode, cut to the reader's buffer.
   */
  lemma SetModeRoundTrip(mode: seq<Byte>, outCap: nat)
    requires 0 < |mode| <= 255 && outCap > 0
    ensures |Serialize(Text(MODE_FIELD, mode))| <= MAX_REQUEST <==> |mode| <= 253
    ensures |mode| <= 253 ==>
              StringFieldOf(Frame(0, Serialize(Text(MODE_FIELD, mode))), MODE_FIELD, outCap) == Some(Cut(mode, outCap))
    ensures |mode| <= 253 && |mode| < outCap ==>
              StringFieldOf(Frame(0, Serialize(Text(MODE_FIELD, mode))), MODE_FIELD, outCap) == Some(mode)
  {
    var f := Text(MODE_FIELD, mode);
    SetModeLength(mode);
    assert [f][1..] == [];
    assert SerializeAll([f]) == Serialize(f) + [] == Serialize(f);
    StringOfSerialized(0, [f], [], MODE_FIELD, outCap);
    assert Frame(0, Serialize(f)) + [] == Frame(0, Serialize(f));
  }

  lemma SetModeLength(mode: seq<Byte>)
    requires 0 < |mode| <= 255
    ensures |Serialize(Text(MODE_FIELD, mode))| == |mode| + if |mode| < 128 then 2 else 3
  {
    assert Encode(MODE_FIELD * 8 + 2) == [0x1a];
    assert |mode| >= 128 ==> Encode(|mode|) == [|mode| % 128 + 128] + Encode(|mode| / 128);
  }
}
