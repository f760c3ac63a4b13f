/**
 The incremental status reader: HTTP/1.1 framing around the first gRPC-Web frame, and the receive loop
 that calls it again after every `recv`.
 */
module StatusReader {
  import opened Options
  import opened Varint
  import opened WireFields
  import opened StatusFrame

  const CRLF: seq<Byte> := [13, 10]
  const HEADER_END: seq<Byte> := [13, 10, 13, 10]
  /** "transfer-encoding: chunked" */
  const MARK: seq<Byte> :=
    [116, 114, 97, 110, 115, 102, 101, 114, 45, 101, 110, 99, 111, 100, 105, 110, 103, 58, 32,
     99, 104, 117, 110, 107, 101, 100]
  const MAX_LINE := 32
  const BUFFER := 4095           // sizeof(buf) - 1

  lemma TheMark()
    ensures forall text: string :: text == "transfer-encoding: chunked" ==>
              |MARK| == |text| && forall i :: 0 <= i < |text| ==> MARK[i] == text[i] as int
  {
  }

  // The libc searches.

  predicate Matches(s: seq<Byte>, pat: seq<Byte>, k: nat)
  {
    k + |pat| <= |s| && s[k..k + |pat|] == pat
  }

  function FindFrom(s: seq<Byte>, pat: seq<Byte>, i: nat): (r: Option<nat>)
    ensures r.Some? ==> i <= r.value && Matches(s, pat, r.value)
    ensures forall j :: i <= j < (if r.Some? then r.value else |s| + 1) ==> !Matches(s, pat, j)
    decreases |s| + 1 - i
  {
    if i > |s| then None else if Matches(s, pat, i) then Some(i) else FindFrom(s, pat, i + 1)
  }

  /** `strstr` and `memmem`: the first occurrence. */
  function Find(s: seq<Byte>, pat: seq<Byte>): (r: Option<nat>)
    ensures r.Some? ==> Matches(s, pat, r.value)
    ensures forall j :: 0 <= j < (if r.Some? then r.value else |s| + 1) ==> !Matches(s, pat, j)
  {
    FindFrom(s, pat, 0)
  }

  /** What the string functions see of a buffer: everything before the first NUL. */
  function CString(s: seq<Byte>): (r: seq<Byte>)
    ensures r <= s && 0 !in r
    ensures |r| < |s| ==> s[|r|] == 0
  {
    if |s| == 0 || s[0] == 0 then [] else [s[0]] + CString(s[1..])
  }

  function Lower(s: seq<Byte>): (r: seq<Byte>)
    ensures |r| == |s|
  {
    seq(|s|, i requires 0 <= i < |s| => if 65 <= s[i] <= 90 then s[i] + 32 else s[i])
  }

  predicate Marked(s: seq<Byte>) { Find(Lower(s), MARK).Some? }

  // strtoul(text, &end, 16)

  function HexDigit(b: Byte): (d: int)
    ensures -1 <= d < 16
  {
    if 48 <= b <= 57 then b - 48 else if 65 <= b <= 70 then b - 55 else if 97 <= b <= 102 then b - 87 else -1
  }

  function HexPrefix(s: seq<Byte>): (n: nat)
    ensures n <= |s|
    ensures forall i :: 0 <= i < n ==> HexDigit(s[i]) >= 0
    ensures n < |s| ==> HexDigit(s[n]) < 0
  {
    if |s| == 0 || HexDigit(s[0]) < 0 then 0 else 1 + HexPrefix(s[1..])
  }

  function HexNumber(s: seq<Byte>): (v: nat)
    requires forall i :: 0 <= i < |s| ==> HexDigit(s[i]) >= 0
  {
    if |s| == 0 then 0 else 16 * HexNumber(s[..|s| - 1]) + HexDigit(s[|s| - 1])
  }

  function SkipSpace(s: seq<Byte>): (n: nat)
    ensures n <= |s|
  {
    if |s| > 0 && (9 <= s[0] <= 13 || s[0] == 32) then 1 + SkipSpace(s[1..]) else 0
  }

  /** What is left of the text after white space, sign and "0x". */
  function Digits(text: seq<Byte>): (d: seq<Byte>)
  {
    var signed := text[SkipSpace(text)..];
    var d := if |signed| > 0 && signed[0] in {43, 45} then signed[1..] else signed;
    if |d| > 2 && d[0] == 48 && d[1] in {88, 120} && HexDigit(d[2]) >= 0 then d[2..] else d
  }

  predicate Negative(text: seq<Byte>)
  {
    var signed := text[SkipSpace(text)..];
    |signed| > 0 && signed[0] == 45
  }

  datatype Numeral = Numeral(value: nat, whole: bool)

  /** Value, and whether the whole text was consumed. Overflow saturates, a minus sign wraps around. */
  function Strtoul16(text: seq<Byte>): (n: Numeral)
    ensures n.value < TWO_64
  {
    var digits := Digits(text);
    var n := HexPrefix(digits);
    if n == 0 then Numeral(0, text == [])
    else
      var v := HexNumber(digits[..n]);
      Numeral(if v >= TWO_64 then TWO_64 - 1 else if v > 0 && Negative(text) then TWO_64 - v else v, n == |digits|)
  }

  // The response parser.

  /** One turn of the chunk loop: the answer, or where the next chunk starts. */
  datatype Turn = Answer(parsed: Parsed) | Continue(body: nat)

  /** The size on a chunk line; 0 stands for every line the parser rejects. */
  function ChunkSize(line: seq<Byte>): (n: nat)
  {
    if |line| == 0 || |line| >= MAX_LINE then 0
    else
      var size := Strtoul16(CString(line));
      if size.whole then size.value else 0
  }

  datatype Line = Partial | Bad | Chunk(data: nat, size: nat)

  /** The chunk line at `body`: incomplete (as is a chunk not all there yet), refused, or a whole chunk. */
  function LineAt(buf: seq<Byte>, body: nat): (l: Line)
    requires body < |buf|
    ensures l.Chunk? ==> body < l.data && l.data + l.size <= |buf|
  {
    match Find(buf[body..], CRLF)
    case None => Partial
    case Some(lineLen) =>
      var size := ChunkSize(buf[body..body + lineLen]);
      var data := body + lineLen + 2;
      if size == 0 then Bad else if size > |buf| - data then Partial else Chunk(data, size)
  }

  ghost function ChunkAt(buf: seq<Byte>, body: nat): (t: Turn)
    requires body < |buf|
    ensures t.Continue? ==> body < t.body
  {
    match LineAt(buf, body)
    case Partial => Answer(NeedMore)
    case Bad => Answer(Reject)
    case Chunk(data, size) =>
      var parsed := ParseStatus(buf[data..data + size]);
      if parsed != NeedMore then Answer(parsed) else Continue(data + size + 2)
  }

  ghost function ChunksFrom(buf: seq<Byte>, body: nat): (r: Parsed)
    decreases |buf| - body
  {
    if body >= |buf| then NeedMore
    else
      match ChunkAt(buf, body)
      case Answer(parsed) => parsed
      case Continue(next) => ChunksFrom(buf, next)
  }

  ghost function ParseResponse(buf: seq<Byte>): (r: Parsed)
  {
    match Find(CString(buf), HEADER_END)
    case None => NeedMore
    case Some(h) =>
      if Marked(CString(buf)) then ChunksFrom(buf, h + 4) else ParseStatus(buf[h + 4..])
  }

  method ParseGrpcWebResponse(buf: seq<Byte>) returns (r: Parsed)
    ensures r == ParseResponse(buf)
  {
    hide ParseStatus, LineAt, CString, Marked;
    var text := CString(buf);
    var headerEnd := Find(text, HEADER_END);
    if headerEnd.None? { return NeedMore; }
    var body := headerEnd.value + 4;
    if !Marked(text) {
      r := ParseStatusFrame(buf[body..]);
      return;
    }
    ghost var first := body;
    while body < |buf|
      invariant ChunksFrom(buf, first) == ChunksFrom(buf, body)
      decreases |buf| - body
    {
      match LineAt(buf, body) {
        case Partial => return NeedMore;
        case Bad => return Reject;
        case Chunk(data, size) =>
          var parsed := ParseStatusFrame(buf[data..data + size]);
          if parsed != NeedMore { return parsed; }
          body := data + size + 2;
      }
    }
    r := NeedMore;
  }

  // The receive loop. `sizes` is what the successive `recv` calls are willing to return; when it is used
  // up the call fails or times out.

  ghost function ReadFrom(stream: seq<Byte>, sizes: seq<nat>, used: nat): (r: Parsed)
    requires used <= |stream|
    decreases |sizes|
  {
    if used >= BUFFER || |sizes| == 0 then NeedMore
    else
      var n := Min(sizes[0], Min(BUFFER - used, |stream| - used));
      if n == 0 then NeedMore
      else
        var parsed := ParseResponse(stream[..used + n]);
        if parsed != NeedMore then parsed else ReadFrom(stream, sizes[1..], used + n)
  }

  /** Only the first 4095 bytes count: a response that they do not settle is never answered. */
  lemma {:induction false} BufferLimit(stream: seq<Byte>, sizes: seq<nat>, used: nat)
    requires used <= |stream|
    requires forall k :: 0 <= k <= 4095 && k <= |stream| ==> ParseResponse(stream[..k]) == NeedMore
    ensures ReadFrom(stream, sizes, used) == NeedMore
    decreases |sizes|
  {
    if used < BUFFER && |sizes| > 0 {
      var n := Min(sizes[0], Min(BUFFER - used, |stream| - used));
      if n > 0 {
        assert ParseResponse(stream[..used + n]) == NeedMore;
        BufferLimit(stream, sizes[1..], used + n);
      }
    }
  }

  /** The receiving half of `singbox_api_get_status`. */
  method ReadStatus(stream: seq<Byte>, sizes: seq<nat>) returns (r: Option<Status>)
    ensures var p := ReadFrom(stream, sizes, 0); r == if p.Complete? then Some(p.status) else None
  {
    hide ParseResponse;
    var used: nat, i, parsed := 0, 0, NeedMore;
    while used < BUFFER && parsed == NeedMore && i < |sizes|
      invariant i <= |sizes| && used <= |stream|
      invariant ReadFrom(stream, sizes, 0)
             == if parsed == NeedMore then ReadFrom(stream, sizes[i..], used) else parsed
    {
      var n := Min(sizes[i], Min(BUFFER - used, |stream| - used));
      assert sizes[i..][1..] == sizes[i + 1..];
      i := i + 1;
      if n == 0 { break; }
      used := used + n;
      parsed := ParseGrpcWebResponse(stream[..used]);
    }
    r := if parsed.Complete? then Some(parsed.status) else None;
  }
}
