/**
 The status reader answers from the byte stream alone: how `recv` splits the stream does not matter.
 Shown for plain responses, and for chunked ones whose first chunk holds the whole frame.
 */
module SplitIndependence {
  import opened Options
  import opened Varint
  import opened WireFields
  import opened StatusFrame
  import opened StatusReader

  // Searching a longer or a shorter buffer.

  lemma FindInExtension(a: seq<Byte>, b: seq<Byte>, pat: seq<Byte>)
    requires a <= b && Find(a, pat).Some?
    ensures Find(b, pat) == Find(a, pat)
  {
    var k := Find(a, pat).value;
    assert b[k..k + |pat|] == a[k..k + |pat|];
    assert Matches(b, pat, k);
    forall j | 0 <= j < k
      ensures !Matches(b, pat, j)
    {
      assert a[j..j + |pat|] == b[j..j + |pat|];
      assert !Matches(a, pat, j);
    }
  }

  lemma FindInPrefix(a: seq<Byte>, b: seq<Byte>, pat: seq<Byte>)
    requires a <= b && Find(b, pat).Some? && |a| < Find(b, pat).value + |pat|
    ensures Find(a, pat).None?
  {
    if Find(a, pat).Some? {
      FindInExtension(a, b, pat);
    }
  }

  lemma CStringKeeps(a: seq<Byte>, b: seq<Byte>)
    requires a <= b && 0 !in a
    ensures a <= CString(b)
  {
    assert forall i :: 0 <= i < |a| ==> b[i] == a[i] != 0;
  }

  lemma MarkedExtends(a: seq<Byte>, b: seq<Byte>)
    requires a <= b && Marked(a)
    ensures Marked(b)
  {
    FindInExtension(Lower(a), Lower(b), MARK);
  }

  // Response heads.

  ghost function Opening(head: seq<Byte>): (r: seq<Byte>) { head + HEADER_END }

  /** NUL-free, with the first blank line at its end. */
  ghost predicate IsHead(head: seq<Byte>)
  {
    0 !in head && Find(Opening(head), HEADER_END) == Some(|head|)
  }

  lemma HeadIncomplete(head: seq<Byte>, buf: seq<Byte>)
    requires IsHead(head) && buf < Opening(head)
    ensures ParseResponse(buf) == NeedMore
  {
    FindInPrefix(CString(buf), Opening(head), HEADER_END);
  }

  lemma HeadComplete(head: seq<Byte>, buf: seq<Byte>)
    requires IsHead(head) && Opening(head) <= buf
    ensures Opening(head) <= CString(buf)
    ensures Find(CString(buf), HEADER_END) == Some(|head|)
  {
    CStringKeeps(Opening(head), buf);
    FindInExtension(Opening(head), CString(buf), HEADER_END);
  }

  /** An incomplete frame asks for more. */
  lemma FrameIncomplete(flag: Byte, message: seq<Byte>, part: seq<Byte>)
    requires flag < 128 && |message| < TWO_32 && part < Frame(flag, message)
    ensures ParseStatus(part) == NeedMore
  {
    if |part| >= 5 {
      assert forall i :: 0 <= i < 5 ==> part[i] == Frame(flag, message)[i];
      assert Big32(part) == |message|;
    }
  }

  /** The verdict that the field list of a status message calls for. */
  ghost function Verdict(fs: seq<Field>): (p: Parsed)
    ensures p != NeedMore
  {
    if Fits(fs) then Complete(LastWins(fs)) else Reject
  }

  ghost predicate IsMessage(fs: seq<Field>)
  {
    |SerializeAll(fs)| < TWO_32 && forall i :: 0 <= i < |fs| ==> Encodable(fs[i])
  }

  /** `response` settles the parser: every shorter prefix asks for more, every extension answers `v`. */
  ghost predicate Decides(response: seq<Byte>, v: Parsed)
  {
    && (forall k :: 0 <= k < |response| ==> ParseResponse(response[..k]) == NeedMore)
    && (forall more :: ParseResponse(response + more) == v)
  }

  // Plain responses.

  lemma {:induction false} CStringMonotone(a: seq<Byte>, b: seq<Byte>)
    requires a <= b
    ensures CString(a) <= CString(b) && (0 in a ==> CString(a) == CString(b))
    decreases |a|
  {
    if |a| > 0 && a[0] != 0 { CStringMonotone(a[1..], b[1..]); }
  }

  lemma PlainBody(head: seq<Byte>, rest: seq<Byte>)
    requires IsHead(head) && !Marked(CString(Opening(head) + rest))
    ensures ParseResponse(Opening(head) + rest) == ParseStatus(rest)
  {
    hide ParseStatus, Marked;
    HeadComplete(head, Opening(head) + rest);
    assert (Opening(head) + rest)[|head| + 4..] == rest;
  }

  ghost function PlainResponse(head: seq<Byte>, flag: Byte, fs: seq<Field>): (r: seq<Byte>)
    requires IsMessage(fs)
  {
    Opening(head) + Frame(flag, SerializeAll(fs))
  }

  /** The text of the response ends in the frame and does not announce chunks. */
  ghost predicate IsPlain(head: seq<Byte>, flag: Byte, fs: seq<Field>)
    requires IsMessage(fs)
  {
    IsHead(head) && flag < 128 && 0 in Frame(flag, SerializeAll(fs)) && !Marked(CString(PlainResponse(head, flag, fs)))
  }

  /** For messages below 2^24 bytes, and for flag 0, this is a matter of the head alone. */
  lemma PlainByHead(head: seq<Byte>, flag: Byte, fs: seq<Field>)
    requires IsHead(head) && IsMessage(fs) && flag < 128 && (flag == 0 || |SerializeAll(fs)| < 0x100_0000)
    ensures IsPlain(head, flag, fs) <==> !Marked(Opening(head))
  {
    hide Marked, CString, SerializeAll, Find;
    var frame, open := Frame(flag, SerializeAll(fs)), Opening(head);
    var text := if flag == 0 then open else open + [flag];
    assert flag != 0 ==> frame[1] == 0;
    var response := PlainResponse(head, flag, fs);
    HeadComplete(head, response);
    assert text <= response && |text| < |response| && response[|text|] == 0;
    TextIs(response, text);
    OneMoreByte(open, flag);
  }

  lemma {:induction false} TextIs(s: seq<Byte>, text: seq<Byte>)
    requires text <= s && 0 !in text && |text| < |s| && s[|text|] == 0
    ensures CString(s) == text
    decreases |text|
  {
    if |text| > 0 { TextIs(s[1..], text[1..]); }
  }

  /** A byte behind a line break cannot complete the mark. */
  lemma OneMoreByte(open: seq<Byte>, b: Byte)
    requires |open| > 0 && open[|open| - 1] == 10
    ensures Marked(open + [b]) <==> Marked(open)
  {
    if Marked(open) { MarkedExtends(open, open + [b]); }
    if Marked(open + [b]) { NoLongerMatch(open, b, MARK); }
  }

  lemma NoLongerMatch(open: seq<Byte>, b: Byte, pat: seq<Byte>)
    requires |open| > 0 && open[|open| - 1] == 10 && |pat| >= 2 && pat[|pat| - 2] != 10
    requires Find(Lower(open + [b]), pat).Some?
    ensures Find(Lower(open), pat).Some?
  {
    var low := Lower(open + [b]);
    var k := Find(low, pat).value;
    assert low[k + (|pat| - 2)] == low[k..k + |pat|][|pat| - 2];
    assert low[|open| - 1] == 10;
    assert Lower(open)[k..k + |pat|] == low[k..k + |pat|];
    assert Matches(Lower(open), pat, k);
  }

  lemma PlainPrefix(head: seq<Byte>, flag: Byte, fs: seq<Field>, k: nat)
    requires IsMessage(fs) && IsPlain(head, flag, fs) && k < |PlainResponse(head, flag, fs)|
    ensures ParseResponse(PlainResponse(head, flag, fs)[..k]) == NeedMore
  {
    hide ParseStatus, ParseResponse, Frame, Marked;
    var open, frame := Opening(head), Frame(flag, SerializeAll(fs));
    var response := PlainResponse(head, flag, fs);
    if k < |open| {
      assert response[..k] == open[..k];
      HeadIncomplete(head, response[..k]);
    } else {
      var part := frame[..k - |open|];
      assert response[..k] == open + part;
      CStringMonotone(response[..k], response);
      if Marked(CString(open + part)) { MarkedExtends(CString(open + part), CString(response)); }
      PlainBody(head, part);
      assert |frame| == |response| - |open|;
      FrameIncomplete(flag, SerializeAll(fs), part);
    }
  }

  lemma PlainExtension(head: seq<Byte>, flag: Byte, fs: seq<Field>, more: seq<Byte>)
    requires IsMessage(fs) && IsPlain(head, flag, fs)
    ensures ParseResponse(PlainResponse(head, flag, fs) + more) == Verdict(fs)
  {
    hide ParseStatus, ParseResponse, Frame, Marked;
    var frame, response := Frame(flag, SerializeAll(fs)), PlainResponse(head, flag, fs);
    assert response + more == Opening(head) + (frame + more);
    CStringMonotone(response, response + more);
    PlainBody(head, frame + more);
    StatusOfSerialized(flag, fs, more);
  }

  lemma PlainDecides(head: seq<Byte>, flag: Byte, fs: seq<Field>)
    requires IsMessage(fs) && IsPlain(head, flag, fs)
    ensures Decides(PlainResponse(head, flag, fs), Verdict(fs))
  {
    hide ParseResponse, PlainResponse, IsPlain;
    var response := PlainResponse(head, flag, fs);
    forall k | 0 <= k < |response|
      ensures ParseResponse(response[..k]) == NeedMore
    {
      PlainPrefix(head, flag, fs, k);
    }
    forall more
      ensures ParseResponse(response + more) == Verdict(fs)
    {
      PlainExtension(head, flag, fs, more);
    }
  }

  // Chunked responses.

  /** A chunk line of section 7.1 of RFC 9112 without extensions: hex digits that spell `n`. */
  ghost predicate IsSizeLine(line: seq<Byte>, n: nat)
  {
    && 0 < |line| < MAX_LINE && 0 < n < TWO_64
    && (forall i :: 0 <= i < |line| ==> HexDigit(line[i]) >= 0)
    && HexNumber(line) == n
  }

  lemma SizeLineRead(line: seq<Byte>, n: nat)
    requires IsSizeLine(line, n)
    ensures ChunkSize(line) == n
  {
    CStringKeeps(line, line);
    assert CString(line) == line;
    assert SkipSpace(line) == 0 && line[0..] == line;
    assert Digits(line) == line;
    assert HexPrefix(line) == |line| && line[..|line|] == line;
  }

  /** A size as it is printed in base 16, without leading zeros. */
  ghost function HexText(n: nat, upper: bool): (text: seq<Byte>)
    ensures |text| > 0
  {
    var d := n % 16;
    var digit := if d < 10 then 48 + d else if upper then 55 + d else 87 + d;
    if n < 16 then [digit] else HexText(n / 16, upper) + [digit]
  }

  lemma {:induction false} HexTextReads(n: nat, upper: bool)
    ensures var text := HexText(n, upper);
            && (forall i :: 0 <= i < |text| ==> HexDigit(text[i]) >= 0 && text[i] > 32 && text[i] !in {43, 45})
            && HexNumber(text) == n && (n > 0 ==> text[0] != 48)
  {
    if n >= 16 {
      HexTextReads(n / 16, upper);
      var text := HexText(n, upper);
      assert text[..|text| - 1] == HexText(n / 16, upper);
    }
  }

  lemma {:induction false} HexTextLength(n: nat, upper: bool, k: nat)
    requires k > 0 && n < Pow16(k)
    ensures |HexText(n, upper)| <= k
    decreases k
  {
    if n >= 16 { HexTextLength(n / 16, upper, k - 1); }
  }

  function Pow16(k: nat): (p: nat)
  {
    if k == 0 then 1 else 16 * Pow16(k - 1)
  }

  /** A printed size, with small or capital letters, is a size line that spells it. */
  lemma PrintedSize(n: nat, upper: bool)
    requires 0 < n < TWO_64
    ensures IsSizeLine(HexText(n, upper), n) && ChunkSize(HexText(n, upper)) == n
  {
    HexTextReads(n, upper);
    assert Pow16(16) == TWO_64 by {
      assert Pow16(4) == 0x1_0000 && Pow16(8) == 0x1_0000_0000 && Pow16(12) == 0x1_0000_0000_0000;
    }
    HexTextLength(n, upper, 16);
    SizeLineRead(HexText(n, upper), n);
  }

  /** A size line is refused when it is empty, 32 bytes or longer, ends in something else than a digit, or says 0. */
  lemma RefusedLines(line: seq<Byte>)
    ensures |line| == 0 || |line| >= 32 ==> ChunkSize(line) == 0
    ensures |line| > 0 && 0 !in line && HexDigit(line[|line| - 1]) < 0 ==> ChunkSize(line) == 0
    ensures ChunkSize([48]) == 0
  {
    if |line| > 0 && 0 !in line && HexDigit(line[|line| - 1]) < 0 {
      CStringKeeps(line, line);
      LastOfDigits(line);
    }
    CStringKeeps([48], [48]);
    HexTextReads(0, false);
    assert Digits([48]) == [48] && HexPrefix([48]) == 1 && [48][..1] == [48];
  }

  lemma LastOfDigits(text: seq<Byte>)
    requires |text| > 0
    ensures var d := Digits(text); |d| > 0 ==> d[|d| - 1] == text[|text| - 1]
  {
  }

  ghost function ChunkedResponse(head: seq<Byte>, line: seq<Byte>, chunk: seq<Byte>): (r: seq<Byte>)
  {
    Opening(head) + (line + CRLF + chunk)
  }

  lemma SizeLineEnds(line: seq<Byte>, n: nat, more: seq<Byte>)
    requires IsSizeLine(line, n)
    ensures Find(line + CRLF + more, CRLF) == Some(|line|)
    ensures forall k :: 0 <= k < |line| + 2 ==> Find((line + CRLF + more)[..k], CRLF).None?
  {
    var s := line + CRLF + more;
    assert s[|line|..|line| + 2] == CRLF;
    assert Matches(s, CRLF, |line|);
    forall j | 0 <= j < |line|
      ensures !Matches(s, CRLF, j)
    {
      assert s[j] == line[j] && HexDigit(line[j]) >= 0;
    }
    forall k | 0 <= k < |line| + 2
      ensures Find(s[..k], CRLF).None?
    {
      FindInPrefix(s[..k], s, CRLF);
    }
  }

  lemma ChunkedBody(head: seq<Byte>, rest: seq<Byte>)
    requires IsHead(head) && Marked(Opening(head))
    ensures ParseResponse(Opening(head) + rest) == ChunksFrom(Opening(head) + rest, |Opening(head)|)
  {
    HeadComplete(head, Opening(head) + rest);
    MarkedExtends(Opening(head), CString(Opening(head) + rest));
  }

  lemma ChunkTurn(buf: seq<Byte>, body: nat, line: Line, rest: seq<Byte>)
    requires body < |buf| && LineAt(buf, body) == line && !line.Bad?
    requires line.Chunk? ==> buf[line.data..line.data + line.size] == rest
    ensures line.Partial? ==> ChunksFrom(buf, body) == NeedMore
    ensures line.Chunk? && ParseStatus(rest) != NeedMore ==> ChunksFrom(buf, body) == ParseStatus(rest)
    ensures line.Chunk? && ParseStatus(rest) == NeedMore ==>
              ChunksFrom(buf, body) == ChunksFrom(buf, line.data + line.size + 2)
  {
    hide ParseStatus, LineAt;
  }

  lemma MiddlePart(open: seq<Byte>, a: seq<Byte>, b: seq<Byte>, c: seq<Byte>)
    ensures (open + (a + (b + c)))[|open| + |a|..|open| + |a| + |b|] == b
    ensures (open + (a + (b + c)))[|open| + |a|..] == b + c
  {
  }

  /** A chunk line that is all there, with `got` behind it. */
  lemma LineThere(open: seq<Byte>, line: seq<Byte>, n: nat, got: seq<Byte>)
    requires IsSizeLine(line, n)
    ensures LineAt(open + (line + CRLF + got), |open|)
         == if n > |got| then Partial else Chunk(|open| + |line| + 2, n)
  {
    hide Find, ChunkSize;
    assert n > 0;
    var buf := open + (line + CRLF + got);
    assert buf[|open|..] == line + CRLF + got;
    SizeLineEnds(line, n, got);
    assert buf[|open|..|open| + |line|] == line;
    SizeLineRead(line, n);
  }

  /** A chunk line that is not all there. */
  lemma LinePartial(open: seq<Byte>, line: seq<Byte>, n: nat, k: nat)
    requires IsSizeLine(line, n) && 0 < k < |line| + 2
    ensures LineAt(open + (line + CRLF)[..k], |open|) == Partial
  {
    hide Find, ChunkSize;
    var buf := open + (line + CRLF)[..k];
    assert buf[|open|..] == (line + CRLF)[..k];
    assert line + CRLF + [] == line + CRLF;
    SizeLineEnds(line, n, []);
  }

  /** Before the last byte of the first chunk the chunk loop asks for more. */
  lemma ChunkIncomplete(open: seq<Byte>, line: seq<Byte>, chunk: seq<Byte>, k: nat)
    requires IsSizeLine(line, |chunk|) && k < |line| + 2 + |chunk|
    ensures ChunksFrom(open + (line + CRLF + chunk)[..k], |open|) == NeedMore
  {
    hide ParseStatus, LineAt;
    var rest := (line + CRLF + chunk)[..k];
    if |line| + 2 <= k {
      var got := chunk[..k - |line| - 2];
      assert rest == line + CRLF + got;
      LineThere(open, line, |chunk|, got);
      ChunkTurn(open + rest, |open|, Partial, []);
    } else if k > 0 {
      assert rest == (line + CRLF)[..k];
      LinePartial(open, line, |chunk|, k);
      ChunkTurn(open + rest, |open|, Partial, []);
    }
  }

  /** Once the first chunk is there, the chunk loop answers what the frame in it calls for. */
  lemma ChunkComplete(open: seq<Byte>, line: seq<Byte>, chunk: seq<Byte>, more: seq<Byte>)
    requires IsSizeLine(line, |chunk|) && ParseStatus(chunk) != NeedMore
    ensures ChunksFrom(open + (line + CRLF + (chunk + more)), |open|) == ParseStatus(chunk)
  {
    hide ParseStatus, LineAt, ChunksFrom;
    LineThere(open, line, |chunk|, chunk + more);
    var buf, data := open + (line + CRLF + (chunk + more)), |open| + |line| + 2;
    MiddlePart(open, line + CRLF, chunk, more);
    ChunkTurn(buf, |open|, Chunk(data, |chunk|), chunk);
  }

  lemma ChunkedPrefix(head: seq<Byte>, line: seq<Byte>, chunk: seq<Byte>, k: nat)
    requires IsHead(head) && Marked(Opening(head)) && IsSizeLine(line, |chunk|)
    requires k < |ChunkedResponse(head, line, chunk)|
    ensures ParseResponse(ChunkedResponse(head, line, chunk)[..k]) == NeedMore
  {
    hide ParseResponse, ParseStatus, ChunksFrom, Marked;
    var open, response := Opening(head), ChunkedResponse(head, line, chunk);
    if k < |open| {
      assert response[..k] == open[..k];
      HeadIncomplete(head, response[..k]);
    } else {
      var part := (line + CRLF + chunk)[..k - |open|];
      assert response[..k] == open + part;
      ChunkedBody(head, part);
      ChunkIncomplete(open, line, chunk, k - |open|);
    }
  }

  lemma ChunkedExtension(head: seq<Byte>, line: seq<Byte>, chunk: seq<Byte>, more: seq<Byte>)
    requires IsHead(head) && Marked(Opening(head)) && IsSizeLine(line, |chunk|) && ParseStatus(chunk) != NeedMore
    ensures ParseResponse(ChunkedResponse(head, line, chunk) + more) == ParseStatus(chunk)
  {
    hide ParseStatus, ParseResponse, ChunksFrom;
    var rest := line + CRLF + (chunk + more);
    assert ChunkedResponse(head, line, chunk) + more == Opening(head) + rest;
    ChunkedBody(head, rest);
    ChunkComplete(Opening(head), line, chunk, more);
  }

  lemma ChunkedDecides(head: seq<Byte>, line: seq<Byte>, flag: Byte, fs: seq<Field>, padding: seq<Byte>)
    requires IsHead(head) && Marked(Opening(head)) && IsMessage(fs) && flag < 128
    requires IsSizeLine(line, |Frame(flag, SerializeAll(fs)) + padding|)
    ensures Decides(ChunkedResponse(head, line, Frame(flag, SerializeAll(fs)) + padding), Verdict(fs))
  {
    hide ParseResponse, ChunkedResponse;
    var chunk := Frame(flag, SerializeAll(fs)) + padding;
    var response := ChunkedResponse(head, line, chunk);
    StatusOfSerialized(flag, fs, padding);
    forall k | 0 <= k < |response|
      ensures ParseResponse(response[..k]) == NeedMore
    {
      ChunkedPrefix(head, line, chunk, k);
    }
    forall more
      ensures ParseResponse(response + more) == Verdict(fs)
    {
      ChunkedExtension(head, line, chunk, more);
    }
  }

  // The receive loop.

  ghost function Sum(sizes: seq<nat>): (n: nat)
  {
    if |sizes| == 0 then 0 else sizes[0] + Sum(sizes[1..])
  }

  lemma DecidedBy(response: seq<Byte>, v: Parsed, stream: seq<Byte>, n: nat)
    requires Decides(response, v) && response <= stream && n <= |stream|
    ensures ParseResponse(stream[..n]) == if n < |response| then NeedMore else v
  {
    if n < |response| {
      assert stream[..n] == response[..n];
    } else {
      assert stream[..n] == response + stream[|response|..n];
    }
  }

  /**
   Whatever the pieces in which a stream arrives: if the stream starts with a response that decides `v`
   and fits the buffer, the reader answers `v` once the pieces cover the response, and fails before.
   */
  lemma {:induction false} ReadSplitIndependent(
      response: seq<Byte>, v: Parsed, stream: seq<Byte>, sizes: seq<nat>, used: nat)
    requires Decides(response, v) && v != NeedMore && response <= stream
    requires used < |response| <= BUFFER
    requires forall i :: 0 <= i < |sizes| ==> sizes[i] > 0
    ensures ReadFrom(stream, sizes, used) == if used + Sum(sizes) >= |response| then v else NeedMore
    decreases |sizes|
  {
    hide ParseResponse, Decides;
    if |sizes| > 0 {
      var n := Min(sizes[0], Min(BUFFER - used, |stream| - used));
      DecidedBy(response, v, stream, used + n);
      if used + n < |response| {
        ReadSplitIndependent(response, v, stream, sizes[1..], used + n);
      }
    }
  }

  /** The theorem for whole reads, over both framings: only the bytes decide, also when they are refused. */
  lemma ReadStatusSplitIndependent(
      head: seq<Byte>, line: seq<Byte>, flag: Byte, fs: seq<Field>, padding: seq<Byte>,
      stream: seq<Byte>, sizes: seq<nat>)
    requires IsHead(head) && IsMessage(fs) && flag < 128
    requires forall i :: 0 <= i < |sizes| ==> sizes[i] > 0
    requires if Marked(Opening(head)) then IsSizeLine(line, |Frame(flag, SerializeAll(fs)) + padding|)
             else IsPlain(head, flag, fs)
    ensures var response := if Marked(Opening(head)) then
                              ChunkedResponse(head, line, Frame(flag, SerializeAll(fs)) + padding)
                            else PlainResponse(head, flag, fs);
            response <= stream && |response| <= BUFFER ==>
              ReadFrom(stream, sizes, 0) == if Sum(sizes) >= |response| then Verdict(fs) else NeedMore
  {
    hide Decides, IsPlain, ReadFrom, Verdict;
    NotNeedMore(fs);
    var framed := Frame(flag, SerializeAll(fs)) + padding;
    var response :=
      if Marked(Opening(head)) then ChunkedResponse(head, line, framed) else PlainResponse(head, flag, fs);
    if Marked(Opening(head)) {
      ChunkedDecides(head, line, flag, fs, padding);
    } else {
      PlainDecides(head, flag, fs);
    }
    if response <= stream && |response| <= BUFFER {
      ReadSplitIndependent(response, Verdict(fs), stream, sizes, 0);
    }
  }

  lemma NotNeedMore(fs: seq<Field>)
    ensures Verdict(fs) != NeedMore
  {
  }

  // Frames that are cut by a chunk border.

  /** A chunk that runs along a frame settles the reader exactly when it holds the whole frame. */
  lemma ChunkSettlesIff(chunk: seq<Byte>, flag: Byte, fs: seq<Field>)
    requires IsMessage(fs) && flag < 128
    requires chunk <= Frame(flag, SerializeAll(fs)) || Frame(flag, SerializeAll(fs)) <= chunk
    ensures ParseStatus(chunk) == NeedMore <==> chunk < Frame(flag, SerializeAll(fs))
  {
    hide ParseStatus, Frame;
    var frame := Frame(flag, SerializeAll(fs));
    if frame <= chunk {
      assert chunk == frame + chunk[|frame|..];
      StatusOfSerialized(flag, fs, chunk[|frame|..]);
    } else {
      FrameIncomplete(flag, SerializeAll(fs), chunk);
    }
  }

  /**
   Why the first chunk must hold the whole frame: a chunk with only a beginning of the frame is forgotten. Whatever
   chunks come behind it, the reader answers as if they had come alone.
   */
  lemma CutFrameIsMissed(buf: seq<Byte>, body: nat, first: Line, flag: Byte, fs: seq<Field>)
    requires body < |buf| && LineAt(buf, body) == first && first.Chunk?
    requires IsMessage(fs) && flag < 128
    requires buf[first.data..first.data + first.size] < Frame(flag, SerializeAll(fs))
    ensures ChunksFrom(buf, body) == ChunksFrom(buf, first.data + first.size + 2)
  {
    hide LineAt, ParseStatus, Frame, ChunksFrom;
    var part := buf[first.data..first.data + first.size];
    FrameIncomplete(flag, SerializeAll(fs), part);
    ChunkTurn(buf, body, first, part);
  }

  /** Two chunks, as they follow each other on the wire. */
  ghost function TwoChunks(
      line1: seq<Byte>, chunk1: seq<Byte>, line2: seq<Byte>, chunk2: seq<Byte>): (r: seq<Byte>)
  {
    line1 + CRLF + (chunk1 + (CRLF + (line2 + CRLF + chunk2)))
  }

  /** A cut frame whose rest happens to look like a frame: the reader answers from the rest. */
  lemma RestAnswers(
      open: seq<Byte>, line1: seq<Byte>, part: seq<Byte>, line2: seq<Byte>, rest: seq<Byte>, flag: Byte, fs: seq<Field>)
    requires IsSizeLine(line1, |part|) && IsSizeLine(line2, |rest|) && IsMessage(fs) && flag < 128
    requires part + rest == Frame(flag, SerializeAll(fs)) && ParseStatus(rest) != NeedMore
    ensures ChunksFrom(open + TwoChunks(line1, part, line2, rest), |open|) == ParseStatus(rest)
  {
    hide *;
    var buf := open + TwoChunks(line1, part, line2, rest);
    var data := |open| + |line1| + 2;
    var open2 := open + (line1 + CRLF + (part + CRLF));
    FirstOfTwo(open, line1, part, line2, rest);
    SizesPositive(line2, |rest|);
    assert part < part + rest;
    CutFrameIsMissed(buf, |open|, Chunk(data, |part|), flag, fs);
    SecondOfTwo(open, line1, part, line2, rest);
    ChunkComplete(open2, line2, rest, []);
  }

  lemma FirstOfTwo(open: seq<Byte>, line1: seq<Byte>, part: seq<Byte>, line2: seq<Byte>, rest: seq<Byte>)
    requires IsSizeLine(line1, |part|)
    ensures var buf, data := open + TwoChunks(line1, part, line2, rest), |open| + |line1| + 2;
            |open| < |buf| && data + |part| <= |buf| && LineAt(buf, |open|) == Chunk(data, |part|)
            && buf[data..data + |part|] == part
  {
    hide LineAt, IsSizeLine;
    var behind := CRLF + (line2 + CRLF + rest);
    LineThere(open, line1, |part|, part + behind);
    MiddlePart(open, line1 + CRLF, part, behind);
  }

  lemma SecondOfTwo(open: seq<Byte>, line1: seq<Byte>, part: seq<Byte>, line2: seq<Byte>, rest: seq<Byte>)
    ensures var open2 := open + (line1 + CRLF + (part + CRLF));
            && open + TwoChunks(line1, part, line2, rest) == open2 + (line2 + CRLF + (rest + []))
            && |open2| == |open| + |line1| + 2 + |part| + 2
  {
    assert rest + [] == rest;
  }

  lemma SizesPositive(line: seq<Byte>, n: nat)
    requires IsSizeLine(line, n)
    ensures n > 0
  {
  }

  /** Memory 5, and a field that nobody knows with five zero bytes. */
  const PADDED: seq<Field> := [Number(1, 5), Text(10, [0, 0, 0, 0, 0])]

  /**
   A status that nobody sent: the frame of `PADDED` in two chunks of nine and five bytes is read as a status of
   zeros, although the message says memory 5 and is read so when it comes in one chunk.
   */
  lemma FabricatedStatus(head: seq<Byte>)
    requires IsHead(head) && Marked(Opening(head))
    ensures IsMessage(PADDED) && Verdict(PADDED) == Complete(ZERO.(memory := 5))
    ensures var frame := Frame(0, SerializeAll(PADDED));
            && |frame| == 14
            && ParseResponse(Opening(head) + TwoChunks([57], frame[..9], [53], frame[9..])) == Complete(ZERO)
  {
    PaddedBytes();
    hide SerializeAll, LastWins, ParseStatus, ChunksFrom, TwoChunks, ParseResponse, Marked, IsHead;
    var frame := Frame(0, SerializeAll(PADDED));
    assert frame == [0, 0, 0, 0, 9, 8, 5, 82, 5, 0, 0, 0, 0, 0];
    hide Frame;
    var part, rest := frame[..9], frame[9..];
    assert rest == [0, 0, 0, 0, 0] && part + rest == frame;
    EmptyMessage(rest);
    assert HexNumber([57]) == 9 && HexNumber([53]) == 5 by {
      assert [57][..0] == [] && [53][..0] == [];
    }
    RestAnswers(Opening(head), [57], part, [53], rest, 0, PADDED);
    ChunkedBody(head, TwoChunks([57], part, [53], rest));
  }

  lemma PaddedBytes()
    ensures IsMessage(PADDED) && SerializeAll(PADDED) == [8, 5, 82, 5, 0, 0, 0, 0, 0]
    ensures Verdict(PADDED) == Complete(ZERO.(memory := 5))
  {
    var number, text := PADDED[0], PADDED[1];
    assert Serialize(number) == [8, 5] && Serialize(text) == [82, 5, 0, 0, 0, 0, 0];
    assert PADDED[1..] == [text] && PADDED[1..][1..] == [];
    assert SerializeAll(PADDED[1..]) == Serialize(text);
    assert PADDED[..1] == [number] && [number][..0] == [];
    assert LastWins([]) == ZERO && LastWins([number]) == ZERO.(memory := 5);
  }

  lemma EmptyMessage(frame: seq<Byte>)
    requires frame == [0, 0, 0, 0, 0]
    ensures ParseStatus(frame) == Complete(ZERO)
  {
    LastWinsOfNothing();
  }
}
