/**
 Content-Length framing of scripts/mcp-server.js: messages are printed with a header, arrive cut into
 arbitrary chunks, and are dispatched one by one from a growing buffer. Decoding a header from bytes is a
 parameter; all that is used of it is that ASCII bytes decode to themselves.
 */
module StreamFraming {
  import opened Common
  import opened Decimals
  import opened Text

  type Byte = n: int | 0 <= n < 256

  type Decoder = seq<Byte> -> string

  const CR: Byte := 13
  const LF: Byte := 10
  const SEPARATOR: seq<Byte> := [CR, LF, CR, LF]

  ghost predicate KeepsAscii(decode: Decoder) {
    forall bs: seq<Byte> :: (forall i :: 0 <= i < |bs| ==> bs[i] < 128) ==>
      |decode(bs)| == |bs| && forall i :: 0 <= i < |bs| ==> decode(bs)[i] as int == bs[i]
  }

  // ---------- headers ----------

  function SplitLines(s: string): (lines: seq<string>)
    ensures lines != []
  {
    if s == "" then [""]
    else if |s| >= 2 && s[0] == '\r' && s[1] == '\n' then [""] + SplitLines(s[2..])
    else
      var rest := SplitLines(s[1..]);
      [[s[0]] + rest[0]] + rest[1..]
  }

  function ColonAt(line: string): (i: int)
    ensures -1 <= i < |line|
  {
    if line == "" then -1
    else if line[0] == ':' then 0
    else
      var i := ColonAt(line[1..]);
      if i < 0 then -1 else i + 1
  }

  /** Keys are lower-cased; no character outside ASCII lower-cases into a letter of "content-length". */
  function Headers(lines: seq<string>): map<string, string> {
    if lines == [] then map[]
    else
      var before := Headers(lines[..|lines| - 1]);
      var line := lines[|lines| - 1];
      var colon := ColonAt(line);
      if colon <= 0 then before else before[LowerAscii(Trim(line[..colon])) := Trim(line[colon + 1..])]
  }

  /** Number.parseInt(s, 10); none stands for NaN. */
  function ParseInt(s: string): Option<int> {
    var t := TrimStart(s);
    var negative := t != "" && t[0] == '-';
    var digits := if t != "" && t[0] in {'+', '-'} then t[1..] else t;
    match LeadingDigits(digits, None)
    case None => None
    case Some(n) =>
      var value: int := n;
      Some(if negative then -value else value)
  }

  function ContentLength(decode: Decoder, header: seq<Byte>): Option<int> {
    var headers := Headers(SplitLines(decode(header)));
    ParseInt(if "content-length" in headers then headers["content-length"] else "")
  }

  // ---------- one frame ----------

  /** Buffer.indexOf("\r\n\r\n"). */
  function FindSeparator(buf: seq<Byte>): (i: int)
    ensures i == -1 || (0 <= i <= |buf| - 4 && buf[i..i + 4] == SEPARATOR)
  {
    if |buf| < 4 then -1
    else if buf[..4] == SEPARATOR then 0
    else
      var i := FindSeparator(buf[1..]);
      if i < 0 then -1 else assert buf[i + 1..i + 5] == buf[1..][i..i + 4]; i + 1
  }

  datatype Step = NeedMore | BadHeader | Message(body: seq<Byte>, end: nat)

  /** The frame whose header ends at `sep`. */
  function FrameAt(decode: Decoder, buf: seq<Byte>, sep: nat): (s: Step)
    requires sep + 4 <= |buf|
    ensures s.Message? ==> sep + 4 <= s.end <= |buf|
  {
    var length := ContentLength(decode, buf[..sep]);
    if length.None? || length.value < 0 then BadHeader
    else if |buf| < sep + 4 + length.value then NeedMore
    else Message(buf[sep + 4..sep + 4 + length.value], sep + 4 + length.value)
  }

  function NextFrame(decode: Decoder, buf: seq<Byte>): (s: Step)
    ensures s.Message? ==> 4 <= s.end <= |buf|
  {
    var sep := FindSeparator(buf);
    if sep < 0 then NeedMore else FrameAt(decode, buf, sep)
  }

  // ---------- draining the buffer ----------

  /** The bodies dispatched, what stays in the buffer, and whether a bad header emptied it. */
  datatype Drained = Drained(bodies: seq<seq<Byte>>, rest: seq<Byte>, dropped: bool)

  function Drain(decode: Decoder, buf: seq<Byte>): (d: Drained)
    ensures |d.rest| <= |buf|
    decreases |buf|
  {
    match NextFrame(decode, buf)
    case NeedMore => Drained([], buf, false)
    case BadHeader => Drained([], [], true)
    case Message(body, end) =>
      var d := Drain(decode, buf[end..]);
      d.(bodies := [body] + d.bodies)
  }

  /** Handling one chunk after another; `dropped` remembers whether any of them met a bad header. */
  function Feed(decode: Decoder, chunks: seq<seq<Byte>>): Drained {
    if chunks == [] then Drained([], [], false)
    else
      var before := Feed(decode, chunks[..|chunks| - 1]);
      var d := Drain(decode, before.rest + chunks[|chunks| - 1]);
      Drained(before.bodies + d.bodies, d.rest, before.dropped || d.dropped)
  }

  function Concat(chunks: seq<seq<Byte>>): seq<Byte> {
    if chunks == [] then [] else Concat(chunks[..|chunks| - 1]) + chunks[|chunks| - 1]
  }

  lemma Regroup(done: seq<seq<Byte>>, body: seq<Byte>, rest: seq<seq<Byte>>)
    ensures done + ([body] + rest) == (done + [body]) + rest
  {
  }

  class Server {
    const decode: Decoder
    var buffer: seq<Byte>
    var dispatched: seq<seq<Byte>>

    constructor (decode: Decoder)
      ensures this.decode == decode && buffer == [] && dispatched == []
    {
      this.decode := decode;
      buffer, dispatched := [], [];
    }

    /** Every turn of the loop returns or leaves a strictly shorter buffer. */
    method ParseIncomingBuffer()
      modifies this
      ensures buffer == Drain(decode, old(buffer)).rest
      ensures dispatched == old(dispatched) + Drain(decode, old(buffer)).bodies
    {
      ghost var done: seq<seq<Byte>> := [];
      while true
        invariant dispatched == old(dispatched) + done
        invariant Drain(decode, old(buffer)) == Drain(decode, buffer).(bodies := done + Drain(decode, buffer).bodies)
        decreases |buffer|
      {
        var step := NextFrame(decode, buffer);
        if step == NeedMore {
          return;
        }
        if step == BadHeader {
          buffer := [];
          return;
        }
        Regroup(done, step.body, Drain(decode, buffer[step.end..]).bodies);
        done := done + [step.body];
        buffer := buffer[step.end..];
        dispatched := dispatched + [step.body];
      }
    }

    method OnData(chunk: seq<Byte>)
      modifies this
      ensures buffer == Drain(decode, old(buffer) + chunk).rest
      ensures dispatched == old(dispatched) + Drain(decode, old(buffer) + chunk).bodies
    {
      buffer := buffer + chunk;
      ParseIncomingBuffer();
    }

    /** A whole stream, one chunk after the other. */
    method OnStream(chunks: seq<seq<Byte>>)
      requires buffer == [] && dispatched == []
      modifies this
      ensures buffer == Feed(decode, chunks).rest && dispatched == Feed(decode, chunks).bodies
    {
      for k := 0 to |chunks|
        invariant buffer == Feed(decode, chunks[..k]).rest && dispatched == Feed(decode, chunks[..k]).bodies
      {
        assert chunks[..k + 1][..k] == chunks[..k];
        OnData(chunks[k]);
      }
      assert chunks[..|chunks|] == chunks;
    }
  }

  // ---------- more bytes change nothing that was decided ----------

  lemma {:induction false} SeparatorStays(buf: seq<Byte>, more: seq<Byte>)
    requires FindSeparator(buf) >= 0
    ensures FindSeparator(buf + more) == FindSeparator(buf)
  {
    assert (buf + more)[..4] == buf[..4];
    if buf[..4] != SEPARATOR {
      SeparatorStays(buf[1..], more);
      assert (buf + more)[1..] == buf[1..] + more;
    }
  }

  /** More bytes can only complete a frame. */
  lemma FrameWithMore(decode: Decoder, buf: seq<Byte>, more: seq<Byte>, sep: nat)
    requires sep + 4 <= |buf|
    ensures var short, long := FrameAt(decode, buf, sep), FrameAt(decode, buf + more, sep);
      long == short || (short == NeedMore && long.Message? && long.end > |buf|)
  {
    assert (buf + more)[..sep] == buf[..sep];
    var long := FrameAt(decode, buf + more, sep);
    if long.Message? && long.end <= |buf| {
      assert (buf + more)[sep + 4..long.end] == buf[sep + 4..long.end];
    }
  }

  lemma DecidedStays(decode: Decoder, buf: seq<Byte>, more: seq<Byte>)
    requires NextFrame(decode, buf) != NeedMore
    ensures NextFrame(decode, buf + more) == NextFrame(decode, buf)
  {
    SeparatorStays(buf, more);
    FrameWithMore(decode, buf, more, FindSeparator(buf));
  }

  lemma RegroupFirst(body: seq<Byte>, first: seq<seq<Byte>>, second: seq<seq<Byte>>)
    ensures [body] + (first + second) == ([body] + first) + second
  {
  }

  /** What follows the separator of the first bad header; none if the stream has no bad header. */
  function AfterBadHeader(decode: Decoder, buf: seq<Byte>): (tail: Option<seq<Byte>>)
    ensures tail.Some? <==> Drain(decode, buf).dropped
    decreases |buf|
  {
    match NextFrame(decode, buf)
    case NeedMore => None
    case BadHeader => Some(buf[FindSeparator(buf) + 4..])
    case Message(_, end) => AfterBadHeader(decode, buf[end..])
  }

  /** No bad header, or one with nothing after it. */
  ghost predicate NothingAfterBadHeader(decode: Decoder, s: seq<Byte>) {
    AfterBadHeader(decode, s) == None || AfterBadHeader(decode, s) == Some([])
  }

  lemma BadHeaderCuts(decode: Decoder, buf: seq<Byte>, more: seq<Byte>)
    requires NextFrame(decode, buf) == BadHeader && more != []
    ensures !NothingAfterBadHeader(decode, buf + more)
  {
    DecidedStays(decode, buf, more);
    SeparatorStays(buf, more);
    assert |AfterBadHeader(decode, buf + more).value| > 0;
  }

  /** Draining early and going on is draining late, as long as the first part is not cut off by a bad header. */
  lemma {:induction false} DrainInTwo(decode: Decoder, buf: seq<Byte>, more: seq<Byte>)
    requires more != [] && NothingAfterBadHeader(decode, buf + more)
    ensures var first := Drain(decode, buf);
      var second := Drain(decode, first.rest + more);
      && !first.dropped
      && Drain(decode, buf + more) == Drained(first.bodies + second.bodies, second.rest, second.dropped)
    decreases |buf|
  {
    var step := NextFrame(decode, buf);
    if step == NeedMore {
      assert Drain(decode, buf) == Drained([], buf, false);
      assert [] + Drain(decode, buf + more).bodies == Drain(decode, buf + more).bodies;
    } else {
      DecidedStays(decode, buf, more);
      if step.Message? {
        assert (buf + more)[step.end..] == buf[step.end..] + more;
        DrainInTwo(decode, buf[step.end..], more);
        var first := Drain(decode, buf[step.end..]);
        RegroupFirst(step.body, first.bodies, Drain(decode, first.rest + more).bodies);
      } else {
        BadHeaderCuts(decode, buf, more);
      }
    }
  }

  lemma FeedOne(decode: Decoder, chunk: seq<Byte>)
    ensures Feed(decode, [chunk]) == Drain(decode, chunk)
  {
    var none: seq<seq<Byte>> := [];
    assert [chunk][..0] == none;
    assert [] + chunk == chunk;
    assert none + Drain(decode, chunk).bodies == Drain(decode, chunk).bodies;
  }

  lemma DrainNothing(decode: Decoder)
    ensures Drain(decode, []) == Drained([], [], false)
  {
    assert FindSeparator([]) < 0;
  }

  /** One empty chunk more changes nothing: what waits in the buffer has been drained already. */
  lemma {:induction false} DrainAgain(decode: Decoder, buf: seq<Byte>)
    ensures Drain(decode, Drain(decode, buf).rest) == Drained([], Drain(decode, buf).rest, false)
    decreases |buf|
  {
    DrainNothing(decode);
    var step := NextFrame(decode, buf);
    if step.Message? {
      DrainAgain(decode, buf[step.end..]);
    }
  }

  /**
   Chunk independence: a stream is dispatched the same way, and leaves the same bytes waiting, however it is
   cut into chunks, if it meets no bad header or ends with the first one.
   */
  lemma {:induction false} ChunkingDoesNotMatter(decode: Decoder, chunks: seq<seq<Byte>>)
    requires NothingAfterBadHeader(decode, Concat(chunks))
    ensures Feed(decode, chunks) == Drain(decode, Concat(chunks))
  {
    if chunks == [] {
      DrainNothing(decode);
    } else {
      var init, last := chunks[..|chunks| - 1], chunks[|chunks| - 1];
      var whole := Drain(decode, Concat(chunks));
      if last == [] {
        assert Concat(init) + last == Concat(init);
        ChunkingDoesNotMatter(decode, init);
        DrainAgain(decode, Concat(init));
        assert whole.rest + last == whole.rest && whole.bodies + [] == whole.bodies;
      } else {
        DrainInTwo(decode, Concat(init), last);
        ChunkingDoesNotMatter(decode, init);
      }
    }
  }

  /** Every way of cutting s dispatches the bodies, and leaves the bytes, that s in one piece does. */
  ghost predicate ChunkingIsInvisible(decode: Decoder, s: seq<Byte>) {
    forall chunks: seq<seq<Byte>> :: Concat(chunks) == s ==>
      Feed(decode, chunks).bodies == Drain(decode, s).bodies && Feed(decode, chunks).rest == Drain(decode, s).rest
  }

  lemma {:induction false} SeparatorWithin(buf: seq<Byte>, more: seq<Byte>)
    requires 0 <= FindSeparator(buf + more) <= |buf| - 4
    ensures FindSeparator(buf) == FindSeparator(buf + more)
  {
    assert (buf + more)[..4] == buf[..4];
    if buf[..4] != SEPARATOR {
      assert (buf + more)[1..] == buf[1..] + more;
      SeparatorWithin(buf[1..], more);
    }
  }

  /** What was decided within the first bytes is decided by them alone. */
  lemma DecidedWithin(decode: Decoder, buf: seq<Byte>, more: seq<Byte>)
    requires 0 <= FindSeparator(buf + more) <= |buf| - 4
    requires var step := NextFrame(decode, buf + more);
      step == BadHeader || (step.Message? && step.end <= |buf|)
    ensures NextFrame(decode, buf) == NextFrame(decode, buf + more)
  {
    SeparatorWithin(buf, more);
    FrameWithMore(decode, buf, more, FindSeparator(buf));
  }

  lemma NoTailNoHeader(decode: Decoder)
    ensures AfterBadHeader(decode, []) == None
  {
    DrainNothing(decode);
  }

  /** A bad header followed by anything is already met without the last byte. */
  lemma {:induction false} BadWithoutLast(decode: Decoder, init: seq<Byte>, last: Byte)
    requires !NothingAfterBadHeader(decode, init + [last])
    ensures Drain(decode, init).dropped
    decreases |init|
  {
    var s := init + [last];
    var step := NextFrame(decode, s);
    NoTailNoHeader(decode);
    if step == BadHeader {
      DecidedWithin(decode, init, [last]);
    } else {
      var after := s[step.end..];
      assert !NothingAfterBadHeader(decode, after);
      DecidedWithin(decode, init, [last]);
      assert after == init[step.end..] + [last];
      BadWithoutLast(decode, init[step.end..], last);
    }
  }

  lemma TwoChunks(init: seq<Byte>, last: seq<Byte>)
    ensures Concat([init, last]) == init + last
  {
    var chunks, none: seq<seq<Byte>> := [init, last], [];
    assert chunks[..1] == [init] && [init][..0] == none;
    assert Concat([init]) == [] + init;
  }

  lemma LastByteAlone(decode: Decoder, init: seq<Byte>, last: Byte)
    requires Drain(decode, init).dropped
    ensures Feed(decode, [init, [last]]).rest == [last]
  {
    var chunks := [init, [last]];
    assert chunks[..1] == [init];
    FeedOne(decode, init);
    RestAfterDrop(decode, init);
    assert [] + [last] == [last];
    assert FindSeparator([last]) < 0;
  }

  lemma {:induction false} RestAfterDrop(decode: Decoder, buf: seq<Byte>)
    requires Drain(decode, buf).dropped
    ensures Drain(decode, buf).rest == []
    decreases |buf|
  {
    var step := NextFrame(decode, buf);
    if step.Message? {
      RestAfterDrop(decode, buf[step.end..]);
    }
  }

  lemma LastByteMatters(decode: Decoder, init: seq<Byte>, last: Byte)
    requires !NothingAfterBadHeader(decode, init + [last])
    ensures !ChunkingIsInvisible(decode, init + [last])
  {
    var cut := [init, [last]];
    BadWithoutLast(decode, init, last);
    TwoChunks(init, [last]);
    LastByteAlone(decode, init, last);
    RestAfterDrop(decode, init + [last]);
    assert Feed(decode, cut).rest != Drain(decode, Concat(cut)).rest;
  }

  /**
   Chunk independence, exactly: the outcome is the same for every way of cutting s if and only if s has no bad
   header or nothing follows the first one. A bad header throws away what is in the buffer, so otherwise a
   last byte that arrives alone survives, and one that arrives with the rest does not.
   */
  lemma ChunkingIsInvisibleIff(decode: Decoder, s: seq<Byte>)
    ensures ChunkingIsInvisible(decode, s) <==> NothingAfterBadHeader(decode, s)
  {
    if NothingAfterBadHeader(decode, s) {
      forall chunks: seq<seq<Byte>> | Concat(chunks) == s ensures Feed(decode, chunks) == Drain(decode, s) {
        ChunkingDoesNotMatter(decode, chunks);
      }
    } else {
      NoTailNoHeader(decode);
      assert s == s[..|s| - 1] + [s[|s| - 1]];
      LastByteMatters(decode, s[..|s| - 1], s[|s| - 1]);
    }
  }

  // ---------- printed messages ----------

  function Bytes(s: string): seq<Byte>
    requires forall i :: 0 <= i < |s| ==> s[i] as int < 128
  {
    seq(|s|, i requires 0 <= i < |s| => s[i] as int)
  }

  function HeaderText(length: nat): (s: string)
    ensures forall i :: 0 <= i < |s| ==> s[i] as int < 128 && s[i] != '\r'
  {
    "Content-Length: " + Decimal(length)
  }

  /** writeMessage, on the bytes of the serialized message. */
  function Printed(payload: seq<Byte>): seq<Byte> {
    Bytes(HeaderText(|payload|)) + (SEPARATOR + payload)
  }

  function PrintedAll(payloads: seq<seq<Byte>>): seq<Byte> {
    if payloads == [] then [] else Printed(payloads[0]) + PrintedAll(payloads[1..])
  }

  lemma ParseDecimal(n: nat)
    ensures ParseInt(Decimal(n)) == Some(n)
    ensures Trim(Decimal(n)) == Decimal(n)
  {
    var s := Decimal(n);
    assert IsDigit(s[0]) && IsDigit(s[|s| - 1]);
    TrimFacts(s);
    DecimalRoundTrip(n);
  }

  lemma {:induction false} OneLine(s: string)
    requires '\r' !in s
    ensures SplitLines(s) == [s]
  {
    if s != "" {
      assert s == [s[0]] + s[1..];
      OneLine(s[1..]);
    }
  }

  lemma {:induction false} ColonAfter(key: string, value: string)
    requires ':' !in key
    ensures ColonAt(key + ([':'] + value)) == |key|
  {
    var line := key + ([':'] + value);
    if key != "" {
      assert key == [key[0]] + key[1..];
      assert line[0] == key[0] && line[1..] == key[1..] + ([':'] + value);
      ColonAfter(key[1..], value);
    }
  }

  lemma OneHeader(key: string, value: string)
    requires key != "" && ':' !in key
    ensures Headers([key + ([':'] + value)]) == map[LowerAscii(Trim(key)) := Trim(value)]
  {
    var line := key + ([':'] + value);
    var none: seq<string> := [];
    ColonAfter(key, value);
    assert line[..|key|] == key && line[|key| + 1..] == value;
    assert [line][..0] == none;
  }

  lemma TrimLeadingSpace(s: string)
    requires s != "" && !IsSpace(s[0])
    ensures Trim(" " + s) == Trim(s)
  {
    assert (" " + s)[1..] == s;
  }

  lemma LowerName()
    ensures LowerAscii(Trim("Content-Length")) == "content-length"
  {
    TrimFacts("Content-Length");
    assert LowerAscii("Content-Length") == "content-length";
  }

  lemma HeaderLine(n: nat)
    ensures Headers([HeaderText(n)]) == map["content-length" := Decimal(n)]
  {
    assert HeaderText(n) == "Content-Length" + ([':'] + (" " + Decimal(n)));
    OneHeader("Content-Length", " " + Decimal(n));
    LowerName();
    assert IsDigit(Decimal(n)[0]);
    TrimLeadingSpace(Decimal(n));
    ParseDecimal(n);
  }

  /** The header of an n-byte message is read as n. */
  ghost predicate ReadsHeader(decode: Decoder, n: nat) {
    var header := Bytes(HeaderText(n));
    CR !in header && ContentLength(decode, header) == Some(n)
  }

  lemma HeaderDecodes(decode: Decoder, n: nat)
    requires KeepsAscii(decode)
    ensures ReadsHeader(decode, n)
  {
    var text := HeaderText(n);
    assert decode(Bytes(text)) == text;
    OneLine(text);
    HeaderLine(n);
    ParseDecimal(n);
  }

  lemma {:induction false} FirstSeparator(header: seq<Byte>, after: seq<Byte>)
    requires CR !in header
    ensures FindSeparator(header + (SEPARATOR + after)) == |header|
  {
    var buf := header + (SEPARATOR + after);
    if header == [] {
      assert buf[..4] == SEPARATOR;
    } else {
      assert header == [header[0]] + header[1..];
      assert buf[0] == header[0] && buf[..4][0] != CR;
      assert buf[1..] == header[1..] + (SEPARATOR + after);
      FirstSeparator(header[1..], after);
    }
  }

  lemma FrameParts(header: seq<Byte>, payload: seq<Byte>, after: seq<Byte>)
    ensures var buf := header + (SEPARATOR + (payload + after));
      && (header + (SEPARATOR + payload)) + after == buf
      && buf[..|header|] == header
      && buf[|header| + 4..|header| + 4 + |payload|] == payload
  {
    var buf := header + (SEPARATOR + (payload + after));
    assert buf[|header| + 4..] == payload + after;
  }

  lemma NextFrameAt(decode: Decoder, header: seq<Byte>, payload: seq<Byte>, after: seq<Byte>)
    requires CR !in header && ContentLength(decode, header) == Some(|payload|)
    ensures NextFrame(decode, (header + (SEPARATOR + payload)) + after) == Message(payload, |header| + 4 + |payload|)
  {
    FrameParts(header, payload, after);
    FirstSeparator(header, payload + after);
  }

  lemma NextPrinted(decode: Decoder, payload: seq<Byte>, after: seq<Byte>)
    requires ReadsHeader(decode, |payload|)
    ensures NextFrame(decode, Printed(payload) + after) == Message(payload, |Printed(payload)|)
  {
    var header := Bytes(HeaderText(|payload|));
    NextFrameAt(decode, header, payload, after);
    assert Printed(payload) == header + (SEPARATOR + payload);
  }

  lemma DrainOne(decode: Decoder, frame: seq<Byte>, body: seq<Byte>, after: seq<Byte>)
    requires NextFrame(decode, frame + after) == Message(body, |frame|)
    ensures Drain(decode, frame + after) == Drain(decode, after).(bodies := [body] + Drain(decode, after).bodies)
  {
    assert (frame + after)[|frame|..] == after;
  }

  lemma PrintedFirst(decode: Decoder, payload: seq<Byte>, after: seq<Byte>, rest: seq<seq<Byte>>)
    requires ReadsHeader(decode, |payload|)
    requires Drain(decode, after) == Drained(rest, [], false)
    ensures Drain(decode, Printed(payload) + after) == Drained([payload] + rest, [], false)
  {
    NextPrinted(decode, payload, after);
    DrainOne(decode, Printed(payload), payload, after);
  }

  lemma {:induction false} DrainPrinted(decode: Decoder, payloads: seq<seq<Byte>>)
    requires forall n: nat :: ReadsHeader(decode, n)
    ensures Drain(decode, PrintedAll(payloads)) == Drained(payloads, [], false)
  {
    if payloads == [] {
      DrainNothing(decode);
    } else {
      var first, others := payloads[0], payloads[1..];
      DrainPrinted(decode, others);
      assert ReadsHeader(decode, |first|);
      PrintedFirst(decode, first, PrintedAll(others), others);
      assert payloads == [first] + others;
    }
  }

  /**
   Printed messages, cut into any chunks whatever, are dispatched exactly, in order, and leave an empty buffer.
   */
  lemma MessagesSurviveChunking(decode: Decoder, payloads: seq<seq<Byte>>, chunks: seq<seq<Byte>>)
    requires KeepsAscii(decode)
    requires Concat(chunks) == PrintedAll(payloads)
    ensures Feed(decode, chunks) == Drained(payloads, [], false)
  {
    forall n: nat ensures ReadsHeader(decode, n) {
      HeaderDecodes(decode, n);
    }
    DrainPrinted(decode, payloads);
    ChunkingDoesNotMatter(decode, chunks);
  }
}
