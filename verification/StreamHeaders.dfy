/**
 Reading the headers of a frame that anyone may have written: which line counts, how its name may be spelled, what its
 value is read as, and that messages under any such headers survive being cut into chunks.
 */
module StreamHeaders {
  import opened Common
  import opened Decimals
  import opened Text
  import opened StreamFraming

  // ---------- lines ----------

  /** Lines with CRLF between them. */
  function JoinLines(lines: seq<string>): string {
    if lines == [] then ""
    else if |lines| == 1 then lines[0]
    else lines[0] + ("\r\n" + JoinLines(lines[1..]))
  }

  lemma {:induction false} SplitFirst(line: string, rest: string)
    requires '\r' !in line
    ensures SplitLines(line + ("\r\n" + rest)) == [line] + SplitLines(rest)
  {
    var s := line + ("\r\n" + rest);
    if line == "" {
      assert s[0] == '\r' && s[1] == '\n' && s[2..] == rest;
    } else {
      assert line == [line[0]] + line[1..];
      assert s[0] == line[0] && s[1..] == line[1..] + ("\r\n" + rest);
      SplitFirst(line[1..], rest);
    }
  }

  lemma {:induction false} SplitJoined(lines: seq<string>)
    requires lines != [] && forall k :: 0 <= k < |lines| ==> '\r' !in lines[k]
    ensures SplitLines(JoinLines(lines)) == lines
  {
    if |lines| == 1 {
      OneLine(lines[0]);
    } else {
      assert lines == [lines[0]] + lines[1..];
      SplitJoined(lines[1..]);
      SplitFirst(lines[0], JoinLines(lines[1..]));
    }
  }

  // ---------- names and values ----------

  /** The line gives the key this value: they are around its first colon, and white space around them does not count. */
  ghost predicate Gives(line: string, key: string, value: string) {
    exists name, text :: line == name + (":" + text) && name != "" && ':' !in name
      && LowerAscii(Trim(name)) == key && Trim(text) == value
  }

  ghost predicate GivesSome(line: string, key: string) {
    exists value :: Gives(line, key, value)
  }

  lemma {:induction false} ColonMeans(line: string)
    ensures ColonAt(line) < 0 <==> ':' !in line
    ensures ColonAt(line) >= 0 ==> line[ColonAt(line)] == ':' && ':' !in line[..ColonAt(line)]
  {
    if line != "" && line[0] != ':' {
      ColonMeans(line[1..]);
      assert line == [line[0]] + line[1..];
      if ColonAt(line) >= 0 {
        assert line[..ColonAt(line)] == [line[0]] + line[1..][..ColonAt(line) - 1];
      }
    }
  }

  lemma LineGives(line: string, key: string, value: string)
    ensures Gives(line, key, value)
       <==> ColonAt(line) > 0 && LowerAscii(Trim(line[..ColonAt(line)])) == key
            && Trim(line[ColonAt(line) + 1..]) == value
  {
    ColonMeans(line);
    var i := ColonAt(line);
    if i > 0 {
      assert line == line[..i] + (":" + line[i + 1..]);
    }
    if Gives(line, key, value) {
      var name, text :| line == name + (":" + text) && name != "" && ':' !in name
        && LowerAscii(Trim(name)) == key && Trim(text) == value;
      ColonAfter(name, text);
      assert line == name + ([':'] + text);
      assert line[..i] == name && line[i + 1..] == text;
    }
  }

  /** The last line that gives the key a value gives it this one. */
  ghost predicate LastGives(lines: seq<string>, key: string, value: string) {
    exists i :: 0 <= i < |lines| && Gives(lines[i], key, value) && NoneGives(lines[i + 1..], key)
  }

  ghost predicate NoneGives(lines: seq<string>, key: string) {
    forall line :: line in lines ==> !GivesSome(line, key)
  }

  lemma NoneGivesStep(init: seq<string>, line: string, key: string)
    ensures NoneGives(init + [line], key) <==> NoneGives(init, key) && !GivesSome(line, key)
  {
    assert line in init + [line] && forall x :: x in init ==> x in init + [line];
  }

  lemma LastGivesStep(init: seq<string>, line: string, key: string, value: string)
    ensures LastGives(init + [line], key, value)
       <==> Gives(line, key, value) || (LastGives(init, key, value) && !GivesSome(line, key))
  {
    var lines := init + [line];
    if LastGives(init, key, value) && !GivesSome(line, key) {
      var i :| 0 <= i < |init| && Gives(init[i], key, value) && NoneGives(init[i + 1..], key);
      assert lines[i + 1..] == init[i + 1..] + [line];
      NoneGivesStep(init[i + 1..], line, key);
      assert Gives(lines[i], key, value);
    }
    if Gives(line, key, value) {
      assert lines[|init|] == line && lines[|init| + 1..] == [];
    }
    if LastGives(lines, key, value) && !Gives(line, key, value) {
      NotTheLast(init, line, key, value);
    }
  }

  lemma NotTheLast(init: seq<string>, line: string, key: string, value: string)
    requires LastGives(init + [line], key, value) && !Gives(line, key, value)
    ensures LastGives(init, key, value) && !GivesSome(line, key)
  {
    var lines := init + [line];
    var i :| 0 <= i < |lines| && Gives(lines[i], key, value) && NoneGives(lines[i + 1..], key);
    assert i < |init|;
    assert lines[i + 1..] == init[i + 1..] + [line];
    NoneGivesStep(init[i + 1..], line, key);
    assert Gives(init[i], key, value);
  }

  /** What the last line adds. */
  lemma HeadersStep(lines: seq<string>, key: string)
    requires lines != []
    ensures var init, line := lines[..|lines| - 1], lines[|lines| - 1];
      && (GivesSome(line, key) ==>
            key in Headers(lines) && forall v :: Gives(line, key, v) <==> v == Headers(lines)[key])
      && (!GivesSome(line, key) ==>
            && (key in Headers(lines) <==> key in Headers(init))
            && (key in Headers(lines) ==> Headers(lines)[key] == Headers(init)[key]))
  {
    var line := lines[|lines| - 1];
    forall v ensures Gives(line, key, v) <==>
      ColonAt(line) > 0 && LowerAscii(Trim(line[..ColonAt(line)])) == key && Trim(line[ColonAt(line) + 1..]) == v
    {
      LineGives(line, key, v);
    }
    if ColonAt(line) > 0 && LowerAscii(Trim(line[..ColonAt(line)])) == key {
      assert Gives(line, key, Trim(line[ColonAt(line) + 1..]));
    }
  }

  /** A key is read from the last line that gives it a value, and is missing when no line does. */
  lemma {:induction false} HeadersMean(lines: seq<string>, key: string, value: string)
    ensures key in Headers(lines) && Headers(lines)[key] == value <==> LastGives(lines, key, value)
    ensures key in Headers(lines) <==> !NoneGives(lines, key)
  {
    if lines != [] {
      var init, line := lines[..|lines| - 1], lines[|lines| - 1];
      HeadersMean(init, key, value);
      HeadersStep(lines, key);
      LastGivesStep(init, line, key, value);
      NoneGivesStep(init, line, key);
      assert init + [line] == lines;
    }
  }

  // ---------- the length ----------

  lemma {:induction false} DigitsStop(s: string, rest: string, acc: Option<nat>)
    requires forall i :: 0 <= i < |s| ==> IsDigit(s[i])
    requires rest != "" ==> !IsDigit(rest[0])
    ensures LeadingDigits(s + rest, acc) == LeadingDigits(s, acc)
    decreases |s|
  {
    if s == "" {
      assert s + rest == rest;
    } else {
      assert (s + rest)[1..] == s[1..] + rest;
      DigitsStop(s[1..], rest, Some(acc.GetOr(0) * 10 + (s[0] as int - '0' as int)));
    }
  }

  /** A number is read with its sign, and whatever follows its digits is ignored. */
  lemma ParseIntMeans(n: nat, junk: string)
    requires junk != "" ==> !IsDigit(junk[0])
    ensures ParseInt(Decimal(n) + junk) == ParseInt("+" + Decimal(n) + junk) == Some(n)
    ensures ParseInt("-" + Decimal(n) + junk) == Some(0 - n)
  {
    var s := Decimal(n) + junk;
    DecimalRoundTrip(n);
    DigitsStop(Decimal(n), junk, None);
    assert IsDigit(s[0]);
    assert ("+" + Decimal(n) + junk)[1..] == s && ("-" + Decimal(n) + junk)[1..] == s;
  }

  /** What does not start with a digit, up to white space and one sign, is no number. */
  lemma NoNumber(s: string)
    ensures var t := TrimStart(s);
      var u := if t != "" && t[0] in {'+', '-'} then t[1..] else t;
      ParseInt(s).None? <==> u == "" || !IsDigit(u[0])
  {
    var t := TrimStart(s);
    var u := if t != "" && t[0] in {'+', '-'} then t[1..] else t;
    SomeDigits(u, None);
  }

  lemma {:induction false} SomeDigits(s: string, acc: Option<nat>)
    ensures LeadingDigits(s, acc).None? <==> acc.None? && (s == "" || !IsDigit(s[0]))
    decreases |s|
  {
    if s != "" && IsDigit(s[0]) {
      SomeDigits(s[1..], Some(acc.GetOr(0) * 10 + (s[0] as int - '0' as int)));
    }
  }

  /** ASCII lines that can stand in a header: not empty, without carriage returns. */
  ghost predicate HeaderLines(lines: seq<string>) {
    && lines != []
    && forall k :: 0 <= k < |lines| ==>
         lines[k] != "" && '\r' !in lines[k] && forall i :: 0 <= i < |lines[k]| ==> lines[k][i] as int < 128
  }

  lemma {:induction false} JoinedIsAscii(lines: seq<string>)
    requires forall k, i :: 0 <= k < |lines| && 0 <= i < |lines[k]| ==> lines[k][i] as int < 128
    ensures forall i :: 0 <= i < |JoinLines(lines)| ==> JoinLines(lines)[i] as int < 128
  {
    if |lines| > 1 {
      JoinedIsAscii(lines[1..]);
    }
  }

  function HeaderBytes(lines: seq<string>): seq<Byte>
    requires HeaderLines(lines)
  {
    JoinedIsAscii(lines);
    Bytes(JoinLines(lines))
  }

  lemma HeaderBytesDecode(decode: Decoder, lines: seq<string>)
    requires KeepsAscii(decode) && HeaderLines(lines)
    ensures Headers(SplitLines(decode(HeaderBytes(lines)))) == Headers(lines)
  {
    JoinedIsAscii(lines);
    assert decode(HeaderBytes(lines)) == JoinLines(lines);
    SplitJoined(lines);
  }

  /** The name of the line is "content-length" up to the case of its letters and white space around it. */
  ghost predicate NamesLength(name: string) {
    && name != "" && ':' !in name && |Trim(name)| == |"content-length"|
    && forall i :: 0 <= i < |Trim(name)| ==> SameLetter(Trim(name)[i], "content-length"[i])
  }

  lemma LengthName(name: string)
    ensures NamesLength(name) <==> name != "" && ':' !in name && LowerAscii(Trim(name)) == "content-length"
  {
    LowerMeans(Trim(name), "content-length");
    assert LowerAscii("content-length") == "content-length";
  }

  /**
   The length of a frame is the number at the start of what the last Content-Length line gives, however its name is
   spelled and whatever other lines there are.
   */
  lemma LengthIsRead(decode: Decoder, lines: seq<string>, at: nat, name: string, text: string, n: nat, junk: string)
    requires KeepsAscii(decode) && HeaderLines(lines) && at < |lines|
    requires lines[at] == name + (":" + text) && NamesLength(name)
    requires Trim(text) == Decimal(n) + junk && (junk != "" ==> !IsDigit(junk[0]))
    requires NoneGives(lines[at + 1..], "content-length")
    ensures ContentLength(decode, HeaderBytes(lines)) == Some(n)
  {
    LengthName(name);
    assert Gives(lines[at], "content-length", Decimal(n) + junk);
    HeadersMean(lines, "content-length", Decimal(n) + junk);
    HeaderBytesDecode(decode, lines);
    ParseIntMeans(n, junk);
  }

  lemma LengthIs(decode: Decoder, lines: seq<string>)
    requires KeepsAscii(decode) && HeaderLines(lines)
    ensures var headers := Headers(lines);
      ContentLength(decode, HeaderBytes(lines))
        == if "content-length" in headers then ParseInt(headers["content-length"]) else None
  {
    HeaderBytesDecode(decode, lines);
    NoNumber("");
  }

  lemma BadWhen(decode: Decoder, header: seq<Byte>, after: seq<Byte>)
    requires FindSeparator(header + (SEPARATOR + after)) == |header|
    ensures NextFrame(decode, header + (SEPARATOR + after)) == BadHeader
       <==> ContentLength(decode, header).GetOr(-1) < 0
  {
    hide ContentLength, FindSeparator;
    assert (header + (SEPARATOR + after))[..|header|] == header;
  }

  /** Without such a line, or when it gives no number or a negative one, the header is bad; and only then. */
  lemma HeaderIsBadIff(decode: Decoder, lines: seq<string>, after: seq<Byte>)
    requires KeepsAscii(decode) && HeaderLines(lines)
    ensures NextFrame(decode, HeaderBytes(lines) + (SEPARATOR + after)) == BadHeader
       <==> NoneGives(lines, "content-length")
            || exists value :: LastGives(lines, "content-length", value) && ParseInt(value).GetOr(-1) < 0
  {
    var headers := Headers(lines);
    SeparatorAfter(lines, after);
    BadWhen(decode, HeaderBytes(lines), after);
    LengthIs(decode, lines);
    HeadersMean(lines, "content-length", if "content-length" in headers then headers["content-length"] else "");
    forall value | LastGives(lines, "content-length", value)
      ensures "content-length" in headers && headers["content-length"] == value
    {
      HeadersMean(lines, "content-length", value);
    }
  }

  // ---------- frames under any headers ----------

  /** No line is empty, so the first blank line is the end of the header. */
  lemma {:induction false} SeparatorAfter(lines: seq<string>, after: seq<Byte>)
    requires HeaderLines(lines)
    ensures FindSeparator(HeaderBytes(lines) + (SEPARATOR + after)) == |HeaderBytes(lines)|
  {
    var line := Bytes(lines[0]);
    assert CR !in line by {
      assert forall i :: 0 <= i < |lines[0]| ==> lines[0][i] != '\r';
    }
    if |lines| == 1 {
      FirstSeparator(line, after);
    } else {
      var rest := lines[1..];
      var tail := HeaderBytes(rest) + (SEPARATOR + after);
      SeparatorAfter(rest, after);
      FirstByte(rest);
      LineThenRest(lines, after);
      SkipLine(line, tail);
    }
  }

  lemma LineThenRest(lines: seq<string>, after: seq<Byte>)
    requires HeaderLines(lines) && |lines| > 1
    ensures HeaderBytes(lines) + (SEPARATOR + after)
         == Bytes(lines[0]) + ([CR, LF] + (HeaderBytes(lines[1..]) + (SEPARATOR + after)))
    ensures |HeaderBytes(lines)| == |lines[0]| + 2 + |HeaderBytes(lines[1..])|
  {
    JoinedIsAscii(lines[1..]);
    assert HeaderBytes(lines) == Bytes(lines[0]) + ([CR, LF] + HeaderBytes(lines[1..]));
  }

  lemma FirstByte(lines: seq<string>)
    requires HeaderLines(lines)
    ensures |HeaderBytes(lines)| > 0 && HeaderBytes(lines)[0] != CR
  {
    assert lines[0][0] != '\r';
    assert JoinLines(lines)[0] == lines[0][0];
  }

  /** A line and its line break are no blank line, unless another break follows at once. */
  lemma {:induction false} SkipLine(line: seq<Byte>, tail: seq<Byte>)
    requires CR !in line && tail != [] && tail[0] != CR && FindSeparator(tail) >= 0
    ensures FindSeparator(line + ([CR, LF] + tail)) == |line| + 2 + FindSeparator(tail)
  {
    var buf := line + ([CR, LF] + tail);
    if line == [] {
      assert buf[1..] == [LF] + tail && buf[1..][1..] == tail;
      assert buf[..4][2] != CR && buf[1..][..4][0] != CR;
    } else {
      assert buf[..4][0] != CR;
      assert buf[1..] == line[1..] + ([CR, LF] + tail);
      SkipLine(line[1..], tail);
    }
  }

  datatype Frame = Frame(lines: seq<string>, payload: seq<Byte>)

  /** A frame whose header gives the length of its payload. */
  ghost predicate WellFramed(decode: Decoder, f: Frame) {
    HeaderLines(f.lines) && ContentLength(decode, HeaderBytes(f.lines)) == Some(|f.payload|)
  }

  ghost predicate AllFramed(decode: Decoder, frames: seq<Frame>) {
    forall k :: 0 <= k < |frames| ==> WellFramed(decode, frames[k])
  }

  ghost function Wire(decode: Decoder, frames: seq<Frame>): seq<Byte>
    requires AllFramed(decode, frames)
  {
    if frames == [] then []
    else
      assert WellFramed(decode, frames[0]);
      (HeaderBytes(frames[0].lines) + (SEPARATOR + frames[0].payload)) + Wire(decode, frames[1..])
  }

  function Payloads(frames: seq<Frame>): seq<seq<Byte>> {
    if frames == [] then [] else [frames[0].payload] + Payloads(frames[1..])
  }

  lemma FrameIsTaken(decode: Decoder, f: Frame, after: seq<Byte>)
    requires WellFramed(decode, f)
    ensures var frame := HeaderBytes(f.lines) + (SEPARATOR + f.payload);
      NextFrame(decode, frame + after) == Message(f.payload, |frame|)
  {
    var header := HeaderBytes(f.lines);
    FrameParts(header, f.payload, after);
    SeparatorAfter(f.lines, f.payload + after);
  }

  lemma {:induction false} DrainFrames(decode: Decoder, frames: seq<Frame>)
    requires AllFramed(decode, frames)
    ensures Drain(decode, Wire(decode, frames)) == Drained(Payloads(frames), [], false)
  {
    if frames == [] {
      DrainNothing(decode);
    } else {
      var f, after := frames[0], Wire(decode, frames[1..]);
      assert WellFramed(decode, f);
      DrainFrames(decode, frames[1..]);
      FrameIsTaken(decode, f, after);
      DrainOne(decode, HeaderBytes(f.lines) + (SEPARATOR + f.payload), f.payload, after);
    }
  }

  /**
   Messages under any headers that give their lengths, cut into any chunks, are dispatched exactly, in order, and leave
   an empty buffer.
   */
  lemma FramesSurviveChunking(decode: Decoder, frames: seq<Frame>, chunks: seq<seq<Byte>>)
    requires AllFramed(decode, frames) && Concat(chunks) == Wire(decode, frames)
    ensures Feed(decode, chunks) == Drained(Payloads(frames), [], false)
  {
    DrainFrames(decode, frames);
    ChunkingDoesNotMatter(decode, chunks);
  }
}
