/**
 What decoding a form component means on raw text: which texts it accepts, what they decode to, and which spellings
 of the same thing it does not tell apart.
 */
module PercentMeaning {
  import opened Common
  import opened Utf8Coding
  import opened PercentCoding

  // ---------- what is printed as it is ----------

  /** The unreserved characters of section 2.3 of RFC 3986, by code point. */
  lemma UnreservedAre(c: char)
    ensures var n := c as int;
      IsUnreserved(c) <==> 65 <= n <= 90 || 97 <= n <= 122 || 48 <= n <= 57 || n in {45, 46, 95, 126}
  {
  }

  // ---------- pieces of a component ----------

  /** A piece of raw text: a character that stands for itself, a plus, or the escapes of one character. */
  datatype Piece = Plain(c: char) | Plus | Escapes(c: char, text: string)

  /** One escape per octet, with hex digits of either case. */
  ghost predicate SpellsOctets(text: string, bs: seq<Octet>) {
    if bs == [] then text == ""
    else
      && |text| >= 3 && text[0] == '%' && IsHex(text[1]) && IsHex(text[2])
      && HexValue(text[1]) * 16 + HexValue(text[2]) == bs[0]
      && SpellsOctets(text[3..], bs[1..])
  }

  /** The escapes of the character's UTF-8 form. */
  ghost predicate Spells(text: string, c: char) {
    SpellsOctets(text, Utf8(c))
  }

  ghost predicate IsPiece(p: Piece) {
    match p
    case Plain(c) => c != '%' && c != '+'
    case Plus => true
    case Escapes(c, text) => Spells(text, c)
  }

  ghost predicate ArePieces(ps: seq<Piece>) {
    forall k :: 0 <= k < |ps| ==> IsPiece(ps[k])
  }

  function Raw(p: Piece): string {
    match p
    case Plain(c) => [c]
    case Plus => "+"
    case Escapes(_, text) => text
  }

  function Value(p: Piece): char {
    match p
    case Plain(c) => c
    case Plus => ' '
    case Escapes(c, _) => c
  }

  /** The pieces one after the other. */
  function Written(ps: seq<Piece>): string {
    if ps == [] then "" else Raw(ps[0]) + Written(ps[1..])
  }

  function Meaning(ps: seq<Piece>): string {
    if ps == [] then "" else [Value(ps[0])] + Meaning(ps[1..])
  }

  /** The raw text is made of pieces, and this is what they mean. */
  ghost predicate Means(s: string, t: string) {
    exists ps :: ArePieces(ps) && Written(ps) == s && Meaning(ps) == t
  }

  /** A percent sign that two hex digits do not follow. */
  ghost predicate Dangling(s: string) {
    exists i :: 0 <= i < |s| && s[i] == '%' && !(i + 2 < |s| && IsHex(s[i + 1]) && IsHex(s[i + 2]))
  }

  // ---------- pieces are decoded to what they mean ----------

  lemma {:induction false} PlusJoin(a: string, b: string)
    ensures PlusAsSpace(a + b) == PlusAsSpace(a) + PlusAsSpace(b)
  {
    if a == [] {
      assert a + b == b;
    } else {
      PlusJoin(a[1..], b);
      assert (a + b)[1..] == a[1..] + b;
      Associate(if a[0] == '+' then "%20" else [a[0]], PlusAsSpace(a[1..]), PlusAsSpace(b));
    }
  }

  lemma {:induction false} SpelledLength(text: string, bs: seq<Octet>)
    requires SpellsOctets(text, bs)
    ensures |text| == 3 * |bs|
  {
    if bs != [] {
      SpelledLength(text[3..], bs[1..]);
    }
  }

  lemma DropJoin(a: string, b: string, n: nat)
    requires n <= |a|
    ensures (a + b)[n..] == a[n..] + b
  {
  }

  lemma TakeOne(s: string, n: nat)
    requires n > 0 && |s| >= 3 && s[0] == '%' && EscapeAt(s, 0)
    ensures TakeOctets(s, n) == match TakeOctets(s[3..], n - 1)
                                case None => None
                                case Some(rest) => Some([HexValue(s[1]) * 16 + HexValue(s[2])] + rest)
  {
  }

  /** Reading the octets of a spelling. */
  lemma {:induction false} TakeSpelled(text: string, bs: seq<Octet>, rest: string)
    requires SpellsOctets(text, bs)
    ensures TakeOctets(text + rest, |bs|) == Some(bs)
  {
    if bs != [] {
      TakeSpelled(text[3..], bs[1..], rest);
      DropJoin(text, rest, 3);
      TakeOne(text + rest, |bs|);
      assert [bs[0]] + bs[1..] == bs;
    }
  }

  lemma TakeSpelledLead(text: string, bs: seq<Octet>, rest: string)
    requires SpellsOctets(text, bs) && bs != []
    ensures TakeOctets(text + rest, 1) == Some([bs[0]])
  {
    TakeOne(text + rest, 1);
    assert [bs[0]] + [] == [bs[0]];
  }

  lemma TakePiece(text: string, c: char, rest: string)
    requires Spells(text, c)
    ensures TakeEscaped(text + rest) == Some((c, |Utf8(c)|))
  {
    Utf8RoundTrip(c);
    TakeSpelledLead(text, Utf8(c), rest);
    TakeSpelled(text, Utf8(c), rest);
  }

  lemma SpaceSpelled()
    ensures Spells("%20", ' ')
  {
    assert Utf8(' ') == [0x20];
  }

  lemma {:induction false} SpelledHasNoPlus(text: string, bs: seq<Octet>)
    requires SpellsOctets(text, bs)
    ensures '+' !in text
  {
    if bs != [] {
      SpelledHasNoPlus(text[3..], bs[1..]);
      assert text == text[..3] + text[3..];
    }
  }

  /** Escapes of one character, with any text behind them. */
  lemma DecodeSpelled(text: string, c: char, rest: string)
    requires Spells(text, c)
    ensures DecodeUriComponent(text + rest) == match DecodeUriComponent(rest)
                                               case None => None
                                               case Some(t) => Some([c] + t)
  {
    TakePiece(text, c, rest);
    SpelledLength(text, Utf8(c));
    assert (text + rest)[3 * |Utf8(c)|..] == rest;
  }

  /** One piece, with any text behind it. */
  lemma DecodePiece(p: Piece, rest: string)
    requires IsPiece(p)
    ensures DecodeUriComponent(PlusAsSpace(Raw(p)) + rest) == match DecodeUriComponent(rest)
                                                              case None => None
                                                              case Some(t) => Some([Value(p)] + t)
  {
    match p
    case Plain(c) =>
      assert PlusAsSpace([c]) == [c];
      assert ([c] + rest)[1..] == rest;
    case Plus =>
      assert PlusAsSpace("+") == "%20";
      SpaceSpelled();
      DecodeSpelled("%20", ' ', rest);
    case Escapes(c, text) =>
      SpelledHasNoPlus(text, Utf8(c));
      NoPlus(text);
      DecodeSpelled(text, c, rest);
  }

  lemma {:induction false} DecodePieces(ps: seq<Piece>)
    requires ArePieces(ps)
    ensures DecodeUriComponent(PlusAsSpace(Written(ps))) == Some(Meaning(ps))
  {
    if ps != [] {
      DecodePieces(ps[1..]);
      PlusJoin(Raw(ps[0]), Written(ps[1..]));
      DecodePiece(ps[0], PlusAsSpace(Written(ps[1..])));
    }
  }

  lemma {:induction false} SpelledWellEscaped(text: string, bs: seq<Octet>)
    requires SpellsOctets(text, bs)
    ensures WellEscaped(text)
  {
    if bs != [] {
      SpelledWellEscaped(text[3..], bs[1..]);
      assert text == text[..3] + text[3..];
      WellEscapedJoin(text[..3], text[3..]);
    }
  }

  lemma PieceWellEscaped(p: Piece)
    requires IsPiece(p)
    ensures WellEscaped(Raw(p))
  {
    if p.Escapes? {
      SpelledWellEscaped(p.text, Utf8(p.c));
    }
  }

  lemma {:induction false} PiecesWellEscaped(ps: seq<Piece>)
    requires ArePieces(ps)
    ensures WellEscaped(Written(ps))
  {
    if ps != [] {
      PieceWellEscaped(ps[0]);
      PiecesWellEscaped(ps[1..]);
      WellEscapedJoin(Raw(ps[0]), Written(ps[1..]));
    }
  }

  lemma WellEscapedJoin(a: string, b: string)
    requires WellEscaped(a) && WellEscaped(b)
    ensures WellEscaped(a + b)
  {
    var s := a + b;
    forall i | 0 <= i < |s| && s[i] == '%' ensures EscapeAt(s, i) {
      if i < |a| {
        assert EscapeAt(a, i);
      } else {
        assert b[i - |a|] == '%' && EscapeAt(b, i - |a|);
      }
    }
  }

  // ---------- what is decoded is made of pieces ----------

  /** A plus sign does not stand for the octet read at the front of the text. */
  ghost predicate NotPlus(s: string, octet: Octet) {
    octet != 0x20 || (s != "" && s[0] == '%')
  }

  /** Octets that are no spaces were written as escapes, not as plus signs. */
  lemma {:induction false} NotFromPlus(s: string, bs: seq<Octet>)
    requires TakeOctets(PlusAsSpace(s), |bs|) == Some(bs)
    requires bs != [] ==> NotPlus(s, bs[0]) && 0x20 !in bs[1..]
    ensures 3 * |bs| <= |s| && PlusAsSpace(s) == s[..3 * |bs|] + PlusAsSpace(s[3 * |bs|..])
    ensures TakeOctets(s, |bs|) == Some(bs)
  {
    if bs != [] {
      FirstStays(s, bs);
      NoneAfter(bs);
      NotFromPlus(s[3..], bs[1..]);
      SliceJoin(s, 3, 3 * |bs|);
      Associate(s[..3], s[3..][..3 * |bs| - 3], PlusAsSpace(s[3 * |bs|..]));
    } else {
      assert s[0..] == s;
    }
  }

  /** The first of them is the escape at the front, and the others are read behind it. */
  lemma FirstStays(s: string, bs: seq<Octet>)
    requires bs != [] && TakeOctets(PlusAsSpace(s), |bs|) == Some(bs) && NotPlus(s, bs[0])
    ensures |s| >= 3 && PlusAsSpace(s) == s[..3] + PlusAsSpace(s[3..])
    ensures TakeOctets(PlusAsSpace(s[3..]), |bs| - 1) == Some(bs[1..])
    ensures TakeOctets(s[3..], |bs| - 1) == Some(bs[1..]) ==> TakeOctets(s, |bs|) == Some(bs)
  {
    hide TakeOctets, EscapeAt, HexValue, PlusAsSpace;
    var q := PlusAsSpace(s);
    TakenLead(q, |bs|);
    EscapeStays(s);
    assert q[3..] == PlusAsSpace(s[3..]);
    assert q[..3] == s[..3] && q[1] == s[..3][1] && q[2] == s[..3][2];
    TakeOne(s, |bs|);
    assert [bs[0]] + bs[1..] == bs;
  }

  /** Octets are read from an escape at the front and what follows it. */
  lemma TakenLead(s: string, n: nat)
    requires n > 0 && TakeOctets(s, n).Some?
    ensures |s| >= 3 && s[0] == '%' && EscapeAt(s, 0)
    ensures TakeOctets(s, n).value[0] == HexValue(s[1]) * 16 + HexValue(s[2])
    ensures TakeOctets(s[3..], n - 1) == Some(TakeOctets(s, n).value[1..])
  {
  }

  lemma NoneAfter(bs: seq<Octet>)
    requires bs != [] && 0x20 !in bs[1..]
    ensures bs[1..] != [] ==> bs[1..][0] != 0x20 && 0x20 !in bs[1..][1..]
  {
  }

  lemma SliceJoin(s: string, m: nat, n: nat)
    requires m <= n <= |s|
    ensures s[..n] == s[..m] + s[m..][..n - m]
    ensures s[m..][n - m..] == s[n..]
  {
  }

  /** An escape at the front that is not a plus sign's. */
  lemma EscapeStays(s: string)
    requires var q := PlusAsSpace(s); |q| >= 3 && q[0] == '%' && EscapeAt(q, 0)
    requires s[0] == '%' || HexValue(PlusAsSpace(s)[1]) * 16 + HexValue(PlusAsSpace(s)[2]) != 0x20
    ensures |s| >= 3 && s[0] == '%' && EscapeAt(s, 0)
    ensures PlusAsSpace(s) == s[..3] + PlusAsSpace(s[3..])
  {
    assert s[0] == '%';
    var q := PlusAsSpace(s);
    assert q[1..] == PlusAsSpace(s[1..]);
    assert s[1] != '+';
    assert s[1..][1..] == s[2..];
    assert q[2..] == PlusAsSpace(s[2..]);
    assert s[2] != '+';
    assert s[2..][1..] == s[3..];
    assert q == s[..3] + PlusAsSpace(s[3..]);
  }

  /** The octets of a character of more than one octet are no spaces. */
  lemma NoSpaceInside(bs: seq<Octet>)
    requires FromUtf8(bs).Some?
    ensures bs != [] && 0x20 !in bs[1..]
  {
    forall k | 1 <= k < |bs| ensures bs[k] != 0x20 {
      assert IsContinuation(bs[k]);
    }
  }

  /** The octets taken off a text are spelled by its front. */
  lemma {:induction false} TakenSpell(s: string, bs: seq<Octet>)
    requires TakeOctets(s, |bs|) == Some(bs)
    ensures SpellsOctets(s[..3 * |bs|], bs)
  {
    if bs != [] {
      assert bs[1..] == TakeOctets(s[3..], |bs| - 1).value;
      TakenSpell(s[3..], bs[1..]);
      assert s[..3 * |bs|][3..] == s[3..][..3 * |bs[1..]|];
    }
  }

  lemma WrittenEscapes(s: string)
    requires s != "" && s[0] == '%' && TakeEscaped(PlusAsSpace(s)).Some?
    ensures var (c, n) := TakeEscaped(PlusAsSpace(s)).value;
      3 * n <= |s| && PlusAsSpace(s) == s[..3 * n] + PlusAsSpace(s[3 * n..]) && Spells(s[..3 * n], c)
  {
    var (c, n) := TakeEscaped(PlusAsSpace(s)).value;
    var bs := TakeOctets(PlusAsSpace(s), n).value;
    Utf8Unique(bs);
    NoSpaceInside(bs);
    NotFromPlus(s, bs);
    TakenSpell(s, bs);
  }

  /** The piece at the front of a text that can be decoded, and what follows it. */
  lemma FirstPiece(s: string) returns (p: Piece, tail: string)
    requires s != "" && DecodeUriComponent(PlusAsSpace(s)).Some?
    ensures IsPiece(p) && s == Raw(p) + tail && |tail| < |s|
    ensures PlusAsSpace(s) == PlusAsSpace(Raw(p)) + PlusAsSpace(tail)
  {
    if s[0] == '%' {
      assert PlusAsSpace(s)[0] == '%';
      WrittenEscapes(s);
      var (c, n) := TakeEscaped(PlusAsSpace(s)).value;
      p := Escapes(c, s[..3 * n]);
    } else {
      p := if s[0] == '+' then Plus else Plain(s[0]);
    }
    tail := s[|Raw(p)|..];
    assert s == Raw(p) + tail;
    PlusJoin(Raw(p), tail);
  }

  lemma MorePieces(p: Piece, rest: seq<Piece>)
    ensures Written([p] + rest) == Raw(p) + Written(rest)
    ensures Meaning([p] + rest) == [Value(p)] + Meaning(rest)
    ensures IsPiece(p) && ArePieces(rest) ==> ArePieces([p] + rest)
  {
    assert ([p] + rest)[1..] == rest;
  }

  lemma {:induction false} PiecesOf(s: string) returns (ps: seq<Piece>)
    requires DecodeUriComponent(PlusAsSpace(s)).Some?
    ensures ArePieces(ps) && Written(ps) == s && Some(Meaning(ps)) == DecodeUriComponent(PlusAsSpace(s))
    decreases |s|
  {
    ps := [];
    if s != "" {
      var p, tail := FirstPiece(s);
      DecodePiece(p, PlusAsSpace(tail));
      var rest := PiecesOf(tail);
      ps := [p] + rest;
      MorePieces(p, rest);
    }
  }

  // ---------- main results ----------

  /**
   Decoding succeeds exactly on texts made of plus signs, other characters that stand for themselves, and escapes that
   spell characters in UTF-8; the result is then a space for each plus, the character itself, and the character spelled.
   */
  lemma DecodeMeans(s: string, t: string)
    ensures Decode(s) == Text(t) <==> Means(s, t)
  {
    if Decode(s) == Text(t) {
      var ps := PiecesOf(s);
      assert ArePieces(ps) && Written(ps) == s && Meaning(ps) == t;
    }
    if Means(s, t) {
      var ps :| ArePieces(ps) && Written(ps) == s && Meaning(ps) == t;
      DecodePieces(ps);
      PiecesWellEscaped(ps);
    }
  }

  /** It is refused as malformed exactly when some percent sign dangles, and as invalid UTF-8 otherwise. */
  lemma RefusedAs(s: string)
    ensures Decode(s) == MalformedPercentEscape <==> Dangling(s)
    ensures Decode(s) == InvalidUtf8 <==> !Dangling(s) && forall t :: !Means(s, t)
  {
    forall t ensures Decode(s) == Text(t) <==> Means(s, t) {
      DecodeMeans(s, t);
    }
    if !WellEscaped(s) {
      var i :| 0 <= i < |s| && s[i] == '%' && !EscapeAt(s, i);
      assert Dangling(s);
    }
  }

  // ---------- spellings that are not told apart ----------

  /** A plus sign written as the escape of a space, and the hex digits of every escape in upper case. */
  function Respelled(s: string): string {
    if s == "" then ""
    else if s[0] == '+' then "%20" + Respelled(s[1..])
    else if s[0] == '%' && EscapeAt(s, 0) then ['%', Upper(s[1]), Upper(s[2])] + Respelled(s[3..])
    else [s[0]] + Respelled(s[1..])
  }

  lemma UpperKeepsValue(c: char)
    ensures IsHex(Upper(c)) <==> IsHex(c)
    ensures IsHex(c) ==> HexValue(Upper(c)) == HexValue(c)
  {
  }

  /** A text is read from the left in three ways, and so is its respelling. */
  lemma RespelledHead(s: string)
    requires s != ""
    ensures s[0] == '+' ==> Respelled(s) == "%20" + Respelled(s[1..])
    ensures s[0] != '+' && !(s[0] == '%' && EscapeAt(s, 0)) ==> Respelled(s) == [s[0]] + Respelled(s[1..])
  {
  }

  lemma {:induction false} RespelledEscaped(s: string)
    requires WellEscaped(s)
    ensures WellEscaped(Respelled(s))
    decreases |s|
  {
    if s != "" {
      if s[0] == '+' {
        TailWellEscaped(s, 1);
        RespelledEscaped(s[1..]);
        WellEscapedJoin("%20", Respelled(s[1..]));
      } else if s[0] == '%' {
        TailWellEscaped(s, 3);
        RespelledEscaped(s[3..]);
        UpperKeepsValue(s[1]);
        UpperKeepsValue(s[2]);
        WellEscapedJoin(['%', Upper(s[1]), Upper(s[2])], Respelled(s[3..]));
      } else {
        TailWellEscaped(s, 1);
        RespelledEscaped(s[1..]);
        WellEscapedJoin([s[0]], Respelled(s[1..]));
      }
    }
  }

  lemma TailWellEscaped(s: string, n: nat)
    requires WellEscaped(s) && n <= |s|
    ensures WellEscaped(s[n..])
  {
    var t := s[n..];
    forall i | 0 <= i < |t| && t[i] == '%' ensures EscapeAt(t, i) {
      assert s[n + i] == '%' && EscapeAt(s, n + i);
    }
  }

  /** A percent sign that dangles still does. */
  lemma {:induction false} RespelledDangles(s: string)
    requires !WellEscaped(s)
    ensures !WellEscaped(Respelled(s))
    decreases |s|
  {
    var r := Respelled(s);
    if s[0] == '%' && !EscapeAt(s, 0) {
      NextTwo(s);
      assert !EscapeAt(r, 0);
    } else {
      var n := if s[0] == '%' then 3 else 1;
      var m := if s[0] == '%' || s[0] == '+' then 3 else 1;
      assert r[m..] == Respelled(s[n..]);
      var i :| 0 <= i < |s| && s[i] == '%' && !EscapeAt(s, i);
      assert s[n..][i - n] == '%' && !EscapeAt(s[n..], i - n);
      RespelledDangles(s[n..]);
      if WellEscaped(r) {
        TailWellEscaped(r, m);
        assert false;
      }
    }
  }

  /** What follows a percent sign that dangles does not become two hex digits. */
  lemma NextTwo(s: string)
    requires s != "" && s[0] == '%' && !EscapeAt(s, 0)
    ensures Respelled(s)[0] == '%' && !EscapeAt(Respelled(s), 0)
  {
    var r := Respelled(s);
    assert r == ['%'] + Respelled(s[1..]);
    if |s| > 1 && IsHex(s[1]) {
      RespelledHead(s[1..]);
      assert s[1..][1..] == s[2..];
      assert r == ['%', s[1]] + Respelled(s[2..]);
      assert s[2..] == "" || !IsHex(s[2]);
      if |s| > 2 {
        HeadNotHex(s[2..]);
      }
    } else if |s| > 1 {
      HeadNotHex(s[1..]);
    }
  }

  lemma HeadNotHex(s: string)
    requires s != "" && !IsHex(s[0])
    ensures Respelled(s) != "" && !IsHex(Respelled(s)[0])
  {
  }

  lemma {:induction false} RespelledHasNoPlus(s: string)
    ensures '+' !in Respelled(s)
    decreases |s|
  {
    if s != "" {
      RespelledHasNoPlus(s[1..]);
      if s[0] == '%' && EscapeAt(s, 0) {
        RespelledHasNoPlus(s[3..]);
      }
    }
  }

  /** Replacing the plus signs first makes no difference. */
  lemma {:induction false} RespelledPlus(s: string)
    requires WellEscaped(s)
    ensures Respelled(PlusAsSpace(s)) == Respelled(s)
    decreases |s|
  {
    if s != "" {
      var q := PlusAsSpace(s);
      if s[0] == '%' {
        TailWellEscaped(s, 3);
        RespelledPlus(s[3..]);
        PlusJoin(s[..3], s[3..]);
        assert s == s[..3] + s[3..];
        NoPlus(s[..3]);
        assert q[3..] == PlusAsSpace(s[3..]);
      } else {
        TailWellEscaped(s, 1);
        RespelledPlus(s[1..]);
        if s[0] == '+' {
          assert q[3..] == PlusAsSpace(s[1..]);
        } else {
          assert q[1..] == PlusAsSpace(s[1..]);
        }
      }
    }
  }

  /** Escapes in upper case are the same octets. */
  lemma {:induction false} TakeRespelled(s: string, n: nat)
    requires WellEscaped(s) && '+' !in s
    ensures TakeOctets(Respelled(s), n) == TakeOctets(s, n)
    ensures TakeOctets(s, n).Some? ==> |Respelled(s)| >= 3 * n && Respelled(s)[3 * n..] == Respelled(s[3 * n..])
    decreases n
  {
    if n > 0 && s != "" && s[0] == '%' {
      var r := Respelled(s);
      TailWellEscaped(s, 3);
      TakeRespelled(s[3..], n - 1);
      UpperKeepsValue(s[1]);
      UpperKeepsValue(s[2]);
      assert r[3..] == Respelled(s[3..]);
      if TakeOctets(s, n).Some? {
        assert s[3..][3 * (n - 1)..] == s[3 * n..];
        assert r[3..][3 * (n - 1)..] == r[3 * n..];
      }
    } else if n == 0 {
      assert s[0..] == s && Respelled(s)[0..] == Respelled(s);
    }
  }

  lemma TakeEscapedRespelled(s: string)
    requires WellEscaped(s) && '+' !in s
    ensures TakeEscaped(Respelled(s)) == TakeEscaped(s)
    ensures TakeEscaped(s).Some? ==>
        var n := TakeEscaped(s).value.1; Respelled(s)[3 * n..] == Respelled(s[3 * n..])
  {
    TakeRespelled(s, 1);
    if TakeOctets(s, 1).Some? {
      TakeRespelled(s, SequenceLength(TakeOctets(s, 1).value[0]));
    }
  }

  lemma {:induction false} DecodeRespelled(s: string)
    requires WellEscaped(s) && '+' !in s
    ensures DecodeUriComponent(Respelled(s)) == DecodeUriComponent(s)
    decreases |s|
  {
    if s != "" {
      if s[0] == '%' {
        TakeEscapedRespelled(s);
        if TakeEscaped(s).Some? {
          var n := TakeEscaped(s).value.1;
          TailWellEscaped(s, 3 * n);
          DecodeRespelled(s[3 * n..]);
        }
      } else {
        TailWellEscaped(s, 1);
        DecodeRespelled(s[1..]);
        assert Respelled(s)[1..] == Respelled(s[1..]);
      }
    }
  }

  lemma {:induction false} PlusGone(s: string)
    ensures '+' !in PlusAsSpace(s)
  {
    if s != "" {
      PlusGone(s[1..]);
    }
  }

  lemma {:induction false} PlusWellEscaped(s: string)
    requires WellEscaped(s)
    ensures WellEscaped(PlusAsSpace(s))
    decreases |s|
  {
    if s != "" {
      if s[0] == '%' {
        TailWellEscaped(s, 3);
        PlusWellEscaped(s[3..]);
        assert s == s[..3] + s[3..];
        PlusJoin(s[..3], s[3..]);
        NoPlus(s[..3]);
        WellEscapedJoin(s[..3], PlusAsSpace(s[3..]));
      } else {
        TailWellEscaped(s, 1);
        PlusWellEscaped(s[1..]);
        WellEscapedJoin(if s[0] == '+' then "%20" else [s[0]], PlusAsSpace(s[1..]));
      }
    }
  }

  /**
   Neither a plus sign written as the escape of a space nor the case of an escape's digits changes what a text decodes
   to, nor whether and how it is refused.
   */
  lemma SpellingDoesNotMatter(s: string)
    ensures Decode(Respelled(s)) == Decode(s)
  {
    if WellEscaped(s) {
      RespelledEscaped(s);
      RespelledHasNoPlus(s);
      NoPlus(Respelled(s));
      RespelledPlus(s);
      PlusGone(s);
      PlusWellEscaped(s);
      DecodeRespelled(PlusAsSpace(s));
    } else {
      RespelledDangles(s);
    }
  }
}
