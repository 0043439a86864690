/**
 Percent-encoding as the program does it: `encodeURIComponent` followed by two rewriting passes, and
 `decodeURIComponent` behind a check of the escapes and a replacement of plus signs.
 */
module PercentCoding {
  import opened Common
  import opened Utf8Coding

  // ---------- characters ----------

  predicate IsAlphanumeric(c: char) {
    'A' <= c <= 'Z' || 'a' <= c <= 'z' || '0' <= c <= '9'
  }

  /** Section 2.3 of RFC 3986. */
  predicate IsUnreserved(c: char) {
    IsAlphanumeric(c) || c in {'-', '.', '_', '~'}
  }

  predicate IsExtra(c: char) {
    c in {'!', '\'', '(', ')', '*'}
  }

  predicate IsHex(c: char) {
    '0' <= c <= '9' || 'A' <= c <= 'F' || 'a' <= c <= 'f'
  }

  predicate IsUpperHex(c: char) {
    '0' <= c <= '9' || 'A' <= c <= 'F'
  }

  predicate IsLowerHex(c: char) {
    '0' <= c <= '9' || 'a' <= c <= 'f'
  }

  function Upper(c: char): char {
    if 'a' <= c <= 'z' then (c as int - 32) as char else c
  }

  function HexDigit(n: int): (c: char)
    requires 0 <= n < 16
    ensures IsUpperHex(c)
  {
    if n < 10 then ('0' as int + n) as char else ('A' as int + n - 10) as char
  }

  function HexValue(c: char): (n: int)
    requires IsHex(c)
    ensures 0 <= n < 16
  {
    if '0' <= c <= '9' then c as int - '0' as int
    else if 'A' <= c <= 'F' then c as int - 'A' as int + 10
    else c as int - 'a' as int + 10
  }

  function EscapeOctet(b: Octet): (s: string)
    ensures |s| == 3 && s[0] == '%' && IsUpperHex(s[1]) && IsUpperHex(s[2])
    ensures HexValue(s[1]) * 16 + HexValue(s[2]) == b
  {
    ['%', HexDigit(b / 16), HexDigit(b % 16)]
  }

  function Escape(bs: seq<Octet>): (s: string)
    ensures |s| == 3 * |bs|
  {
    if bs == [] then "" else EscapeOctet(bs[0]) + Escape(bs[1..])
  }

  // ---------- encoding ----------

  /** `encodeURIComponent` leaves these alone (section 19.2.6 of ECMA-262). */
  predicate IsUriUnescaped(c: char) {
    IsUnreserved(c) || IsExtra(c)
  }

  function EncodeUriComponent(s: string): string {
    if s == [] then ""
    else (if IsUriUnescaped(s[0]) then [s[0]] else Escape(Utf8(s[0]))) + EncodeUriComponent(s[1..])
  }

  function EscapeExtra(c: char): string {
    if IsExtra(c) then EscapeOctet(c as int) else [c]
  }

  function EscapeExtras(s: string): string {
    if s == [] then "" else EscapeExtra(s[0]) + EscapeExtras(s[1..])
  }

  /** Every `%xx` written with digits and lower-case letters is raised to upper case. */
  function UpperEscapes(s: string): string {
    if s == [] then ""
    else if |s| >= 3 && s[0] == '%' && IsLowerHex(s[1]) && IsLowerHex(s[2])
    then ['%', Upper(s[1]), Upper(s[2])] + UpperEscapes(s[3..])
    else [s[0]] + UpperEscapes(s[1..])
  }

  /** encodeRfc3986Upper: three passes over the text. */
  function Encode(s: string): string {
    UpperEscapes(EscapeExtras(EncodeUriComponent(s)))
  }

  // ---------- decoding ----------

  predicate EscapeAt(s: string, i: nat)
    requires i < |s|
  {
    i + 2 < |s| && IsHex(s[i + 1]) && IsHex(s[i + 2])
  }

  predicate WellEscaped(s: string) {
    forall i :: 0 <= i < |s| && s[i] == '%' ==> EscapeAt(s, i)
  }

  function PlusAsSpace(s: string): string {
    if s == [] then "" else (if s[0] == '+' then "%20" else [s[0]]) + PlusAsSpace(s[1..])
  }

  /** The octets of n escapes in a row. */
  function TakeOctets(s: string, n: nat): (r: Option<seq<Octet>>)
    ensures r.Some? ==> |r.value| == n && 3 * n <= |s|
  {
    if n == 0 then Some([])
    else if |s| < 3 || s[0] != '%' || !EscapeAt(s, 0) then None
    else match TakeOctets(s[3..], n - 1)
      case None => None
      case Some(rest) => Some([HexValue(s[1]) * 16 + HexValue(s[2])] + rest)
  }

  /** The character whose escapes start the text, and how many octets they are. */
  function TakeEscaped(s: string): (r: Option<(char, nat)>)
    ensures r.Some? ==> 0 < 3 * r.value.1 <= |s|
  {
    match TakeOctets(s, 1)
    case None => None
    case Some(lead) =>
      var n := SequenceLength(lead[0]);
      if n == 0 then None
      else match TakeOctets(s, n)
        case None => None
        case Some(bs) => if FromUtf8(bs).Some? then Some((FromUtf8(bs).value, n)) else None
  }

  /** `decodeURIComponent`: text without escapes is kept, escapes must be valid UTF-8. */
  function DecodeUriComponent(s: string): Option<string>
    decreases |s|
  {
    if s == [] then Some("")
    else if s[0] != '%' then
      match DecodeUriComponent(s[1..])
      case None => None
      case Some(t) => Some([s[0]] + t)
    else match TakeEscaped(s)
      case None => None
      case Some((c, n)) =>
        match DecodeUriComponent(s[3 * n..])
        case None => None
        case Some(t) => Some([c] + t)
  }

  datatype Decoded = Text(text: string) | MalformedPercentEscape | InvalidUtf8

  /** decodeFormComponent. */
  function Decode(s: string): Decoded {
    if !WellEscaped(s) then MalformedPercentEscape
    else match DecodeUriComponent(PlusAsSpace(s))
      case None => InvalidUtf8
      case Some(t) => Text(t)
  }

  // ---------- one pass instead of three ----------

  function EncodeChar(c: char): (s: string)
    ensures s != []
  {
    if IsUnreserved(c) then [c] else Escape(Utf8(c))
  }

  function EncodeOnce(s: string): string {
    if s == [] then "" else EncodeChar(s[0]) + EncodeOnce(s[1..])
  }

  /** Text in which every `%` starts an upper-case escape and everything else is unreserved. */
  ghost predicate Canonical(s: string) {
    && (forall i :: 0 <= i < |s| ==> s[i] == '%' || IsUnreserved(s[i]))
    && (forall i :: 0 <= i < |s| && s[i] == '%' ==> i + 2 < |s| && IsUpperHex(s[i + 1]) && IsUpperHex(s[i + 2]))
  }

  lemma CanonicalJoin(a: string, b: string)
    requires Canonical(a) && Canonical(b)
    ensures Canonical(a + b)
  {
    var s := a + b;
    forall i | 0 <= i < |s| && s[i] == '%' ensures i + 2 < |s| && IsUpperHex(s[i + 1]) && IsUpperHex(s[i + 2]) {
      if i < |a| {
        assert a[i] == '%';
      } else {
        assert b[i - |a|] == '%';
      }
    }
  }

  lemma {:induction false} EscapeCanonical(bs: seq<Octet>)
    ensures Canonical(Escape(bs))
  {
    if bs != [] {
      EscapeCanonical(bs[1..]);
      CanonicalJoin(EscapeOctet(bs[0]), Escape(bs[1..]));
    }
  }

  lemma {:induction false} EncodeOnceCanonical(s: string)
    ensures Canonical(EncodeOnce(s))
  {
    if s != [] {
      EncodeOnceCanonical(s[1..]);
      EscapeCanonical(Utf8(s[0]));
      CanonicalJoin(EncodeChar(s[0]), EncodeOnce(s[1..]));
    }
  }

  lemma Associate(a: string, b: string, c: string)
    ensures a + (b + c) == (a + b) + c
  {
  }

  lemma {:induction false} ExtrasJoin(a: string, b: string)
    ensures EscapeExtras(a + b) == EscapeExtras(a) + EscapeExtras(b)
  {
    if a == [] {
      assert a + b == b;
    } else {
      var tail := a[1..];
      ExtrasJoin(tail, b);
      assert (a + b)[1..] == tail + b;
      Associate(EscapeExtra(a[0]), EscapeExtras(tail), EscapeExtras(b));
    }
  }

  lemma {:induction false} ExtrasKeepCanonical(s: string)
    requires forall i :: 0 <= i < |s| ==> !IsExtra(s[i])
    ensures EscapeExtras(s) == s
  {
    if s != [] {
      ExtrasKeepCanonical(s[1..]);
    }
  }

  lemma EscapeOfExtra(c: char)
    requires IsExtra(c)
    ensures Escape(Utf8(c)) == EscapeOctet(c as int)
  {
    assert Utf8(c) == [c as int];
    assert [c as int][1..] == [];
  }

  lemma ExtrasOfChar(c: char)
    ensures EscapeExtras(if IsUriUnescaped(c) then [c] else Escape(Utf8(c))) == EncodeChar(c)
  {
    if IsExtra(c) {
      EscapeOfExtra(c);
      assert [c][1..] == [];
    } else {
      EscapeCanonical(Utf8(c));
      ExtrasKeepCanonical(if IsUriUnescaped(c) then [c] else Escape(Utf8(c)));
    }
  }

  lemma {:induction false} ExtrasAfterEncode(s: string)
    ensures EscapeExtras(EncodeUriComponent(s)) == EncodeOnce(s)
  {
    if s != [] {
      ExtrasAfterEncode(s[1..]);
      ExtrasJoin(if IsUriUnescaped(s[0]) then [s[0]] else Escape(Utf8(s[0])), EncodeUriComponent(s[1..]));
      ExtrasOfChar(s[0]);
    }
  }

  lemma {:induction false} UpperKeepsCanonical(s: string)
    requires forall i :: 0 <= i < |s| && s[i] == '%' ==> i + 2 < |s| && IsUpperHex(s[i + 1]) && IsUpperHex(s[i + 2])
    ensures UpperEscapes(s) == s
    decreases |s|
  {
    if s != [] {
      if |s| >= 3 && s[0] == '%' && IsLowerHex(s[1]) && IsLowerHex(s[2]) {
        UpperKeepsCanonical(s[3..]);
        assert s == [s[0], s[1], s[2]] + s[3..];
      } else {
        UpperKeepsCanonical(s[1..]);
      }
    }
  }

  /** The three passes amount to one: keep unreserved characters, escape the UTF-8 octets of all others. */
  lemma EncodeIsOnePass(s: string)
    ensures Encode(s) == EncodeOnce(s)
  {
    ExtrasAfterEncode(s);
    EncodeOnceCanonical(s);
    UpperKeepsCanonical(EncodeOnce(s));
  }

  /** Output alphabet: unreserved characters, and upper-case escapes (sections 2.1 and 2.3 of RFC 3986). */
  lemma EncodeAlphabet(s: string)
    ensures Canonical(Encode(s))
    ensures s != "" ==> Encode(s) != ""
  {
    EncodeIsOnePass(s);
    EncodeOnceCanonical(s);
  }

  // ---------- round trip ----------

  lemma CanonicalWellEscaped(s: string)
    requires Canonical(s)
    ensures WellEscaped(s)
    ensures PlusAsSpace(s) == s
  {
    NoPlus(s);
  }

  lemma {:induction false} NoPlus(s: string)
    requires '+' !in s
    ensures PlusAsSpace(s) == s
  {
    if s != [] {
      assert s == [s[0]] + s[1..];
      NoPlus(s[1..]);
    }
  }

  lemma {:induction false} TakeEscapes(bs: seq<Octet>, rest: string)
    ensures TakeOctets(Escape(bs) + rest, |bs|) == Some(bs)
  {
    if bs != [] {
      TakeEscapes(bs[1..], rest);
      var s := Escape(bs) + rest;
      assert s[3..] == Escape(bs[1..]) + rest;
      assert bs == [bs[0]] + bs[1..];
    }
  }

  lemma TakeLead(bs: seq<Octet>, rest: string)
    requires bs != []
    ensures TakeOctets(Escape(bs) + rest, 1) == Some([bs[0]])
  {
    TakeEscapes([bs[0]], Escape(bs[1..]) + rest);
    assert [bs[0]][1..] == [];
    assert Escape(bs) + rest == Escape([bs[0]]) + (Escape(bs[1..]) + rest);
  }

  lemma TakeEncoded(c: char, rest: string)
    ensures TakeEscaped(Escape(Utf8(c)) + rest) == Some((c, |Utf8(c)|))
  {
    Utf8RoundTrip(c);
    TakeLead(Utf8(c), rest);
    TakeEscapes(Utf8(c), rest);
  }

  lemma {:induction false} DecodeEncoded(s: string)
    ensures DecodeUriComponent(EncodeOnce(s)) == Some(s)
  {
    if s != [] {
      DecodeEncoded(s[1..]);
      var c, rest := s[0], EncodeOnce(s[1..]);
      var t := EncodeOnce(s);
      assert s == [c] + s[1..];
      if IsUnreserved(c) {
        assert t[1..] == rest;
      } else {
        TakeEncoded(c, rest);
        EscapeStarts(Utf8(c), rest);
        assert t[3 * |Utf8(c)|..] == rest;
      }
    }
  }

  lemma EscapeStarts(bs: seq<Octet>, rest: string)
    requires bs != []
    ensures (Escape(bs) + rest)[0] == '%'
  {
  }

  /** Decoding an encoded component gives it back, whatever text it is. */
  lemma DecodeEncode(s: string)
    ensures Decode(Encode(s)) == Text(s)
  {
    EncodeIsOnePass(s);
    EncodeOnceCanonical(s);
    CanonicalWellEscaped(EncodeOnce(s));
    DecodeEncoded(s);
  }
}
