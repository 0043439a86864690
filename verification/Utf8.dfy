/** UTF-8 as `encodeURIComponent` and `decodeURIComponent` use it, on Unicode scalar values. */
module Utf8Coding {
  import opened Common

  type Octet = n: int | 0 <= n < 256

  predicate IsScalar(n: int) {
    0 <= n < 0xD800 || 0xE000 <= n < 0x11_0000
  }

  function Tail(n: int): (b: Octet)
    ensures 0x80 <= b < 0xC0 && b == 0x80 + n % 0x40
  {
    0x80 + n % 0x40
  }

  function Utf8(c: char): (r: seq<Octet>)
    ensures 1 <= |r| <= 4
  {
    var n := c as int;
    if n < 0x80 then [n]
    else if n < 0x800 then [0xC0 + n / 0x40, Tail(n)]
    else if n < 0x1_0000 then [0xE0 + n / 0x40 / 0x40, Tail(n / 0x40), Tail(n)]
    else [0xF0 + n / 0x40 / 0x40 / 0x40, Tail(n / 0x40 / 0x40), Tail(n / 0x40), Tail(n)]
  }

  predicate IsContinuation(b: Octet) {
    0x80 <= b < 0xC0
  }

  /** How many octets a sequence starting with `lead` has; none for a continuation or an invalid octet. */
  function SequenceLength(lead: Octet): (n: nat)
    ensures n <= 4
  {
    if lead < 0x80 then 1 else if lead < 0xC0 then 0 else if lead < 0xE0 then 2
    else if lead < 0xF0 then 3 else if lead < 0xF8 then 4 else 0
  }

  /** The payload bits of the lead octet. */
  function LeadBits(lead: Octet): int {
    match SequenceLength(lead)
    case 1 => lead
    case 2 => lead - 0xC0
    case 3 => lead - 0xE0
    case _ => lead - 0xF0
  }

  function Bits(bs: seq<Octet>): int
    requires bs != []
  {
    if |bs| == 1 then LeadBits(bs[0])
    else
      var last: int := bs[|bs| - 1];
      Bits(bs[..|bs| - 1]) * 0x40 + (last - 0x80)
  }

  /** The least code point that needs this many octets. */
  function Least(length: nat): int {
    if length <= 1 then 0 else if length == 2 then 0x80 else if length == 3 then 0x800 else 0x1_0000
  }

  /** Overlong forms, surrogates and values above U+10FFFF are invalid. */
  function FromUtf8(bs: seq<Octet>): Option<char> {
    if bs == [] || SequenceLength(bs[0]) != |bs| || exists k :: 1 <= k < |bs| && !IsContinuation(bs[k]) then None
    else
      var n := Bits(bs);
      if n >= Least(|bs|) && IsScalar(n) then Some(n as char) else None
  }

  lemma Bits2(a: Octet, b: Octet)
    ensures Bits([a, b]) == LeadBits(a) * 0x40 + (b - 0x80)
  {
    assert [a, b][..1] == [a];
  }

  lemma Bits3(a: Octet, b: Octet, c: Octet)
    ensures Bits([a, b, c]) == (LeadBits(a) * 0x40 + (b - 0x80)) * 0x40 + (c - 0x80)
  {
    assert [a, b, c][..2] == [a, b];
    Bits2(a, b);
  }

  lemma Bits4(a: Octet, b: Octet, c: Octet, d: Octet)
    ensures Bits([a, b, c, d]) == ((LeadBits(a) * 0x40 + (b - 0x80)) * 0x40 + (c - 0x80)) * 0x40 + (d - 0x80)
  {
    assert [a, b, c, d][..3] == [a, b, c];
    Bits3(a, b, c);
  }

  lemma Utf8Bits(c: char)
    ensures Bits(Utf8(c)) == c as int
    ensures SequenceLength(Utf8(c)[0]) == |Utf8(c)|
  {
    var bs, n := Utf8(c), c as int;
    if |bs| == 2 {
      Bits2(bs[0], bs[1]);
    } else if |bs| == 3 {
      Bits3(bs[0], bs[1], bs[2]);
    } else if |bs| == 4 {
      Bits4(bs[0], bs[1], bs[2], bs[3]);
    }
  }

  /** UTF-8 loses nothing, and every valid octet sequence is some character's: a bijection. */
  lemma Utf8RoundTrip(c: char)
    ensures FromUtf8(Utf8(c)) == Some(c)
    ensures SequenceLength(Utf8(c)[0]) == |Utf8(c)|
  {
    Utf8Bits(c);
    assert |Utf8(c)| == 1 || forall k :: 1 <= k < |Utf8(c)| ==> IsContinuation(Utf8(c)[k]);
  }

  lemma SameDigits(q: int, r: int)
    requires 0 <= r < 0x40
    ensures (q * 0x40 + r) / 0x40 == q && (q * 0x40 + r) % 0x40 == r
  {
  }

  lemma Unique2(a: Octet, b: Octet)
    requires FromUtf8([a, b]).Some?
    ensures Utf8(FromUtf8([a, b]).value) == [a, b]
  {
    assert IsContinuation([a, b][1]);
    Bits2(a, b);
    SameDigits(LeadBits(a), b - 0x80);
  }

  lemma Unique3(a: Octet, b: Octet, c: Octet)
    requires FromUtf8([a, b, c]).Some?
    ensures Utf8(FromUtf8([a, b, c]).value) == [a, b, c]
  {
    assert IsContinuation([a, b, c][1]) && IsContinuation([a, b, c][2]);
    var high := LeadBits(a) * 0x40 + (b - 0x80);
    Bits3(a, b, c);
    SameDigits(high, c - 0x80);
    SameDigits(LeadBits(a), b - 0x80);
  }

  lemma Unique4(a: Octet, b: Octet, c: Octet, d: Octet)
    requires FromUtf8([a, b, c, d]).Some?
    ensures Utf8(FromUtf8([a, b, c, d]).value) == [a, b, c, d]
  {
    assert IsContinuation([a, b, c, d][1]) && IsContinuation([a, b, c, d][2]) && IsContinuation([a, b, c, d][3]);
    var high := LeadBits(a) * 0x40 + (b - 0x80);
    Bits4(a, b, c, d);
    SameDigits(high * 0x40 + (c - 0x80), d - 0x80);
    SameDigits(high, c - 0x80);
    SameDigits(LeadBits(a), b - 0x80);
  }

  lemma Utf8Unique(bs: seq<Octet>)
    requires FromUtf8(bs).Some?
    ensures Utf8(FromUtf8(bs).value) == bs
  {
    if |bs| == 2 {
      assert bs == [bs[0], bs[1]];
      Unique2(bs[0], bs[1]);
    } else if |bs| == 3 {
      assert bs == [bs[0], bs[1], bs[2]];
      Unique3(bs[0], bs[1], bs[2]);
    } else if |bs| == 4 {
      assert bs == [bs[0], bs[1], bs[2], bs[3]];
      Unique4(bs[0], bs[1], bs[2], bs[3]);
    }
  }
}
