/**
 How the program compares strings: by UTF-16 code unit, as ECMAScript's `<` does and as section 3.2.3 of
 RFC 8785 asks for property names. Text is a sequence of Unicode scalar values; the order is shown total.
 */
module TextOrder {
  import Sorting

  /** The UTF-16 form of one character: itself, or a surrogate pair. */
  function Units(c: char): (u: seq<int>)
    ensures 1 <= |u| <= 2
  {
    var n := c as int;
    if n < 0x1_0000 then [n]
    else [0xD800 + (n - 0x1_0000) / 0x400, 0xDC00 + (n - 0x1_0000) % 0x400]
  }

  function UnitsOf(s: string): seq<int> {
    if s == [] then [] else Units(s[0]) + UnitsOf(s[1..])
  }

  predicate LexLeq(a: seq<int>, b: seq<int>) {
    if a == [] then true
    else if b == [] then false
    else if a[0] != b[0] then a[0] < b[0]
    else LexLeq(a[1..], b[1..])
  }

  predicate TextLeq(a: string, b: string) {
    LexLeq(UnitsOf(a), UnitsOf(b))
  }

  predicate TextLess(a: string, b: string) {
    TextLeq(a, b) && a != b
  }

  lemma {:induction false} LexTotal(a: seq<int>, b: seq<int>)
    ensures LexLeq(a, b) || LexLeq(b, a)
    ensures LexLeq(a, b) && LexLeq(b, a) ==> a == b
  {
    if a != [] && b != [] && a[0] == b[0] {
      LexTotal(a[1..], b[1..]);
      assert a == [a[0]] + a[1..] && b == [b[0]] + b[1..];
    }
  }

  lemma {:induction false} LexTransitive(a: seq<int>, b: seq<int>, c: seq<int>)
    requires LexLeq(a, b) && LexLeq(b, c)
    ensures LexLeq(a, c)
  {
    if a != [] && b != [] && c != [] && a[0] == b[0] == c[0] {
      LexTransitive(a[1..], b[1..], c[1..]);
    }
  }

  /** No character's code units are the beginning of another's. */
  lemma UnitsDecodable(c: char, d: char, x: seq<int>, y: seq<int>)
    requires Units(c) + x == Units(d) + y
    ensures c == d && x == y
  {
    assert (Units(c) + x)[0] == Units(c)[0] && (Units(d) + y)[0] == Units(d)[0];
    assert |Units(c)| == |Units(d)|;
    if |Units(c)| == 2 {
      assert (Units(c) + x)[1] == Units(c)[1] && (Units(d) + y)[1] == Units(d)[1];
    }
    assert x == (Units(c) + x)[|Units(c)|..] && y == (Units(d) + y)[|Units(d)|..];
  }

  lemma {:induction false} UnitsInjective(a: string, b: string)
    requires UnitsOf(a) == UnitsOf(b)
    ensures a == b
  {
    if a != [] && b != [] {
      UnitsDecodable(a[0], b[0], UnitsOf(a[1..]), UnitsOf(b[1..]));
      UnitsInjective(a[1..], b[1..]);
      assert a == [a[0]] + a[1..] && b == [b[0]] + b[1..];
    }
  }

  lemma TextLeqFacts(a: string, b: string)
    ensures TextLeq(a, b) || TextLeq(b, a)
    ensures TextLeq(a, b) && TextLeq(b, a) ==> a == b
  {
    LexTotal(UnitsOf(a), UnitsOf(b));
    if UnitsOf(a) == UnitsOf(b) {
      UnitsInjective(a, b);
    }
  }

  lemma TextLeqTransitive(a: string, b: string, c: string)
    requires TextLeq(a, b) && TextLeq(b, c)
    ensures TextLeq(a, c)
  {
    LexTransitive(UnitsOf(a), UnitsOf(b), UnitsOf(c));
  }

  /** Comparing by code unit is a total order on strings, surrogate pairs included. */
  lemma TextOrderIsTotal()
    ensures Sorting.TotalOrder(TextLeq)
  {
    forall a, b ensures (TextLeq(a, b) || TextLeq(b, a)) && (TextLeq(a, b) && TextLeq(b, a) ==> a == b) {
      TextLeqFacts(a, b);
    }
    forall a, b, c | TextLeq(a, b) && TextLeq(b, c) ensures TextLeq(a, c) {
      TextLeqTransitive(a, b, c);
    }
  }

  /** It is not the order of code points: a supplementary character sorts before U+FFFF. */
  lemma NotCodePointOrder()
    ensures var a, b := ['\U{10000}'], ['\U{FFFF}'];
      TextLess(a, b) && a[0] > b[0]
  {
    var a, b := ['\U{10000}'], ['\U{FFFF}'];
    assert a[1..] == [] && b[1..] == [];
    assert UnitsOf(a) == [0xD800, 0xDC00] && UnitsOf(b) == [0xFFFF];
  }
}
