/** The string operations of ECMAScript the program uses: trimming, splitting and joining. */
module Text {

  /** White space and line terminators of ECMAScript, section 12.2 and 12.3 of ECMA-262. */
  predicate IsSpace(c: char) {
    || c in {'\t', '\n', '\U{000B}', '\U{000C}', '\r', ' ', '\U{00A0}', '\U{1680}'}
    || '\U{2000}' <= c <= '\U{200A}'
    || c in {'\U{2028}', '\U{2029}', '\U{202F}', '\U{205F}', '\U{3000}', '\U{FEFF}'}
  }

  function TrimStart(s: string): string {
    if s != [] && IsSpace(s[0]) then TrimStart(s[1..]) else s
  }

  function TrimEnd(s: string): string {
    if s != [] && IsSpace(s[|s| - 1]) then TrimEnd(s[..|s| - 1]) else s
  }

  function Trim(s: string): string {
    TrimEnd(TrimStart(s))
  }

  predicate Trimmed(s: string) {
    s != [] ==> !IsSpace(s[0]) && !IsSpace(s[|s| - 1])
  }

  /** Trimming leaves no outer white space, and leaves trimmed text alone. */
  lemma TrimFacts(s: string)
    ensures Trimmed(Trim(s))
    ensures Trimmed(s) ==> Trim(s) == s
  {
    TrimStartFacts(s);
    TrimEndFacts(TrimStart(s));
  }

  predicate AllSpaces(s: string) {
    forall i :: 0 <= i < |s| ==> IsSpace(s[i])
  }

  /** The white space and line terminators, by code point. */
  lemma SpacesAre(c: char)
    ensures IsSpace(c) <==>
      c as int in {9, 10, 11, 12, 13, 32, 160, 5760, 8192, 8193, 8194, 8195, 8196, 8197, 8198, 8199, 8200, 8201, 8202,
                   8232, 8233, 8239, 8287, 12288, 65279}
  {
  }

  /** Trimming takes off the outer white space: of text between two stretches of it, it leaves the text. */
  lemma TrimMeans(before: string, s: string, after: string)
    requires AllSpaces(before) && AllSpaces(after) && Trimmed(s)
    ensures Trim(before + (s + after)) == s
  {
    if s == "" {
      assert s + after == after && AllSpaces(before + after);
      TrimStartSkips(before + after, "");
      assert before + after + "" == before + after;
    } else {
      TrimStartSkips(before, s + after);
      assert TrimStart(s + after) == s + after;
      TrimEndSkips(s, after);
    }
  }

  lemma {:induction false} TrimStartSkips(spaces: string, s: string)
    requires AllSpaces(spaces)
    ensures TrimStart(spaces + s) == TrimStart(s)
  {
    if spaces == "" {
      assert spaces + s == s;
    } else {
      assert (spaces + s)[1..] == spaces[1..] + s;
      TrimStartSkips(spaces[1..], s);
    }
  }

  lemma {:induction false} TrimEndSkips(s: string, spaces: string)
    requires AllSpaces(spaces)
    ensures TrimEnd(s + spaces) == TrimEnd(s)
  {
    if spaces == "" {
      assert s + spaces == s;
    } else {
      assert (s + spaces)[..|s + spaces| - 1] == s + spaces[..|spaces| - 1];
      TrimEndSkips(s, spaces[..|spaces| - 1]);
    }
  }

  lemma {:induction false} TrimStartFacts(s: string)
    ensures TrimStart(s) != [] ==> !IsSpace(TrimStart(s)[0])
  {
    if s != [] && IsSpace(s[0]) {
      TrimStartFacts(s[1..]);
    }
  }

  lemma {:induction false} TrimEndFacts(s: string)
    ensures TrimEnd(s) <= s
    ensures TrimEnd(s) != [] ==> !IsSpace(TrimEnd(s)[|TrimEnd(s)| - 1])
  {
    if s != [] && IsSpace(s[|s| - 1]) {
      TrimEndFacts(s[..|s| - 1]);
    }
  }

  /** Lower case, for text whose letters are ASCII. */
  function LowerAscii(s: string): string {
    seq(|s|, i requires 0 <= i < |s| => if 'A' <= s[i] <= 'Z' then (s[i] as int + 32) as char else s[i])
  }

  /** Two letters of ASCII that differ in case only, or the same character twice. */
  predicate SameLetter(a: char, b: char) {
    || a == b
    || ('A' <= a <= 'Z' && b as int == a as int + 32)
    || ('A' <= b <= 'Z' && a as int == b as int + 32)
  }

  /** Two texts are lower-cased alike exactly when they differ in the case of ASCII letters only. */
  lemma LowerMeans(a: string, b: string)
    ensures LowerAscii(a) == LowerAscii(b) <==> |a| == |b| && forall i :: 0 <= i < |a| ==> SameLetter(a[i], b[i])
    ensures forall i :: 0 <= i < |a| ==> !('A' <= LowerAscii(a)[i] <= 'Z')
  {
    var x, y := LowerAscii(a), LowerAscii(b);
    if |a| == |b| {
      assert forall i :: 0 <= i < |a| ==> (x[i] == y[i] <==> SameLetter(a[i], b[i]));
    }
  }

  // ---------- splitting and joining ----------

  function Split(s: string, sep: char): (parts: seq<string>)
    ensures parts != []
  {
    if s == [] then [""]
    else
      var rest := Split(s[1..], sep);
      if s[0] == sep then [""] + rest else [[s[0]] + rest[0]] + rest[1..]
  }

  function Join(parts: seq<string>, sep: char): string {
    if parts == [] then ""
    else if |parts| == 1 then parts[0]
    else parts[0] + ([sep] + Join(parts[1..], sep))
  }

  lemma {:induction false} SplitHead(p: string, rest: string, sep: char)
    requires sep !in p
    ensures Split(p + ([sep] + rest), sep) == [p] + Split(rest, sep)
  {
    var s := p + ([sep] + rest);
    if p == [] {
      assert s[0] == sep && s[1..] == rest;
    } else {
      assert p == [p[0]] + p[1..];
      assert s[0] == p[0] && s[1..] == p[1..] + ([sep] + rest);
      SplitHead(p[1..], rest, sep);
    }
  }

  lemma {:induction false} SplitWhole(p: string, sep: char)
    requires sep !in p
    ensures Split(p, sep) == [p]
  {
    if p != [] {
      assert p == [p[0]] + p[1..];
      SplitWhole(p[1..], sep);
    }
  }

  lemma {:induction false} SplitJoin(parts: seq<string>, sep: char)
    requires parts != [] && forall p :: p in parts ==> sep !in p
    ensures Split(Join(parts, sep), sep) == parts
  {
    if |parts| == 1 {
      SplitWhole(parts[0], sep);
    } else {
      assert parts == [parts[0]] + parts[1..];
      SplitJoin(parts[1..], sep);
      SplitHead(parts[0], Join(parts[1..], sep), sep);
    }
  }
}
