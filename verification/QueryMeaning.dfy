/**
 What a query string means as raw text: which segments are accepted and refused and why, and which spellings of a
 query give the same canonical form.
 */
module QueryMeaning {
  import opened Common
  import opened PercentCoding
  import opened PercentMeaning
  import Utf8Coding
  import opened Text
  import opened TextOrder
  import opened QueryCanonical
  import Sorting

  // ---------- the segments of a query ----------

  /** One question mark in front is dropped; white space around the whole does not count. */
  lemma SourceMeans(before: string, s: string, after: string)
    requires AllSpaces(before) && AllSpaces(after)
    ensures Source(None) == ""
    ensures Trimmed("?" + s) ==> Source(Some(before + ("?" + s + after))) == s
    ensures Trimmed(s) && (s != "" ==> s[0] != '?') ==> Source(Some(before + (s + after))) == s
  {
    TrimFacts("");
    if Trimmed("?" + s) {
      TrimMeans(before, "?" + s, after);
      assert ("?" + s)[1..] == s;
    }
    if Trimmed(s) {
      TrimMeans(before, s, after);
    }
  }

  /** The segments are the parts between ampersands that are not empty, in order. */
  lemma SegmentsMean(raw: Option<string>, parts: seq<string>)
    requires parts != [] && (forall p :: p in parts ==> '&' !in p) && Source(raw) == Join(parts, '&')
    ensures Segments(raw) == NonEmpty(parts)
  {
    hide Source, Join;
    SplitJoin(parts, '&');
    if Source(raw) == "" {
      assert Split("", '&') == [""];
      NonEmptyLast([], "");
      assert [] + [""] == [""];
    }
  }

  /** Which parts those are. */
  lemma {:induction false} NonEmptyJoin(a: seq<string>, b: seq<string>)
    ensures NonEmpty(a + b) == NonEmpty(a) + NonEmpty(b)
  {
    if b == [] {
      assert a + b == a;
    } else {
      var init, last := b[..|b| - 1], b[|b| - 1];
      NonEmptyJoin(a, init);
      NonEmptyLast(a + init, last);
      NonEmptyLast(init, last);
      assert b == init + [last];
      AssociateParts(a, init, [last]);
      AssociateParts(NonEmpty(a), NonEmpty(init), if last != "" then [last] else []);
    }
  }

  lemma AssociateParts(a: seq<string>, b: seq<string>, c: seq<string>)
    ensures a + (b + c) == (a + b) + c
  {
  }

  lemma NonEmptyLast(parts: seq<string>, last: string)
    ensures NonEmpty(parts + [last]) == NonEmpty(parts) + (if last != "" then [last] else [])
  {
    assert (parts + [last])[..|parts|] == parts;
  }

  /** The pairs of a canonical query ascend by key, compared by UTF-16 code unit. */
  lemma CanonicalOrder(raw: Option<string>)
    requires Canonicalize(raw).Ok?
    ensures var pairs := Canonicalize(raw).value.pairs;
      forall i, j :: 0 <= i < j < |pairs| ==> TextLess(pairs[i].key, pairs[j].key)
  {
    CanonicalIsNormal(raw);
    var pairs := Canonicalize(raw).value.pairs;
    forall i, j | 0 <= i < j < |pairs| ensures TextLess(pairs[i].key, pairs[j].key) {
      assert PairLeq(pairs[i], pairs[j]) && PairKey(pairs[i]) != PairKey(pairs[j]);
    }
  }

  // ---------- one segment ----------

  /** The raw text is made of pieces. */
  ghost predicate Spelt(s: string) {
    exists t :: Means(s, t)
  }

  /** The text before the first equals sign and the text after it; without one, the whole text and nothing. */
  lemma SegmentParts(segment: string)
    ensures '=' !in RawKey(segment)
    ensures '=' in segment ==> segment == RawKey(segment) + ("=" + RawValue(segment))
    ensures '=' !in segment ==> RawKey(segment) == segment && RawValue(segment) == ""
  {
    if IndexOf(segment, '=').Some? {
      var i := IndexOf(segment, '=').value;
      assert segment == segment[..i] + ("=" + segment[i + 1..]);
    }
  }

  /** A segment is accepted as a pair exactly when its key and its value mean that pair, and the key is not empty. */
  lemma SegmentMeans(segment: string, pair: Pair)
    ensures ParseSegment(segment) == Ok(pair)
       <==> Means(RawKey(segment), pair.key) && Means(RawValue(segment), pair.value) && pair.key != ""
  {
    DecodeMeans(RawKey(segment), pair.key);
    DecodeMeans(RawValue(segment), pair.value);
  }

  lemma SpeltMeans(s: string)
    ensures Spelt(s) <==> Decode(s).Text?
    ensures Decode(s) == InvalidUtf8 <==> !Dangling(s) && !Spelt(s)
    ensures Dangling(s) ==> !Spelt(s)
  {
    RefusedAs(s);
    if Decode(s).Text? {
      DecodeMeans(s, Decode(s).text);
    }
    forall t ensures Means(s, t) ==> Decode(s) == Text(t) {
      DecodeMeans(s, t);
    }
  }

  /** Only the empty text means the empty text. */
  lemma EmptyMeans(s: string)
    ensures Means(s, "") <==> s == ""
  {
    if Means(s, "") {
      var ps :| ArePieces(ps) && Written(ps) == s && Meaning(ps) == "";
      assert ps == [];
    }
    if s == "" {
      assert ArePieces([]) && Written([]) == "" && Meaning([]) == "";
    }
  }

  /** What a segment is refused for: the key is looked at before the value, and an empty key last. */
  lemma SegmentFaults(segment: string)
    ensures var k, v := RawKey(segment), RawValue(segment);
      && (ParseSegment(segment) == Err(MalformedEscape) <==> Dangling(k) || (Spelt(k) && Dangling(v)))
      && (ParseSegment(segment) == Err(BadUtf8)
          <==> (!Dangling(k) && !Spelt(k)) || (Spelt(k) && !Dangling(v) && !Spelt(v)))
      && (ParseSegment(segment) == Err(EmptyKey) <==> k == "" && Spelt(v))
      && (ParseSegment(segment).Ok? <==> k != "" && Spelt(k) && Spelt(v))
  {
    var k, v := RawKey(segment), RawValue(segment);
    RefusedAs(k);
    RefusedAs(v);
    SpeltMeans(k);
    SpeltMeans(v);
    EmptyMeans(k);
    DecodeMeans(k, "");
  }

  // ---------- respelling a whole query ----------

  /** A character that is neither rewritten nor part of an escape. */
  predicate Stands(c: char) {
    c != '+' && c != '%' && !IsHex(c)
  }

  /** How much of a text is respelled at once, and as what. */
  function Taken(s: string): (n: nat)
    requires s != ""
    ensures 0 < n <= |s|
  {
    if s[0] == '%' && EscapeAt(s, 0) then 3 else 1
  }

  function Lead(s: string): string
    requires s != ""
  {
    if s[0] == '+' then "%20"
    else if s[0] == '%' && EscapeAt(s, 0) then ['%', Upper(s[1]), Upper(s[2])]
    else [s[0]]
  }

  lemma RespelledStep(s: string)
    requires s != ""
    ensures Respelled(s) == Lead(s) + Respelled(s[Taken(s)..])
  {
  }

  lemma RespelledAfter(a: string, b: string)
    requires a != "" && Taken(a + b) <= |a|
    ensures Respelled(a + b) == Lead(a + b) + Respelled(a[Taken(a + b)..] + b)
  {
    RespelledStep(a + b);
    DropJoin(a, b, Taken(a + b));
  }

  /** Such a character behind a text does not change how the text starts: no escape runs over it. */
  lemma SameLead(a: string, c: char, b: string)
    requires Stands(c) && a != ""
    ensures Lead(a + ([c] + b)) == Lead(a) && Taken(a + ([c] + b)) == Taken(a)
  {
    var s := a + ([c] + b);
    assert s[|a|] == c;
    assert EscapeAt(s, 0) <==> EscapeAt(a, 0);
  }

  lemma {:induction false} RespelledAround(a: string, c: char, b: string)
    requires Stands(c)
    ensures Respelled(a + ([c] + b)) == Respelled(a) + ([c] + Respelled(b))
    decreases |a|
  {
    if a == "" {
      var s := a + ([c] + b);
      RespelledStep(s);
      assert s == [c] + b && s[1..] == b;
    } else {
      var tail := a[Taken(a)..];
      SameLead(a, c, b);
      RespelledStep(a);
      RespelledAfter(a, [c] + b);
      RespelledAround(tail, c, b);
      Associate(Lead(a), Respelled(tail), [c] + Respelled(b));
    }
  }

  /** Such a character at the end stays at the end. */
  lemma RespelledEnd(a: string, c: char)
    requires Stands(c)
    ensures Respelled(a + [c]) == Respelled(a) + [c]
  {
    RespelledAround(a, c, "");
    assert a + ([c] + "") == a + [c];
  }

  lemma {:induction false} RespelledHas(s: string, c: char)
    requires Stands(c)
    ensures c in Respelled(s) <==> c in s
    decreases |s|
  {
    if s != "" {
      if s[0] == '%' && EscapeAt(s, 0) {
        RespelledHas(s[3..], c);
        UpperKeepsValue(s[1]);
        UpperKeepsValue(s[2]);
        assert s == [s[0], s[1], s[2]] + s[3..];
      } else {
        RespelledHas(s[1..], c);
        assert s == [s[0]] + s[1..];
      }
    }
  }

  lemma RespelledEmpty(s: string)
    ensures Respelled(s) == "" <==> s == ""
  {
  }

  lemma SpacesStand(c: char)
    requires IsSpace(c)
    ensures Stands(c)
  {
  }

  lemma {:induction false} RespelledTrimStart(s: string)
    ensures TrimStart(Respelled(s)) == Respelled(TrimStart(s))
  {
    if s != "" && IsSpace(s[0]) {
      SpacesStand(s[0]);
      assert Respelled(s)[1..] == Respelled(s[1..]);
      RespelledTrimStart(s[1..]);
    }
  }

  /** The last character of a respelled text is a space exactly when the text's last one is. */
  lemma {:induction false} RespelledLast(s: string)
    requires s != ""
    ensures Respelled(s) != ""
    ensures IsSpace(Respelled(s)[|Respelled(s)| - 1]) <==> IsSpace(s[|s| - 1])
    decreases |s|
  {
    var tail := s[Taken(s)..];
    RespelledStep(s);
    if tail != "" {
      RespelledLast(tail);
      assert tail[|tail| - 1] == s[|s| - 1];
    } else if |s| == 3 {
      UpperKeepsValue(s[2]);
    }
  }

  lemma TrimEndSpace(s: string, c: char)
    requires IsSpace(c)
    ensures TrimEnd(s + [c]) == TrimEnd(s)
  {
    assert (s + [c])[..|s|] == s;
  }

  lemma {:induction false} RespelledTrimEnd(s: string)
    ensures TrimEnd(Respelled(s)) == Respelled(TrimEnd(s))
  {
    hide Respelled, IsSpace, Stands;
    if s == "" {
      RespelledEmpty(s);
    } else {
      RespelledLast(s);
      if IsSpace(s[|s| - 1]) {
        var init, c := s[..|s| - 1], s[|s| - 1];
        SpacesStand(c);
        assert s == init + [c];
        RespelledEnd(init, c);
        TrimEndSpace(init, c);
        TrimEndSpace(Respelled(init), c);
        RespelledTrimEnd(init);
      }
    }
  }

  lemma RespelledSource(raw: string)
    ensures Source(Some(Respelled(raw))) == Respelled(Source(Some(raw)))
  {
    RespelledTrimStart(raw);
    RespelledTrimEnd(TrimStart(raw));
    var trimmed := Trim(raw);
    assert Trim(Respelled(raw)) == Respelled(trimmed);
    if trimmed != "" && trimmed[0] == '?' {
      assert Respelled(trimmed)[1..] == Respelled(trimmed[1..]);
    }
  }

  lemma MapMore(p: string, rest: seq<string>)
    ensures Sorting.Map(Respelled, [p] + rest) == [Respelled(p)] + Sorting.Map(Respelled, rest)
  {
  }

  /** A text with an ampersand, at its first one. */
  lemma FirstPart(s: string) returns (p: string, rest: string)
    requires '&' in s
    ensures s == p + (['&'] + rest) && '&' !in p && |rest| < |s|
  {
    var i := IndexOf(s, '&').value;
    p, rest := s[..i], s[i + 1..];
    assert s == p + (['&'] + rest);
  }

  lemma {:induction false} RespelledSplit(s: string)
    ensures Split(Respelled(s), '&') == Sorting.Map(Respelled, Split(s, '&'))
    decreases |s|
  {
    RespelledHas(s, '&');
    if '&' in s {
      var p, rest := FirstPart(s);
      RespelledHas(p, '&');
      RespelledAround(p, '&', rest);
      SplitHead(p, rest, '&');
      SplitHead(Respelled(p), Respelled(rest), '&');
      RespelledSplit(rest);
      MapMore(p, Split(rest, '&'));
    } else {
      SplitWhole(s, '&');
      SplitWhole(Respelled(s), '&');
    }
  }

  lemma {:induction false} RespelledNonEmpty(parts: seq<string>)
    ensures NonEmpty(Sorting.Map(Respelled, parts)) == Sorting.Map(Respelled, NonEmpty(parts))
  {
    if parts != [] {
      var init, last := parts[..|parts| - 1], parts[|parts| - 1];
      RespelledNonEmpty(init);
      RespelledEmpty(last);
      assert Sorting.Map(Respelled, parts)[..|parts| - 1] == Sorting.Map(Respelled, init);
    }
  }

  lemma RespelledSegments(raw: string)
    ensures Segments(Some(Respelled(raw))) == Sorting.Map(Respelled, Segments(Some(raw)))
  {
    var source := Source(Some(raw));
    RespelledSource(raw);
    RespelledEmpty(source);
    RespelledSplit(source);
    RespelledNonEmpty(Split(source, '&'));
  }

  lemma RespelledParts(segment: string)
    ensures RawKey(Respelled(segment)) == Respelled(RawKey(segment))
    ensures RawValue(Respelled(segment)) == Respelled(RawValue(segment))
  {
    SegmentParts(segment);
    RespelledHas(segment, '=');
    if '=' in segment {
      var k, v := RawKey(segment), RawValue(segment);
      RespelledAround(k, '=', v);
      RespelledHas(k, '=');
      RawParts(Respelled(k), Respelled(v));
    }
  }

  lemma RespelledSegment(segment: string)
    ensures ParseSegment(Respelled(segment)) == ParseSegment(segment)
  {
    RespelledParts(segment);
    SpellingDoesNotMatter(RawKey(segment));
    SpellingDoesNotMatter(RawValue(segment));
  }

  lemma {:induction false} RespelledParse(segments: seq<string>)
    ensures Parse(Sorting.Map(Respelled, segments)) == Parse(segments)
  {
    hide ParseSegment;
    if segments != [] {
      var init, last := segments[..|segments| - 1], segments[|segments| - 1];
      RespelledParse(init);
      RespelledSegment(last);
      assert segments == init + [last];
      ParseMore(init, last);
      ParseMore(Sorting.Map(Respelled, init), Respelled(last));
      assert Sorting.Map(Respelled, segments) == Sorting.Map(Respelled, init) + [Respelled(last)];
    }
  }

  /**
   The canonical form, and whether and how a query is refused, depend only on what its characters stand for: writing
   every plus sign as the escape of a space and every escape in upper case changes neither.
   */
  lemma SpellingOfQueryDoesNotMatter(raw: string)
    ensures Canonicalize(Some(Respelled(raw))) == Canonicalize(Some(raw))
  {
    RespelledSegments(raw);
    RespelledParse(Segments(Some(raw)));
  }

  /** So two queries that are respelled alike are treated alike. */
  lemma AlikeQueries(a: string, b: string)
    requires Respelled(a) == Respelled(b)
    ensures Canonicalize(Some(a)) == Canonicalize(Some(b))
  {
    SpellingOfQueryDoesNotMatter(a);
    SpellingOfQueryDoesNotMatter(b);
  }

  // ---------- a plus sign in a value ----------

  lemma CanonicalTail(s: string, n: nat)
    requires Canonical(s) && n <= |s|
    ensures Canonical(s[n..])
  {
    var tail := s[n..];
    forall i | 0 <= i < |tail| ensures tail[i] == '%' || IsUnreserved(tail[i]) {
      assert tail[i] == s[n + i];
    }
    forall i | 0 <= i < |tail| && tail[i] == '%'
      ensures i + 2 < |tail| && IsUpperHex(tail[i + 1]) && IsUpperHex(tail[i + 2])
    {
      assert s[n + i] == '%';
    }
  }

  lemma CanonicalLead(s: string, rest: string)
    requires Canonical(s) && s != ""
    ensures Taken(s + rest) <= |s| && Lead(s + rest) == s[..Taken(s + rest)]
  {
    if s[0] == '%' {
      assert (s + rest)[1] == s[1] && (s + rest)[2] == s[2];
    } else {
      assert IsUnreserved(s[0]);
    }
  }

  /** Encoded text is respelled as it is. */
  lemma {:induction false} RespelledCanonical(s: string, rest: string)
    requires Canonical(s)
    ensures Respelled(s + rest) == s + Respelled(rest)
    decreases |s|
  {
    if s == "" {
      assert s + rest == rest;
    } else {
      var n := Taken(s + rest);
      CanonicalLead(s, rest);
      CanonicalTail(s, n);
      RespelledAfter(s, rest);
      RespelledCanonical(s[n..], rest);
      Associate(s[..n], s[n..], Respelled(rest));
      assert s[..n] + s[n..] == s;
    }
  }

  lemma RespelledAlike(k: string, b: string, a: string)
    requires Canonical(k) && Canonical(b)
    ensures Respelled(k + ("=" + (b + ("+" + a)))) == Respelled(k + ("=" + (b + ("%20" + a))))
  {
    RespelledCanonical(k, "=" + (b + ("+" + a)));
    RespelledCanonical(k, "=" + (b + ("%20" + a)));
    RespelledAround("", '=', b + ("+" + a));
    RespelledAround("", '=', b + ("%20" + a));
    RespelledCanonical(b, "+" + a);
    RespelledCanonical(b, "%20" + a);
    RespelledStep("+" + a);
    RespelledStep("%20" + a);
    assert ("+" + a)[1..] == a && ("%20" + a)[3..] == a;
    assert "" + ("=" + (b + ("+" + a))) == "=" + (b + ("+" + a));
    assert "" + ("=" + (b + ("%20" + a))) == "=" + (b + ("%20" + a));
  }

  /** `key=before+after` is read as the value with a space in it, and printed with the space's escape. */
  lemma PlusIsSpace(key: string, before: string, after: string)
    requires key != ""
    ensures var text := Encode(key) + ("=" + (Encode(before) + ("+" + Encode(after))));
      var canonical := Encode(key) + ("=" + (Encode(before) + ("%20" + Encode(after))));
      Canonicalize(Some(text)) == Ok(CanonicalQuery(canonical, [Pair(key, before + " " + after)]))
  {
    var pair := Pair(key, before + " " + after);
    EncodeAlphabet(key);
    EncodeAlphabet(before);
    RespelledAlike(Encode(key), Encode(before), Encode(after));
    AlikeQueries(Encode(key) + ("=" + (Encode(before) + ("+" + Encode(after)))),
                 Encode(key) + ("=" + (Encode(before) + ("%20" + Encode(after)))));
    EncodeSpace(before, after);
    assert PrintAll([pair]) == Print(pair);
    NormalOne(pair);
    RoundTrip([pair]);
  }

  lemma {:induction false} EncodeOnceJoin(a: string, b: string)
    ensures EncodeOnce(a + b) == EncodeOnce(a) + EncodeOnce(b)
  {
    if a == "" {
      assert a + b == b;
    } else {
      assert (a + b)[1..] == a[1..] + b;
      EncodeOnceJoin(a[1..], b);
    }
  }

  lemma EncodeOneSpace()
    ensures EncodeOnce(" ") == "%20"
  {
    assert Utf8Coding.Utf8(' ') == [0x20];
    assert Escape([0x20]) == EscapeOctet(0x20) + Escape([]);
    assert " "[1..] == "";
  }

  lemma EncodeSpace(before: string, after: string)
    ensures Encode(before + " " + after) == Encode(before) + ("%20" + Encode(after))
  {
    EncodeIsOnePass(before);
    EncodeIsOnePass(after);
    EncodeIsOnePass(before + " " + after);
    EncodeOnceJoin(before + " ", after);
    EncodeOnceJoin(before, " ");
    EncodeOneSpace();
    Associate(EncodeOnce(before), "%20", EncodeOnce(after));
  }

  lemma NormalOne(pair: Pair)
    requires pair.key != ""
    ensures Normal([pair])
  {
    PairOrderIsTotal();
  }
}
