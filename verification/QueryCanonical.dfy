/** The canonical form of a query string, lib/fulfillment-hash.ts. */
module QueryCanonical {
  import opened Common
  import opened PercentCoding
  import opened Text
  import opened TextOrder
  import Sorting

  datatype Pair = Pair(key: string, value: string)

  datatype QueryError = MalformedEscape | BadUtf8 | EmptyKey | DuplicateKey

  datatype Result<+T> = Ok(value: T) | Err(error: QueryError)

  datatype CanonicalQuery = CanonicalQuery(canonical: string, pairs: seq<Pair>)

  // ---------- parsing ----------

  function NonEmpty(parts: seq<string>): (r: seq<string>)
    ensures forall p :: p in r ==> p != ""
  {
    if parts == [] then []
    else NonEmpty(parts[..|parts| - 1]) + (if parts[|parts| - 1] != "" then [parts[|parts| - 1]] else [])
  }

  function IndexOf(s: string, c: char): (i: Option<nat>)
    ensures i.None? ==> c !in s
    ensures i.Some? ==> i.value < |s| && s[i.value] == c && c !in s[..i.value]
  {
    if s == [] then None
    else if s[0] == c then Some(0)
    else match IndexOf(s[1..], c)
      case None => None
      case Some(i) => assert s[..i + 1] == [s[0]] + s[1..][..i]; Some(i + 1)
  }

  function Source(raw: Option<string>): string {
    var trimmed := Trim(raw.GetOr(""));
    if trimmed != "" && trimmed[0] == '?' then trimmed[1..] else trimmed
  }

  function Segments(raw: Option<string>): seq<string> {
    if Source(raw) == "" then [] else NonEmpty(Split(Source(raw), '&'))
  }

  function RawKey(segment: string): string {
    match IndexOf(segment, '=')
    case None => segment
    case Some(i) => segment[..i]
  }

  function RawValue(segment: string): string {
    match IndexOf(segment, '=')
    case None => ""
    case Some(i) => segment[i + 1..]
  }

  function Component(s: string): Result<string> {
    match Decode(s)
    case Text(t) => Ok(t)
    case MalformedPercentEscape => Err(MalformedEscape)
    case InvalidUtf8 => Err(BadUtf8)
  }

  function ParseSegment(segment: string): Result<Pair> {
    match Component(RawKey(segment))
    case Err(e) => Err(e)
    case Ok(key) =>
      match Component(RawValue(segment))
      case Err(e) => Err(e)
      case Ok(value) => if key == "" then Err(EmptyKey) else Ok(Pair(key, value))
  }

  function PairKey(p: Pair): string {
    p.key
  }

  predicate HasKey(pairs: seq<Pair>, key: string) {
    exists i :: 0 <= i < |pairs| && pairs[i].key == key
  }

  /** What one more segment makes of what was read so far. */
  function Added(before: Result<seq<Pair>>, next: Result<Pair>): Result<seq<Pair>> {
    match before
    case Err(e) => Err(e)
    case Ok(pairs) =>
      match next
      case Err(e) => Err(e)
      case Ok(pair) => if HasKey(pairs, pair.key) then Err(DuplicateKey) else Ok(pairs + [pair])
  }

  function Parse(segments: seq<string>): Result<seq<Pair>> {
    if segments == [] then Ok([])
    else Added(Parse(segments[..|segments| - 1]), ParseSegment(segments[|segments| - 1]))
  }

  lemma ParseMore(init: seq<string>, last: string)
    ensures Parse(init + [last]) == Added(Parse(init), ParseSegment(last))
  {
    assert (init + [last])[..|init|] == init;
  }

  // ---------- printing ----------

  /** By key, then by value. */
  predicate PairLeq(a: Pair, b: Pair) {
    if a.key != b.key then TextLeq(a.key, b.key) else TextLeq(a.value, b.value)
  }

  function Print(p: Pair): string {
    Encode(p.key) + ("=" + Encode(p.value))
  }

  function PrintAll(pairs: seq<Pair>): string {
    Join(Sorting.Map(Print, pairs), '&')
  }

  function Canonicalize(raw: Option<string>): Result<CanonicalQuery> {
    match Parse(Segments(raw))
    case Err(e) => Err(e)
    case Ok(pairs) =>
      var sorted := Sorting.Sort(PairLeq, pairs);
      Ok(CanonicalQuery(PrintAll(sorted), sorted))
  }

  // ---------- the program's loop ----------

  method CanonicalizeFulfillmentQuery(raw: Option<string>) returns (r: Result<CanonicalQuery>)
    ensures r == Canonicalize(raw)
  {
    hide ParseSegment;
    var source := Source(raw);
    if source == "" {
      assert Segments(raw) == [] && Sorting.Sort(PairLeq, []) == [];
      return Ok(CanonicalQuery("", []));
    }
    var parsed: seq<Pair> := [];
    var seen: set<string> := {};
    var segments := NonEmpty(Split(source, '&'));
    var k := 0;
    while k < |segments|
      invariant 0 <= k <= |segments|
      invariant Parse(segments[..k]) == Ok(parsed)
      invariant forall key :: key in seen <==> HasKey(parsed, key)
    {
      assert segments[..k + 1][..k] == segments[..k];
      var pair := ParseSegment(segments[k]);
      if pair.Err? {
        ParseStops(segments, k + 1);
        return Err(pair.error);
      }
      if pair.value.key in seen {
        ParseStops(segments, k + 1);
        return Err(DuplicateKey);
      }
      HasKeyStep(parsed, pair.value);
      seen := seen + {pair.value.key};
      parsed := parsed + [pair.value];
      k := k + 1;
    }
    assert segments[..k] == segments;
    var sorted := Sorting.Sort(PairLeq, parsed);
    r := Ok(CanonicalQuery(PrintAll(sorted), sorted));
  }

  lemma HasKeyStep(pairs: seq<Pair>, p: Pair)
    ensures forall key :: HasKey(pairs + [p], key) <==> HasKey(pairs, key) || key == p.key
  {
    forall key | HasKey(pairs, key) || key == p.key ensures HasKey(pairs + [p], key) {
      if HasKey(pairs, key) {
        var i :| 0 <= i < |pairs| && pairs[i].key == key;
        assert (pairs + [p])[i].key == key;
      } else {
        assert (pairs + [p])[|pairs|].key == key;
      }
    }
  }

  lemma {:induction false} ParseStops(segments: seq<string>, n: nat)
    requires n <= |segments| && Parse(segments[..n]).Err?
    ensures Parse(segments) == Parse(segments[..n])
    decreases |segments|
  {
    if n == |segments| {
      assert segments[..n] == segments;
    } else {
      assert segments[..|segments| - 1][..n] == segments[..n];
      ParseStops(segments[..|segments| - 1], n);
    }
  }

  // ---------- when parsing succeeds ----------

  /** The pair of a segment; only meaningful when the segment parses. */
  function PairOf(segment: string): Pair {
    match ParseSegment(segment)
    case Ok(p) => p
    case Err(_) => Pair("", "")
  }

  function KeyOf(segment: string): string {
    PairOf(segment).key
  }

  /** The key/value pairs the segments mean. */
  function PairsOf(segments: seq<string>): set<Pair> {
    set s | s in segments :: PairOf(s)
  }

  /** Every segment decodes to a pair with a key, and no key comes twice. */
  ghost predicate WellFormed(segments: seq<string>) {
    && (forall s :: s in segments ==> ParseSegment(s).Ok?)
    && Sorting.DistinctKeys(KeyOf, segments)
  }

  /** One more segment: it must parse, and its key must be new. */
  lemma WellFormedStep(init: seq<string>, last: string, pairs: seq<Pair>)
    requires pairs == Sorting.Map(PairOf, init)
    ensures WellFormed(init + [last]) <==> WellFormed(init) && ParseSegment(last).Ok? && !HasKey(pairs, KeyOf(last))
  {
    hide ParseSegment;
    var segments := init + [last];
    assert forall i :: 0 <= i < |init| ==> segments[i] == init[i] && pairs[i].key == KeyOf(init[i]);
    assert last in segments && forall s :: s in init ==> s in segments;
    if WellFormed(segments) {
      assert Sorting.DistinctKeys(KeyOf, init);
      assert !HasKey(pairs, KeyOf(last)) by {
        assert forall i :: 0 <= i < |init| ==> KeyOf(segments[i]) != KeyOf(segments[|init|]);
      }
    }
    if WellFormed(init) && ParseSegment(last).Ok? && !HasKey(pairs, KeyOf(last)) {
      assert forall i :: 0 <= i < |init| ==> KeyOf(segments[i]) != KeyOf(last);
      assert Sorting.DistinctKeys(KeyOf, segments);
    }
  }

  lemma {:induction false} ParseIff(segments: seq<string>)
    ensures Parse(segments).Ok? <==> WellFormed(segments)
    ensures Parse(segments).Ok? ==> Parse(segments).value == Sorting.Map(PairOf, segments)
  {
    hide ParseSegment;
    if segments != [] {
      var n := |segments| - 1;
      var init, last := segments[..n], segments[n];
      ParseIff(init);
      assert segments == init + [last];
      ParseMore(init, last);
      WellFormedStep(init, last, Sorting.Map(PairOf, init));
    }
  }

  /** Refusals name the first segment at fault: all before it are well-formed, and this one adds the fault. */
  lemma {:induction false} FirstFaultDecides(segments: seq<string>) returns (n: nat)
    requires Parse(segments).Err?
    ensures n < |segments| && WellFormed(segments[..n])
    ensures ParseSegment(segments[n]).Err? ==> Parse(segments).error == ParseSegment(segments[n]).error
    ensures ParseSegment(segments[n]).Ok? ==>
      Parse(segments).error == DuplicateKey && exists k :: 0 <= k < n && KeyOf(segments[k]) == KeyOf(segments[n])
  {
    hide ParseSegment;
    n := |segments| - 1;
    var init := segments[..n];
    assert init + [segments[n]] == segments;
    ParseMore(init, segments[n]);
    if Parse(init).Err? {
      n := FirstFaultDecides(init);
      assert init[..n] == segments[..n];
    } else {
      ParseIff(init);
      assert forall k :: 0 <= k < n ==> Parse(init).value[k] == PairOf(segments[k]);
    }
  }

  // ---------- order ----------

  lemma PairOrderIsTotal()
    ensures Sorting.TotalOrder(PairLeq)
  {
    forall a, b ensures (PairLeq(a, b) || PairLeq(b, a)) && (PairLeq(a, b) && PairLeq(b, a) ==> a == b) {
      TextLeqFacts(a.key, b.key);
      TextLeqFacts(a.value, b.value);
    }
    forall a, b, c | PairLeq(a, b) && PairLeq(b, c) ensures PairLeq(a, c) {
      TextLeqFacts(a.key, b.key);
      if a.key == b.key == c.key {
        TextLeqTransitive(a.value, b.value, c.value);
      } else if a.key != b.key && b.key != c.key {
        TextLeqTransitive(a.key, b.key, c.key);
      }
    }
  }

  /** The order of the segments does not matter: neither for success nor for the result. */
  lemma PermutationInvariant(a: Option<string>, b: Option<string>)
    requires multiset(Segments(a)) == multiset(Segments(b))
    ensures Canonicalize(a).Ok? <==> Canonicalize(b).Ok?
    ensures Canonicalize(a).Ok? ==> Canonicalize(a) == Canonicalize(b)
  {
    var x, y := Segments(a), Segments(b);
    ParseIff(x);
    ParseIff(y);
    Sorting.SameElements(x, y);
    if Sorting.DistinctKeys(KeyOf, x) {
      Sorting.PermutationKeepsKeys(KeyOf, x, y);
    }
    if Sorting.DistinctKeys(KeyOf, y) {
      Sorting.PermutationKeepsKeys(KeyOf, y, x);
    }
    Sorting.MapPermutation(PairOf, x, y);
    PairOrderIsTotal();
    Sorting.SortPermutation(PairLeq, Sorting.Map(PairOf, x), Sorting.Map(PairOf, y));
  }

  // ---------- reading the canonical text back ----------

  lemma {:induction false} KeepAll(parts: seq<string>)
    requires forall i :: 0 <= i < |parts| ==> parts[i] != ""
    ensures NonEmpty(parts) == parts
  {
    if parts != [] {
      KeepAll(parts[..|parts| - 1]);
    }
  }

  lemma {:induction false} IndexOfFirst(before: string, c: char, after: string)
    requires c !in before
    ensures IndexOf(before + ([c] + after), c) == Some(|before|)
  {
    var s := before + ([c] + after);
    if before == [] {
      assert s[0] == c;
    } else {
      assert before == [before[0]] + before[1..];
      assert s[0] == before[0] && s[1..] == before[1..] + ([c] + after);
      IndexOfFirst(before[1..], c, after);
    }
  }

  lemma RawParts(k: string, v: string)
    requires '=' !in k
    ensures RawKey(k + ("=" + v)) == k && RawValue(k + ("=" + v)) == v
  {
    IndexOfFirst(k, '=', v);
    var s := k + ("=" + v);
    assert s[..|k|] == k && s[|k| + 1..] == v;
  }

  lemma ComponentEncoded(s: string)
    ensures Component(Encode(s)) == Ok(s)
    ensures '=' !in Encode(s) && '&' !in Encode(s)
  {
    DecodeEncode(s);
    EncodeAlphabet(s);
  }

  /** A printed pair is read back as that pair. */
  lemma ParsePrinted(p: Pair)
    requires p.key != ""
    ensures ParseSegment(Print(p)) == Ok(p)
  {
    ComponentEncoded(p.key);
    ComponentEncoded(p.value);
    RawParts(Encode(p.key), Encode(p.value));
  }

  lemma PrintedIsSegment(p: Pair)
    ensures '&' !in Print(p) && Print(p) != ""
  {
    ComponentEncoded(p.key);
    ComponentEncoded(p.value);
  }

  /** What sorting and parsing leave: pairs in order, with keys, no key twice. */
  ghost predicate Normal(pairs: seq<Pair>) {
    && Sorting.Sorted(PairLeq, pairs)
    && (forall p :: p in pairs ==> p.key != "")
    && Sorting.DistinctKeys(PairKey, pairs)
  }

  lemma ParsedKeys(segments: seq<string>)
    requires Parse(segments).Ok?
    ensures Sorting.DistinctKeys(PairKey, Parse(segments).value)
    ensures forall k :: 0 <= k < |Parse(segments).value| ==> Parse(segments).value[k].key != ""
  {
    hide ParseSegment, Parse;
    ParseIff(segments);
    var pairs := Parse(segments).value;
    forall i, j | 0 <= i < j < |pairs| ensures PairKey(pairs[i]) != PairKey(pairs[j]) {
      assert KeyOf(segments[i]) != KeyOf(segments[j]);
    }
    forall k | 0 <= k < |pairs| ensures pairs[k].key != "" {
      assert segments[k] in segments && pairs[k] == PairOf(segments[k]);
      HasItsKey(segments[k]);
    }
  }

  lemma HasItsKey(segment: string)
    requires ParseSegment(segment).Ok?
    ensures PairOf(segment).key != ""
  {
  }

  lemma ParsedMeaning(segments: seq<string>)
    requires Parse(segments).Ok?
    ensures SetOf(Parse(segments).value) == PairsOf(segments)
  {
    ParseIff(segments);
    var pairs := Parse(segments).value;
    forall p | p in pairs ensures p in PairsOf(segments) {
      var i :| 0 <= i < |pairs| && pairs[i] == p;
      assert segments[i] in segments && PairOf(segments[i]) == p;
    }
    forall s | s in segments ensures PairOf(s) in pairs {
      var i :| 0 <= i < |segments| && segments[i] == s;
      assert pairs[i] == PairOf(s);
    }
  }

  lemma SortedIsNormal(pairs: seq<Pair>)
    requires Sorting.DistinctKeys(PairKey, pairs)
    requires forall k :: 0 <= k < |pairs| ==> pairs[k].key != ""
    ensures Normal(Sorting.Sort(PairLeq, pairs))
    ensures SetOf(Sorting.Sort(PairLeq, pairs)) == SetOf(pairs)
  {
    PairOrderIsTotal();
    Sorting.SortFacts(PairLeq, pairs);
    Sorting.PermutationKeepsKeys(PairKey, pairs, Sorting.Sort(PairLeq, pairs));
  }

  lemma CanonicalIsNormal(raw: Option<string>)
    requires Canonicalize(raw).Ok?
    ensures Normal(Canonicalize(raw).value.pairs)
    ensures SetOf(Canonicalize(raw).value.pairs) == PairsOf(Segments(raw))
  {
    ParsedKeys(Segments(raw));
    ParsedMeaning(Segments(raw));
    SortedIsNormal(Parse(Segments(raw)).value);
  }

  predicate QueryChar(c: char) {
    IsUnreserved(c) || c in {'%', '=', '&'}
  }

  ghost predicate EscapesUpper(s: string) {
    forall i :: 0 <= i < |s| && s[i] == '%' ==> i + 2 < |s| && IsUpperHex(s[i + 1]) && IsUpperHex(s[i + 2])
  }

  lemma EscapesUpperJoin(a: string, b: string)
    requires EscapesUpper(a) && EscapesUpper(b)
    ensures EscapesUpper(a + b)
  {
    var s := a + b;
    forall i | 0 <= i < |s| && s[i] == '%' ensures i + 2 < |s| && IsUpperHex(s[i + 1]) && IsUpperHex(s[i + 2]) {
      if i < |a| {
        assert a[i] == '%';
      } else {
        assert b[i - |a|] == '%';
      }
    }
  }

  lemma PrintAlphabet(p: Pair)
    ensures forall c :: c in Print(p) ==> QueryChar(c)
    ensures EscapesUpper(Print(p))
  {
    EncodeAlphabet(p.key);
    EncodeAlphabet(p.value);
    EscapesUpperJoin("=", Encode(p.value));
    EscapesUpperJoin(Encode(p.key), "=" + Encode(p.value));
  }

  lemma {:induction false} PrintAllAlphabet(pairs: seq<Pair>)
    ensures forall c :: c in PrintAll(pairs) ==> QueryChar(c)
    ensures EscapesUpper(PrintAll(pairs))
  {
    if pairs != [] {
      var parts := Sorting.Map(Print, pairs);
      var rest := PrintAll(pairs[1..]);
      PrintAlphabet(pairs[0]);
      PrintAllAlphabet(pairs[1..]);
      assert parts[1..] == Sorting.Map(Print, pairs[1..]);
      EscapesUpperJoin("&", rest);
      EscapesUpperJoin(Print(pairs[0]), "&" + rest);
    }
  }

  lemma SourceOfPrinted(s: string)
    requires forall c :: c in s ==> QueryChar(c)
    ensures Source(Some(s)) == s
  {
    TrimFacts(s);
    if s != "" {
      assert QueryChar(s[0]) && QueryChar(s[|s| - 1]);
    }
  }

  lemma ParsePrintedStep(init: seq<Pair>, last: Pair)
    requires Parse(Sorting.Map(Print, init)) == Ok(init)
    requires last.key != "" && !HasKey(init, last.key)
    ensures Parse(Sorting.Map(Print, init + [last])) == Ok(init + [last])
  {
    hide ParseSegment, Print;
    assert Sorting.Map(Print, init + [last]) == Sorting.Map(Print, init) + [Print(last)];
    ParseMore(Sorting.Map(Print, init), Print(last));
    ParsePrinted(last);
  }

  lemma LastKeyIsNew(pairs: seq<Pair>)
    requires pairs != [] && Sorting.DistinctKeys(PairKey, pairs)
    ensures Sorting.DistinctKeys(PairKey, pairs[..|pairs| - 1])
    ensures !HasKey(pairs[..|pairs| - 1], pairs[|pairs| - 1].key)
  {
    var n := |pairs| - 1;
    assert forall i :: 0 <= i < n ==> PairKey(pairs[i]) != PairKey(pairs[n]);
  }

  lemma {:induction false} ParsePrintedAll(pairs: seq<Pair>)
    requires forall i :: 0 <= i < |pairs| ==> pairs[i].key != ""
    requires Sorting.DistinctKeys(PairKey, pairs)
    ensures Parse(Sorting.Map(Print, pairs)) == Ok(pairs)
  {
    if pairs == [] {
    } else {
      var init, last := pairs[..|pairs| - 1], pairs[|pairs| - 1];
      LastKeyIsNew(pairs);
      ParsePrintedAll(init);
      ParsePrintedStep(init, last);
      assert pairs == init + [last];
    }
  }

  lemma PrintedSegments(pairs: seq<Pair>)
    requires forall p :: p in pairs ==> p.key != ""
    ensures Segments(Some(PrintAll(pairs))) == Sorting.Map(Print, pairs)
  {
    var parts := Sorting.Map(Print, pairs);
    PrintAllAlphabet(pairs);
    SourceOfPrinted(PrintAll(pairs));
    if pairs != [] {
      forall part | part in parts ensures '&' !in part && part != "" {
        var i :| 0 <= i < |parts| && parts[i] == part;
        PrintedIsSegment(pairs[i]);
      }
      assert parts[0] in parts;
      SplitJoin(parts, '&');
      KeepAll(parts);
    }
  }

  /** Reading a printed normal form gives back exactly what was printed. */
  lemma RoundTrip(pairs: seq<Pair>)
    requires Normal(pairs)
    ensures Canonicalize(Some(PrintAll(pairs))) == Ok(CanonicalQuery(PrintAll(pairs), pairs))
  {
    PrintedSegments(pairs);
    ParsePrintedAll(pairs);
    PairOrderIsTotal();
    Sorting.SortIdempotent(PairLeq, pairs);
  }

  // ---------- main results ----------

  /** Canonicalizing the canonical text changes nothing. */
  lemma Idempotent(raw: Option<string>)
    requires Canonicalize(raw).Ok?
    ensures Canonicalize(Some(Canonicalize(raw).value.canonical)) == Canonicalize(raw)
  {
    CanonicalIsNormal(raw);
    RoundTrip(Canonicalize(raw).value.pairs);
  }

  lemma SameText(x: seq<Pair>, y: seq<Pair>)
    requires Normal(x) && Normal(y) && PrintAll(x) == PrintAll(y)
    ensures x == y
  {
    RoundTrip(x);
    RoundTrip(y);
  }

  lemma SamePairs(x: seq<Pair>, y: seq<Pair>)
    requires Normal(x) && Normal(y) && SetOf(x) == SetOf(y)
    ensures x == y
  {
    assert forall p :: (p in x <==> p in SetOf(x)) && (p in y <==> p in SetOf(y));
    Sorting.SameElementsPermutation(PairKey, x, y);
    PairOrderIsTotal();
    Sorting.SortedUnique(PairLeq, x, y);
  }

  /** Two accepted queries have the same canonical text exactly when they mean the same pairs. */
  lemma CanonicalTextIsMeaning(a: Option<string>, b: Option<string>)
    requires Canonicalize(a).Ok? && Canonicalize(b).Ok?
    ensures Canonicalize(a).value.canonical == Canonicalize(b).value.canonical
        <==> PairsOf(Segments(a)) == PairsOf(Segments(b))
  {
    var x, y := Canonicalize(a).value.pairs, Canonicalize(b).value.pairs;
    CanonicalIsNormal(a);
    CanonicalIsNormal(b);
    if PrintAll(x) == PrintAll(y) {
      SameText(x, y);
    }
    if SetOf(x) == SetOf(y) {
      SamePairs(x, y);
    }
  }

  /**
   A query is accepted exactly when every non-empty segment decodes, has a key, and no key comes twice;
   the output then uses only unreserved characters, upper-case escapes and the separators.
   */
  lemma AcceptedIff(raw: Option<string>)
    ensures Canonicalize(raw).Ok? <==> WellFormed(Segments(raw))
    ensures Canonicalize(raw).Ok? ==>
      var text := Canonicalize(raw).value.canonical;
      EscapesUpper(text) && forall c :: c in text ==> QueryChar(c)
  {
    ParseIff(Segments(raw));
    if Canonicalize(raw).Ok? {
      PrintAllAlphabet(Canonicalize(raw).value.pairs);
    }
  }
}
