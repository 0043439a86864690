/** Reading canonical JSON text back: the text determines the value it came from, up to key order. */
module JsonReader {
  import opened Common
  import opened Text
  import opened TextOrder
  import opened JsonCanonical
  import Sorting

  type Read<+T> = Option<(T, string)>

  // ---------- a reader ----------

  function HexDigitValue(c: char): Option<nat> {
    if '0' <= c <= '9' then Some(c as int - '0' as int)
    else if 'a' <= c <= 'f' then Some(c as int - 'a' as int + 10)
    else None
  }

  /** One character of a string, written out or escaped. */
  function ReadChar(s: string): (r: Read<char>)
    ensures r.Some? ==> |r.value.1| < |s|
  {
    if s == "" || s[0] == '"' then None
    else if s[0] != '\\' then Some((s[0], s[1..]))
    else if |s| < 2 then None
    else match s[1]
      case '"' => Some(('"', s[2..]))
      case '\\' => Some(('\\', s[2..]))
      case 'b' => Some(('\U{0008}', s[2..]))
      case 't' => Some(('\t', s[2..]))
      case 'n' => Some(('\n', s[2..]))
      case 'f' => Some(('\U{000C}', s[2..]))
      case 'r' => Some(('\r', s[2..]))
      case 'u' =>
        if |s| < 6 || s[2] != '0' || s[3] != '0' then None
        else (match (HexDigitValue(s[4]), HexDigitValue(s[5]))
              case (Some(hi), Some(lo)) => if hi < 2 then Some(((hi * 16 + lo) as char, s[6..])) else None
              case _ => None)
      case _ => None
  }

  /** The rest of a string after its opening quote. */
  function ReadString(s: string): (r: Read<string>)
    ensures r.Some? ==> |r.value.1| < |s|
    decreases |s|
  {
    if s == "" then None
    else if s[0] == '"' then Some(("", s[1..]))
    else match ReadChar(s)
      case None => None
      case Some((c, rest)) =>
        match ReadString(rest)
        case None => None
        case Some((t, after)) => Some(([c] + t, after))
  }

  function NumberSpan(s: string): (k: nat)
    ensures k <= |s|
  {
    if s == "" || !NumberChar(s[0]) then 0 else 1 + NumberSpan(s[1..])
  }

  predicate StartsWith(s: string, p: string) {
    |p| <= |s| && s[..|p|] == p
  }

  function ReadValue<N>(num: Numbers<N>, s: string): (r: Read<Value<N>>)
    ensures r.Some? ==> |r.value.1| < |s|
    decreases |s|, 1
  {
    if s == "" then None
    else if StartsWith(s, "null") then Some((VNull, s[4..]))
    else if StartsWith(s, "true") then Some((VBool(true), s[4..]))
    else if StartsWith(s, "false") then Some((VBool(false), s[5..]))
    else if s[0] == '"' then
      (match ReadString(s[1..])
       case None => None
       case Some((t, rest)) => Some((VString(t), rest)))
    else if s[0] == '[' then
      (if StartsWith(s, "[]") then Some((VArray([]), s[2..]))
       else match ReadItems(num, s[1..])
         case None => None
         case Some((vs, rest)) => Some((VArray(vs), rest)))
    else if s[0] == '{' then
      (if StartsWith(s, "{}") then Some((VObject(map[]), s[2..]))
       else match ReadFields(num, s[1..])
         case None => None
         case Some((m, rest)) => Some((VObject(m), rest)))
    else ReadNumber(num, s)
  }

  function ReadNumber<N>(num: Numbers<N>, s: string): (r: Read<Value<N>>)
    ensures r.Some? ==> |r.value.1| < |s|
  {
    var k := NumberSpan(s);
    if k == 0 then None
    else match num.read(s[..k])
      case None => None
      case Some(n) => Some((VNumber(n), s[k..]))
  }

  function ReadItems<N>(num: Numbers<N>, s: string): (r: Read<seq<Value<N>>>)
    ensures r.Some? ==> |r.value.1| < |s|
    decreases |s|, 2
  {
    match ReadValue(num, s)
    case None => None
    case Some((v, after)) =>
      if after == "" then None
      else if after[0] == ']' then Some(([v], after[1..]))
      else if after[0] != ',' then None
      else match ReadItems(num, after[1..])
        case None => None
        case Some((vs, rest)) => Some(([v] + vs, rest))
  }

  function ReadFields<N>(num: Numbers<N>, s: string): (r: Read<map<string, Value<N>>>)
    ensures r.Some? ==> |r.value.1| < |s|
    decreases |s|, 2
  {
    if s == "" || s[0] != '"' then None
    else match ReadString(s[1..])
      case None => None
      case Some((key, colon)) =>
        if colon == "" || colon[0] != ':' then None
        else match ReadValue(num, colon[1..])
          case None => None
          case Some((v, after)) =>
            if after == "" then None
            else if after[0] == '}' then Some((map[key := v], after[1..]))
            else if after[0] != ',' then None
            else match ReadFields(num, after[1..])
              case None => None
              case Some((m, rest)) => if key in m then None else Some((m[key := v], rest))
  }

  // ---------- strings and numbers ----------

  lemma ReadQuotedChar(c: char, rest: string)
    ensures ReadChar(QuoteChar(c) + rest) == Some((c, rest))
  {
    var q := QuoteChar(c);
    var s := q + rest;
    assert s[|q|..] == rest;
    if |q| == 6 {
      assert HexDigitValue(s[4]) == Some(c as int / 16) && HexDigitValue(s[5]) == Some(c as int % 16);
    }
  }

  lemma {:induction false} ReadQuoted(t: string, rest: string)
    ensures ReadString(QuoteAll(t) + (['"'] + rest)) == Some((t, rest))
  {
    if t == "" {
      var s := "" + (['"'] + rest);
      assert s[0] == '"' && s[1..] == rest;
    } else {
      var q, tail := QuoteChar(t[0]), QuoteAll(t[1..]) + (['"'] + rest);
      assert q + tail == (q + QuoteAll(t[1..])) + (['"'] + rest);
      assert (q + tail)[0] == q[0];
      ReadQuotedChar(t[0], tail);
      ReadQuoted(t[1..], rest);
      assert t == [t[0]] + t[1..];
    }
  }

  lemma QuoteThen(t: string, rest: string)
    ensures var s := Quote(t) + rest;
      s[0] == '"' && ReadString(s[1..]) == Some((t, rest))
  {
    var s := Quote(t) + rest;
    assert s[1..] == QuoteAll(t) + (['"'] + rest);
    ReadQuoted(t, rest);
  }

  predicate NoNumber(rest: string) {
    rest == "" || !NumberChar(rest[0])
  }

  lemma {:induction false} SpanOf(p: string, rest: string)
    requires (forall c :: c in p ==> NumberChar(c)) && NoNumber(rest)
    ensures NumberSpan(p + rest) == |p|
  {
    if p == "" {
      assert p + rest == rest;
    } else {
      assert (p + rest)[0] == p[0] && (p + rest)[1..] == p[1..] + rest;
      SpanOf(p[1..], rest);
    }
  }

  lemma NotStart(s: string, p: string)
    requires s != "" && p != "" && s[0] != p[0]
    ensures !StartsWith(s, p)
  {
    if |p| <= |s| {
      assert s[..|p|][0] == s[0];
    }
  }

  /** The first character tells which kind of value follows. */
  lemma NoWord(s: string)
    requires s != "" && s[0] !in {'n', 't', 'f'}
    ensures !StartsWith(s, "null") && !StartsWith(s, "true") && !StartsWith(s, "false")
  {
    NotStart(s, "null");
    NotStart(s, "true");
    NotStart(s, "false");
  }

  lemma ReadTextValue<N>(num: Numbers<N>, s: string)
    requires s != "" && s[0] == '"' && ReadString(s[1..]).Some?
    ensures ReadValue(num, s) == Some((VString(ReadString(s[1..]).value.0), ReadString(s[1..]).value.1))
  {
    NoWord(s);
  }

  lemma ReadShown<N(!new)>(num: Numbers<N>, n: N, rest: string)
    requires Faithful(num) && NoNumber(rest)
    ensures ReadValue(num, num.show(n) + rest) == Some((VNumber(n), rest))
  {
    var p := num.show(n);
    var s := p + rest;
    SpanOf(p, rest);
    assert s[..|p|] == p && s[|p|..] == rest;
    assert p[0] in p && s[0] == p[0] && NumberChar(s[0]);
    NoWord(s);
  }

  // ---------- every value ----------

  /** No canonical text starts like the end of an array or an object. */
  lemma TextStarts<N(!new)>(num: Numbers<N>, v: Js<N>)
    requires Faithful(num) && Canon(num, v).Ok?
    ensures Canon(num, v).value != "" && Canon(num, v).value[0] !in {']', '}', ','}
  {
    if v.JNumber? {
      assert num.show(v.n)[0] in num.show(v.n);
    }
  }

  lemma JoinCons(text: string, texts: seq<string>, close: char, rest: string)
    ensures Join([text] + texts, ',') + ([close] + rest)
        == text + (if texts == [] then [close] + rest else [','] + (Join(texts, ',') + ([close] + rest)))
  {
    assert ([text] + texts)[1..] == texts;
  }

  lemma ReadLastItem<N>(num: Numbers<N>, text: string, x: Value<N>, rest: string)
    requires ReadValue(num, text + ([']'] + rest)) == Some((x, [']'] + rest))
    ensures ReadItems(num, text + ([']'] + rest)) == Some(([x], rest))
  {
    assert ([']'] + rest)[1..] == rest;
  }

  lemma ReadNextItem<N>(num: Numbers<N>, text: string, x: Value<N>, more: string, xs: seq<Value<N>>, rest: string)
    requires ReadValue(num, text + ([','] + more)) == Some((x, [','] + more))
    requires ReadItems(num, more) == Some((xs, rest))
    ensures ReadItems(num, text + ([','] + more)) == Some(([x] + xs, rest))
  {
    assert ([','] + more)[1..] == more;
  }

  lemma {:induction false} ReadCanonItems<N(!new)>(num: Numbers<N>, items: seq<Js<N>>, v: Js<N>, rest: string)
    requires Faithful(num) && items != [] && forall k :: 0 <= k < |items| ==> items[k] < v && Proper(items[k])
    requires CanonItems(num, items, v).Ok?
    ensures ReadItems(num, Join(CanonItems(num, items, v).value, ',') + ([']'] + rest))
        == Some((MeaningOf(items, v), rest))
    decreases v, 0, |items|
  {
    var tail, x := items[1..], Meaning(items[0]);
    var text, texts := Canon(num, items[0]).value, CanonItems(num, tail, v).value;
    assert CanonItems(num, items, v).value == [text] + texts;
    assert MeaningOf(items, v) == [x] + MeaningOf(tail, v);
    JoinCons(text, texts, ']', rest);
    if tail == [] {
      assert [x] + [] == [x];
      ReadCanon(num, items[0], [']'] + rest);
      ReadLastItem(num, text, x, rest);
    } else {
      var more := Join(texts, ',') + ([']'] + rest);
      ReadCanon(num, items[0], [','] + more);
      ReadCanonItems(num, tail, v, rest);
      ReadNextItem(num, text, x, more, MeaningOf(tail, v), rest);
    }
  }

  lemma {:induction false} FieldKeys<N>(entries: seq<Entry<N>>, v: Js<N>, key: string)
    requires forall k :: 0 <= k < |entries| ==> entries[k].value < v
    ensures key in Fields(entries, v) <==> exists k :: 0 <= k < |entries| && entries[k].key == key
  {
    if entries != [] {
      FieldKeys(entries[1..], v, key);
      if key in Fields(entries[1..], v) {
        var k :| 0 <= k < |entries[1..]| && entries[1..][k].key == key;
        assert entries[k + 1].key == key;
      }
      if k :| 1 <= k < |entries| && entries[k].key == key {
        assert entries[1..][k - 1].key == key;
      }
    }
  }

  lemma FieldText(key: string, text: string, after: string)
    ensures var s := (Quote(key) + ([':'] + text)) + after;
      s[0] == '"' && ReadString(s[1..]) == Some((key, [':'] + (text + after)))
  {
    QuoteThen(key, [':'] + (text + after));
    assert (Quote(key) + ([':'] + text)) + after == Quote(key) + ([':'] + (text + after));
  }

  lemma ReadLastField<N>(num: Numbers<N>, key: string, text: string, x: Value<N>, rest: string)
    requires ReadValue(num, text + (['}'] + rest)) == Some((x, ['}'] + rest))
    ensures ReadFields(num, (Quote(key) + ([':'] + text)) + (['}'] + rest)) == Some((map[key := x], rest))
  {
    var after := ['}'] + rest;
    FieldText(key, text, after);
    assert ([':'] + (text + after))[1..] == text + after;
    assert after[1..] == rest;
  }

  lemma ReadNextField<N>(num: Numbers<N>, key: string, text: string, x: Value<N>, more: string,
                         m: map<string, Value<N>>, rest: string)
    requires ReadValue(num, text + ([','] + more)) == Some((x, [','] + more))
    requires ReadFields(num, more) == Some((m, rest)) && key !in m
    ensures ReadFields(num, (Quote(key) + ([':'] + text)) + ([','] + more)) == Some((m[key := x], rest))
  {
    var after := [','] + more;
    FieldText(key, text, after);
    assert ([':'] + (text + after))[1..] == text + after;
    assert after[1..] == more;
  }

  lemma {:induction false} ReadCanonFields<N(!new)>(num: Numbers<N>, entries: seq<Entry<N>>, v: Js<N>, rest: string)
    requires Faithful(num) && entries != []
    requires forall k :: 0 <= k < |entries| ==> entries[k].value < v && Proper(entries[k].value)
    requires Sorting.DistinctKeys(KeyOf, entries)
    requires CanonFields(num, entries, v).Ok?
    ensures ReadFields(num, Join(CanonFields(num, entries, v).value, ',') + (['}'] + rest))
        == Some((Fields(entries, v), rest))
    decreases v, 0, |entries|
  {
    var e, tail := entries[0], entries[1..];
    var text, texts := Canon(num, e.value).value, CanonFields(num, tail, v).value;
    var field := Quote(e.key) + ([':'] + text);
    assert CanonFields(num, entries, v).value == [field] + texts;
    assert Fields(entries, v) == Fields(tail, v)[e.key := Meaning(e.value)];
    JoinCons(field, texts, '}', rest);
    if tail == [] {
      ReadCanon(num, e.value, ['}'] + rest);
      ReadLastField(num, e.key, text, Meaning(e.value), rest);
    } else {
      var more := Join(texts, ',') + (['}'] + rest);
      ReadCanon(num, e.value, [','] + more);
      NextKeyIsNew(entries, v);
      ReadCanonFields(num, tail, v, rest);
      ReadNextField(num, e.key, text, Meaning(e.value), more, Fields(tail, v), rest);
    }
  }

  lemma NextKeyIsNew<N>(entries: seq<Entry<N>>, v: Js<N>)
    requires entries != [] && Sorting.DistinctKeys(KeyOf, entries)
    requires forall k :: 0 <= k < |entries| ==> entries[k].value < v
    ensures Sorting.DistinctKeys(KeyOf, entries[1..])
    ensures entries[0].key !in Fields(entries[1..], v)
  {
    FieldKeys(entries[1..], v, entries[0].key);
    forall k | 0 <= k < |entries[1..]| ensures entries[1..][k].key != entries[0].key {
      assert KeyOf(entries[0]) != KeyOf(entries[k + 1]);
    }
    forall i, j | 0 <= i < j < |entries[1..]| ensures KeyOf(entries[1..][i]) != KeyOf(entries[1..][j]) {
      assert KeyOf(entries[i + 1]) != KeyOf(entries[j + 1]);
    }
  }

  /** Each key leads to the meaning of its own entry. */
  lemma {:induction false} FieldAt<N>(entries: seq<Entry<N>>, v: Js<N>, k: nat)
    requires forall i :: 0 <= i < |entries| ==> entries[i].value < v
    requires Sorting.DistinctKeys(KeyOf, entries) && k < |entries|
    ensures entries[k].key in Fields(entries, v) && Fields(entries, v)[entries[k].key] == Meaning(entries[k].value)
  {
    if k > 0 {
      NextKeyIsNew(entries, v);
      assert KeyOf(entries[0]) != KeyOf(entries[k]);
      FieldAt(entries[1..], v, k - 1);
    }
  }

  ghost predicate StrictlyOrdered<N>(es: seq<Entry<N>>) {
    forall i, j :: 0 <= i < j < |es| ==> TextLess(es[i].key, es[j].key)
  }

  /** What the canonicalizer iterates over: the same entries, strictly ordered by key. */
  lemma SortedEntries<N(!new)>(v: Js<N>)
    requires v.JObject? && Sorting.DistinctKeys(KeyOf, v.entries)
    ensures var es := SortEntries(v.entries);
      && multiset(es) == multiset(v.entries)
      && Sorting.DistinctKeys(KeyOf, es)
      && StrictlyOrdered(es)
      && (forall k :: 0 <= k < |es| ==> es[k] in v.entries && es[k].value < v)
      && (forall e :: e in v.entries ==> e in es)
  {
    hide TextLeq;
    EntryOrder<N>();
    var es := SortEntries(v.entries);
    Sorting.SortFacts(EntryLeq, v.entries);
    Sorting.PermutationKeepsKeys(KeyOf, v.entries, es);
    forall i, j | 0 <= i < j < |es| ensures TextLess(es[i].key, es[j].key) {
      assert EntryLeq(es[i], es[j]) && KeyOf(es[i]) != KeyOf(es[j]);
    }
    forall k | 0 <= k < |es| ensures es[k] in v.entries && es[k].value < v {
      assert es[k] in es;
    }
  }

  lemma SameKeys<N>(a: seq<Entry<N>>, b: seq<Entry<N>>, v: Js<N>, key: string)
    requires forall k :: 0 <= k < |a| ==> a[k].value < v && a[k] in b
    requires forall k :: 0 <= k < |b| ==> b[k].value < v
    requires key in Fields(a, v)
    ensures key in Fields(b, v)
  {
    FieldKeys(a, v, key);
    FieldKeys(b, v, key);
    var k :| 0 <= k < |a| && a[k].key == key;
    assert a[k] in b;
    var i :| 0 <= i < |b| && b[i] == a[k];
    assert b[i].key == key;
  }

  lemma SameField<N>(a: seq<Entry<N>>, b: seq<Entry<N>>, v: Js<N>, key: string)
    requires forall k :: 0 <= k < |a| ==> a[k].value < v && a[k] in b
    requires forall k :: 0 <= k < |b| ==> b[k].value < v
    requires Sorting.DistinctKeys(KeyOf, a) && Sorting.DistinctKeys(KeyOf, b)
    requires key in Fields(a, v) && key in Fields(b, v)
    ensures Fields(a, v)[key] == Fields(b, v)[key]
  {
    FieldKeys(a, v, key);
    var k :| 0 <= k < |a| && a[k].key == key;
    assert a[k] in b;
    var i :| 0 <= i < |b| && b[i] == a[k];
    FieldAt(a, v, k);
    FieldAt(b, v, i);
  }

  /** Rearranging entries does not change the map they stand for. */
  lemma FieldsOfSorted<N(!new)>(v: Js<N>)
    requires v.JObject? && Sorting.DistinctKeys(KeyOf, v.entries)
    requires forall k :: 0 <= k < |SortEntries(v.entries)| ==> SortEntries(v.entries)[k].value < v
    ensures Fields(SortEntries(v.entries), v) == Fields(v.entries, v)
  {
    var es := SortEntries(v.entries);
    SortedEntries(v);
    assert forall k :: 0 <= k < |v.entries| ==> v.entries[k] in v.entries;
    forall key ensures key in Fields(es, v) <==> key in Fields(v.entries, v) {
      if key in Fields(es, v) {
        SameKeys(es, v.entries, v, key);
      }
      if key in Fields(v.entries, v) {
        SameKeys(v.entries, es, v, key);
      }
    }
    forall key | key in Fields(es, v) ensures Fields(es, v)[key] == Fields(v.entries, v)[key] {
      SameField(es, v.entries, v, key);
    }
  }

  /** An opening bracket, the inside, the closing bracket and what follows. */
  lemma Enclosed(open: char, inner: string, close: char, rest: string)
    ensures ([open] + (inner + [close])) + rest == [open] + (inner + ([close] + rest))
  {
  }

  lemma ReadBracket<N>(num: Numbers<N>, inner: string, xs: seq<Value<N>>, rest: string)
    requires inner != "" && inner[0] != ']' && ReadItems(num, inner) == Some((xs, rest))
    ensures ReadValue(num, ['['] + inner) == Some((VArray(xs), rest))
  {
    var s := ['['] + inner;
    assert s[0] == '[' && s[1] == inner[0] && s[1..] == inner;
    assert !StartsWith(s, "[]");
    NoWord(s);
  }

  lemma ReadBrace<N>(num: Numbers<N>, inner: string, m: map<string, Value<N>>, rest: string)
    requires inner != "" && inner[0] != '}' && ReadFields(num, inner) == Some((m, rest))
    ensures ReadValue(num, ['{'] + inner) == Some((VObject(m), rest))
  {
    var s := ['{'] + inner;
    assert s[0] == '{' && s[1] == inner[0] && s[1..] == inner;
    assert !StartsWith(s, "{}");
    NoWord(s);
  }

  lemma ReadEmpty<N>(num: Numbers<N>, rest: string)
    ensures ReadValue(num, ['['] + ([']'] + rest)) == Some((VArray([]), rest))
    ensures ReadValue(num, ['{'] + (['}'] + rest)) == Some((VObject(map[]), rest))
  {
    var a, o := ['['] + ([']'] + rest), ['{'] + (['}'] + rest);
    assert a[0] == '[' && StartsWith(a, "[]") && a[2..] == rest;
    assert o[0] == '{' && StartsWith(o, "{}") && o[2..] == rest;
  }

  lemma JoinStarts(text: string, texts: seq<string>, after: string)
    requires text != ""
    ensures var s := Join([text] + texts, ',') + after; s != "" && s[0] == text[0]
  {
    assert ([text] + texts)[1..] == texts;
  }

  lemma ReadCanonArray<N(!new)>(num: Numbers<N>, v: Js<N>, rest: string)
    requires Faithful(num) && Proper(v) && Canon(num, v).Ok? && v.JArray?
    ensures ReadValue(num, Canon(num, v).value + rest) == Some((Meaning(v), rest))
    decreases v, 1
  {
    var texts := CanonItems(num, v.items, v).value;
    Enclosed('[', Join(texts, ','), ']', rest);
    if v.items == [] {
      assert "" + ([']'] + rest) == [']'] + rest;
      ReadEmpty(num, rest);
    } else {
      ReadCanonItems(num, v.items, v, rest);
      TextStarts(num, v.items[0]);
      assert texts == [texts[0]] + texts[1..] && texts[0] == Canon(num, v.items[0]).value;
      JoinStarts(texts[0], texts[1..], [']'] + rest);
      ReadBracket(num, Join(texts, ',') + ([']'] + rest), MeaningOf(v.items, v), rest);
    }
  }

  lemma ReadCanonObject<N(!new)>(num: Numbers<N>, v: Js<N>, rest: string)
    requires Faithful(num) && Proper(v) && Canon(num, v).Ok? && v.JObject?
    ensures ReadValue(num, Canon(num, v).value + rest) == Some((Meaning(v), rest))
    decreases v, 1
  {
    var es := SortEntries(v.entries);
    SortedEntriesSmaller(v);
    SortedEntries(v);
    FieldsOfSorted(v);
    var texts := CanonFields(num, es, v).value;
    Enclosed('{', Join(texts, ','), '}', rest);
    if es == [] {
      assert "" + (['}'] + rest) == ['}'] + rest;
      ReadEmpty(num, rest);
    } else {
      forall k | 0 <= k < |es| ensures Proper(es[k].value) {
        assert es[k] in v.entries;
      }
      ReadCanonFields(num, es, v, rest);
      assert texts == [texts[0]] + texts[1..] && texts[0][0] == '"';
      JoinStarts(texts[0], texts[1..], ['}'] + rest);
      ReadBrace(num, Join(texts, ',') + (['}'] + rest), Fields(es, v), rest);
    }
  }

  lemma ReadCanonWord<N(!new)>(num: Numbers<N>, v: Js<N>, rest: string)
    requires v.JNull? || v.JBool?
    ensures ReadValue(num, Canon(num, v).value + rest) == Some((Meaning(v), rest))
  {
    ReadWord(num, if v.JNull? then "null" else if v.b then "true" else "false", rest);
  }

  lemma ReadCanonString<N(!new)>(num: Numbers<N>, v: Js<N>, rest: string)
    requires v.JString?
    ensures Canon(num, v).Ok? && ReadValue(num, Canon(num, v).value + rest) == Some((Meaning(v), rest))
  {
    QuoteThen(v.s, rest);
    ReadTextValue(num, Quote(v.s) + rest);
  }

  lemma ReadCanonNumber<N(!new)>(num: Numbers<N>, v: Js<N>, rest: string)
    requires Faithful(num) && v.JNumber? && Canon(num, v).Ok? && NoNumber(rest)
    ensures ReadValue(num, Canon(num, v).value + rest) == Some((Meaning(v), rest))
  {
    ReadShown(num, v.n, rest);
  }

  /** The reader gives back what the text was made from, and stops exactly at its end. */
  lemma {:induction false} ReadCanon<N(!new)>(num: Numbers<N>, v: Js<N>, rest: string)
    requires Faithful(num) && Proper(v) && Canon(num, v).Ok? && NoNumber(rest)
    ensures ReadValue(num, Canon(num, v).value + rest) == Some((Meaning(v), rest))
    decreases v, 2
  {
    if v.JArray? {
      ReadCanonArray(num, v, rest);
    } else if v.JObject? {
      ReadCanonObject(num, v, rest);
    } else if v.JNull? || v.JBool? {
      ReadCanonWord(num, v, rest);
    } else if v.JString? {
      ReadCanonString(num, v, rest);
    } else {
      ReadCanonNumber(num, v, rest);
    }
  }

  lemma ReadWord<N>(num: Numbers<N>, w: string, rest: string)
    requires w in {"null", "true", "false"}
    ensures ReadValue(num, w + rest)
        == Some((if w == "null" then VNull else VBool(w == "true"), rest))
  {
    var s := w + rest;
    assert s[..|w|] == w && s[|w|..] == rest && s[0] == w[0];
  }

  // ---------- main results ----------

  lemma {:induction false} CanonItemsIff<N(!new)>(num: Numbers<N>, items: seq<Js<N>>, v: Js<N>)
    requires forall k :: 0 <= k < |items| ==> items[k] < v
    ensures CanonItems(num, items, v).Ok? <==> forall k :: 0 <= k < |items| ==> Accepted(items[k])
    decreases v, 0, |items|
  {
    if items != [] {
      AcceptedIff(num, items[0]);
      CanonItemsIff(num, items[1..], v);
      assert items == [items[0]] + items[1..];
    }
  }

  lemma {:induction false} CanonFieldsIff<N(!new)>(num: Numbers<N>, entries: seq<Entry<N>>, v: Js<N>)
    requires forall k :: 0 <= k < |entries| ==> entries[k].value < v
    ensures CanonFields(num, entries, v).Ok? <==> forall k :: 0 <= k < |entries| ==> Accepted(entries[k].value)
    decreases v, 0, |entries|
  {
    if entries != [] {
      AcceptedIff(num, entries[0].value);
      CanonFieldsIff(num, entries[1..], v);
      assert entries == [entries[0]] + entries[1..];
    }
  }

  /** Canonicalization succeeds exactly on values without anything JSON has no form for. */
  lemma {:induction false} AcceptedIff<N(!new)>(num: Numbers<N>, v: Js<N>)
    ensures Canon(num, v).Ok? <==> Accepted(v)
    decreases v, 1
  {
    match v
    case JArray(items) => CanonItemsIff(num, items, v);
    case JObject(entries) =>
      SortedEntriesSmaller(v);
      CanonFieldsIff(num, SortEntries(entries), v);
      EntryOrder<N>();
      Sorting.SortFacts(EntryLeq, entries);
      SortedAccepted(entries);
    case _ =>
  }

  lemma SortedAccepted<N(!new)>(entries: seq<Entry<N>>)
    ensures (forall k :: 0 <= k < |SortEntries(entries)| ==> Accepted(SortEntries(entries)[k].value))
        <==> (forall k :: 0 <= k < |entries| ==> Accepted(entries[k].value))
  {
    var es := SortEntries(entries);
    EntryOrder<N>();
    Sorting.SortFacts(EntryLeq, entries);
    assert (forall k :: 0 <= k < |es| ==> Accepted(es[k].value)) <==> forall e :: e in es ==> Accepted(e.value);
    assert (forall k :: 0 <= k < |entries| ==> Accepted(entries[k].value)) <==>
        forall e :: e in entries ==> Accepted(e.value);
  }

  /** Read back, the canonical text is the value itself, up to the order of keys. */
  lemma ReadBack<N(!new)>(num: Numbers<N>, v: Js<N>)
    requires Faithful(num) && Proper(v) && Accepted(v)
    ensures Canon(num, v).Ok? && ReadValue(num, Canon(num, v).value) == Some((Meaning(v), ""))
  {
    AcceptedIff(num, v);
    ReadCanon(num, v, "");
    assert Canon(num, v).value + "" == Canon(num, v).value;
  }

  lemma {:induction false} SameItems<N(!new)>(num: Numbers<N>, xs: seq<Js<N>>, ys: seq<Js<N>>, v: Js<N>, w: Js<N>)
    requires forall k :: 0 <= k < |xs| ==> xs[k] < v && Proper(xs[k]) && Accepted(xs[k])
    requires forall k :: 0 <= k < |ys| ==> ys[k] < w && Proper(ys[k]) && Accepted(ys[k])
    requires MeaningOf(xs, v) == MeaningOf(ys, w)
    ensures CanonItems(num, xs, v) == CanonItems(num, ys, w)
    decreases v, 0, |xs|
  {
    if xs == [] || ys == [] {
      assert |MeaningOf(xs, v)| == |xs| && |MeaningOf(ys, w)| == |ys|;
    } else {
      var mx, my := MeaningOf(xs, v), MeaningOf(ys, w);
      assert mx[0] == Meaning(xs[0]) && my[0] == Meaning(ys[0]);
      assert mx[1..] == MeaningOf(xs[1..], v) && my[1..] == MeaningOf(ys[1..], w);
      SameMeaningSameText(num, xs[0], ys[0]);
      SameItems(num, xs[1..], ys[1..], v, w);
    }
  }

  lemma {:induction false} SameFields<N(!new)>(num: Numbers<N>, xs: seq<Entry<N>>, ys: seq<Entry<N>>, v: Js<N>,
                                        w: Js<N>)
    requires forall k :: 0 <= k < |xs| ==> xs[k].value < v && Proper(xs[k].value) && Accepted(xs[k].value)
    requires forall k :: 0 <= k < |ys| ==> ys[k].value < w && Proper(ys[k].value) && Accepted(ys[k].value)
    requires |xs| == |ys|
    requires forall k :: 0 <= k < |xs| ==> xs[k].key == ys[k].key && Meaning(xs[k].value) == Meaning(ys[k].value)
    ensures CanonFields(num, xs, v) == CanonFields(num, ys, w)
    decreases v, 0, |xs|
  {
    if xs != [] {
      SameMeaningSameText(num, xs[0].value, ys[0].value);
      SameFields(num, xs[1..], ys[1..], v, w);
    }
  }

  function Itself(key: string): string {
    key
  }

  lemma OrderedKeys<N>(es: seq<Entry<N>>)
    requires StrictlyOrdered(es)
    ensures Sorting.Sorted(TextLeq, Sorting.Map(KeyOf, es))
    ensures Sorting.DistinctKeys(Itself, Sorting.Map(KeyOf, es))
  {
    var keys := Sorting.Map(KeyOf, es);
    forall i, j | 0 <= i < j < |keys| ensures TextLeq(keys[i], keys[j]) && Itself(keys[i]) != Itself(keys[j]) {
      assert TextLess(es[i].key, es[j].key);
    }
  }

  lemma KeyListed<N>(es: seq<Entry<N>>, v: Js<N>, key: string)
    requires forall k :: 0 <= k < |es| ==> es[k].value < v
    ensures key in Sorting.Map(KeyOf, es) <==> key in Fields(es, v)
  {
    var keys := Sorting.Map(KeyOf, es);
    FieldKeys(es, v, key);
    if key in Fields(es, v) {
      var k :| 0 <= k < |es| && es[k].key == key;
      assert keys[k] == KeyOf(es[k]) == key;
    }
    if key in keys {
      var k :| 0 <= k < |keys| && keys[k] == key;
      assert KeyOf(es[k]) == keys[k];
    }
  }

  /** Two lists strictly ordered by key that stand for the same map agree entry by entry. */
  lemma AlignedKeys<N(!new)>(xs: seq<Entry<N>>, ys: seq<Entry<N>>, v: Js<N>, w: Js<N>)
    requires forall k :: 0 <= k < |xs| ==> xs[k].value < v
    requires forall k :: 0 <= k < |ys| ==> ys[k].value < w
    requires StrictlyOrdered(xs) && StrictlyOrdered(ys)
    requires Fields(xs, v) == Fields(ys, w)
    ensures Sorting.Map(KeyOf, xs) == Sorting.Map(KeyOf, ys)
  {
    var kx, ky := Sorting.Map(KeyOf, xs), Sorting.Map(KeyOf, ys);
    OrderedKeys(xs);
    OrderedKeys(ys);
    forall key ensures key in kx <==> key in ky {
      KeyListed(xs, v, key);
      KeyListed(ys, w, key);
    }
    Sorting.SameElementsPermutation(Itself, kx, ky);
    TextOrderIsTotal();
    Sorting.SortedUnique(TextLeq, kx, ky);
  }

  lemma AlignedEntries<N(!new)>(xs: seq<Entry<N>>, ys: seq<Entry<N>>, v: Js<N>, w: Js<N>)
    requires forall k :: 0 <= k < |xs| ==> xs[k].value < v
    requires forall k :: 0 <= k < |ys| ==> ys[k].value < w
    requires StrictlyOrdered(xs) && StrictlyOrdered(ys)
    requires Sorting.DistinctKeys(KeyOf, xs) && Sorting.DistinctKeys(KeyOf, ys)
    requires Fields(xs, v) == Fields(ys, w)
    ensures |xs| == |ys|
    ensures forall k :: 0 <= k < |xs| ==> xs[k].key == ys[k].key && Meaning(xs[k].value) == Meaning(ys[k].value)
  {
    AlignedKeys(xs, ys, v, w);
    assert |xs| == |Sorting.Map(KeyOf, xs)| && |ys| == |Sorting.Map(KeyOf, ys)|;
    forall k | 0 <= k < |xs| ensures xs[k].key == ys[k].key && Meaning(xs[k].value) == Meaning(ys[k].value) {
      assert Sorting.Map(KeyOf, xs)[k] == Sorting.Map(KeyOf, ys)[k];
      FieldAt(xs, v, k);
      FieldAt(ys, w, k);
    }
  }

  lemma SameObjects<N(!new)>(num: Numbers<N>, v: Js<N>, w: Js<N>)
    requires v.JObject? && w.JObject? && Proper(v) && Proper(w) && Accepted(v) && Accepted(w)
    requires Meaning(v) == Meaning(w)
    ensures Canon(num, v) == Canon(num, w)
    decreases v, 1
  {
    var xs, ys := SortEntries(v.entries), SortEntries(w.entries);
    SortedEntries(v);
    SortedEntries(w);
    FieldsOfSorted(v);
    FieldsOfSorted(w);
    AlignedEntries(xs, ys, v, w);
    SortedSound(v);
    SortedSound(w);
    SameFields(num, xs, ys, v, w);
  }

  lemma SortedSound<N(!new)>(v: Js<N>)
    requires v.JObject? && Proper(v) && Accepted(v)
    ensures forall k :: 0 <= k < |SortEntries(v.entries)| ==>
        Proper(SortEntries(v.entries)[k].value) && Accepted(SortEntries(v.entries)[k].value)
  {
    SortedEntries(v);
    forall k | 0 <= k < |SortEntries(v.entries)|
      ensures Proper(SortEntries(v.entries)[k].value) && Accepted(SortEntries(v.entries)[k].value)
    {
      assert SortEntries(v.entries)[k] in v.entries;
    }
  }

  lemma {:induction false} SameMeaningSameText<N(!new)>(num: Numbers<N>, v: Js<N>, w: Js<N>)
    requires Proper(v) && Proper(w) && Accepted(v) && Accepted(w)
    requires Meaning(v) == Meaning(w)
    ensures Canon(num, v) == Canon(num, w)
    decreases v, 2
  {
    if v.JArray? && w.JArray? {
      SameItems(num, v.items, w.items, v, w);
    } else if v.JObject? && w.JObject? {
      SameObjects(num, v, w);
    }
  }

  /**
   Two accepted values have the same canonical text exactly when they are the same value up to the order
   of object keys, at every depth.
   */
  lemma CanonicalTextIsMeaning<N(!new)>(num: Numbers<N>, v: Js<N>, w: Js<N>)
    requires Faithful(num) && Proper(v) && Proper(w) && Accepted(v) && Accepted(w)
    ensures Canon(num, v) == Canon(num, w) <==> Meaning(v) == Meaning(w)
  {
    ReadBack(num, v);
    ReadBack(num, w);
    if Meaning(v) == Meaning(w) {
      SameMeaningSameText(num, v, w);
    }
  }
}
