/**
 The canonical JSON text of lib/fulfillment-hash.ts, read back by a parser written only to say what the
 text means. Numbers are abstract: all that is asked of their printed form is that it can be read back.
 */
module JsonCanonical {
  import opened Common
  import opened Text
  import opened TextOrder
  import Sorting

  /** A JavaScript value as the canonicalizer sees it; entries are in property order. */
  datatype Js<N> =
    | JNull
    | JBool(b: bool)
    | JNumber(n: N)
    | JNonFinite
    | JBigInt
    | JString(s: string)
    | JMissing                      // undefined, function or symbol
    | JExotic                       // an object that is neither plain nor an array
    | JArray(items: seq<Js<N>>)
    | JObject(entries: seq<Entry<N>>)

  datatype Entry<N> = Entry(key: string, value: Js<N>)

  /** What a value means: an object is a finite map, so the order of its keys is gone. */
  datatype Value<N> =
    | VNull
    | VBool(b: bool)
    | VNumber(n: N)
    | VString(s: string)
    | VArray(items: seq<Value<N>>)
    | VObject(fields: map<string, Value<N>>)

  datatype JsonError =
    NonFiniteNumber | BigIntUnsupported | ArrayUnsupportedValue | ObjectUnsupportedValue | NonPlainObject

  datatype Result<+T> = Ok(value: T) | Err(error: JsonError)

  /** How finite numbers are written, and a reader for what was written. */
  datatype Numbers<!N> = Numbers(show: N -> string, read: string -> Option<N>)

  predicate NumberChar(c: char) {
    '0' <= c <= '9' || c in {'+', '-', '.', 'e', 'E'}
  }

  ghost predicate Faithful<N(!new)>(num: Numbers<N>) {
    forall n: N ::
      num.read(num.show(n)) == Some(n) && num.show(n) != "" && forall c :: c in num.show(n) ==> NumberChar(c)
  }

  // ---------- strings ----------

  function LowerHex(n: int): (c: char)
    requires 0 <= n < 16
  {
    if n < 10 then ('0' as int + n) as char else ('a' as int + n - 10) as char
  }

  /** JSON.stringify on one character (section 25.5.4 of ECMA-262). */
  function QuoteChar(c: char): (s: string)
    ensures s != "" && s[0] != '"'
  {
    if c == '"' then ['\\', '"']
    else if c == '\\' then ['\\', '\\']
    else if c == '\U{0008}' then ['\\', 'b']
    else if c == '\t' then ['\\', 't']
    else if c == '\n' then ['\\', 'n']
    else if c == '\U{000C}' then ['\\', 'f']
    else if c == '\r' then ['\\', 'r']
    else if c as int < 0x20 then ['\\', 'u', '0', '0', LowerHex(c as int / 16), LowerHex(c as int % 16)]
    else [c]
  }

  function QuoteAll(s: string): string {
    if s == [] then "" else QuoteChar(s[0]) + QuoteAll(s[1..])
  }

  function Quote(s: string): string {
    ['"'] + (QuoteAll(s) + ['"'])
  }

  // ---------- the canonical text ----------

  predicate EntryLeq<N>(a: Entry<N>, b: Entry<N>) {
    TextLeq(a.key, b.key)
  }

  function SortEntries<N>(entries: seq<Entry<N>>): seq<Entry<N>> {
    Sorting.Sort(EntryLeq, entries)
  }

  lemma EntryOrder<N(!new)>()
    ensures Sorting.Preorder<Entry<N>>(EntryLeq)
  {
    TextOrderIsTotal();
  }

  lemma SortedEntriesSmaller<N(!new)>(v: Js<N>)
    requires v.JObject?
    ensures forall k :: 0 <= k < |SortEntries(v.entries)| ==> SortEntries(v.entries)[k].value < v
  {
    EntryOrder<N>();
    Sorting.SortFacts(EntryLeq, v.entries);
    forall k | 0 <= k < |SortEntries(v.entries)| ensures SortEntries(v.entries)[k].value < v {
      assert SortEntries(v.entries)[k] in v.entries;
    }
  }

  /** canonicalizeJsonValue. */
  function Canon<N(!new)>(num: Numbers<N>, v: Js<N>): Result<string>
    decreases v, 1
  {
    match v
    case JNull => Ok("null")
    case JBool(b) => Ok(if b then "true" else "false")
    case JNumber(n) => Ok(num.show(n))
    case JNonFinite => Err(NonFiniteNumber)
    case JBigInt => Err(BigIntUnsupported)
    case JString(s) => Ok(Quote(s))
    case JMissing => Err(NonPlainObject)
    case JExotic => Err(NonPlainObject)
    case JArray(items) =>
      (match CanonItems(num, items, v)
       case Err(e) => Err(e)
       case Ok(texts) => Ok(['['] + (Join(texts, ',') + [']'])))
    case JObject(entries) =>
      SortedEntriesSmaller(v);
      match CanonFields(num, SortEntries(entries), v)
      case Err(e) => Err(e)
      case Ok(texts) => Ok(['{'] + (Join(texts, ',') + ['}']))
  }

  function CanonItems<N(!new)>(num: Numbers<N>, items: seq<Js<N>>, v: Js<N>): (r: Result<seq<string>>)
    requires forall k :: 0 <= k < |items| ==> items[k] < v
    ensures r.Ok? ==> |r.value| == |items|
    decreases v, 0, |items|
  {
    if items == [] then Ok([])
    else if items[0].JMissing? then Err(ArrayUnsupportedValue)
    else match Canon(num, items[0])
      case Err(e) => Err(e)
      case Ok(text) =>
        match CanonItems(num, items[1..], v)
        case Err(e) => Err(e)
        case Ok(rest) => Ok([text] + rest)
  }

  function CanonFields<N(!new)>(num: Numbers<N>, entries: seq<Entry<N>>, v: Js<N>): (r: Result<seq<string>>)
    requires forall k :: 0 <= k < |entries| ==> entries[k].value < v
    ensures r.Ok? ==> |r.value| == |entries|
    decreases v, 0, |entries|
  {
    if entries == [] then Ok([])
    else if entries[0].value.JMissing? then Err(ObjectUnsupportedValue)
    else match Canon(num, entries[0].value)
      case Err(e) => Err(e)
      case Ok(text) =>
        match CanonFields(num, entries[1..], v)
        case Err(e) => Err(e)
        case Ok(rest) => Ok([Quote(entries[0].key) + ([':'] + text)] + rest)
  }

  // ---------- what a value means ----------

  function KeyOf<N>(e: Entry<N>): string {
    e.key
  }

  /** A JavaScript object has no key twice. */
  ghost predicate Proper<N>(v: Js<N>) {
    match v
    case JArray(items) => forall k :: 0 <= k < |items| ==> Proper(items[k])
    case JObject(entries) =>
      Sorting.DistinctKeys(KeyOf, entries) && forall k :: 0 <= k < |entries| ==> Proper(entries[k].value)
    case _ => true
  }

  /** Built from null, booleans, finite numbers, strings, arrays and plain objects only. */
  predicate Accepted<N>(v: Js<N>) {
    match v
    case JNonFinite => false
    case JBigInt => false
    case JMissing => false
    case JExotic => false
    case JArray(items) => forall k :: 0 <= k < |items| ==> Accepted(items[k])
    case JObject(entries) => forall k :: 0 <= k < |entries| ==> Accepted(entries[k].value)
    case _ => true
  }

  function Meaning<N>(v: Js<N>): Value<N>
    decreases v, 1
  {
    match v
    case JNull => VNull
    case JBool(b) => VBool(b)
    case JNumber(n) => VNumber(n)
    case JString(s) => VString(s)
    case JArray(items) => VArray(MeaningOf(items, v))
    case JObject(entries) => VObject(Fields(entries, v))
    case _ => VNull
  }

  function MeaningOf<N>(items: seq<Js<N>>, v: Js<N>): (r: seq<Value<N>>)
    requires forall k :: 0 <= k < |items| ==> items[k] < v
    ensures |r| == |items|
    decreases v, 0, |items|
  {
    if items == [] then [] else [Meaning(items[0])] + MeaningOf(items[1..], v)
  }

  function Fields<N>(entries: seq<Entry<N>>, v: Js<N>): map<string, Value<N>>
    requires forall k :: 0 <= k < |entries| ==> entries[k].value < v
    decreases v, 0, |entries|
  {
    if entries == [] then map[]
    else Fields(entries[1..], v)[entries[0].key := Meaning(entries[0].value)]
  }
}
