/**
 Why a value is refused by the canonicalizer, and how a string is quoted: the refusal names the first part of the value,
 in the order in which it would be printed, that has no canonical text.
 */
module JsonFaults {
  import opened JsonCanonical
  import opened JsonReader
  import Sorting

  function ValuesOf<N>(entries: seq<Entry<N>>): (vs: seq<Js<N>>)
    ensures |vs| == |entries| && forall k :: 0 <= k < |entries| ==> vs[k] == entries[k].value
  {
    seq(|entries|, k requires 0 <= k < |entries| => entries[k].value)
  }

  /** The parts of a value in the order in which they are printed: an object's by its sorted keys. */
  function Parts<N(!new)>(v: Js<N>): (ps: seq<Js<N>>)
    ensures forall k :: 0 <= k < |ps| ==> ps[k] < v
  {
    match v
    case JArray(items) => items
    case JObject(entries) =>
      SortedEntriesSmaller(v);
      ValuesOf(SortEntries(entries))
    case _ => []
  }

  /** What is wrong with a value by itself; something missing inside an array or object is the container's fault. */
  function OwnFault<N>(v: Js<N>): JsonError {
    match v
    case JNonFinite => NonFiniteNumber
    case JBigInt => BigIntUnsupported
    case _ => NonPlainObject
  }

  predicate IsContainer<N>(v: Js<N>) {
    v.JArray? || v.JObject?
  }

  /** The path leads to the first part at fault: on every level, everything printed before it is accepted. */
  ghost predicate LeadsTo<N(!new)>(v: Js<N>, path: seq<nat>, e: JsonError)
    decreases |path|
  {
    if path == [] then !IsContainer(v) && !Accepted(v) && e == OwnFault(v)
    else PartFaulty(v, Parts(v), path[0], path[1..], e)
  }

  ghost predicate PartFaulty<N(!new)>(v: Js<N>, parts: seq<Js<N>>, k: nat, rest: seq<nat>, e: JsonError)
    decreases |rest| + 1, 0
  {
    && k < |parts| && (forall j :: 0 <= j < k ==> Accepted(parts[j]))
    && if parts[k].JMissing?
       then rest == [] && e == if v.JArray? then ArrayUnsupportedValue else ObjectUnsupportedValue
       else LeadsTo(parts[k], rest, e)
  }

  // ---------- every refusal has such a path ----------

  lemma PartMore<N(!new)>(v: Js<N>, first: Js<N>, parts: seq<Js<N>>, k: nat, rest: seq<nat>, e: JsonError)
    requires Accepted(first) && PartFaulty(v, parts, k, rest, e)
    ensures PartFaulty(v, [first] + parts, k + 1, rest, e)
  {
    var all := [first] + parts;
    forall j | 0 <= j < k + 1 ensures Accepted(all[j]) {
      if j > 0 {
        assert all[j] == parts[j - 1];
      }
    }
  }

  lemma {:induction false} ItemsFault<N(!new)>(num: Numbers<N>, items: seq<Js<N>>, v: Js<N>)
    returns (k: nat, rest: seq<nat>)
    requires v.JArray? && (forall i :: 0 <= i < |items| ==> items[i] < v) && CanonItems(num, items, v).Err?
    ensures PartFaulty(v, items, k, rest, CanonItems(num, items, v).error)
    decreases v, 0, |items|
  {
    k, rest := 0, [];
    if !items[0].JMissing? {
      AcceptedIff(num, items[0]);
      if Canon(num, items[0]).Err? {
        rest := FirstFault(num, items[0]);
      } else {
        k, rest := ItemsFault(num, items[1..], v);
        PartMore(v, items[0], items[1..], k, rest, CanonItems(num, items, v).error);
        assert [items[0]] + items[1..] == items;
        k := k + 1;
      }
    }
  }

  lemma {:induction false} FieldsFault<N(!new)>(num: Numbers<N>, entries: seq<Entry<N>>, v: Js<N>)
    returns (k: nat, rest: seq<nat>)
    requires v.JObject? && (forall i :: 0 <= i < |entries| ==> entries[i].value < v)
    requires CanonFields(num, entries, v).Err?
    ensures PartFaulty(v, ValuesOf(entries), k, rest, CanonFields(num, entries, v).error)
    decreases v, 0, |entries|
  {
    k, rest := 0, [];
    var first := entries[0].value;
    if !first.JMissing? {
      AcceptedIff(num, first);
      if Canon(num, first).Err? {
        rest := FirstFault(num, first);
      } else {
        k, rest := FieldsFault(num, entries[1..], v);
        PartMore(v, first, ValuesOf(entries[1..]), k, rest, CanonFields(num, entries, v).error);
        assert [first] + ValuesOf(entries[1..]) == ValuesOf(entries);
        k := k + 1;
      }
    }
  }

  /** Every refusal names the fault of the first part at fault. */
  lemma {:induction false} FirstFault<N(!new)>(num: Numbers<N>, v: Js<N>) returns (path: seq<nat>)
    requires Canon(num, v).Err?
    ensures LeadsTo(v, path, Canon(num, v).error)
    decreases v, 1
  {
    path := [];
    match v
    case JArray(items) =>
      var k, rest := ItemsFault(num, items, v);
      path := [k] + rest;
      assert path[1..] == rest;
    case JObject(entries) =>
      SortedEntriesSmaller(v);
      var k, rest := FieldsFault(num, SortEntries(entries), v);
      path := [k] + rest;
      assert path[1..] == rest;
    case _ =>
  }

  // ---------- and every such path is a refusal ----------

  lemma {:induction false} ItemsRefused<N(!new)>(num: Numbers<N>, items: seq<Js<N>>, v: Js<N>, k: nat, rest: seq<nat>,
                                                 e: JsonError)
    requires v.JArray? && (forall i :: 0 <= i < |items| ==> items[i] < v) && PartFaulty(v, items, k, rest, e)
    ensures CanonItems(num, items, v) == Err(e)
    decreases |rest| + 1, 0, |items|
  {
    AcceptedIff(num, items[0]);
    if k > 0 {
      assert Accepted(items[0]);
      assert forall j :: 0 <= j < k - 1 ==> items[1..][j] == items[j + 1];
      ItemsRefused(num, items[1..], v, k - 1, rest, e);
    } else if !items[0].JMissing? {
      PathIsRefused(num, items[0], rest, e);
    }
  }

  lemma FaultInTail<N(!new)>(entries: seq<Entry<N>>, v: Js<N>, k: nat, rest: seq<nat>, e: JsonError)
    requires k > 0 && PartFaulty(v, ValuesOf(entries), k, rest, e)
    ensures Accepted(entries[0].value) && PartFaulty(v, ValuesOf(entries[1..]), k - 1, rest, e)
  {
    var all, tail := ValuesOf(entries), ValuesOf(entries[1..]);
    assert Accepted(all[0]);
    forall j | 0 <= j < |tail| ensures tail[j] == all[j + 1] && (j < k - 1 ==> Accepted(tail[j])) {
    }
  }

  lemma {:induction false} FieldsRefused<N(!new)>(num: Numbers<N>, entries: seq<Entry<N>>, v: Js<N>, k: nat,
                                                  rest: seq<nat>, e: JsonError)
    requires v.JObject? && (forall i :: 0 <= i < |entries| ==> entries[i].value < v)
    requires PartFaulty(v, ValuesOf(entries), k, rest, e)
    ensures CanonFields(num, entries, v) == Err(e)
    decreases |rest| + 1, 0, |entries|
  {
    AcceptedIff(num, entries[0].value);
    if k > 0 {
      FaultInTail(entries, v, k, rest, e);
      FieldsRefused(num, entries[1..], v, k - 1, rest, e);
    } else if !entries[0].value.JMissing? {
      PathIsRefused(num, entries[0].value, rest, e);
    }
  }

  lemma {:induction false} PathIsRefused<N(!new)>(num: Numbers<N>, v: Js<N>, path: seq<nat>, e: JsonError)
    requires LeadsTo(v, path, e)
    ensures Canon(num, v) == Err(e)
    decreases |path|, 1, 0
  {
    if path != [] {
      match v
      case JArray(items) => ItemsRefused(num, items, v, path[0], path[1..], e);
      case JObject(entries) =>
        SortedEntriesSmaller(v);
        FieldsRefused(num, SortEntries(entries), v, path[0], path[1..], e);
      case _ =>
    }
  }

  /**
   A value is refused with an error exactly if that is the fault of its first part at fault: a number that is not
   finite, a big integer, an object that is not plain or a missing value at the top, or one inside an array or object.
   */
  lemma RefusedIff<N(!new)>(num: Numbers<N>, v: Js<N>, e: JsonError)
    ensures Canon(num, v) == Err(e) <==> exists path: seq<nat> :: LeadsTo(v, path, e)
  {
    if Canon(num, v) == Err(e) {
      var path := FirstFault(num, v);
      assert LeadsTo(v, path, e);
      assert exists path: seq<nat> :: LeadsTo(v, path, e);
    } else {
      assert forall path: seq<nat> :: !LeadsTo(v, path, e) by {
        forall path: seq<nat> ensures !LeadsTo(v, path, e) {
          if LeadsTo(v, path, e) {
            PathIsRefused(num, v, path, e);
          }
        }
      }
    }
  }

  // ---------- quoting ----------

  /**
   How each character is quoted: the quotation mark and the backslash behind a backslash, five control characters by
   their letters, the others by four lower-case hex digits, and everything else as it is.
   */
  lemma QuotedAs(c: char)
    ensures var n, digits := c as int, "0123456789abcdef";
      QuoteChar(c) == if n == 34 then "\\\"" else if n == 92 then "\\\\" else if n == 8 then "\\b"
                      else if n == 9 then "\\t" else if n == 10 then "\\n" else if n == 12 then "\\f"
                      else if n == 13 then "\\r"
                      else if n < 32 then "\\u00" + [digits[n / 16]] + [digits[n % 16]] else [c]
  {
    HexDigits(c as int / 16);
    HexDigits(c as int % 16);
  }

  lemma HexDigits(n: int)
    ensures 0 <= n < 16 ==> LowerHex(n) == "0123456789abcdef"[n]
  {
  }
}
