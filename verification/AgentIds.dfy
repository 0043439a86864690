/** Choosing an unused agent id (scripts/index-db.ts): the candidate, the address, or the address with a number. */
module AgentIds {
  import opened Common
  import opened Decimals
  import opened Text

  function Numbered(fallback: string, n: nat): string {
    fallback + (['-'] + Decimal(n))
  }

  /** The used ids that are not among the names numbered 2 up to n - 1. */
  function Beyond(fallback: string, used: set<string>, n: nat): set<string> {
    set u | u in used && forall j :: 2 <= j < n ==> u != Numbered(fallback, j)
  }

  lemma NumberedInjective(fallback: string, m: nat, n: nat)
    requires Numbered(fallback, m) == Numbered(fallback, n)
    ensures m == n
  {
    assert Numbered(fallback, m)[|fallback| + 1..] == Decimal(m);
    assert Numbered(fallback, n)[|fallback| + 1..] == Decimal(n);
    DecimalInjective(m, n);
  }

  /** Each name that turns out to be used leaves fewer used ids to run into: the search ends. */
  lemma SearchShrinks(fallback: string, used: set<string>, n: nat)
    requires n >= 2 && Numbered(fallback, n) in used
    ensures |Beyond(fallback, used, n + 1)| < |Beyond(fallback, used, n)|
  {
    var name := Numbered(fallback, n);
    forall j | 2 <= j < n ensures name != Numbered(fallback, j) {
      if name == Numbered(fallback, j) {
        NumberedInjective(fallback, n, j);
      }
    }
    assert name in Beyond(fallback, used, n);
    assert Beyond(fallback, used, n + 1) <= Beyond(fallback, used, n) - {name};
    SubsetSize(Beyond(fallback, used, n + 1), Beyond(fallback, used, n) - {name});
  }

  function FirstFree(fallback: string, used: set<string>, n: nat): (k: nat)
    requires n >= 2
    ensures k >= n && Numbered(fallback, k) !in used
    ensures forall j :: n <= j < k ==> Numbered(fallback, j) in used
    decreases |Beyond(fallback, used, n)|
  {
    if Numbered(fallback, n) !in used then n
    else
      SearchShrinks(fallback, used, n);
      FirstFree(fallback, used, n + 1)
  }

  function Allocate(candidate: string, address: string, used: set<string>): (id: string)
    ensures id !in used
  {
    var trimmed := Trim(candidate);
    var fallback := LowerAscii(address);
    if trimmed != "" && trimmed !in used then trimmed
    else if fallback !in used then fallback
    else Numbered(fallback, FirstFree(fallback, used, 2))
  }

  /** allocateUniqueAgentId. */
  method AllocateUniqueAgentId(candidate: string, address: string, usedIds: set<string>)
    returns (id: string, usedAfter: set<string>)
    ensures id == Allocate(candidate, address, usedIds)
    ensures id !in usedIds && usedAfter == usedIds + {id}
  {
    var trimmed := Trim(candidate);
    if |trimmed| > 0 && trimmed !in usedIds {
      return trimmed, usedIds + {trimmed};
    }
    var fallback := LowerAscii(address);
    if fallback !in usedIds {
      return fallback, usedIds + {fallback};
    }
    var suffix: nat := 2;
    while Numbered(fallback, suffix) in usedIds
      invariant suffix >= 2
      invariant FirstFree(fallback, usedIds, 2) == FirstFree(fallback, usedIds, suffix)
      decreases |Beyond(fallback, usedIds, suffix)|
    {
      SearchShrinks(fallback, usedIds, suffix);
      suffix := suffix + 1;
    }
    id := Numbered(fallback, suffix);
    usedAfter := usedIds + {id};
  }

  /**
   Which id is chosen: the trimmed candidate if there is one and it is free, else the address in lower case if that is
   free, else the address with the least number from 2 on that makes it free.
   */
  lemma AllocatedIs(candidate: string, address: string, used: set<string>)
    ensures var id, wanted, fallback := Allocate(candidate, address, used), Trim(candidate), LowerAscii(address);
      && (wanted != "" && wanted !in used ==> id == wanted)
      && ((wanted == "" || wanted in used) && fallback !in used ==> id == fallback)
      && ((wanted == "" || wanted in used) && fallback in used ==>
            exists n: nat :: n >= 2 && id == fallback + ("-" + Decimal(n))
              && forall j: nat :: 2 <= j < n ==> fallback + ("-" + Decimal(j)) in used)
  {
    var fallback := LowerAscii(address);
    var n := FirstFree(fallback, used, 2);
    forall j: nat | 2 <= j < n ensures fallback + ("-" + Decimal(j)) in used {
      assert fallback + ("-" + Decimal(j)) == Numbered(fallback, j);
    }
    assert fallback + ("-" + Decimal(n)) == Numbered(fallback, n);
  }

  /** An id as the table keeps them: not empty, no outer white space. */
  predicate ProperId(id: string) {
    id != "" && Trimmed(id)
  }

  lemma AllocatedIsProper(candidate: string, address: string, used: set<string>)
    requires ProperId(address)
    ensures ProperId(Allocate(candidate, address, used))
  {
    TrimFacts(candidate);
    var fallback := LowerAscii(address);
    assert fallback[0] == (if 'A' <= address[0] <= 'Z' then (address[0] as int + 32) as char else address[0]);
    var last := |address| - 1;
    assert fallback[last]
        == (if 'A' <= address[last] <= 'Z' then (address[last] as int + 32) as char else address[last]);
    assert Trimmed(fallback);
    if fallback in used {
      var n := FirstFree(fallback, used, 2);
      assert IsDigit(Decimal(n)[|Decimal(n)| - 1]);
    }
  }
}
