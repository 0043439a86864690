/**
 Fetching a range of logs from unreliable providers, splitting it in half when all of them fail
 (scripts/index-db.ts).
 */
module RangeFetch {
  import opened Common

  datatype TransferLog = TransferLog(block: int, tokenId: nat, from: string, to: string)

  datatype Config = Config(retries: nat, providers: nat, minSplitRange: int)

  /** What provider p answers in attempt n for a range; nothing stands for an error or a timeout. */
  type Network = (int, int, nat, nat) -> Option<seq<TransferLog>>

  predicate InBlocks(log: TransferLog, from: int, last: int) {
    from <= log.block <= last
  }

  /** The chain's transfers of a range of blocks, in chain order. */
  function InRange(chain: seq<TransferLog>, from: int, last: int): seq<TransferLog> {
    if chain == [] then []
    else
      var log := chain[|chain| - 1];
      InRange(chain[..|chain| - 1], from, last) + (if InBlocks(log, from, last) then [log] else [])
  }

  ghost predicate InOrder(chain: seq<TransferLog>) {
    forall i, j :: 0 <= i < j < |chain| ==> chain[i].block <= chain[j].block
  }

  /** Whoever answers, answers with exactly the logs of the range. */
  ghost predicate Truthful(net: Network, chain: seq<TransferLog>) {
    forall from, last, attempt, provider ::
      var answer := net(from, last, attempt, provider);
      answer.Some? ==> answer.value == InRange(chain, from, last)
  }

  // ---------- one range, all attempts ----------

  /** The first answer of providers 0..n-1 in one attempt. */
  function FirstOf(net: Network, from: int, last: int, attempt: nat, n: nat): Option<seq<TransferLog>> {
    if n == 0 then None
    else
      var before := FirstOf(net, from, last, attempt, n - 1);
      if before.Some? then before else net(from, last, attempt, n - 1)
  }

  /** The first answer of attempts 1..n. */
  function Ask(net: Network, cfg: Config, from: int, last: int, n: nat): Option<seq<TransferLog>> {
    if n == 0 then None
    else
      var before := Ask(net, cfg, from, last, n - 1);
      if before.Some? then before else FirstOf(net, from, last, n, cfg.providers)
  }

  predicate CanSplit(cfg: Config, from: int, last: int) {
    from < last && last - from + 1 > cfg.minSplitRange
  }

  function Middle(from: int, last: int): int
    requires from < last
    ensures from <= Middle(from, last) < last
  {
    from + (last - from) / 2
  }

  /** fetchTransferLogsForRange; nothing stands for the error it throws. */
  function Fetch(net: Network, cfg: Config, from: int, last: int): Option<seq<TransferLog>>
    decreases last - from
  {
    var answer := Ask(net, cfg, from, last, cfg.retries);
    if answer.Some? then answer
    else if !CanSplit(cfg, from, last) then None
    else
      var mid := Middle(from, last);
      var left := Fetch(net, cfg, from, mid);
      if left.None? then None
      else
        var right := Fetch(net, cfg, mid + 1, last);
        if right.None? then None else Some(left.value + right.value)
  }

  method FetchTransferLogsForRange(net: Network, cfg: Config, from: int, last: int)
    returns (logs: Option<seq<TransferLog>>)
    ensures logs == Fetch(net, cfg, from, last)
    decreases last - from
  {
    var attempt := 1;
    while attempt <= cfg.retries
      invariant 1 <= attempt <= cfg.retries + 1
      invariant Ask(net, cfg, from, last, attempt - 1) == None
    {
      var provider := 0;
      while provider < cfg.providers
        invariant 0 <= provider <= cfg.providers
        invariant FirstOf(net, from, last, attempt, provider) == None
      {
        var answer := net(from, last, attempt, provider);
        if answer.Some? {
          FirstStays(net, cfg, from, last, attempt, provider + 1);
          AskStays(net, cfg, from, last, attempt, cfg.retries);
          return answer;
        }
        provider := provider + 1;
      }
      attempt := attempt + 1;
    }
    if !CanSplit(cfg, from, last) {
      return None;
    }
    var mid := Middle(from, last);
    var left := FetchTransferLogsForRange(net, cfg, from, mid);
    if left.None? {
      return None;
    }
    var right := FetchTransferLogsForRange(net, cfg, mid + 1, last);
    if right.None? {
      return None;
    }
    logs := Some(left.value + right.value);
  }

  lemma {:induction false} FirstIsKept(net: Network, from: int, last: int, attempt: nat, n: nat, m: nat)
    requires n <= m && FirstOf(net, from, last, attempt, n).Some?
    ensures FirstOf(net, from, last, attempt, m) == FirstOf(net, from, last, attempt, n)
    decreases m
  {
    if n < m {
      FirstIsKept(net, from, last, attempt, n, m - 1);
    }
  }

  lemma FirstStays(net: Network, cfg: Config, from: int, last: int, attempt: nat, n: nat)
    requires n <= cfg.providers && FirstOf(net, from, last, attempt, n).Some?
    ensures FirstOf(net, from, last, attempt, cfg.providers) == FirstOf(net, from, last, attempt, n)
  {
    FirstIsKept(net, from, last, attempt, n, cfg.providers);
  }

  lemma {:induction false} AskStays(net: Network, cfg: Config, from: int, last: int, n: nat, m: nat)
    requires n <= m && Ask(net, cfg, from, last, n).Some?
    ensures Ask(net, cfg, from, last, m) == Ask(net, cfg, from, last, n)
    decreases m
  {
    if n < m {
      AskStays(net, cfg, from, last, n, m - 1);
    }
  }

  // ---------- what it returns ----------

  lemma {:induction false} FirstIsTrue(net: Network, chain: seq<TransferLog>, from: int, last: int, attempt: nat,
                                       n: nat)
    requires Truthful(net, chain)
    ensures FirstOf(net, from, last, attempt, n).Some? ==>
        FirstOf(net, from, last, attempt, n).value == InRange(chain, from, last)
  {
    if n > 0 {
      FirstIsTrue(net, chain, from, last, attempt, n - 1);
      var answer := net(from, last, attempt, n - 1);
    }
  }

  lemma {:induction false} AskIsTrue(net: Network, cfg: Config, chain: seq<TransferLog>, from: int, last: int, n: nat)
    requires Truthful(net, chain)
    ensures Ask(net, cfg, from, last, n).Some? ==> Ask(net, cfg, from, last, n).value == InRange(chain, from, last)
  {
    if n > 0 {
      AskIsTrue(net, cfg, chain, from, last, n - 1);
      FirstIsTrue(net, chain, from, last, n, cfg.providers);
    }
  }

  lemma {:induction false} NothingInRange(chain: seq<TransferLog>, from: int, last: int)
    requires forall k :: 0 <= k < |chain| ==> !InBlocks(chain[k], from, last)
    ensures InRange(chain, from, last) == []
  {
    if chain != [] {
      NothingInRange(chain[..|chain| - 1], from, last);
    }
  }

  /** In a chain in order, the logs of two adjoining ranges are the logs of the whole. */
  lemma {:induction false} RangesJoin(chain: seq<TransferLog>, from: int, mid: int, last: int)
    requires InOrder(chain) && from <= mid + 1 && mid <= last
    ensures InRange(chain, from, last) == InRange(chain, from, mid) + InRange(chain, mid + 1, last)
  {
    if chain != [] {
      var init, log := chain[..|chain| - 1], chain[|chain| - 1];
      RangesJoin(init, from, mid, last);
      if InBlocks(log, from, mid) {
        forall k | 0 <= k < |init| ensures !InBlocks(init[k], mid + 1, last) {
          assert chain[k].block <= log.block;
        }
        NothingInRange(init, mid + 1, last);
      }
    }
  }

  /**
   Bisection is exact: whichever providers, attempts or sub-ranges failed on the way, when it succeeds it
   returns the logs of the requested range, all of them, once, in chain order.
   */
  lemma {:induction false} FetchIsExact(net: Network, cfg: Config, chain: seq<TransferLog>, from: int, last: int)
    requires Truthful(net, chain) && InOrder(chain)
    ensures Fetch(net, cfg, from, last).Some? ==> Fetch(net, cfg, from, last).value == InRange(chain, from, last)
    decreases last - from
  {
    AskIsTrue(net, cfg, chain, from, last, cfg.retries);
    if Ask(net, cfg, from, last, cfg.retries).None? && CanSplit(cfg, from, last) {
      var mid := Middle(from, last);
      FetchIsExact(net, cfg, chain, from, mid);
      FetchIsExact(net, cfg, chain, mid + 1, last);
      RangesJoin(chain, from, mid, last);
    }
  }

  /** No provider answers for this range in any attempt. */
  ghost predicate Unserved(net: Network, cfg: Config, from: int, last: int) {
    forall attempt, provider :: 1 <= attempt <= cfg.retries && 0 <= provider < cfg.providers ==>
      net(from, last, attempt, provider).None?
  }

  /** A range of one block, or of no more blocks than the configured least. */
  predicate Small(cfg: Config, from: int, last: int) {
    from >= last || last - from < cfg.minSplitRange
  }

  lemma {:induction false} FirstOfMeans(net: Network, from: int, last: int, attempt: nat, n: nat)
    ensures FirstOf(net, from, last, attempt, n).None?
       <==> forall provider :: 0 <= provider < n ==> net(from, last, attempt, provider).None?
  {
    if n > 0 {
      FirstOfMeans(net, from, last, attempt, n - 1);
    }
  }

  lemma {:induction false} AskMeans(net: Network, cfg: Config, from: int, last: int, n: nat)
    ensures Ask(net, cfg, from, last, n).None?
       <==> forall attempt, provider :: 1 <= attempt <= n && 0 <= provider < cfg.providers ==>
              net(from, last, attempt, provider).None?
  {
    if n > 0 {
      AskMeans(net, cfg, from, last, n - 1);
      FirstOfMeans(net, from, last, n, cfg.providers);
    }
  }

  /** Nobody answered before this provider in this attempt: no earlier attempt, and no earlier provider in this one. */
  ghost predicate FirstToAnswer(net: Network, cfg: Config, from: int, last: int, attempt: nat, provider: nat) {
    && 1 <= attempt <= cfg.retries && provider < cfg.providers && net(from, last, attempt, provider).Some?
    && (forall p :: 0 <= p < provider ==> net(from, last, attempt, p).None?)
    && (forall a, p :: 1 <= a < attempt && 0 <= p < cfg.providers ==> net(from, last, a, p).None?)
  }

  /** A range somebody serves is not split: the first answer is taken as it is. */
  lemma FirstAnswerIsTaken(net: Network, cfg: Config, from: int, last: int, attempt: nat, provider: nat)
    requires FirstToAnswer(net, cfg, from, last, attempt, provider)
    ensures Fetch(net, cfg, from, last) == net(from, last, attempt, provider)
  {
    FirstOfMeans(net, from, last, attempt, provider);
    FirstIsKept(net, from, last, attempt, provider + 1, cfg.providers);
    AskMeans(net, cfg, from, last, attempt - 1);
    AskStays(net, cfg, from, last, attempt, cfg.retries);
  }

  /** One that nobody serves is split in half, and fails if it is small. */
  lemma UnservedIsSplit(net: Network, cfg: Config, from: int, last: int)
    requires Unserved(net, cfg, from, last)
    ensures Small(cfg, from, last) ==> Fetch(net, cfg, from, last).None?
    ensures !Small(cfg, from, last) ==>
      var mid := (from + last) / 2;
      var left, right := Fetch(net, cfg, from, mid), Fetch(net, cfg, mid + 1, last);
      Fetch(net, cfg, from, last)
        == if left.Some? && right.Some? then Some(left.value + right.value) else None
  {
    AskMeans(net, cfg, from, last, cfg.retries);
    assert !Small(cfg, from, last) ==> Middle(from, last) == (from + last) / 2;
  }

  /** Every attempt of every provider fails on this range, and it is too small to split. */
  ghost predicate Stuck(net: Network, cfg: Config, from: int, last: int) {
    Small(cfg, from, last) && Unserved(net, cfg, from, last)
  }

  ghost predicate StuckWithin(net: Network, cfg: Config, from: int, last: int) {
    exists a, b :: from <= a && b <= last && Stuck(net, cfg, a, b)
  }

  /** It gives up only because of some small range inside the requested one that nobody would serve. */
  lemma {:induction false} FetchFailsOnlyWhenStuck(net: Network, cfg: Config, from: int, last: int)
    ensures Fetch(net, cfg, from, last).None? ==> StuckWithin(net, cfg, from, last)
    decreases last - from
  {
    AskMeans(net, cfg, from, last, cfg.retries);
    if Fetch(net, cfg, from, last).None? {
      if !CanSplit(cfg, from, last) {
        assert Stuck(net, cfg, from, last);
      } else {
        var mid := Middle(from, last);
        FetchFailsOnlyWhenStuck(net, cfg, from, mid);
        FetchFailsOnlyWhenStuck(net, cfg, mid + 1, last);
        if Fetch(net, cfg, from, mid).None? {
          var a, b :| from <= a && b <= mid && Stuck(net, cfg, a, b);
          assert Stuck(net, cfg, a, b);
        } else {
          var a, b :| mid + 1 <= a && b <= last && Stuck(net, cfg, a, b);
          assert Stuck(net, cfg, a, b);
        }
      }
    }
  }
}
