/** What the mirror guarantees over whole runs, and where it does not. */
module WireTheorems {
  import opened Common
  import opened LogScan
  import opened Text
  import opened WireMirror
  import opened WireRun
  import Runs

  function Start(hasWebhook: bool, head: nat, minConfirmations: nat): Sys {
    Sys(Prepared(hasWebhook), [], head, minConfirmations)
  }

  lemma StartInv(hasWebhook: bool, head: nat, minConfirmations: nat)
    ensures Inv(Start(hasWebhook, head, minConfirmations))
  {
  }

  lemma RunStep(s: Sys, events: seq<Event>, ev: Event)
    ensures Run(s, events + [ev]) == Next(Run(s, events), ev)
  {
    Runs.FoldAppend(Next, s, events, ev);
  }

  lemma {:induction false} RunInv(s: Sys, events: seq<Event>)
    requires Inv(s)
    ensures Inv(Run(s, events))
  {
    if events != [] {
      var n := |events| - 1;
      RunInv(s, events[..n]);
      NextInv(Run(s, events[..n]), events[n]);
    }
  }

  /**
   The mirror tells the truth after any run: public and contract state agree, the recorded state is one the
   chain has reached with the minimum confirmations, a terminal job has its state as disposition, and a
   disposition is always the state the chain ended in.
   */
  lemma MirrorIsTrue(hasWebhook: bool, head: nat, minConfirmations: nat, events: seq<Event>)
    ensures var s := Run(Start(hasWebhook, head, minConfirmations), events);
      var job := s.db.job;
      && job.publicState == job.contractState
      && (job.contractState != Open ==> exists id :: Confirmed(s, id) && id.state == job.contractState)
      && (Terminal(job.contractState) ==> job.disposition == Some(job.contractState))
      && (job.disposition.Some? ==> Ended(s, job.disposition.value))
  {
    StartInv(hasWebhook, head, minConfirmations);
    RunInv(Start(hasWebhook, head, minConfirmations), events);
    var s := Run(Start(hasWebhook, head, minConfirmations), events);
    if s.db.job.contractState != Open {
      var id :| id in s.db.transitions && id.state == s.db.job.contractState
          && (s.db.job.hasWebhook ==> id in s.db.outbox);
      assert Confirmed(s, id);
    }
  }

  // ---------- what late fund reports break, and nothing else ----------

  /** The recorded state after the first n events. */
  ghost function StateAt(s: Sys, events: seq<Event>, n: nat): JobState
    requires n <= |events|
  {
    Run(s, events[..n]).db.job.contractState
  }

  ghost predicate LateAt(s: Sys, events: seq<Event>, n: nat)
    requires n < |events|
  {
    LateReport(Run(s, events[..n]), events[n])
  }

  ghost predicate OnlyForward(s: Sys, events: seq<Event>) {
    forall m, n :: 0 <= m <= n <= |events| ==> Forward(StateAt(s, events, m), StateAt(s, events, n))
  }

  lemma RunNext(s: Sys, events: seq<Event>, n: nat)
    requires n < |events|
    ensures Run(s, events[..n + 1]) == Next(Run(s, events[..n]), events[n])
  {
    assert events[..n + 1] == events[..n] + [events[n]];
    RunStep(s, events[..n], events[n]);
  }

  lemma StepForwardIff(s: Sys, events: seq<Event>, n: nat)
    requires Inv(s) && n < |events|
    ensures Forward(StateAt(s, events, n), StateAt(s, events, n + 1)) <==> !LateAt(s, events, n)
  {
    RunInv(s, events[..n]);
    RunNext(s, events, n);
    NextInv(Run(s, events[..n]), events[n]);
  }

  lemma {:induction false} ForwardBetween(s: Sys, events: seq<Event>, m: nat, n: nat)
    requires Inv(s) && m <= n <= |events|
    requires forall k :: 0 <= k < |events| ==> !LateAt(s, events, k)
    ensures Forward(StateAt(s, events, m), StateAt(s, events, n))
    decreases n - m
  {
    if m < n {
      ForwardBetween(s, events, m, n - 1);
      StepForwardIff(s, events, n - 1);
    }
  }

  /**
   The recorded state never regresses, and a recorded terminal state never changes, in exactly the runs without
   a late fund report: everything else that can happen only takes it forward.
   */
  lemma NeverRegressesIff(s: Sys, events: seq<Event>)
    requires Inv(s)
    ensures OnlyForward(s, events) <==> forall n :: 0 <= n < |events| ==> !LateAt(s, events, n)
  {
    if OnlyForward(s, events) {
      forall n | 0 <= n < |events| ensures !LateAt(s, events, n) {
        StepForwardIff(s, events, n);
      }
    } else if forall n :: 0 <= n < |events| ==> !LateAt(s, events, n) {
      forall m, n | 0 <= m <= n <= |events| ensures Forward(StateAt(s, events, m), StateAt(s, events, n)) {
        ForwardBetween(s, events, m, n);
      }
    }
  }

  /** After the first n events the disposition is set exactly if the recorded state is terminal. */
  ghost predicate SetExactlyAt(s: Sys, events: seq<Event>, n: nat)
    requires n <= |events|
  {
    JobOk(Run(s, events[..n]).db.job)
  }

  ghost predicate LateAfterEnd(s: Sys, events: seq<Event>, n: nat)
    requires n < |events|
  {
    LateAt(s, events, n) && Terminal(StateAt(s, events, n))
  }

  lemma SetExactlyNext(s: Sys, events: seq<Event>, n: nat)
    requires Inv(s) && n < |events| && SetExactlyAt(s, events, n)
    ensures SetExactlyAt(s, events, n + 1) <==> !LateAfterEnd(s, events, n)
  {
    RunInv(s, events[..n]);
    RunNext(s, events, n);
    NextJobOk(Run(s, events[..n]), events[n]);
  }

  lemma {:induction false} SetExactlyUpTo(s: Sys, events: seq<Event>, n: nat)
    requires Inv(s) && JobOk(s.db.job) && n <= |events|
    requires forall k :: 0 <= k < |events| ==> !LateAfterEnd(s, events, k)
    ensures SetExactlyAt(s, events, n)
  {
    if n > 0 {
      SetExactlyUpTo(s, events, n - 1);
      SetExactlyNext(s, events, n - 1);
    }
  }

  /**
   The disposition is set exactly in terminal states throughout, in exactly the runs without a report after the
   end.
   */
  lemma DispositionIff(s: Sys, events: seq<Event>)
    requires Inv(s) && JobOk(s.db.job)
    ensures (forall n :: 0 <= n <= |events| ==> SetExactlyAt(s, events, n))
       <==> (forall n :: 0 <= n < |events| ==> !LateAfterEnd(s, events, n))
  {
    if forall n :: 0 <= n <= |events| ==> SetExactlyAt(s, events, n) {
      forall n | 0 <= n < |events| ensures !LateAfterEnd(s, events, n) {
        assert SetExactlyAt(s, events, n) && SetExactlyAt(s, events, n + 1);
        SetExactlyNext(s, events, n);
      }
    } else if forall n :: 0 <= n < |events| ==> !LateAfterEnd(s, events, n) {
      forall n | 0 <= n <= |events| ensures SetExactlyAt(s, events, n) {
        SetExactlyUpTo(s, events, n);
      }
    }
  }

  // ---------- announcements ----------

  lemma OneEventPerState(s: Sys, a: EventId, b: EventId)
    requires Inv(s) && Confirmed(s, a) && Confirmed(s, b) && a.state == b.state
    ensures a == b
  {
    var i :| 0 <= i < |s.chain| && s.chain[i].state == a.state && LowerAscii(s.chain[i].tx) == a.tx
      && s.chain[i].block + s.minConfirmations <= s.head + 1;
    var j :| 0 <= j < |s.chain| && s.chain[j].state == b.state && LowerAscii(s.chain[j].tx) == b.tx
      && s.chain[j].block + s.minConfirmations <= s.head + 1;
    assert i == j;
  }

  /**
   However often a state is reconciled, in any run, it is announced by one webhook row and one transition row, only
   states the chain confirmed are announced, and the recorded state always is.
   */
  lemma OneWebhookPerState(s: Sys, events: seq<Event>)
    requires Inv(s)
    ensures var t := Run(s, events);
      && (forall a, b :: a in t.db.outbox && b in t.db.outbox && a.state == b.state ==> a == b)
      && (forall a, b :: a in t.db.transitions && b in t.db.transitions && a.state == b.state ==> a == b)
      && (forall id :: id in t.db.outbox ==> Confirmed(t, id))
      && (t.db.job.hasWebhook && t.db.job.contractState != Open ==>
            exists id :: id in t.db.outbox && id.state == t.db.job.contractState)
  {
    RunInv(s, events);
    var t := Run(s, events);
    forall a, b | Confirmed(t, a) && Confirmed(t, b) && a.state == b.state ensures a == b {
      OneEventPerState(t, a, b);
    }
  }

  /** Reconciling again never re-opens a webhook row: delivery status, attempts and schedule stay. */
  lemma ReconcileKeepsDeliveries(db: Db, job: Job, id: EventId, t: Transition)
    ensures var db' := Reconcile(db, job, id, t);
      forall x :: x in db.outbox ==> x in db'.outbox && db'.outbox[x] == db.outbox[x].(state := db'.outbox[x].state)
  {
  }

  // ---------- artifacts ----------

  ghost predicate SameUpToCase(a: Option<string>, b: Option<string>) {
    Given(a) ==> Given(b) && LowerAscii(a.value) == LowerAscii(b.value)
  }

  ghost predicate ArtifactsKept(a: Artifacts, b: Artifacts) {
    && SameUpToCase(a.contractAddress, b.contractAddress)
    && (Given(a.contractJobId) ==> b.contractJobId == a.contractJobId)
    && SameUpToCase(a.createTx, b.createTx)
    && SameUpToCase(a.createSender, b.createSender)
    && SameUpToCase(a.fundTx, b.fundTx)
    && SameUpToCase(a.fundSender, b.fundSender)
  }

  /** The empty string passes the conflict check and overwrites. */
  predicate Blank(input: Option<string>, recorded: Option<string>) {
    Given(recorded) && input == Some("")
  }

  predicate AnyBlank(input: Artifacts, a: Artifacts) {
    || Blank(input.contractAddress, a.contractAddress) || Blank(input.contractJobId, a.contractJobId)
    || Blank(input.createTx, a.createTx) || Blank(input.createSender, a.createSender)
    || Blank(input.fundTx, a.fundTx) || Blank(input.fundSender, a.fundSender)
  }

  /**
   Artifacts are written once: a recording that succeeds keeps every recorded artifact up to case, exactly
   when it does not pass an empty string for one of them.
   */
  lemma ArtifactsWrittenOnceIff(db: Db, input: RecordInput)
    requires RecordArtifacts(db, input).Committed?
    ensures ArtifactsKept(db.job.artifacts, RecordArtifacts(db, input).db.job.artifacts)
        <==> !AnyBlank(input.artifacts, db.job.artifacts)
  {
  }

  /** The other half happens: whatever fund transaction is recorded, an empty string wipes it out. */
  lemma BlankOverwrites(db: Db)
    requires Given(db.job.artifacts.fundTx)
    ensures var input := RecordInput(NO_ARTIFACTS.(fundTx := Some("")), None, None, None, None, None, None);
      var r := RecordArtifacts(db, input);
      r.Committed? && r.db.job.artifacts == db.job.artifacts.(fundTx := Some(""))
  {
  }

  predicate NoneGiven(a: Artifacts) {
    !Given(a.contractAddress) && !Given(a.contractJobId) && !Given(a.createTx) && !Given(a.createSender)
      && !Given(a.fundTx) && !Given(a.fundSender)
  }

  /** A value that differs from the given one, whatever the case of its letters. */
  function Other(x: Option<string>): Option<string> {
    Some(x.GetOr("") + "!")
  }

  function Others(a: Artifacts): Artifacts {
    Artifacts(Other(a.contractAddress), Other(a.contractJobId), Other(a.createTx), Other(a.createSender),
              Other(a.fundTx), Other(a.fundSender))
  }

  lemma OtherClashes(x: Option<string>)
    requires Given(x)
    ensures Clash(Other(x), x) && Other(x) != x
  {
    assert |LowerAscii(Other(x).value)| == |LowerAscii(x.value)| + 1;
  }

  /** Only a recording that gives nothing is accepted on every job. */
  lemma AcceptedEverywhereIff(input: RecordInput)
    ensures (forall db :: RecordArtifacts(db, input).Committed?) <==> NoneGiven(input.artifacts)
  {
    var a := input.artifacts;
    if !NoneGiven(a) {
      var db := Prepared(false);
      var taken := db.(job := db.job.(artifacts := Others(a)));
      forall x | x in {a.contractAddress, a.contractJobId, a.createTx, a.createSender, a.fundTx, a.fundSender}
                 && Given(x)
        ensures Clash(Other(x), x) && Other(x) != x
      {
        OtherClashes(x);
      }
      assert RecordArtifacts(taken, input) == Conflict;
    } else {
      forall db ensures RecordArtifacts(db, input).Committed? {
      }
    }
  }

  ghost predicate NoBlanks(s: Sys, events: seq<Event>) {
    forall n :: 0 <= n < |events| && events[n].Record? ==>
        !AnyBlank(events[n].input.artifacts, Run(s, events[..n]).db.job.artifacts)
  }

  lemma KeptChain(a: Artifacts, b: Artifacts, c: Artifacts)
    requires ArtifactsKept(a, b) && ArtifactsKept(b, c)
    ensures ArtifactsKept(a, c)
  {
  }

  lemma StepKeepsArtifacts(s: Sys, ev: Event)
    requires ev.Record? ==> !AnyBlank(ev.input.artifacts, s.db.job.artifacts)
    ensures ArtifactsKept(s.db.job.artifacts, Next(s, ev).db.job.artifacts)
  {
    if ev.Record? && RecordArtifacts(s.db, ev.input).Committed? {
      ArtifactsWrittenOnceIff(s.db, ev.input);
    } else if ev.OperatorVisit? && Plausible(s, ev) {
      VisitKeepsArtifacts(s.db, ViewOf(Grown(s, ev.during, ev.newHead), ev.sight));
    }
  }

  lemma VisitKeepsArtifacts(db: Db, v: View)
    ensures Visit(db, v).job.artifacts == db.job.artifacts
  {
  }

  /** Over whole runs, once recorded an artifact never changes up to case. */
  lemma {:induction false} ArtifactsNeverChange(s: Sys, before: seq<Event>, after: seq<Event>)
    requires NoBlanks(s, before + after)
    ensures ArtifactsKept(Run(s, before).db.job.artifacts, Run(s, before + after).db.job.artifacts)
    decreases |after|
  {
    if after == [] {
      assert before + after == before;
    } else {
      var init, last := after[..|after| - 1], after[|after| - 1];
      var events := before + init;
      assert before + after == events + [last];
      assert (before + after)[..|events|] == events && (before + after)[|events|] == last;
      forall n | 0 <= n < |events| && events[n].Record?
        ensures !AnyBlank(events[n].input.artifacts, Run(s, events[..n]).db.job.artifacts)
      {
        assert (before + after)[n] == events[n] && (before + after)[..n] == events[..n];
      }
      ArtifactsNeverChange(s, before, init);
      StepKeepsArtifacts(Run(s, events), last);
      RunStep(s, events, last);
      KeptChain(Run(s, before).db.job.artifacts, Run(s, events).db.job.artifacts,
                Run(s, before + after).db.job.artifacts);
    }
  }

  lemma KeptClashes(given: Artifacts, recorded: Artifacts, later: Artifacts)
    requires AnyClash(given, later) && ArtifactsKept(given, recorded)
    ensures AnyClash(recorded, later)
  {
  }

  lemma RecordedIsKept(db: Db, input: RecordInput)
    requires RecordArtifacts(db, input).Committed?
    ensures ArtifactsKept(input.artifacts, RecordArtifacts(db, input).db.job.artifacts)
  {
  }

  /**
   The first recording wins: once one has given an artifact, then after any run without blank inputs a recording
   that gives another value for it, beyond the case of its letters, is refused as a whole.
   */
  lemma FirstRecordingWins(s: Sys, first: RecordInput, between: seq<Event>, later: RecordInput)
    requires RecordArtifacts(s.db, first).Committed? && AnyClash(first.artifacts, later.artifacts)
    requires NoBlanks(s, [Record(first)] + between)
    ensures RecordArtifacts(Run(s, [Record(first)] + between).db, later) == Conflict
  {
    RunStep(s, [], Record(first));
    assert [] + [Record(first)] == [Record(first)];
    RecordedIsKept(s.db, first);
    ArtifactsNeverChange(s, [Record(first)], between);
    var recorded := Run(s, [Record(first)]).db.job.artifacts;
    var now := Run(s, [Record(first)] + between).db.job.artifacts;
    KeptChain(first.artifacts, recorded, now);
    KeptClashes(first.artifacts, now, later.artifacts);
  }

  // ---------- where it can go wrong ----------

  /**
   The funded write does not look at what is recorded. It takes the mirror backwards exactly when the job is
   already past funded, and it breaks the disposition exactly when the job is already terminal.
   */
  lemma FundedWriteRegressesIff(db: Db, tx: Hash, block: nat, confirmations: nat)
    requires JobOk(db.job)
    ensures var job := ReconcileFunded(db, tx, block, confirmations).job;
      && (Forward(db.job.contractState, job.contractState) <==> db.job.contractState in {Open, Funded})
      && (JobOk(job) <==> !Terminal(db.job.contractState))
  {
  }

  // A run in which a late report happens: funded by transaction f and submitted by t on chain, reported, visited,
  // then reported again. Hashes and artifacts are any that the caller accepts.

  function FundedLog(f: Hash): Log { Log(Funded, f, 5, 0) }

  function SubmittedLog(t: Hash): Log { Log(Submitted, t, 6, 0) }

  function Report(f: Hash): Event { FundReported(f, 5, 3) }

  function Recording(a: Artifacts): Event { Record(RecordInput(a, None, None, None, None, None, None)) }

  function Growth(f: Hash, t: Hash): Event { Grow([FundedLog(f), SubmittedLog(t)], 7) }

  const VISIT: Event := OperatorVisit([], 7, 0, Sight(NotFound, 2, 2, 7, 0))

  function OnChain(f: Hash, t: Hash): Sys {
    Start(false, 0, 1).(chain := [FundedLog(f), SubmittedLog(t)], head := 7)
  }

  function WithArtifacts(f: Hash, t: Hash, a: Artifacts): Sys {
    OnChain(f, t).(db := Prepared(false).(job := Prepared(false).job.(artifacts := a)))
  }

  function Reported(f: Hash, t: Hash, a: Artifacts): Sys {
    WithArtifacts(f, t, a).(db := ReconcileFunded(WithArtifacts(f, t, a).db, f, 5, 3))
  }

  function Visited(f: Hash, t: Hash, a: Artifacts): Sys {
    Reported(f, t, a).(db := ReconcileSubmitted(Reported(f, t, a).db, SubmittedLog(t), 2))
  }

  lemma Evidence(f: Hash, t: Hash, db: Db)
    ensures FundEvidence(OnChain(f, t).(db := db), f, 5, 3)
  {
    assert OnChain(f, t).chain[0] == FundedLog(f);
  }

  lemma TwoEvents(f: Hash, t: Hash)
    ensures ValidChain([FundedLog(f), SubmittedLog(t)], 7)
  {
    var chain := [FundedLog(f), SubmittedLog(t)];
    assert chain[0] == FundedLog(f) && chain[1] == SubmittedLog(t);
  }

  lemma ToOnChain(f: Hash, t: Hash)
    ensures Next(Start(false, 0, 1), Growth(f, t)) == OnChain(f, t)
    ensures ValidChain(OnChain(f, t).chain, 7)
  {
    var chain := [FundedLog(f), SubmittedLog(t)];
    TwoEvents(f, t);
    assert Start(false, 0, 1).chain + chain == chain;
    assert CanGrow(Start(false, 0, 1), chain, 7);
  }

  lemma ToReported(f: Hash, t: Hash, a: Artifacts)
    ensures Next(OnChain(f, t), Recording(a)) == WithArtifacts(f, t, a)
    ensures Next(WithArtifacts(f, t, a), Report(f)) == Reported(f, t, a)
  {
    Evidence(f, t, WithArtifacts(f, t, a).db);
  }

  lemma VisitIsPlausible(f: Hash, t: Hash, a: Artifacts)
    ensures Plausible(Reported(f, t, a), VISIT)
    ensures Grown(Reported(f, t, a), [], 7) == Reported(f, t, a)
  {
    ToOnChain(f, t);
    assert Reported(f, t, a).chain + [] == Reported(f, t, a).chain;
  }

  lemma VisitSees(f: Hash, t: Hash, a: Artifacts)
    ensures ViewOf(Reported(f, t, a), VISIT.sight) == View(NotFound, Submitted, Some(SubmittedLog(t)), 7, 1, 0)
  {
    var chain := Reported(f, t, a).chain;
    assert chain[..2] == chain && chain[1] == SubmittedLog(t);
  }

  lemma ToVisited(f: Hash, t: Hash, a: Artifacts)
    requires HasArtifacts(a)
    ensures Next(Reported(f, t, a), VISIT) == Visited(f, t, a)
  {
    VisitIsPlausible(f, t, a);
    VisitSees(f, t, a);
  }

  lemma ReachReported(f: Hash, t: Hash, a: Artifacts)
    ensures Run(Start(false, 0, 1), [Growth(f, t)] + [Recording(a)] + [Report(f)]) == Reported(f, t, a)
  {
    var s := Start(false, 0, 1);
    ToOnChain(f, t);
    ToReported(f, t, a);
    RunStep(s, [], Growth(f, t));
    assert [] + [Growth(f, t)] == [Growth(f, t)];
    RunStep(s, [Growth(f, t)], Recording(a));
    RunStep(s, [Growth(f, t)] + [Recording(a)], Report(f));
  }

  lemma LateReportAfter(f: Hash, t: Hash, a: Artifacts)
    ensures Next(Visited(f, t, a), Report(f)).db.job.contractState == Funded
  {
    Evidence(f, t, Visited(f, t, a).db);
  }

  /** A reachable run, for any artifacts, whose last step takes the mirror from submitted back to funded. */
  lemma LateReportHappens(f: Hash, t: Hash, a: Artifacts)
    requires HasArtifacts(a)
    ensures var events := [Growth(f, t)] + [Recording(a)] + [Report(f)] + [VISIT];
      && Run(Start(false, 0, 1), events).db.job.contractState == Submitted
      && Run(Start(false, 0, 1), events + [Report(f)]).db.job.contractState == Funded
  {
    var s, reported := Start(false, 0, 1), [Growth(f, t)] + [Recording(a)] + [Report(f)];
    ReachReported(f, t, a);
    ToVisited(f, t, a);
    LateReportAfter(f, t, a);
    RunStep(s, reported, VISIT);
    RunStep(s, reported + [VISIT], Report(f));
  }

  // ---------- the work list ----------

  /**
   A finished job leaves the operator's list; a job that is recorded as funded or submitted stays on it,
   whenever it is due and nobody has to look at it by hand.
   */
  lemma WorkListIsRight(job: Job, now: int)
    requires JobOk(job)
    ensures Terminal(job.contractState) && job.workflow == Done(job.workflow) ==> !NeedsWork(job, now)
    ensures job.contractState in {Funded, Submitted} ==>
        (NeedsWork(job, now) <==> !job.workflow.manualReview && job.workflow.nextRetryAt.GetOr(now) <= now)
  {
  }

  /** A visit that records a terminal state takes the job off the list. */
  lemma TerminalEndsWork(db: Db, state: JobState, e: Log, confirmations: nat, now: int)
    requires Terminal(state)
    ensures !NeedsWork(ReconcileTerminal(db, state, e, confirmations).job, now)
  {
  }

  // ---------- settlement amounts ----------

  /**
   In every reachable state a settlement is derived exactly for terminal jobs. The protocol earns the fee, and the
   provider the rest of the principal if the fee leaves any, exactly when the job completed; what was spent is what
   was recorded, and the reserve that it did not use is returned.
   */
  lemma SettlementConserves(job: Job, principal: nat, fee: nat, reserve: nat, spends: seq<nat>)
    requires JobOk(job)
    ensures var r := TerminalSettlement(job, principal, fee, reserve, spends);
      var completed := job.contractState == Completed;
      && (r.Some? <==> Terminal(job.contractState))
      && (r.Some? ==>
            && r.value.protocolRevenue == (if completed then fee else 0)
            && (completed && fee <= principal ==> r.value.providerPayout + fee == principal)
            && (!completed || fee > principal ==> r.value.providerPayout == 0)
            && r.value.actualSpend == Spent(spends)
            && r.value.actualSpend + r.value.unusedReserve == Max(reserve, Spent(spends)))
  {
  }
}
