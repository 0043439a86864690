/** Delivering one outbox row: bounded retries with doubling delays (lib/ghostwire-operator.ts). */
module WebhookOutbox {
  import opened Common
  import opened LogScan
  import opened WireMirror

  const MAX_ATTEMPTS: nat := 6
  const BASE_RETRY_DELAY_MS: nat := 60_000
  const MAX_RETRY_DELAY_MS: nat := 1_800_000

  datatype Attempt = TargetMissing | Http(status: int) | NetworkError

  function Pow2(n: nat): (p: nat)
    ensures p >= 1
  {
    if n == 0 then 1 else 2 * Pow2(n - 1)
  }

  /** The delay of nextWebhookRetryAt. */
  function RetryDelay(attempts: nat): nat {
    Min(BASE_RETRY_DELAY_MS * Pow2(if attempts >= 1 then attempts - 1 else 0), MAX_RETRY_DELAY_MS)
  }

  predicate IsRetryable(status: int) {
    status >= 500 || status in {408, 409, 425, 429}
  }

  predicate IsOk(status: int) {
    200 <= status < 300
  }

  /** listPendingWireWebhookOutboxEvents selects these. */
  predicate Due(row: OutboxRow, now: int) {
    (row.delivery == DeliveryPending || row.delivery == DeliveryFailed) && row.nextAttemptAt.GetOr(now) <= now
  }

  /** deliverGhostWireWebhookEvent. */
  function Deliver(row: OutboxRow, attempt: Attempt, now: int): OutboxRow {
    var n := row.attempts + 1;
    var dead := row.(delivery := DeadLetter, attempts := n, nextAttemptAt := None);
    var retry := row.(delivery := DeliveryFailed, attempts := n, nextAttemptAt := Some(now + RetryDelay(n)));
    match attempt
    case TargetMissing => dead
    case Http(status) =>
      if IsOk(status) then row.(delivery := Delivered, attempts := n, nextAttemptAt := None)
      else if IsRetryable(status) && n < MAX_ATTEMPTS then retry
      else dead
    case NetworkError => if n >= MAX_ATTEMPTS then dead else retry
  }

  datatype Try = Try(attempt: Attempt, now: int)

  /** The row after the operator has come by at these times; it acts only when the row is due. */
  function Visits(row: OutboxRow, tries: seq<Try>): OutboxRow {
    if tries == [] then row
    else
      var before, t := Visits(row, tries[..|tries| - 1]), tries[|tries| - 1];
      if Due(before, t.now) then Deliver(before, t.attempt, t.now) else before
  }

  /** How many requests were sent. */
  function Sent(row: OutboxRow, tries: seq<Try>): nat {
    if tries == [] then 0
    else
      var init, t := tries[..|tries| - 1], tries[|tries| - 1];
      Sent(row, init) + (if Due(Visits(row, init), t.now) then 1 else 0)
  }

  function Fresh(state: JobState): OutboxRow {
    OutboxRow(state, DeliveryPending, 0, None)
  }

  /** The delay the schedule promises after each failed attempt. */
  ghost predicate Scheduled(row: OutboxRow) {
    && row.attempts <= MAX_ATTEMPTS
    && (row.delivery == DeliveryPending <==> row.attempts == 0)
    && (row.delivery == DeliveryPending ==> row.nextAttemptAt == None)
    && (row.delivery == DeliveryFailed ==> 1 <= row.attempts < MAX_ATTEMPTS && row.nextAttemptAt.Some?)
  }

  lemma DeliverKeepsSchedule(row: OutboxRow, attempt: Attempt, now: int)
    requires Scheduled(row) && Due(row, now)
    ensures Scheduled(Deliver(row, attempt, now)) && Deliver(row, attempt, now).attempts == row.attempts + 1
  {
  }

  /** At most six requests are ever sent for an event, and the row counts exactly those. */
  lemma {:induction false} AtMostSixRequests(state: JobState, tries: seq<Try>)
    ensures Scheduled(Visits(Fresh(state), tries))
    ensures Sent(Fresh(state), tries) == Visits(Fresh(state), tries).attempts <= MAX_ATTEMPTS
  {
    if tries != [] {
      var init, t := tries[..|tries| - 1], tries[|tries| - 1];
      AtMostSixRequests(state, init);
      if Due(Visits(Fresh(state), init), t.now) {
        DeliverKeepsSchedule(Visits(Fresh(state), init), t.attempt, t.now);
      }
    }
  }

  /** Delivered and dead-lettered rows are never touched again. */
  lemma {:induction false} DeliveryIsFinal(row: OutboxRow, before: seq<Try>, after: seq<Try>)
    requires Visits(row, before).delivery in {Delivered, DeadLetter}
    ensures Visits(row, before + after) == Visits(row, before)
    decreases |after|
  {
    if after == [] {
      assert before + after == before;
    } else {
      DeliveryIsFinal(row, before, after[..|after| - 1]);
      assert (before + after)[..|before| + |after| - 1] == before + after[..|after| - 1];
    }
  }

  // ---------- how a delivery ends ----------

  /** What came of the requests that were sent: the visits that found the row due. */
  function Made(row: OutboxRow, tries: seq<Try>): seq<Attempt> {
    if tries == [] then []
    else
      var init, t := tries[..|tries| - 1], tries[|tries| - 1];
      Made(row, init) + (if Due(Visits(row, init), t.now) then [t.attempt] else [])
  }

  predicate Succeeds(a: Attempt) {
    a.Http? && IsOk(a.status)
  }

  /** No later attempt could help: there is no target, or the answer is final. */
  predicate Fatal(a: Attempt) {
    a == TargetMissing || (a.Http? && !IsOk(a.status) && !IsRetryable(a.status))
  }

  ghost predicate SomeSucceeds(made: seq<Attempt>) {
    exists k :: 0 <= k < |made| && Succeeds(made[k])
  }

  ghost predicate SomeFatal(made: seq<Attempt>) {
    exists k :: 0 <= k < |made| && Fatal(made[k])
  }

  lemma MadeMore(made: seq<Attempt>, a: Attempt)
    ensures SomeSucceeds(made + [a]) <==> SomeSucceeds(made) || Succeeds(a)
    ensures SomeFatal(made + [a]) <==> SomeFatal(made) || Fatal(a)
  {
    var all := made + [a];
    assert all[|made|] == a && forall k :: 0 <= k < |made| ==> all[k] == made[k];
  }

  /**
   How every delivery ends, for any visits at any times: it is delivered exactly if some request got a 2xx
   answer, and given up exactly if some request had no target or a final answer, or six were sent and none
   succeeded. It never goes both ways, and until then it is still to be tried.
   */
  lemma {:induction false} OutcomeOfVisits(state: JobState, tries: seq<Try>)
    ensures var row, made := Visits(Fresh(state), tries), Made(Fresh(state), tries);
      && |made| == row.attempts
      && (row.delivery == Delivered <==> SomeSucceeds(made))
      && (row.delivery == DeadLetter <==> SomeFatal(made) || (|made| == MAX_ATTEMPTS && !SomeSucceeds(made)))
      && (row.delivery == DeliveryPending <==> made == [])
  {
    if tries != [] {
      var init, t := tries[..|tries| - 1], tries[|tries| - 1];
      var row := Visits(Fresh(state), init);
      OutcomeOfVisits(state, init);
      AtMostSixRequests(state, init);
      if Due(row, t.now) {
        MadeMore(Made(Fresh(state), init), t.attempt);
      } else {
        assert Made(Fresh(state), tries) == Made(Fresh(state), init);
      }
    }
  }

  /**
   What one answer does to a row: a 2xx one delivers it; one that may pass, a timeout, a conflict, too early, too many
   requests or a server's own error, leaves it for another attempt as long as it is not the sixth; any other gives up.
   */
  lemma AnswerDecides(row: OutboxRow, status: int, now: int)
    ensures var passing := status in {408, 409, 425, 429} || status > 499;
      Deliver(row, Http(status), now).delivery
        == if status / 100 == 2 then Delivered
           else if passing && row.attempts < 5 then DeliveryFailed
           else DeadLetter
  {
  }

  /** The delay after each failed attempt: one minute, doubling, and half an hour from the sixth on. */
  lemma DelaysAre(attempts: nat)
    ensures RetryDelay(0) == RetryDelay(1) == 60_000 && RetryDelay(2) == 120_000 && RetryDelay(3) == 240_000
    ensures RetryDelay(4) == 480_000 && RetryDelay(5) == 960_000
    ensures attempts >= 6 ==> RetryDelay(attempts) == 1_800_000
  {
    assert Pow2(0) == 1 && Pow2(1) == 2 && Pow2(2) == 4 && Pow2(3) == 8 && Pow2(4) == 16 && Pow2(5) == 32;
    if attempts >= 6 {
      PowersGrow(5, attempts - 1);
    }
  }

  lemma {:induction false} PowersGrow(m: nat, n: nat)
    requires m <= n
    ensures Pow2(m) <= Pow2(n)
  {
    if m < n {
      PowersGrow(m, n - 1);
    }
  }

  lemma SmallPowers(k: nat)
    requires 1 <= k < MAX_ATTEMPTS
    ensures Pow2(k - 1) <= 16
  {
    assert Pow2(0) == 1 && Pow2(1) == 2 && Pow2(2) == 4 && Pow2(3) == 8 && Pow2(4) == 16;
  }

  /** With six attempts the half-hour cap never comes into play: every delay is a full doubling. */
  lemma CapIsNeverReached(row: OutboxRow, attempt: Attempt, now: int)
    requires Scheduled(row) && Due(row, now) && Deliver(row, attempt, now).delivery == DeliveryFailed
    ensures Deliver(row, attempt, now).nextAttemptAt == Some(now + BASE_RETRY_DELAY_MS * Pow2(row.attempts))
  {
    SmallPowers(row.attempts + 1);
  }

  /** When the k-th retry is allowed, counted from the first request. */
  ghost predicate Patient(row: OutboxRow, first: int) {
    row.delivery == DeliveryFailed ==>
      row.nextAttemptAt.Some? && row.nextAttemptAt.value >= first + BASE_RETRY_DELAY_MS * (Pow2(row.attempts) - 1)
  }

  /**
   Retries wait at least 1, 3, 7, 15 and 31 minutes after the first request, so nothing is given up for
   exhaustion within half an hour.
   */
  lemma {:induction false} RetriesArePatient(state: JobState, tries: seq<Try>, first: int)
    requires forall n :: 0 <= n < |tries| ==> first <= tries[n].now
    ensures Patient(Visits(Fresh(state), tries), first)
  {
    if tries != [] {
      var init, t := tries[..|tries| - 1], tries[|tries| - 1];
      var row := Visits(Fresh(state), init);
      RetriesArePatient(state, init, first);
      AtMostSixRequests(state, init);
      if Due(row, t.now) && Deliver(row, t.attempt, t.now).delivery == DeliveryFailed {
        CapIsNeverReached(row, t.attempt, t.now);
        if row.delivery == DeliveryPending {
          assert Pow2(0) == 1 && Pow2(1) == 2;
        }
      }
    }
  }
}
