/**
 Where the rows of the credit tables come from: every hold was asked for, every captured hold was captured by a
 signer who was active for its gateway, every expired one was due, and every earning is owed to the owner that the
 request named. Each fact points at the event of the run it comes from.
 */
module CreditHistory {
  import opened Common
  import opened SettlementAmounts
  import opened CreditState
  import opened CreditSteps
  import opened CreditInvariants
  import opened CreditProof
  import opened CreditTheorems
  import opened CreditAnswers
  import opened Text

  /** The tables just before event n. */
  function Before(cfg: Config, events: seq<Event>, n: nat): Db
    requires n <= |events|
  {
    Run(cfg, EMPTY, events[..n])
  }

  lemma LastStep(cfg: Config, events: seq<Event>)
    requires events != []
    ensures var n := |events| - 1;
      Run(cfg, EMPTY, events) == Apply(cfg, Before(cfg, events, n), events[n]) && Inv(cfg, Before(cfg, events, n))
  {
    var n := |events| - 1;
    RunStep(cfg, EMPTY, events[..n], events[n]);
    assert events[..n] + [events[n]] == events;
    EmptyInv(cfg);
    RunInv(cfg, EMPTY, events[..n]);
  }

  lemma SamePrefix(cfg: Config, events: seq<Event>, m: nat, n: nat)
    requires n <= m <= |events|
    ensures Before(cfg, events[..m], n) == Before(cfg, events, n)
  {
    assert events[..m][..n] == events[..n];
  }

  // ---------- holds ----------

  /** Event n issued hold `id`, which says what the request said. */
  ghost predicate AskedAt(cfg: Config, events: seq<Event>, n: nat, id: HoldId, h: Hold) {
    && n < |events| && events[n].DoCreateHold?
    && var input := events[n].hold;
       var tx := CreateHold(cfg, Before(cfg, events, n), input, events[n].now);
       && tx.Commit? && tx.result.HoldOk? && tx.result.id == id
       && h.ticket == input.ticket && h.wallet == input.wallet && h.service == input.service && h.cost == input.cost
       && h.owner == input.owner && h.gateway == input.gateway && h.expiresAt == input.expiresAt
  }

  /** A ticket request ends in the state it started from, in the swept one, or in that with the hold issued. */
  lemma RequestEnds(cfg: Config, db: Db, input: HoldInput, now: int)
    requires Inv(cfg, db) && CreateHold(cfg, db, input, now).Commit?
    ensures var tx, sweep := CreateHold(cfg, db, input, now), SweepWallet(cfg, db, input.wallet, now);
      || (tx.db == db && !tx.result.HoldOk?)
      || (sweep.Written? && tx.db == sweep.db && !tx.result.HoldOk?)
      || (sweep.Written? && input.wallet in sweep.db.balances && Issued(sweep.db, tx.db, input)
          && tx.result.HoldOk? && tx.result.id == |sweep.db.holds|)
  {
    if input.wallet in db.balances {
      SweepWalletInv(cfg, db, input.wallet, now);
      var swept := SweepWallet(cfg, db, input.wallet, now).db;
      if 0 < input.cost <= swept.balances[input.wallet].credits {
        IssueHoldShape(cfg, db, swept, input);
      }
    }
  }

  /** The sweep expires what is due, and nothing else of a hold changes. */
  lemma SweepMoves(cfg: Config, db: Db, w: Wallet, now: int)
    requires Inv(cfg, db) && SweepWallet(cfg, db, w, now).Written?
    ensures var swept := SweepWallet(cfg, db, w, now).db;
      && |swept.holds| == |db.holds| && swept.earnings == db.earnings && swept.activeSigners == db.activeSigners
      && forall i :: 0 <= i < |db.holds| ==>
           swept.holds[i] == if IsOverdue(db.holds[i], w, now)
                             then db.holds[i].(state := Expired, releasedAt := Some(now)) else db.holds[i]
  {
    SweepWalletInv(cfg, db, w, now);
    OverdueIsDue(db.holds, w, now);
  }

  /** It touches neither earnings nor signers. */
  lemma RequestLeaves(cfg: Config, db: Db, input: HoldInput, now: int)
    requires Inv(cfg, db)
    ensures var db' := AfterTx(db, CreateHold(cfg, db, input, now));
      db'.earnings == db.earnings && db'.activeSigners == db.activeSigners
  {
    if CreateHold(cfg, db, input, now).Commit? {
      RequestEnds(cfg, db, input, now);
      if SweepWallet(cfg, db, input.wallet, now).Written? {
        SweepMoves(cfg, db, input.wallet, now);
      }
    }
  }

  /** A request that adds a hold adds the one it asks for. */
  lemma NewHoldIsAsked(cfg: Config, db: Db, input: HoldInput, now: int)
    requires Inv(cfg, db)
    ensures var tx := CreateHold(cfg, db, input, now);
      tx.Commit? && |tx.db.holds| > |db.holds| ==>
        && tx.result.HoldOk? && tx.result.id == |db.holds| && |tx.db.holds| == |db.holds| + 1
        && tx.db.holds[|db.holds|] == Hold(input.ticket, input.wallet, input.service, input.owner, input.gateway,
                                           input.cost, Held, input.expiresAt, None, None, None)
  {
    if CreateHold(cfg, db, input, now).Commit? {
      RequestEnds(cfg, db, input, now);
      if SweepWallet(cfg, db, input.wallet, now).Written? {
        SweepMoves(cfg, db, input.wallet, now);
      }
    }
  }

  /** Every hold was asked for: its ticket, wallet, service, cost, owner, gateway and expiry are the request's. */
  lemma {:induction false} HoldWasAsked(cfg: Config, events: seq<Event>, id: HoldId) returns (n: nat)
    requires id < |Run(cfg, EMPTY, events).holds|
    ensures AskedAt(cfg, events, n, id, Run(cfg, EMPTY, events).holds[id])
  {
    var last := |events| - 1;
    LastStep(cfg, events);
    var db := Before(cfg, events, last);
    ApplyKeepsHolds(cfg, db, events[last]);
    if id < |db.holds| {
      n := HoldWasAsked(cfg, events[..last], id);
      SamePrefix(cfg, events, last, n);
      assert HoldMoves(db.holds[id], Run(cfg, EMPTY, events).holds[id]);
    } else {
      n := last;
      NewHoldIsAsked(cfg, db, events[last].hold, events[last].now);
    }
  }

  // ---------- captures ----------

  /** Event n captured hold `id`: it was held, and the capture met every condition at that moment. */
  ghost predicate CapturedAt(cfg: Config, events: seq<Event>, n: nat, id: HoldId, h: Hold) {
    && n < |events| && events[n].DoCapture?
    && var db, input := Before(cfg, events, n), events[n].capture;
       && id < |db.holds| && db.holds[id].ticket == h.ticket == input.ticket
       && MayCapture(db, db.holds[id], input)
       && h == db.holds[id].(state := Captured, proof := Some(input.proof), capturedAt := Some(input.completedAt),
                             releasedAt := None)
  }

  lemma CaptureMoves(cfg: Config, db: Db, input: CaptureInput, id: HoldId)
    requires Inv(cfg, db) && id < |db.holds| && db.holds[id].state == Held
    ensures var h := AfterTx(db, Capture(cfg, db, input)).holds;
      id < |h| && (h[id] != db.holds[id] ==>
        && db.holds[id].ticket == input.ticket && MayCapture(db, db.holds[id], input)
        && h[id] == db.holds[id].(state := Captured, proof := Some(input.proof),
                                  capturedAt := Some(input.completedAt), releasedAt := None))
  {
    if FindTicket(db.holds, input.ticket).Some? {
      var found := FindTicket(db.holds, input.ticket).value;
      if db.holds[found].state == Held {
        FinalizeShape(cfg, db, found, input);
      }
    }
  }

  /** What a ticket request does to the holds that are there: those of its wallet that are due may expire. */
  lemma RequestMoves(cfg: Config, db: Db, input: HoldInput, now: int, id: HoldId)
    requires Inv(cfg, db) && id < |db.holds|
    ensures var h := AfterTx(db, CreateHold(cfg, db, input, now)).holds;
      id < |h| && (h[id] != db.holds[id] ==>
        && IsOverdue(db.holds[id], input.wallet, now)
        && h[id] == db.holds[id].(state := Expired, releasedAt := Some(now)))
  {
    if CreateHold(cfg, db, input, now).Commit? {
      RequestEnds(cfg, db, input, now);
      if SweepWallet(cfg, db, input.wallet, now).Written? {
        SweepMoves(cfg, db, input.wallet, now);
      }
    }
  }

  lemma ExpiryMoves(cfg: Config, db: Db, hold: HoldId, at: int, id: HoldId)
    requires Inv(cfg, db) && id < |db.holds|
    ensures var h := AfterTx(db, ExpireOne(cfg, db, hold, at)).holds;
      id < |h| && (h[id] != db.holds[id] ==>
        && id == hold && db.holds[id].state == Held && db.holds[id].expiresAt <= at
        && h[id] == db.holds[id].(state := Expired, releasedAt := Some(at)))
  {
    if hold < |db.holds| && db.holds[hold].state == Held {
      ExpireHeldEffect(cfg, db, hold, at);
    }
  }

  /** A step that ends a held hold is a capture that may, an expiry that is due, or a sweep of what is due. */
  lemma HoldStep(cfg: Config, db: Db, ev: Event, id: HoldId)
    requires Inv(cfg, db) && id < |db.holds| && db.holds[id].state == Held
    ensures var h, h' := db.holds[id], Apply(cfg, db, ev).holds;
      id < |h'| && (h'[id] != h ==>
        || (&& ev.DoCapture? && h.ticket == ev.capture.ticket && MayCapture(db, h, ev.capture)
            && h'[id] == h.(state := Captured, proof := Some(ev.capture.proof),
                            capturedAt := Some(ev.capture.completedAt), releasedAt := None))
        || (ev.DoExpire? && ev.id == id && h.expiresAt <= ev.at
            && h'[id] == h.(state := Expired, releasedAt := Some(ev.at)))
        || (ev.DoCreateHold? && ev.hold.wallet == h.wallet && h.expiresAt <= ev.now
            && h'[id] == h.(state := Expired, releasedAt := Some(ev.now))))
  {
    match ev
    case DoCapture(input) => CaptureMoves(cfg, db, input, id);
    case DoExpire(hold, at) => ExpiryMoves(cfg, db, hold, at, id);
    case DoCreateHold(input, now) => RequestMoves(cfg, db, input, now, id);
    case _ => MoneyKeeps(cfg, db, ev);
  }

  /**
   Every captured hold was captured by an event of the run, while it was held: for its ticket and service, signed by a
   signer who was active for its gateway at that moment, and completed before it expired; its proof and time are that
   event's.
   */
  lemma {:induction false} CaptureWasAllowed(cfg: Config, events: seq<Event>, id: HoldId) returns (n: nat)
    requires id < |Run(cfg, EMPTY, events).holds| && Run(cfg, EMPTY, events).holds[id].state == Captured
    ensures CapturedAt(cfg, events, n, id, Run(cfg, EMPTY, events).holds[id])
  {
    var last := |events| - 1;
    LastStep(cfg, events);
    var db := Before(cfg, events, last);
    EndedOrHeld(cfg, db, events[last], id);
    if db.holds[id].state == Held {
      n := last;
      HoldStep(cfg, db, events[last], id);
    } else {
      n := CaptureWasAllowed(cfg, events[..last], id);
      SamePrefix(cfg, events, last, n);
    }
  }

  /** A hold that has ended was there before, held or ended alike. */
  lemma EndedOrHeld(cfg: Config, db: Db, ev: Event, id: HoldId)
    requires Inv(cfg, db) && id < |Apply(cfg, db, ev).holds| && Apply(cfg, db, ev).holds[id].state != Held
    ensures id < |db.holds|
    ensures db.holds[id].state != Held ==> Apply(cfg, db, ev).holds[id] == db.holds[id]
  {
    ApplyKeepsHolds(cfg, db, ev);
    if id >= |db.holds| {
      NewHoldIsAsked(cfg, db, ev.hold, ev.now);
    } else {
      assert HoldMoves(db.holds[id], Apply(cfg, db, ev).holds[id]);
    }
  }

  // ---------- expiries ----------

  /** Event n expired hold `id`, by the job or by a ticket request of its wallet: it was held, and due by then. */
  ghost predicate ExpiredAt(cfg: Config, events: seq<Event>, n: nat, id: HoldId, h: Hold) {
    && n < |events|
    && var db, ev := Before(cfg, events, n), events[n];
       && (ev.DoExpire? || ev.DoCreateHold?)
       && var now := if ev.DoExpire? then ev.at else ev.now;
          && (if ev.DoExpire? then ev.id == id else ev.hold.wallet == h.wallet)
          && id < |db.holds| && db.holds[id].state == Held && h.expiresAt <= now
          && h == db.holds[id].(state := Expired, releasedAt := Some(now))
  }

  /** Every expired hold was due when an event of the run expired it. */
  lemma {:induction false} ExpiryWasDue(cfg: Config, events: seq<Event>, id: HoldId) returns (n: nat)
    requires id < |Run(cfg, EMPTY, events).holds| && Run(cfg, EMPTY, events).holds[id].state == Expired
    ensures ExpiredAt(cfg, events, n, id, Run(cfg, EMPTY, events).holds[id])
  {
    var last := |events| - 1;
    LastStep(cfg, events);
    var db := Before(cfg, events, last);
    EndedOrHeld(cfg, db, events[last], id);
    if db.holds[id].state == Held {
      n := last;
      HoldStep(cfg, db, events[last], id);
    } else {
      n := ExpiryWasDue(cfg, events[..last], id);
      SamePrefix(cfg, events, last, n);
    }
  }

  // ---------- signers ----------

  /** The signers of the last change; nobody is active before the first. */
  function LastActive(events: seq<Event>): set<(string, string)> {
    if events == [] then {}
    else
      var ev := events[|events| - 1];
      if ev.SignersChange? then ev.active else LastActive(events[..|events| - 1])
  }

  /** No operation activates or removes a signer. */
  lemma {:induction false} SignersAre(cfg: Config, events: seq<Event>)
    ensures Run(cfg, EMPTY, events).activeSigners == LastActive(events)
  {
    if events != [] {
      var last := |events| - 1;
      SignersAre(cfg, events[..last]);
      LastStep(cfg, events);
      SignersStay(cfg, Before(cfg, events, last), events[last]);
    }
  }

  lemma CaptureLeaves(cfg: Config, db: Db, input: CaptureInput)
    requires Inv(cfg, db)
    ensures AfterTx(db, Capture(cfg, db, input)).activeSigners == db.activeSigners
  {
    if FindTicket(db.holds, input.ticket).Some? {
      var id := FindTicket(db.holds, input.ticket).value;
      if db.holds[id].state == Held {
        FinalizeShape(cfg, db, id, input);
      }
    }
  }

  lemma SignersStay(cfg: Config, db: Db, ev: Event)
    requires Inv(cfg, db)
    ensures Apply(cfg, db, ev).activeSigners == if ev.SignersChange? then ev.active else db.activeSigners
  {
    hide CreateHold, Capture, GateConsume;
    match ev
    case DoCreateHold(input, now) => RequestLeaves(cfg, db, input, now);
    case DoCapture(input) => CaptureLeaves(cfg, db, input);
    case DoExpire(id, at) =>
      if id < |db.holds| && db.holds[id].state == Held {
        ExpireHeldEffect(cfg, db, id, at);
      }
    case DoGate(input) => GateAnswersIn(cfg, db, input);
    case _ =>
  }

  // ---------- earnings ----------

  /** The earning is over the price of `cost` credits of the wallet, for this owner and service. */
  ghost predicate Owes(e: Earning, w: Wallet, owner: string, service: string, cost: int) {
    && e.wallet == w && e.owner == owner && e.service == Trim(service) && e.grossCredits == cost
    && CalculateSettlementAmounts(cost, PROTOCOL_FEE_BPS, CREDIT_PRICE_WEI) == Split(e.amounts)
  }

  /** Event n accepted a gate debit that owes this earning. */
  ghost predicate GateOwes(cfg: Config, events: seq<Event>, n: nat, e: Earning) {
    && n < |events| && events[n].DoGate?
    && var input := events[n].gate;
       var tx := GateConsume(cfg, Before(cfg, events, n), input);
       && tx.Commit? && tx.result.GateOk? && input.owner.Some? && MerchantRequest(input).Some?
       && e.settlementId == GateSettlement(input.wallet, MerchantRequest(input).value)
       && Owes(e, input.wallet, input.owner.value, input.service, input.cost)
  }

  /** Event n captured the hold of this ticket, which some request asked for with this owner. */
  ghost predicate CaptureOwes(cfg: Config, events: seq<Event>, n: nat, id: HoldId, e: Earning) {
    && n < |events| && id < |Before(cfg, events, n).holds|
    && var h := Before(cfg, events, n).holds[id];
       && events[n].DoCapture? && events[n].capture.ticket == h.ticket
       && MayCapture(Before(cfg, events, n), h, events[n].capture)
       && e.settlementId == CaptureSettlement(h.ticket)
       && Owes(e, h.wallet, h.owner, h.service, h.cost)
  }

  lemma GateAdds(cfg: Config, db: Db, input: GateInput)
    requires Inv(cfg, db)
    ensures var tx := GateConsume(cfg, db, input);
      var after := AfterTx(db, tx).earnings;
      after != db.earnings ==>
        && tx.Commit? && tx.result.GateOk? && input.owner.Some? && MerchantRequest(input).Some?
        && |after| == |db.earnings| + 1
        && after[|db.earnings|].settlementId == GateSettlement(input.wallet, MerchantRequest(input).value)
        && Owes(after[|db.earnings|], input.wallet, input.owner.value, input.service, input.cost)
  {
    GateAnswersIn(cfg, db, input);
  }

  lemma CaptureAdds(cfg: Config, db: Db, input: CaptureInput)
    requires Inv(cfg, db)
    ensures var after := AfterTx(db, Capture(cfg, db, input)).earnings;
      after != db.earnings ==>
        && FindTicket(db.holds, input.ticket).Some? && |after| == |db.earnings| + 1
        && var h := db.holds[FindTicket(db.holds, input.ticket).value];
           && MayCapture(db, h, input)
           && after[|db.earnings|].settlementId == CaptureSettlement(h.ticket)
           && Owes(after[|db.earnings|], h.wallet, h.owner, h.service, h.cost)
  {
    if FindTicket(db.holds, input.ticket).Some? {
      var id := FindTicket(db.holds, input.ticket).value;
      if db.holds[id].state == Held {
        FinalizeShape(cfg, db, id, input);
      }
    }
  }

  lemma OthersAddNothing(cfg: Config, db: Db, ev: Event)
    requires Inv(cfg, db) && !ev.DoGate? && !ev.DoCapture?
    ensures Apply(cfg, db, ev).earnings == db.earnings
  {
    match ev
    case DoCreateHold(input, now) => RequestLeaves(cfg, db, input, now);
    case DoExpire(id, at) =>
      if id < |db.holds| && db.holds[id].state == Held {
        ExpireHeldEffect(cfg, db, id, at);
      }
    case _ =>
  }

  lemma EarningStep(cfg: Config, db: Db, ev: Event, k: nat)
    requires Inv(cfg, db) && |db.earnings| <= k < |Apply(cfg, db, ev).earnings|
    ensures ev.DoGate? || ev.DoCapture?
    ensures k == |db.earnings|
  {
    if ev.DoGate? {
      GateAdds(cfg, db, ev.gate);
    } else if ev.DoCapture? {
      CaptureAdds(cfg, db, ev.capture);
    } else {
      OthersAddNothing(cfg, db, ev);
    }
  }

  /**
   Every earning is owed: to the owner named by the gate request that was charged for it, or by the ticket request
   whose hold was captured for it, over the whole price of what that request cost, for its wallet and its service.
   */
  lemma {:induction false} EarningIsOwed(cfg: Config, events: seq<Event>, k: nat) returns (n: nat, id: HoldId)
    requires k < |Run(cfg, EMPTY, events).earnings|
    ensures var e := Run(cfg, EMPTY, events).earnings[k];
      match e.settlementId
      case GateSettlement(_, _) => GateOwes(cfg, events, n, e)
      case CaptureSettlement(_) => CaptureOwes(cfg, events, n, id, e)
      case RollupSettlement(_) => false
  {
    var last := |events| - 1;
    LastStep(cfg, events);
    var db := Before(cfg, events, last);
    ApplyHistory(cfg, db, events[last]);
    if k < |db.earnings| {
      n, id := EarningIsOwed(cfg, events[..last], k);
      SamePrefix(cfg, events, last, n);
      assert Run(cfg, EMPTY, events).earnings[..|db.earnings|][k] == db.earnings[k];
    } else {
      n, id := last, 0;
      EarningStep(cfg, db, events[last], k);
      if events[last].DoGate? {
        GateAdds(cfg, db, events[last].gate);
      } else {
        CaptureAdds(cfg, db, events[last].capture);
        id := FindTicket(db.holds, events[last].capture.ticket).value;
      }
    }
  }

  /** So a captured ticket earns for the owner, and from the gateway's signers, that its request named. */
  lemma MerchantWasNamed(cfg: Config, events: seq<Event>, k: nat) returns (asked: nat, captured: nat, id: HoldId)
    requires k < |Run(cfg, EMPTY, events).earnings|
    requires Run(cfg, EMPTY, events).earnings[k].settlementId.CaptureSettlement?
    ensures asked < captured < |events| && events[asked].DoCreateHold? && events[captured].DoCapture?
    ensures var input, db := events[asked].hold, Before(cfg, events, captured);
      var e := Run(cfg, EMPTY, events).earnings[k];
      && e.settlementId == CaptureSettlement(input.ticket)
      && Owes(e, input.wallet, input.owner, input.service, input.cost)
      && input.gateway.Some? && (input.gateway.value, events[captured].capture.signer) in db.activeSigners
      && events[captured].capture.completedAt < input.expiresAt
  {
    captured, id := EarningIsOwed(cfg, events, k);
    asked := HoldWasAsked(cfg, events[..captured], id);
  }
}
