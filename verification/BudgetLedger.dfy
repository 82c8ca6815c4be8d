/**
 The free-tier budget: reservations taken under a row lock, totals read in two
 separate reads, settlements committed with their usage row
 (backend/src/modules/strategy/free-tier-budget.service.ts and flushBatch in
 backend/src/modules/strategy/strategy-run-store.service.ts), over one UTC day of one tier.
 */
module BudgetLedger {
  import opened Options

  datatype Tier = Flagship | Mini

  function DailyLimit(tier: Tier): nat {
    if tier == Flagship then 250_000 else 2_500_000
  }

  /**
   What is assumed of `Math.floor(limit * (percent / 100))` in doubles: that share of the
   daily limit, a whole number of tokens, or one token less where the product falls just
   short of it. All of the limit is exact.
   */
  ghost predicate IsThreshold(tier: Tier, rule: nat -> nat) {
    && rule(100) == DailyLimit(tier)
    && forall percent :: 0 < percent <= 100 ==>
         var share := DailyLimit(tier) / 100 * percent;
         rule(percent) == share || rule(percent) == share - 1
  }

  datatype ReservationStatus = Pending | Unrecorded

  /**
   One model call: what it reserved, what the provider has billed for it so far, its
   FreeTierReservation row (if any), and the totalTokens of its SolvePrompt row (if any).
   */
  datatype ModelCall = ModelCall(tokens: nat, billed: nat, reservation: Option<ReservationStatus>, usage: Option<nat>)

  function ReservedBy(c: ModelCall): nat {
    if c.reservation.Some? then c.tokens else 0
  }

  function UsedBy(c: ModelCall): nat {
    if c.usage.Some? then c.usage.value else 0
  }

  function BilledBy(c: ModelCall): nat {
    c.billed
  }

  function Total(f: ModelCall -> nat, calls: seq<ModelCall>): nat
    decreases |calls|
  {
    if calls == [] then 0 else f(calls[0]) + Total(f, calls[1..])
  }

  function Committed(calls: seq<ModelCall>): nat {
    Total(ReservedBy, calls) + Total(UsedBy, calls)
  }

  function Spend(calls: seq<ModelCall>): nat {
    Total(BilledBy, calls)
  }

  /** A reserve transaction under way: the threshold it read, and the totals it has read so far. */
  datatype Txn = Txn(tokens: nat, threshold: nat, seen: seq<nat>)

  /** `ceiling` remembers the highest threshold of any cycle started so far. */
  datatype Ledger = Ledger(active: bool, percent: nat, ceiling: nat, calls: seq<ModelCall>, txns: map<nat, Txn>)

  const EMPTY := Ledger(false, 0, 0, [], map[])

  /** The three choices the service makes. */
  datatype Protocol = Protocol(locks: bool, reservationsFirst: bool, atomicSettle: bool)

  const SERVICE := Protocol(true, true, true)

  datatype Event =
    | StartCycle(percent: nat)
    | StopCycle
    | Begin(p: nat, tokens: nat)        // SELECT ... FOR UPDATE of the tier's row
    | Read(p: nat)                      // the transaction's next read
    | Decide(p: nat)                    // insert or return null, then commit
    | Abort(p: nat)                     // anything throws, or the process dies
    | Bill(call: nat, amount: nat)      // the provider charges for a call
    | Settle(call: nat, recorded: bool) // flushBatch commits the call's outcome
    | RecordUsage(call: nat)            // only where a settle is not atomic

  predicate RowFree(proto: Protocol, s: Ledger) {
    proto.locks ==> s.txns == map[]
  }

  function NextRead(proto: Protocol, calls: seq<ModelCall>, seen: seq<nat>): nat {
    if (seen == []) == proto.reservationsFirst then Total(ReservedBy, calls) else Total(UsedBy, calls)
  }

  function Grant(s: Ledger, p: nat): Ledger
    requires p in s.txns
  {
    s.(calls := s.calls + [ModelCall(s.txns[p].tokens, 0, Some(Pending), None)], txns := s.txns - {p})
  }

  function SettleOne(proto: Protocol, c: ModelCall, recorded: bool): ModelCall {
    if c.reservation != Some(Pending) then c
    else if !recorded then c.(reservation := Some(Unrecorded))
    else c.(reservation := None, usage := if proto.atomicSettle then Some(c.billed) else None)
  }

  function Apply(rule: nat -> nat, proto: Protocol, s: Ledger, e: Event): Ledger {
    match e
    case StartCycle(percent) =>
      if s.active || !RowFree(proto, s) || !(0 < percent <= 100) then s
      else
        var t := rule(percent);
        s.(active := true, percent := percent, ceiling := if t > s.ceiling then t else s.ceiling)
    case StopCycle => if RowFree(proto, s) then s.(active := false) else s
    case Begin(p, tokens) =>
      if p in s.txns || !RowFree(proto, s) || !s.active then s
      else s.(txns := s.txns[p := Txn(tokens, rule(s.percent), [])])
    case Read(p) =>
      if p in s.txns && |s.txns[p].seen| < 2 then
        var t := s.txns[p];
        s.(txns := s.txns[p := t.(seen := t.seen + [NextRead(proto, s.calls, t.seen)])])
      else s
    case Decide(p) =>
      if p in s.txns && |s.txns[p].seen| == 2 then
        var t := s.txns[p];
        if t.seen[0] + t.seen[1] + t.tokens > t.threshold then s.(txns := s.txns - {p}) else Grant(s, p)
      else s
    case Abort(p) => s.(txns := s.txns - {p})
    case Bill(call, amount) =>
      if call < |s.calls| && s.calls[call].usage.None? && amount <= s.calls[call].tokens
      then s.(calls := s.calls[call := s.calls[call].(billed := amount)]) else s
    case Settle(call, recorded) =>
      if call < |s.calls| then s.(calls := s.calls[call := SettleOne(proto, s.calls[call], recorded)]) else s
    case RecordUsage(call) =>
      if call < |s.calls| && s.calls[call].reservation.None? && s.calls[call].usage.None?
      then s.(calls := s.calls[call := s.calls[call].(usage := Some(s.calls[call].billed))]) else s
  }

  function Play(rule: nat -> nat, proto: Protocol, s: Ledger, events: seq<Event>): Ledger
    decreases |events|
  {
    if events == [] then s else Play(rule, proto, Apply(rule, proto, s, events[0]), events[1..])
  }

  // ----- sums -----

  lemma {:induction false} TotalUpdate(f: ModelCall -> nat, calls: seq<ModelCall>, i: nat, c: ModelCall)
    requires i < |calls|
    ensures Total(f, calls[i := c]) + f(calls[i]) == Total(f, calls) + f(c)
    decreases |calls|
  {
    var next := calls[i := c];
    if i == 0 {
      assert next[1..] == calls[1..];
    } else {
      assert next[1..] == calls[1..][i - 1 := c];
      TotalUpdate(f, calls[1..], i - 1, c);
    }
  }

  lemma {:induction false} TotalAppend(f: ModelCall -> nat, calls: seq<ModelCall>, c: ModelCall)
    ensures Total(f, calls + [c]) == Total(f, calls) + f(c)
    decreases |calls|
  {
    if calls == [] {
      assert calls + [c] == [c];
    } else {
      assert (calls + [c])[1..] == calls[1..] + [c];
      TotalAppend(f, calls[1..], c);
    }
  }

  // ----- the invariant -----

  ghost predicate CallOk(c: ModelCall) {
    && c.billed <= c.tokens
    && (c.reservation.Some? <==> c.usage.None?)
    && (c.usage.Some? ==> c.usage.value == c.billed)
  }

  /** What a transaction has read still covers what is committed now. */
  ghost predicate TxnOk(t: Txn, calls: seq<ModelCall>, ceiling: nat) {
    && t.threshold <= ceiling && |t.seen| <= 2
    && (|t.seen| == 1 ==> t.seen[0] >= Total(ReservedBy, calls))
    && (|t.seen| == 2 ==> t.seen[0] + t.seen[1] >= Committed(calls))
  }

  ghost predicate CallsOk(calls: seq<ModelCall>) {
    forall i :: 0 <= i < |calls| ==> CallOk(calls[i])
  }

  ghost predicate TxnsOk(txns: map<nat, Txn>, calls: seq<ModelCall>, ceiling: nat) {
    && (forall p, q :: p in txns && q in txns ==> p == q)
    && (forall p :: p in txns ==> TxnOk(txns[p], calls, ceiling))
  }

  ghost predicate Inv(rule: nat -> nat, s: Ledger) {
    && CallsOk(s.calls)
    && TxnsOk(s.txns, s.calls, s.ceiling)
    && Committed(s.calls) <= s.ceiling
    && (s.active ==> rule(s.percent) <= s.ceiling)
  }

  /** Changing one call so that neither total grows spoils nothing any transaction has read. */
  lemma UpdateCall(calls: seq<ModelCall>, i: nat, c: ModelCall, txns: map<nat, Txn>, ceiling: nat)
    returns (next: seq<ModelCall>)
    requires i < |calls| && CallsOk(calls) && TxnsOk(txns, calls, ceiling) && CallOk(c)
    requires ReservedBy(c) <= ReservedBy(calls[i])
    requires ReservedBy(c) + UsedBy(c) <= ReservedBy(calls[i]) + UsedBy(calls[i])
    ensures next == calls[i := c] && CallsOk(next) && TxnsOk(txns, next, ceiling)
    ensures Committed(next) <= Committed(calls)
  {
    next := calls[i := c];
    TotalUpdate(ReservedBy, calls, i, c);
    TotalUpdate(UsedBy, calls, i, c);
  }

  lemma GrantKeeps(rule: nat -> nat, s: Ledger, p: nat)
    requires Inv(rule, s) && p in s.txns && |s.txns[p].seen| == 2
    requires s.txns[p].seen[0] + s.txns[p].seen[1] + s.txns[p].tokens <= s.txns[p].threshold
    ensures Inv(rule, Grant(s, p))
  {
    var c := ModelCall(s.txns[p].tokens, 0, Some(Pending), None);
    TotalAppend(ReservedBy, s.calls, c);
    TotalAppend(UsedBy, s.calls, c);
    assert Grant(s, p).txns == map[];
  }

  lemma TxnStepKeeps(rule: nat -> nat, s: Ledger, e: Event)
    requires Inv(rule, s) && (e.Begin? || e.Read? || e.Decide? || e.Abort? || e.StartCycle? || e.StopCycle?)
    ensures Inv(rule, Apply(rule, SERVICE, s, e))
  {
    if e.Decide? && e.p in s.txns && |s.txns[e.p].seen| == 2 {
      var t := s.txns[e.p];
      if t.seen[0] + t.seen[1] + t.tokens <= t.threshold {
        GrantKeeps(rule, s, e.p);
      }
    }
  }

  lemma CallStepKeeps(rule: nat -> nat, s: Ledger, e: Event)
    requires Inv(rule, s) && (e.Bill? || e.Settle? || e.RecordUsage?)
    ensures Inv(rule, Apply(rule, SERVICE, s, e))
  {
    var t := Apply(rule, SERVICE, s, e);
    if e.call < |s.calls| && t != s {
      assert t == s.(calls := s.calls[e.call := t.calls[e.call]]);
      var next := UpdateCall(s.calls, e.call, t.calls[e.call], s.txns, s.ceiling);
    }
  }

  lemma {:induction false} PlayKeeps(rule: nat -> nat, s: Ledger, events: seq<Event>)
    requires Inv(rule, s)
    ensures Inv(rule, Play(rule, SERVICE, s, events))
    decreases |events|
  {
    if events != [] {
      if events[0].Bill? || events[0].Settle? || events[0].RecordUsage? {
        CallStepKeeps(rule, s, events[0]);
      } else {
        TxnStepKeeps(rule, s, events[0]);
      }
      PlayKeeps(rule, Apply(rule, SERVICE, s, events[0]), events[1..]);
    }
  }

  lemma {:induction false} SpendIsCommitted(calls: seq<ModelCall>)
    requires CallsOk(calls)
    ensures Spend(calls) <= Committed(calls)
    decreases |calls|
  {
    if calls != [] {
      assert CallOk(calls[0]);
      assert forall i :: 0 <= i < |calls[1..]| ==> calls[1..][i] == calls[i + 1];
      SpendIsCommitted(calls[1..]);
    }
  }

  /** Recorded usage plus outstanding reservations, and what was really billed, are within the threshold. */
  ghost predicate WithinBudget(s: Ledger) {
    Committed(s.calls) <= s.ceiling && Spend(s.calls) <= s.ceiling
  }

  ghost predicate Safe(rule: nat -> nat, proto: Protocol) {
    forall events :: WithinBudget(Play(rule, proto, EMPTY, events))
  }

  /** Every cycle is started at one of these percentages or less. */
  ghost predicate StartsWithin(events: seq<Event>, percent: nat) {
    forall i :: 0 <= i < |events| && events[i].StartCycle? ==> events[i].percent <= percent
  }

  lemma {:induction false} CeilingWithin(tier: Tier, rule: nat -> nat, proto: Protocol, s: Ledger,
                                         events: seq<Event>, percent: nat)
    requires IsThreshold(tier, rule) && StartsWithin(events, percent) && 100 * s.ceiling <= DailyLimit(tier) * percent
    ensures 100 * Play(rule, proto, s, events).ceiling <= DailyLimit(tier) * percent
    decreases |events|
  {
    if events != [] {
      if events[0].StartCycle? && 0 < events[0].percent <= 100 {
        ShareWithin(tier, rule, events[0].percent, percent);
      }
      CeilingWithin(tier, rule, proto, Apply(rule, proto, s, events[0]), events[1..], percent);
    }
  }

  lemma ShareWithin(tier: Tier, rule: nat -> nat, percent: nat, most: nat)
    requires IsThreshold(tier, rule) && 0 < percent <= 100 && percent <= most
    ensures 100 * rule(percent) <= DailyLimit(tier) * most
  {
    var share := DailyLimit(tier) / 100 * percent;
    assert rule(percent) == share || rule(percent) == share - 1;
    assert DailyLimit(tier) == 100 * (DailyLimit(tier) / 100);
    assert DailyLimit(tier) / 100 * percent <= DailyLimit(tier) / 100 * most;
  }

  /**
   Budget safety, over every interleaving of the service's steps and crashes: committed
   tokens and real spend stay within the highest threshold in effect, whatever the
   thresholds are, and so within that share of the tier's daily limit.
   */
  lemma BudgetSafety(tier: Tier, rule: nat -> nat, events: seq<Event>, percent: nat)
    ensures WithinBudget(Play(rule, SERVICE, EMPTY, events))
    ensures IsThreshold(tier, rule) && StartsWithin(events, percent) ==>
              100 * Spend(Play(rule, SERVICE, EMPTY, events).calls) <= DailyLimit(tier) * percent
  {
    PlayKeeps(rule, EMPTY, events);
    SpendIsCommitted(Play(rule, SERVICE, EMPTY, events).calls);
    if IsThreshold(tier, rule) && StartsWithin(events, percent) {
      CeilingWithin(tier, rule, SERVICE, EMPTY, events, percent);
    }
  }

  // ----- traces -----

  lemma Then(rule: nat -> nat, proto: Protocol, s: Ledger, e: Event, rest: seq<Event>)
    ensures Play(rule, proto, s, [e] + rest) == Play(rule, proto, Apply(rule, proto, s, e), rest)
  {
    assert ([e] + rest)[1..] == rest;
  }

  lemma {:induction false} PlayAppend(rule: nat -> nat, proto: Protocol, s: Ledger, a: seq<Event>, b: seq<Event>)
    ensures Play(rule, proto, s, a + b) == Play(rule, proto, Play(rule, proto, s, a), b)
    decreases |a|
  {
    if a == [] {
      assert a + b == b;
    } else {
      assert (a + b)[1..] == a[1..] + b;
      PlayAppend(rule, proto, Apply(rule, proto, s, a[0]), a[1..], b);
    }
  }
}
