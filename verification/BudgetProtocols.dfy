/**
 Why the free-tier budget service locks the tier's row, reads reservations before
 usage, and settles in one commit (backend/src/modules/strategy/free-tier-budget.service.ts).
 */
module BudgetProtocols {
  import opened Options
  import opened BudgetLedger

  /** A reservation taken with nothing in between: granted exactly when the tier is active and it fits. */
  lemma ReserveAlone(rule: nat -> nat, proto: Protocol, s: Ledger, p: nat, tokens: nat)
    requires s.txns == map[]
    ensures Play(rule, proto, s, [Begin(p, tokens), Read(p), Read(p), Decide(p)])
            == if s.active && Committed(s.calls) + tokens <= rule(s.percent)
               then s.(calls := s.calls + [ModelCall(tokens, 0, Some(Pending), None)]) else s
  {
    Then(rule, proto, s, Begin(p, tokens), [Read(p), Read(p), Decide(p)]);
    var s1 := Apply(rule, proto, s, Begin(p, tokens));
    Then(rule, proto, s1, Read(p), [Read(p), Decide(p)]);
    var s2 := Apply(rule, proto, s1, Read(p));
    Then(rule, proto, s2, Read(p), [Decide(p)]);
    var s3 := Apply(rule, proto, s2, Read(p));
    Then(rule, proto, s3, Decide(p), []);
    if s.active {
      assert s3.txns - {p} == map[];
    }
  }

  /** A reservation that dies before it decides leaves nothing behind: the row is free and no call was made. */
  lemma AbortLeavesNothing(rule: nat -> nat, proto: Protocol, s: Ledger, p: nat, tokens: nat)
    requires s.txns == map[]
    ensures Play(rule, proto, s, [Begin(p, tokens), Read(p), Read(p), Abort(p)]) == s
  {
    Then(rule, proto, s, Begin(p, tokens), [Read(p), Read(p), Abort(p)]);
    var s1 := Apply(rule, proto, s, Begin(p, tokens));
    Then(rule, proto, s1, Read(p), [Read(p), Abort(p)]);
    var s2 := Apply(rule, proto, s1, Read(p));
    Then(rule, proto, s2, Read(p), [Abort(p)]);
    var s3 := Apply(rule, proto, s2, Read(p));
    Then(rule, proto, s3, Abort(p), []);
    assert s3.txns - {p} == map[];
  }

  ghost predicate NoStart(events: seq<Event>) {
    forall i :: 0 <= i < |events| ==> !events[i].StartCycle?
  }

  /** Without an active cycle and with no transaction open, nothing but a new cycle lets a call be made. */
  lemma {:induction false} InactiveStays(rule: nat -> nat, proto: Protocol, s: Ledger, events: seq<Event>)
    requires !s.active && s.txns == map[] && NoStart(events)
    ensures var t := Play(rule, proto, s, events); !t.active && t.txns == map[] && |t.calls| == |s.calls|
    decreases |events|
  {
    if events != [] {
      InactiveStays(rule, proto, Apply(rule, proto, s, events[0]), events[1..]);
    }
  }

  /** Once a cycle is stopped no call is reserved until another one starts. */
  lemma StoppedGrantsNothing(rule: nat -> nat, proto: Protocol, s: Ledger, events: seq<Event>)
    requires s.txns == map[] && NoStart(events)
    ensures |Play(rule, proto, s, [StopCycle] + events).calls| == |s.calls|
  {
    Then(rule, proto, s, StopCycle, events);
    InactiveStays(rule, proto, Apply(rule, proto, s, StopCycle), events);
  }

  /** An active full-threshold cycle in which one call has reserved everything. */
  function Full(rule: nat -> nat): Ledger {
    Ledger(true, 100, rule(100), [ModelCall(rule(100), rule(100), Some(Pending), None)], map[])
  }

  lemma ReachFull(rule: nat -> nat, proto: Protocol) returns (events: seq<Event>)
    ensures Play(rule, proto, EMPTY, events) == Full(rule)
  {
    var n := rule(100);
    var reserve := [Begin(0, n), Read(0), Read(0), Decide(0)];
    events := [StartCycle(100)] + (reserve + [Bill(0, n)]);
    Then(rule, proto, EMPTY, StartCycle(100), reserve + [Bill(0, n)]);
    var s1 := Apply(rule, proto, EMPTY, StartCycle(100));
    PlayAppend(rule, proto, s1, reserve, [Bill(0, n)]);
    ReserveAlone(rule, proto, s1, 0, n);
    var s2 := Play(rule, proto, s1, reserve);
    assert s2.calls == [ModelCall(n, 0, Some(Pending), None)];
    Then(rule, proto, s2, Bill(0, n), []);
  }

  /** Two transactions of the same size side by side, with what each has seen. */
  function Pair(n: nat, calls: seq<ModelCall>, a: seq<nat>, b: seq<nat>): Ledger {
    Ledger(true, 100, n, calls, map[0 := Txn(n, n, a), 1 := Txn(n, n, b)])
  }

  lemma ReadFirst(rule: nat -> nat, proto: Protocol, n: nat, a: seq<nat>, b: seq<nat>)
    requires |a| < 2
    ensures Apply(rule, proto, Pair(n, [], a, b), Read(0)) == Pair(n, [], a + [0], b)
  {
    assert map[0 := Txn(n, n, a), 1 := Txn(n, n, b)][0 := Txn(n, n, a + [0])]
           == map[0 := Txn(n, n, a + [0]), 1 := Txn(n, n, b)];
  }

  lemma ReadSecond(rule: nat -> nat, proto: Protocol, n: nat, a: seq<nat>, b: seq<nat>)
    requires |b| < 2
    ensures Apply(rule, proto, Pair(n, [], a, b), Read(1)) == Pair(n, [], a, b + [0])
  {
    assert map[0 := Txn(n, n, a), 1 := Txn(n, n, b)][1 := Txn(n, n, b + [0])]
           == map[0 := Txn(n, n, a), 1 := Txn(n, n, b + [0])];
  }

  lemma BothBegin(rule: nat -> nat, proto: Protocol, n: nat)
    requires !proto.locks && n == rule(100)
    ensures Play(rule, proto, EMPTY, [StartCycle(100), Begin(0, n), Begin(1, n)]) == Pair(n, [], [], [])
  {
    Then(rule, proto, EMPTY, StartCycle(100), [Begin(0, n), Begin(1, n)]);
    var s := Apply(rule, proto, EMPTY, StartCycle(100));
    Then(rule, proto, s, Begin(0, n), [Begin(1, n)]);
    Then(rule, proto, Apply(rule, proto, s, Begin(0, n)), Begin(1, n), []);
  }

  lemma BothRead(rule: nat -> nat, proto: Protocol, n: nat)
    ensures Play(rule, proto, Pair(n, [], [], []), [Read(0), Read(0), Read(1), Read(1)]) == Pair(n, [], [0, 0], [0, 0])
  {
    var none: seq<nat> := [];
    assert none + [0] == [0] && [0] + [0] == [0, 0];
    Then(rule, proto, Pair(n, [], [], []), Read(0), [Read(0), Read(1), Read(1)]);
    ReadFirst(rule, proto, n, [], []);
    Then(rule, proto, Pair(n, [], [0], []), Read(0), [Read(1), Read(1)]);
    ReadFirst(rule, proto, n, [0], []);
    Then(rule, proto, Pair(n, [], [0, 0], []), Read(1), [Read(1)]);
    ReadSecond(rule, proto, n, [0, 0], []);
    Then(rule, proto, Pair(n, [], [0, 0], [0]), Read(1), []);
    ReadSecond(rule, proto, n, [0, 0], [0]);
  }

  lemma BothDecide(rule: nat -> nat, proto: Protocol, n: nat)
    requires n == rule(100) > 0
    ensures !WithinBudget(Play(rule, proto, Pair(n, [], [0, 0], [0, 0]), [Decide(0), Decide(1)]))
  {
    var s := Pair(n, [], [0, 0], [0, 0]);
    Then(rule, proto, s, Decide(0), [Decide(1)]);
    Then(rule, proto, Apply(rule, proto, s, Decide(0)), Decide(1), []);
    var c := ModelCall(n, 0, Some(Pending), None);
    assert Play(rule, proto, s, [Decide(0), Decide(1)]).calls == [c, c];
    TwoCallsOver(rule, c);
  }

  /** Without the row lock, two reservations both take the last of the room. */
  lemma UnsafeWithoutLock(rule: nat -> nat, proto: Protocol) returns (events: seq<Event>)
    requires !proto.locks && rule(100) > 0
    ensures !WithinBudget(Play(rule, proto, EMPTY, events))
  {
    var n := rule(100);
    var begin := [StartCycle(100), Begin(0, n), Begin(1, n)];
    var look, decide := [Read(0), Read(0), Read(1), Read(1)], [Decide(0), Decide(1)];
    events := begin + (look + decide);
    PlayAppend(rule, proto, EMPTY, begin, look + decide);
    BothBegin(rule, proto, n);
    PlayAppend(rule, proto, Pair(n, [], [], []), look, decide);
    BothRead(rule, proto, n);
    BothDecide(rule, proto, n);
  }

  /** Nothing is reserved, one recorded call has used everything, and a transaction has seen some totals. */
  function Spent(rule: nat -> nat, seen: seq<nat>): Ledger {
    var n := rule(100);
    Ledger(true, 100, n, [ModelCall(n, n, None, Some(n))], map[1 := Txn(n, n, seen)])
  }

  lemma SeeNoUsage(rule: nat -> nat, proto: Protocol) returns (s: Ledger)
    requires !proto.reservationsFirst
    ensures s == Play(rule, proto, Full(rule), [Begin(1, rule(100)), Read(1)])
    ensures s == Full(rule).(txns := map[1 := Txn(rule(100), rule(100), [0])])
  {
    var n := rule(100);
    s := Full(rule).(txns := map[1 := Txn(n, n, [0])]);
    Then(rule, proto, Full(rule), Begin(1, n), [Read(1)]);
    var begun := Full(rule).(txns := map[1 := Txn(n, n, [])]);
    Then(rule, proto, begun, Read(1), []);
    OneCallCommits(Full(rule).calls[0]);
    var none: seq<nat> := [];
    assert none + [0] == [0] && begun.txns[1 := Txn(n, n, [0])] == s.txns;
  }

  lemma SettleUnseen(rule: nat -> nat, proto: Protocol)
    requires !proto.reservationsFirst
    ensures Play(rule, proto, Full(rule), [Begin(1, rule(100)), Read(1)] + [Settle(0, true), RecordUsage(0)])
            == Spent(rule, [0])
  {
    var n := rule(100);
    PlayAppend(rule, proto, Full(rule), [Begin(1, n), Read(1)], [Settle(0, true), RecordUsage(0)]);
    var s := SeeNoUsage(rule, proto);
    Then(rule, proto, s, Settle(0, true), [RecordUsage(0)]);
    Then(rule, proto, Apply(rule, proto, s, Settle(0, true)), RecordUsage(0), []);
  }

  lemma SpentDecides(rule: nat -> nat, proto: Protocol)
    requires !proto.reservationsFirst && rule(100) > 0
    ensures !WithinBudget(Play(rule, proto, Spent(rule, [0]), [Read(1), Decide(1)]))
  {
    var n := rule(100);
    Then(rule, proto, Spent(rule, [0]), Read(1), [Decide(1)]);
    OneCallCommits(ModelCall(n, n, None, Some(n)));
    assert [0] + [0] == [0, 0] && Spent(rule, [0]).txns[1 := Txn(n, n, [0, 0])] == Spent(rule, [0, 0]).txns;
    assert Apply(rule, proto, Spent(rule, [0]), Read(1)) == Spent(rule, [0, 0]);
    Then(rule, proto, Spent(rule, [0, 0]), Decide(1), []);
    TwoCallsOver(rule, ModelCall(n, n, None, Some(n)));
  }

  lemma OneCallCommits(c: ModelCall)
    ensures Total(ReservedBy, [c]) == ReservedBy(c) && Total(UsedBy, [c]) == UsedBy(c)
  {
    assert [] + [c] == [c];
    TotalAppend(ReservedBy, [], c);
    TotalAppend(UsedBy, [], c);
  }

  /** A second full reservation next to a call that already counts in full is over the limit. */
  lemma TwoCallsOver(rule: nat -> nat, c: ModelCall)
    requires ReservedBy(c) + UsedBy(c) == rule(100)
    ensures Committed([c, ModelCall(rule(100), 0, Some(Pending), None)]) == 2 * rule(100)
  {
    var d := ModelCall(rule(100), 0, Some(Pending), None);
    assert [c, d] == [c] + [d];
    TotalAppend(ReservedBy, [c], d);
    TotalAppend(UsedBy, [c], d);
  }

  /** When usage is read first, a settle that commits between the two reads is counted in neither total. */
  lemma UnsafeWithUsageFirst(rule: nat -> nat, proto: Protocol) returns (events: seq<Event>)
    requires !proto.reservationsFirst && rule(100) > 0
    ensures !WithinBudget(Play(rule, proto, EMPTY, events))
  {
    var full := ReachFull(rule, proto);
    var settle := [Begin(1, rule(100)), Read(1)] + [Settle(0, true), RecordUsage(0)];
    events := full + (settle + [Read(1), Decide(1)]);
    PlayAppend(rule, proto, EMPTY, full, settle + [Read(1), Decide(1)]);
    PlayAppend(rule, proto, Full(rule), settle, [Read(1), Decide(1)]);
    SettleUnseen(rule, proto);
    SpentDecides(rule, proto);
  }

  /** A settle in two commits leaves a moment in which the call is counted nowhere. */
  lemma UnsafeWithSplitSettle(rule: nat -> nat, proto: Protocol) returns (events: seq<Event>)
    requires !proto.atomicSettle && rule(100) > 0
    ensures !WithinBudget(Play(rule, proto, EMPTY, events))
  {
    var n := rule(100);
    var full := ReachFull(rule, proto);
    var reserve := [Begin(1, n), Read(1), Read(1), Decide(1)];
    events := full + ([Settle(0, true)] + (reserve + [RecordUsage(0)]));
    PlayAppend(rule, proto, EMPTY, full, [Settle(0, true)] + (reserve + [RecordUsage(0)]));
    Then(rule, proto, Full(rule), Settle(0, true), reserve + [RecordUsage(0)]);
    var s1 := Apply(rule, proto, Full(rule), Settle(0, true));
    assert s1 == Full(rule).(calls := [ModelCall(n, n, None, None)]);
    PlayAppend(rule, proto, s1, reserve, [RecordUsage(0)]);
    ReserveAlone(rule, proto, s1, 1, n);
    var s2 := Play(rule, proto, s1, reserve);
    OneCallCommits(ModelCall(n, n, None, None));
    assert s2.calls == [ModelCall(n, n, None, None), ModelCall(n, 0, Some(Pending), None)];
    Then(rule, proto, s2, RecordUsage(0), []);
    assert Apply(rule, proto, s2, RecordUsage(0)).calls
           == [ModelCall(n, n, None, Some(n)), ModelCall(n, 0, Some(Pending), None)];
    TwoCallsOver(rule, ModelCall(n, n, None, Some(n)));
  }

  /** The service's three choices are exactly what safety takes, whatever the thresholds, if a full one has any room. */
  lemma SafeExactly(rule: nat -> nat, proto: Protocol)
    requires rule(100) > 0
    ensures Safe(rule, proto) <==> proto.locks && proto.reservationsFirst && proto.atomicSettle
  {
    if proto == SERVICE {
      forall events ensures WithinBudget(Play(rule, proto, EMPTY, events)) {
        BudgetSafety(Mini, rule, events, 0);
      }
    } else if !proto.locks {
      var events := UnsafeWithoutLock(rule, proto);
    } else if !proto.reservationsFirst {
      var events := UnsafeWithUsageFirst(rule, proto);
    } else {
      var events := UnsafeWithSplitSettle(rule, proto);
    }
  }
}
