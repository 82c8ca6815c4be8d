/**
 The free-tier budget service on the rows every process shares
 (backend/src/modules/strategy/free-tier-budget.service.ts).
 */
module BudgetService {
  import opened Options
  import opened BudgetLedger

  /** Events of processes other than p. */
  ghost predicate NotBy(p: nat, events: seq<Event>) {
    forall i :: 0 <= i < |events| ==>
                  !(events[i].Read? && events[i].p == p) && !(events[i].Decide? && events[i].p == p)
                  && !(events[i].Abort? && events[i].p == p)
  }

  /** While p holds the row lock, nothing others do changes its transaction. */
  lemma {:induction false} OthersWait(rule: nat -> nat, s: Ledger, p: nat, events: seq<Event>)
    requires p in s.txns && s.txns.Keys == {p} && NotBy(p, events)
    ensures Play(rule, SERVICE, s, events).txns == s.txns
    ensures |Play(rule, SERVICE, s, events).calls| == |s.calls|
    decreases |events|
  {
    if events != [] {
      var e := events[0];
      var t := Apply(rule, SERVICE, s, e);
      assert t.txns == s.txns by {
        if e.Abort? {
          assert s.txns - {e.p} == s.txns;
        }
      }
      OthersWait(rule, t, p, events[1..]);
    }
  }

  /**
   The two reads of committedWith are not one snapshot, and yet whatever others commit
   between and after them, their sum still covers what is committed.
   */
  lemma ReadsCover(rule: nat -> nat, s: Ledger, p: nat, between: seq<Event>, after: seq<Event>) returns (t: Ledger)
    requires Inv(rule, s) && p in s.txns && s.txns[p].seen == [] && NotBy(p, between) && NotBy(p, after)
    ensures var first := Play(rule, SERVICE, Apply(rule, SERVICE, s, Read(p)), between);
            && t == Play(rule, SERVICE, Apply(rule, SERVICE, first, Read(p)), after)
            && p in t.txns && t.txns[p].seen == [Total(ReservedBy, s.calls), Total(UsedBy, first.calls)]
    ensures Total(ReservedBy, t.calls) + Total(UsedBy, t.calls) <= t.txns[p].seen[0] + t.txns[p].seen[1]
  {
    var read := Apply(rule, SERVICE, s, Read(p));
    OthersWait(rule, read, p, between);
    var first := Play(rule, SERVICE, read, between);
    t := Apply(rule, SERVICE, first, Read(p));
    OthersWait(rule, t, p, after);
    t := Play(rule, SERVICE, t, after);
    PlayKeeps(rule, s, [Read(p)]);
    PlayKeeps(rule, read, between);
    PlayKeeps(rule, first, [Read(p)]);
    PlayKeeps(rule, Apply(rule, SERVICE, first, Read(p)), after);
  }

  lemma ReserveSteps(rule: nat -> nat, s0: Ledger, p: nat, tokens: nat, a: seq<Event>, b: seq<Event>, c: seq<Event>)
    ensures var s1 := Apply(rule, SERVICE, s0, Begin(p, tokens));
            var s2 := Apply(rule, SERVICE, Play(rule, SERVICE, s1, a), Read(p));
            var s3 := Apply(rule, SERVICE, Play(rule, SERVICE, s2, b), Read(p));
            Play(rule, SERVICE, s0, ReserveTrace(p, tokens, a, b, c))
            == Apply(rule, SERVICE, Play(rule, SERVICE, s3, c), Decide(p))
  {
    var s1 := Apply(rule, SERVICE, s0, Begin(p, tokens));
    var s2 := Apply(rule, SERVICE, Play(rule, SERVICE, s1, a), Read(p));
    var s3 := Apply(rule, SERVICE, Play(rule, SERVICE, s2, b), Read(p));
    Then(rule, SERVICE, s0, Begin(p, tokens), a + ([Read(p)] + (b + ([Read(p)] + (c + [Decide(p)])))));
    PlayAppend(rule, SERVICE, s1, a, [Read(p)] + (b + ([Read(p)] + (c + [Decide(p)]))));
    Then(rule, SERVICE, Play(rule, SERVICE, s1, a), Read(p), b + ([Read(p)] + (c + [Decide(p)])));
    PlayAppend(rule, SERVICE, s2, b, [Read(p)] + (c + [Decide(p)]));
    Then(rule, SERVICE, Play(rule, SERVICE, s2, b), Read(p), c + [Decide(p)]);
    PlayAppend(rule, SERVICE, s3, c, [Decide(p)]);
    Then(rule, SERVICE, Play(rule, SERVICE, s3, c), Decide(p), []);
  }

  /** One reserve call with what other processes commit between its steps. */
  function ReserveTrace(p: nat, tokens: nat, a: seq<Event>, b: seq<Event>, c: seq<Event>): seq<Event> {
    [Begin(p, tokens)] + (a + ([Read(p)] + (b + ([Read(p)] + (c + [Decide(p)])))))
  }

  lemma ReserveKeeps(rule: nat -> nat, s: Ledger, p: nat, tokens: nat, a: seq<Event>, b: seq<Event>, c: seq<Event>)
    ensures Inv(rule, s) ==> Inv(rule, Play(rule, SERVICE, s, ReserveTrace(p, tokens, a, b, c)))
  {
    if Inv(rule, s) {
      PlayKeeps(rule, s, ReserveTrace(p, tokens, a, b, c));
    }
  }

  /** The tier's rows, and the transactions open on them, as every process sees them. */
  class BudgetStore {
    const rule: nat -> nat
    var active: bool
    var percent: nat
    var ceiling: nat
    var calls: seq<ModelCall>
    var txns: map<nat, Txn>

    constructor (rule: nat -> nat)
      ensures this.rule == rule && State() == EMPTY
    {
      this.rule := rule;
      active, percent, ceiling, calls, txns := false, 0, 0, [], map[];
    }

    function State(): Ledger
      reads this
    {
      Ledger(active, percent, ceiling, calls, txns)
    }

    /** Whatever other processes commit while p holds the row lock. */
    method Others(p: nat, events: seq<Event>)
      requires txns.Keys == {p} && NotBy(p, events)
      modifies this
      ensures State() == Play(rule, SERVICE, old(State()), events)
      ensures txns == old(txns) && |calls| == |old(calls)|
    {
      OthersWait(rule, State(), p, events);
      var s := Play(rule, SERVICE, State(), events);
      active, percent, ceiling, calls, txns := s.active, s.percent, s.ceiling, s.calls, s.txns;
    }

    /** One of the two reads of committedWith. */
    method ReadTotal(p: nat, f: ModelCall -> nat) returns (total: nat)
      requires p in txns
      modifies this`txns
      ensures total == Total(f, calls)
      ensures txns == old(txns)[p := old(txns)[p].(seen := old(txns)[p].seen + [total])]
    {
      total := Total(f, calls);
      txns := txns[p := txns[p].(seen := txns[p].seen + [total])];
    }

    /** Insert the reservation or refuse it, and release the lock. */
    method Commit(p: nat, tokens: nat, threshold: nat, committed: nat) returns (id: Option<nat>)
      requires txns.Keys == {p} && |txns[p].seen| == 2
      requires txns[p] == Txn(tokens, threshold, txns[p].seen) && committed == txns[p].seen[0] + txns[p].seen[1]
      modifies this`calls, this`txns
      ensures State() == Apply(rule, SERVICE, old(State()), Decide(p))
      ensures id == (if committed + tokens > threshold then None else Some(|old(calls)|))
      ensures calls == old(calls) + if id.Some? then [ModelCall(tokens, 0, Some(Pending), None)] else []
    {
      txns := txns - {p};
      if committed + tokens > threshold {
        return None;
      }
      id := Some(|calls|);
      calls := calls + [ModelCall(tokens, 0, Some(Pending), None)];
    }

    /** reserve, once the row lock is granted; a, b and c are what others commit while it holds the lock. */
    method Reserve(p: nat, tokens: nat, a: seq<Event>, b: seq<Event>, c: seq<Event>) returns (id: Option<nat>)
      requires txns == map[] && NotBy(p, a) && NotBy(p, b) && NotBy(p, c)
      modifies this
      ensures !old(active) ==> id == None && State() == old(State())
      ensures old(Inv(rule, State())) ==> Inv(rule, State())
      ensures old(active) ==> State() == Play(rule, SERVICE, old(State()), ReserveTrace(p, tokens, a, b, c))
      ensures match id
              case Some(n) =>
                n == |old(calls)| && |calls| == n + 1 && calls[n] == ModelCall(tokens, 0, Some(Pending), None)
              case None => |calls| == |old(calls)|
    {
      if !active {
        return None;
      }
      ReserveSteps(rule, State(), p, tokens, a, b, c);
      ReserveKeeps(rule, State(), p, tokens, a, b, c);
      var threshold := rule(percent);
      txns := map[p := Txn(tokens, threshold, [])];
      Others(p, a);
      var reserved := ReadTotal(p, ReservedBy);
      Others(p, b);
      var used := ReadTotal(p, UsedBy);
      Others(p, c);
      id := Commit(p, tokens, threshold, reserved + used);
    }

    method SettleReservation(call: nat, recorded: bool)
      modifies this`calls
      ensures State() == Apply(rule, SERVICE, old(State()), Settle(call, recorded))
    {
      if call < |calls| && calls[call].reservation == Some(Pending) {
        if recorded {
          calls := calls[call := calls[call].(reservation := None, usage := Some(calls[call].billed))];
        } else {
          calls := calls[call := calls[call].(reservation := Some(Unrecorded))];
        }
      }
    }
  }
}
