/**
 The free-tier budget from end to end: any number of LLM runs that reserve each call's
 worst case before making it (backend/src/modules/strategy/llm-strategy-runner.service.ts,
 token-bound.ts and free-tier-budget.service.ts), over every interleaving of their steps,
 with a provider that charges whatever a call really costs.
 */
module BudgetedRuns {
  import opened BudgetLedger
  import opened LlmLoop
  import opened Options
  import opened Puzzles
  import opened TokenBound

  import H = LlmHistory

  /** What one run is given: its puzzle and limits, its prompts, its words, and its model's output cap. */
  datatype Setup = Setup(p: Puzzle, lim: Limits, build: H.Prompts, words: seq<Word>, maxOutputTokens: nat)

  /** A granted call: what its request really costs, and the output cap it was sent with. */
  datatype Asked = Asked(inputTokens: nat, maxOutputTokens: nat)

  /** The budget's rows, every run that has done anything, and the request behind each call. */
  datatype Fleet = Fleet(ledger: Ledger, runs: map<nat, H.World>, asked: seq<Asked>)

  const NOBODY := Fleet(EMPTY, map[], [])

  datatype Event =
    | Service(step: BudgetLedger.Event)       // cycles, reads, aborts and settlements
    | Ask(r: nat)                             // run r begins to reserve its next call
    | Grant(r: nat)                           // and its transaction decides
    | Charge(call: nat, completion: nat)      // the provider bills a call
    | Move(r: nat, event: H.Event)            // anything else that happens to run r

  function RunOf(setup: nat -> Setup, f: Fleet, r: nat): H.World {
    if r in f.runs then f.runs[r] else H.NewRun(setup(r).words)
  }

  function NextRequest(setup: nat -> Setup, r: nat, live: H.Live): seq<Message> {
    H.Request(setup(r).build, live)
  }

  /** The worst case of a run's next call. */
  function WorstCase(setup: nat -> Setup, r: nat, live: H.Live): nat {
    setup(r).maxOutputTokens + UpperBound(NextRequest(setup, r, live), live.known)
  }

  predicate IsServiceStep(e: BudgetLedger.Event) {
    !e.Begin? && !e.Decide? && !e.Bill?
  }

  /** A run waits for its reservation; the provider charges without asking anyone. */
  function Step(setup: nat -> Setup, cost: seq<Message> -> nat, rule: nat -> nat, f: Fleet, e: Event): Fleet {
    match e
    case Service(s) => if IsServiceStep(s) then f.(ledger := Apply(rule, SERVICE, f.ledger, s)) else f
    case Ask(r) =>
      var w := RunOf(setup, f, r);
      if w.live.None? then f
      else f.(ledger := Apply(rule, SERVICE, f.ledger, Begin(r, WorstCase(setup, r, w.live.value))))
    case Grant(r) =>
      var w, next := RunOf(setup, f, r), Apply(rule, SERVICE, f.ledger, Decide(r));
      if |next.calls| == |f.ledger.calls| || w.live.None? then f.(ledger := next)
      else
        var asked := Asked(cost(NextRequest(setup, r, w.live.value)), setup(r).maxOutputTokens);
        f.(ledger := next, asked := f.asked + [asked])
    case Charge(call, completion) =>
      if call < |f.asked| == |f.ledger.calls| && f.ledger.calls[call].usage.None? then
        var c := f.ledger.calls[call].(billed := f.asked[call].inputTokens + completion);
        f.(ledger := f.ledger.(calls := f.ledger.calls[call := c]))
      else f
    case Move(r, m) =>
      if r in f.ledger.txns then f
      else f.(runs := f.runs[r := H.React(setup(r).p, setup(r).lim, setup(r).build, RunOf(setup, f, r), m)])
  }

  function Play(setup: nat -> Setup, cost: seq<Message> -> nat, rule: nat -> nat, f: Fleet, events: seq<Event>): Fleet
    decreases |events|
  {
    if events == [] then f else Play(setup, cost, rule, Step(setup, cost, rule, f, events[0]), events[1..])
  }

  /** The provider reports no fewer prompt tokens than it counts, and keeps to the output cap. */
  ghost predicate HonestStep(setup: nat -> Setup, cost: seq<Message> -> nat, f: Fleet, e: Event) {
    && (e.Move? ==> H.Honest(cost, setup(e.r).p, setup(e.r).lim, setup(e.r).build, RunOf(setup, f, e.r), [e.event]))
    && (e.Charge? && e.call < |f.asked| ==> e.completion <= f.asked[e.call].maxOutputTokens)
  }

  ghost predicate Honest(setup: nat -> Setup, cost: seq<Message> -> nat, rule: nat -> nat, f: Fleet, events: seq<Event>)
    decreases |events|
  {
    events != [] ==>
      && HonestStep(setup, cost, f, events[0])
      && Honest(setup, cost, rule, Step(setup, cost, rule, f, events[0]), events[1..])
  }

  // ----- the fleet refines the ledger -----

  /** The steps of the ledger that one step of the fleet amounts to. */
  function LedgerSteps(setup: nat -> Setup, f: Fleet, e: Event): seq<BudgetLedger.Event> {
    match e
    case Service(s) => if IsServiceStep(s) then [s] else []
    case Ask(r) =>
      var w := RunOf(setup, f, r);
      if w.live.None? then [] else [Begin(r, WorstCase(setup, r, w.live.value))]
    case Grant(r) => [Decide(r)]
    case Charge(call, completion) =>
      if call < |f.asked| then [Bill(call, f.asked[call].inputTokens + completion)] else []
    case Move(_, _) => []
  }

  /** A run that is reserving is live, and reserves for the request it would send. */
  ghost predicate Reserving(setup: nat -> Setup, f: Fleet) {
    forall r :: r in f.ledger.txns ==>
                  && RunOf(setup, f, r).live.Some?
                  && f.ledger.txns[r].tokens == WorstCase(setup, r, RunOf(setup, f, r).live.value)
  }

  /** Every call reserved what it can cost. */
  ghost predicate Covered(f: Fleet) {
    && |f.asked| == |f.ledger.calls|
    && forall c :: 0 <= c < |f.asked| ==>
                     f.asked[c].inputTokens + f.asked[c].maxOutputTokens <= f.ledger.calls[c].tokens
  }

  ghost predicate RunsSound(cost: seq<Message> -> nat, f: Fleet) {
    forall r :: r in f.runs ==> H.LiveSound(cost, f.runs[r])
  }

  ghost predicate FleetOk(setup: nat -> Setup, cost: seq<Message> -> nat, f: Fleet) {
    Reserving(setup, f) && Covered(f) && RunsSound(cost, f)
  }

  lemma RunSound(setup: nat -> Setup, cost: seq<Message> -> nat, f: Fleet, r: nat)
    requires RunsSound(cost, f)
    ensures H.LiveSound(cost, RunOf(setup, f, r))
  {
  }

  /** The worst case covers the request whatever the run has been through. */
  lemma WorstCaseCovers(setup: nat -> Setup, cost: seq<Message> -> nat, r: nat, live: H.Live)
    requires RealCost(cost) && Sound(cost, live.messages, live.known)
    ensures cost(NextRequest(setup, r, live)) + setup(r).maxOutputTokens <= WorstCase(setup, r, live)
  {
    var request := NextRequest(setup, r, live);
    SoundAppend(cost, live.messages, request[|live.messages|..], live.known);
    assert live.messages + request[|live.messages|..] == request;
    UpperBoundSound(cost, request, live.known);
  }

  /** The ledger's own steps give no call a smaller reservation, and no transaction another size. */
  lemma ServiceKeepsTokens(rule: nat -> nat, s: Ledger, e: BudgetLedger.Event) returns (t: Ledger)
    requires IsServiceStep(e)
    ensures t == Apply(rule, SERVICE, s, e) && |t.calls| == |s.calls|
    ensures forall c :: 0 <= c < |s.calls| ==> t.calls[c].tokens == s.calls[c].tokens
    ensures forall r :: r in t.txns ==> r in s.txns && t.txns[r].tokens == s.txns[r].tokens
  {
    t := Apply(rule, SERVICE, s, e);
  }

  lemma ServiceStep(setup: nat -> Setup, cost: seq<Message> -> nat, rule: nat -> nat, f: Fleet, e: BudgetLedger.Event)
    returns (t: Fleet)
    requires FleetOk(setup, cost, f) && IsServiceStep(e)
    ensures t == f.(ledger := Apply(rule, SERVICE, f.ledger, e)) && FleetOk(setup, cost, t)
  {
    var next := ServiceKeepsTokens(rule, f.ledger, e);
    t := f.(ledger := next);
    assert forall r :: RunOf(setup, t, r) == RunOf(setup, f, r);
  }

  lemma AskStep(setup: nat -> Setup, cost: seq<Message> -> nat, rule: nat -> nat, f: Fleet, r: nat) returns (t: Fleet)
    requires FleetOk(setup, cost, f)
    ensures t == Step(setup, cost, rule, f, Ask(r)) && FleetOk(setup, cost, t)
  {
    t := Step(setup, cost, rule, f, Ask(r));
    assert forall q :: RunOf(setup, t, q) == RunOf(setup, f, q);
  }

  lemma GrantStep(setup: nat -> Setup, cost: seq<Message> -> nat, rule: nat -> nat, f: Fleet, r: nat) returns (t: Fleet)
    requires RealCost(cost) && FleetOk(setup, cost, f)
    ensures t == Step(setup, cost, rule, f, Grant(r)) && FleetOk(setup, cost, t)
    ensures t.ledger == Apply(rule, SERVICE, f.ledger, Decide(r))
  {
    t := Step(setup, cost, rule, f, Grant(r));
    var next := Apply(rule, SERVICE, f.ledger, Decide(r));
    assert forall q :: RunOf(setup, t, q) == RunOf(setup, f, q);
    if |next.calls| != |f.ledger.calls| {
      var live := RunOf(setup, f, r).live.value;
      RunSound(setup, cost, f, r);
      WorstCaseCovers(setup, cost, r, live);
    }
  }

  lemma ChargeStep(setup: nat -> Setup, cost: seq<Message> -> nat, rule: nat -> nat, f: Fleet, e: Event)
    returns (t: Fleet)
    requires FleetOk(setup, cost, f) && e.Charge? && HonestStep(setup, cost, f, e)
    ensures t == Step(setup, cost, rule, f, e) && FleetOk(setup, cost, t)
    ensures t.ledger == BudgetLedger.Play(rule, SERVICE, f.ledger, LedgerSteps(setup, f, e))
  {
    t := Step(setup, cost, rule, f, e);
    assert forall q :: RunOf(setup, t, q) == RunOf(setup, f, q);
    if e.call < |f.asked| {
      OneStep(rule, f.ledger, Bill(e.call, f.asked[e.call].inputTokens + e.completion));
    }
  }

  lemma MoveStep(setup: nat -> Setup, cost: seq<Message> -> nat, rule: nat -> nat, f: Fleet, e: Event)
    returns (t: Fleet)
    requires RealCost(cost) && FleetOk(setup, cost, f) && e.Move? && HonestStep(setup, cost, f, e)
    ensures t == Step(setup, cost, rule, f, e) && FleetOk(setup, cost, t) && t.ledger == f.ledger
  {
    t := Step(setup, cost, rule, f, e);
    var u, w := setup(e.r), RunOf(setup, f, e.r);
    RunSound(setup, cost, f, e.r);
    H.HistorySound(cost, u.p, u.lim, u.build, w, [e.event]);
    assert H.History(u.p, u.lim, u.build, w, [e.event]) == H.React(u.p, u.lim, u.build, w, e.event);
    assert forall q :: q != e.r ==> RunOf(setup, t, q) == RunOf(setup, f, q);
  }

  lemma OneStep(rule: nat -> nat, s: Ledger, e: BudgetLedger.Event)
    ensures BudgetLedger.Play(rule, SERVICE, s, [e]) == Apply(rule, SERVICE, s, e)
  {
  }

  /** A step of the fleet is at most one of the ledger: the ledger's guard on a bill is met by what was reserved. */
  lemma StepRefines(setup: nat -> Setup, cost: seq<Message> -> nat, rule: nat -> nat, f: Fleet, e: Event)
    returns (t: Fleet)
    requires RealCost(cost) && FleetOk(setup, cost, f) && HonestStep(setup, cost, f, e)
    ensures t == Step(setup, cost, rule, f, e) && FleetOk(setup, cost, t)
    ensures t.ledger == BudgetLedger.Play(rule, SERVICE, f.ledger, LedgerSteps(setup, f, e))
  {
    t := f;
    match e
    case Service(s) =>
      if IsServiceStep(s) {
        t := ServiceStep(setup, cost, rule, f, s);
        OneStep(rule, f.ledger, s);
      }
    case Ask(r) =>
      t := AskStep(setup, cost, rule, f, r);
      if RunOf(setup, f, r).live.Some? {
        OneStep(rule, f.ledger, Begin(r, WorstCase(setup, r, RunOf(setup, f, r).live.value)));
      }
    case Grant(r) =>
      t := GrantStep(setup, cost, rule, f, r);
      OneStep(rule, f.ledger, Decide(r));
    case Charge(_, _) => t := ChargeStep(setup, cost, rule, f, e);
    case Move(_, _) => t := MoveStep(setup, cost, rule, f, e);
  }

  function AllLedgerSteps(setup: nat -> Setup, cost: seq<Message> -> nat, rule: nat -> nat, f: Fleet,
                          events: seq<Event>): seq<BudgetLedger.Event>
    decreases |events|
  {
    if events == [] then []
    else LedgerSteps(setup, f, events[0])
         + AllLedgerSteps(setup, cost, rule, Step(setup, cost, rule, f, events[0]), events[1..])
  }

  lemma {:induction false} FleetRefines(setup: nat -> Setup, cost: seq<Message> -> nat, rule: nat -> nat, f: Fleet,
                                        events: seq<Event>)
    requires RealCost(cost) && FleetOk(setup, cost, f) && Honest(setup, cost, rule, f, events)
    ensures Play(setup, cost, rule, f, events).ledger
            == BudgetLedger.Play(rule, SERVICE, f.ledger, AllLedgerSteps(setup, cost, rule, f, events))
    decreases |events|
  {
    if events != [] {
      var t := StepRefines(setup, cost, rule, f, events[0]);
      FleetRefines(setup, cost, rule, t, events[1..]);
      PlayAppend(rule, SERVICE, f.ledger, LedgerSteps(setup, f, events[0]),
                 AllLedgerSteps(setup, cost, rule, t, events[1..]));
    }
  }

  // ----- one call, undisturbed -----

  lemma Then(setup: nat -> Setup, cost: seq<Message> -> nat, rule: nat -> nat, f: Fleet, e: Event, rest: seq<Event>)
    ensures Play(setup, cost, rule, f, [e] + rest) == Play(setup, cost, rule, Step(setup, cost, rule, f, e), rest)
  {
    assert ([e] + rest)[1..] == rest;
  }

  /** A reservation that fits, taken with nothing in between. */
  lemma Reserved(setup: nat -> Setup, cost: seq<Message> -> nat, rule: nat -> nat, f: Fleet, r: nat)
    returns (t: Fleet)
    requires |f.asked| == |f.ledger.calls| && f.ledger.txns == map[] && f.ledger.active
    requires RunOf(setup, f, r).live.Some?
    requires Committed(f.ledger.calls) + WorstCase(setup, r, RunOf(setup, f, r).live.value) <= rule(f.ledger.percent)
    ensures t == Play(setup, cost, rule, f, [Ask(r), Service(Read(r)), Service(Read(r)), Grant(r)])
    ensures var live := RunOf(setup, f, r).live.value;
            && t.asked == f.asked + [Asked(cost(NextRequest(setup, r, live)), setup(r).maxOutputTokens)]
            && t.ledger.calls == f.ledger.calls + [ModelCall(WorstCase(setup, r, live), 0, Some(Pending), None)]
            && t.ledger.txns == map[] && t.runs == f.runs
  {
    Then(setup, cost, rule, f, Ask(r), [Service(Read(r)), Service(Read(r)), Grant(r)]);
    var f1 := Step(setup, cost, rule, f, Ask(r));
    Then(setup, cost, rule, f1, Service(Read(r)), [Service(Read(r)), Grant(r)]);
    var f2 := Step(setup, cost, rule, f1, Service(Read(r)));
    Then(setup, cost, rule, f2, Service(Read(r)), [Grant(r)]);
    var f3 := Step(setup, cost, rule, f2, Service(Read(r)));
    Then(setup, cost, rule, f3, Grant(r), []);
    assert f3.ledger.txns - {r} == map[];
    t := Step(setup, cost, rule, f3, Grant(r));
  }

  /** A call made undisturbed is billed exactly what its request costs and what came back. */
  lemma CallIsCharged(setup: nat -> Setup, cost: seq<Message> -> nat, rule: nat -> nat, f: Fleet, r: nat,
                      completion: nat) returns (t: Fleet)
    requires |f.asked| == |f.ledger.calls| && f.ledger.txns == map[] && f.ledger.active
    requires RunOf(setup, f, r).live.Some?
    requires Committed(f.ledger.calls) + WorstCase(setup, r, RunOf(setup, f, r).live.value) <= rule(f.ledger.percent)
    ensures var made := [Ask(r), Service(Read(r)), Service(Read(r)), Grant(r)];
            t == Play(setup, cost, rule, Play(setup, cost, rule, f, made), [Charge(|f.ledger.calls|, completion)])
    ensures Spend(t.ledger.calls)
            == Spend(f.ledger.calls) + cost(NextRequest(setup, r, RunOf(setup, f, r).live.value)) + completion
  {
    var live := RunOf(setup, f, r).live.value;
    var g := Reserved(setup, cost, rule, f, r);
    var n := |f.ledger.calls|;
    t := Step(setup, cost, rule, g, Charge(n, completion));
    Then(setup, cost, rule, g, Charge(n, completion), []);
    assert [Charge(n, completion)] + [] == [Charge(n, completion)];
    var c := g.ledger.calls[n].(billed := cost(NextRequest(setup, r, live)) + completion);
    assert t.ledger.calls == f.ledger.calls + [c];
    TotalAppend(BilledBy, f.ledger.calls, c);
  }

  /** Every cycle is started at one of these percentages or less. */
  ghost predicate CyclesWithin(events: seq<Event>, percent: nat) {
    forall i :: 0 <= i < |events| && events[i].Service? && events[i].step.StartCycle? ==>
                  events[i].step.percent <= percent
  }

  lemma {:induction false} StepsWithin(setup: nat -> Setup, cost: seq<Message> -> nat, rule: nat -> nat, f: Fleet,
                                       events: seq<Event>, percent: nat)
    requires CyclesWithin(events, percent)
    ensures StartsWithin(AllLedgerSteps(setup, cost, rule, f, events), percent)
    decreases |events|
  {
    if events != [] {
      var first: seq<BudgetLedger.Event> := LedgerSteps(setup, f, events[0]);
      var rest := Step(setup, cost, rule, f, events[0]);
      StepsWithin(setup, cost, rule, rest, events[1..], percent);
      var more: seq<BudgetLedger.Event> := AllLedgerSteps(setup, cost, rule, rest, events[1..]);
      assert |first| <= 1;
      forall i | 0 <= i < |first + more| && (first + more)[i].StartCycle? ensures (first + more)[i].percent <= percent {
        if i >= |first| {
          assert (first + more)[i] == more[i - |first|];
        }
      }
    }
  }

  /**
   The budget's promise, end to end: whatever any number of runs do, crash, resume and
   reserve, in any interleaving, what the provider really charges on a tier stays within
   the highest threshold in effect that day, and so within that share of the daily limit.
   */
  lemma SpendStaysWithinBudget(tier: Tier, rule: nat -> nat, setup: nat -> Setup, v: Provider, events: seq<Event>,
                               percent: nat)
    returns (f: Fleet)
    requires ByteLevel(v) && Honest(setup, messages => InputTokens(v, messages), rule, NOBODY, events)
    ensures f == Play(setup, messages => InputTokens(v, messages), rule, NOBODY, events)
    ensures WithinBudget(f.ledger)
    ensures IsThreshold(tier, rule) && CyclesWithin(events, percent) ==>
              100 * Spend(f.ledger.calls) <= DailyLimit(tier) * percent
  {
    var cost := ByteLevelIsReal(v);
    f := Play(setup, cost, rule, NOBODY, events);
    FleetRefines(setup, cost, rule, NOBODY, events);
    var steps := AllLedgerSteps(setup, cost, rule, NOBODY, events);
    if CyclesWithin(events, percent) {
      StepsWithin(setup, cost, rule, NOBODY, events, percent);
    }
    BudgetSafety(tier, rule, steps, percent);
  }
}
