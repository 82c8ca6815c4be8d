/**
 The token-sized dispatch tick: runTick
 (backend/src/modules/free-tier-dispatch/free-tier-dispatch.service.ts) and
 resumeBudgetParkedRuns (backend/src/modules/strategy/strategy-dispatch.service.ts).
 */
module FreeTierTick {
  import opened Collections
  import opened Options
  import opened FreeDispatch

  const SOFT_INPUT_ALLOWANCE_TOKENS := 2_000

  /** Per-call output caps; a model that is absent or None has none. */
  type Caps = map<string, Option<nat>>

  function CapOf(caps: Caps, model: string): Option<nat> {
    if model in caps then caps[model] else None
  }

  function WorstCase(caps: Caps, model: string): nat {
    SOFT_INPUT_ALLOWANCE_TOKENS + match CapOf(caps, model) case Some(cap) => cap case None => 0
  }

  predicate Fits(caps: Caps, model: string, budget: int) {
    CapOf(caps, model).Some? && WorstCase(caps, model) <= budget
  }

  /** The model has a cap, and what one of its calls may cost by it is within the budget. */
  ghost predicate Affordable(caps: Caps, model: string, budget: int) {
    && model in caps && caps[model].Some?
    && SOFT_INPUT_ALLOWANCE_TOKENS + caps[model].value <= budget
  }

  lemma FitsExactly(caps: Caps, models: seq<string>, budget: int)
    ensures forall m :: Fits(caps, m, budget) <==> Affordable(caps, m, budget)
    ensures SomeFits(caps, models, budget) <==> exists m :: m in models && Affordable(caps, m, budget)
    ensures Fitting(caps, models, budget) == AffordableOf(caps, models, budget)
  {
    if m :| m in models && Affordable(caps, m, budget) {
      var i :| 0 <= i < |models| && models[i] == m;
      assert Fits(caps, models[i], budget);
    }
  }

  ghost function AffordableOf(caps: Caps, models: seq<string>, budget: int): set<string> {
    set m | m in models && Affordable(caps, m, budget)
  }

  predicate SomeFits(caps: Caps, models: seq<string>, budget: int) {
    exists i :: 0 <= i < |models| && Fits(caps, models[i], budget)
  }

  function Fitting(caps: Caps, models: seq<string>, budget: int): set<string> {
    set m | m in models && Fits(caps, m, budget)
  }

  function WorstCases(caps: Caps, models: seq<string>): nat
    decreases |models|
  {
    if models == [] then 0 else WorstCases(caps, models[..|models| - 1]) + WorstCase(caps, models[|models| - 1])
  }

  function InFlightCost(caps: Caps, inFlight: seq<(string, nat)>): nat {
    if inFlight == [] then 0 else inFlight[0].1 * WorstCase(caps, inFlight[0].0) + InFlightCost(caps, inFlight[1..])
  }

  /** The paused runs of allowed models, in the order they have. */
  function Matching(parked: seq<string>, allowed: set<string>): (r: seq<string>)
    ensures forall m :: m in r ==> m in allowed && m in parked
  {
    if parked == [] then []
    else if parked[0] in allowed then [parked[0]] + Matching(parked[1..], allowed)
    else Matching(parked[1..], allowed)
  }

  /**
   The models of the paused runs that the query takes, given all of them oldest first: the
   oldest of the allowed ones, as many as there are up to `limit`, in that order.
   */
  function Resumable(parked: seq<string>, allowed: set<string>, limit: nat): (r: seq<string>)
    ensures r <= Matching(parked, allowed) && (|r| == limit || r == Matching(parked, allowed)) && |r| <= limit
    ensures forall m :: m in r ==> m in allowed && m in parked
  {
    if parked == [] || limit == 0 then []
    else if parked[0] in allowed then [parked[0]] + Resumable(parked[1..], allowed, limit - 1)
    else Resumable(parked[1..], allowed, limit)
  }

  function Unfit(caps: Caps, models: seq<string>, budget: int): set<string> {
    set m | m in models && !Fits(caps, m, budget)
  }

  /** The books of the loop: every new trial was capped and fitted when it was queued. */
  ghost predicate Booked(caps: Caps, models: seq<string>, budget: int, queued: seq<string>, left: int) {
    && left == budget - WorstCases(caps, queued)
    && (queued != [] ==> left >= 0)
    && forall m :: m in queued ==> m in models && CapOf(caps, m).Some?
  }

  /** The models of the attempts that queued a trial, in order. */
  function QueuedModels(tried: seq<string>, attempt: Attempts): seq<string>
    decreases |tried|
  {
    if tried == [] then []
    else
      var n := |tried| - 1;
      QueuedModels(tried[..n], attempt) + if attempt(n, tried[n]) == Queued then [tried[n]] else []
  }

  lemma QueuedOne(tried: seq<string>, attempt: Attempts, model: string)
    ensures QueuedModels(tried + [model], attempt)
            == QueuedModels(tried, attempt) + if attempt(|tried|, model) == Queued then [model] else []
  {
    assert (tried + [model])[..|tried|] == tried;
  }

  datatype Pick = Picked(model: string) | NoneLeft | Threw

  /** The next model: the least allocated one that neither failed nor was ever too big this tick. */
  method PickModel(models: seq<string>, allocation: map<string, nat>, exhausted: set<string>, skipped: set<string>)
    returns (pick: Pick)
    requires allocation.Keys == Elems(models) && exhausted <= Elems(models) && skipped <= Elems(models)
    ensures Distinct(models) ==> pick != Threw
    ensures Distinct(models) && pick.NoneLeft? ==> forall m :: m in models ==> m in exhausted || m in skipped
    ensures pick.Picked? ==>
              && pick.model in models && pick.model !in exhausted && pick.model !in skipped
              && forall m :: m in models && m !in exhausted && m !in skipped ==> allocation[pick.model] <= allocation[m]
  {
    var excluded := exhausted + skipped;
    if |excluded| >= |models| {
      if Distinct(models) {
        NoneIsLeft(models, excluded);
      }
      return NoneLeft;
    }
    if Distinct(models) {
      OneIsLeft(models, excluded);
    }
    var best := LeastAllocatedModel(models, allocation, excluded);
    pick := if best.None? then Threw else Picked(best.value);
  }

  /** Where the loop is: what it queued, what is left, who failed, and who was too big at some point. */
  datatype Filling = Filling(queued: seq<string>, left: int, exhausted: set<string>, skipped: set<string>,
                             allocation: map<string, nat>, tried: seq<string>)

  ghost predicate FillingOk(models: seq<string>, caps: Caps, budget: int, initial: map<string, nat>, attempt: Attempts,
                            s: Filling) {
    && Booked(caps, models, budget, s.queued, s.left)
    && s.exhausted == FailedIn(s.tried, attempt) && s.queued == QueuedModels(s.tried, attempt)
    && s.exhausted <= Elems(models) && s.skipped <= Unfit(caps, models, s.left)
    && Accounted(initial, s.allocation, s.tried, attempt)
    && Levelled(initial, s.allocation, s.exhausted + s.skipped)
  }

  function SkipUnfit(models: seq<string>, caps: Caps, s: Filling): Filling {
    s.(skipped := s.skipped + Unfit(caps, models, s.left))
  }

  function FillOne(caps: Caps, s: Filling, model: string, outcome: Attempt): Filling
    requires model in s.allocation
  {
    var t := s.(tried := s.tried + [model]);
    if outcome == Queued
    then t.(queued := s.queued + [model], left := s.left - WorstCase(caps, model),
            allocation := s.allocation[model := s.allocation[model] + 1])
    else t.(exhausted := s.exhausted + {model})
  }

  lemma QueueKeeps(models: seq<string>, caps: Caps, budget: int, initial: map<string, nat>, attempt: Attempts,
                   s: Filling, model: string) returns (t: Filling)
    requires initial.Keys == Elems(models) && FillingOk(models, caps, budget, initial, attempt, s)
    requires model in models && Fits(caps, model, s.left) && attempt(|s.tried|, model) == Queued
    requires forall m :: m in models && m !in s.exhausted && m !in s.skipped ==> s.allocation[model] <= s.allocation[m]
    ensures t == FillOne(caps, s, model, Queued) && FillingOk(models, caps, budget, initial, attempt, t)
  {
    t := FillOne(caps, s, model, Queued);
    QueuedOne(s.tried, attempt, model);
    TriedOne(s.tried, attempt, model);
    var next := QueueOne(initial, s.allocation, s.exhausted + s.skipped, s.tried, attempt, model);
  }

  lemma FailKeeps(models: seq<string>, caps: Caps, budget: int, initial: map<string, nat>, attempt: Attempts,
                  s: Filling, model: string) returns (t: Filling)
    requires initial.Keys == Elems(models) && FillingOk(models, caps, budget, initial, attempt, s)
    requires model in models && attempt(|s.tried|, model) != Queued
    ensures t == FillOne(caps, s, model, attempt(|s.tried|, model))
    ensures FillingOk(models, caps, budget, initial, attempt, t)
  {
    t := FillOne(caps, s, model, attempt(|s.tried|, model));
    QueuedOne(s.tried, attempt, model);
    TriedOne(s.tried, attempt, model);
  }

  /** The loop that queues new trials. */
  method FillSlots(models: seq<string>, caps: Caps, budget: int, slots: nat, initial: map<string, nat>,
                   attempt: Attempts) returns (f: Filling, threw: bool)
    requires initial.Keys == Elems(models)
    ensures Distinct(models) ==> !threw
    ensures |f.queued| <= slots && FillingOk(models, caps, budget, initial, attempt, f)
    ensures Distinct(models) && |f.queued| < slots ==>
              forall m :: m in models ==> m in f.exhausted || !Fits(caps, m, f.left)
  {
    f := Filling([], budget, {}, {}, initial, []);
    threw := false;
    while |f.queued| < slots
      invariant |f.queued| <= slots && FillingOk(models, caps, budget, initial, attempt, f)
      decreases slots - |f.queued|, Elems(models) - f.exhausted
    {
      f := SkipUnfit(models, caps, f);
      var pick := PickModel(models, f.allocation, f.exhausted, f.skipped);
      if !pick.Picked? {
        threw := pick.Threw?;
        return;
      }
      if attempt(|f.tried|, pick.model) == Queued {
        ghost var t := QueueKeeps(models, caps, budget, initial, attempt, f, pick.model);
      } else {
        ghost var t := FailKeeps(models, caps, budget, initial, attempt, f, pick.model);
      }
      f := FillOne(caps, f, pick.model, attempt(|f.tried|, pick.model));
    }
  }

  /** The new trials a tick queues, and the models that failed. */
  method NewTrials(models: seq<string>, caps: Caps, budget: int, slots: nat, initial: map<string, nat>,
                   attempt: Attempts) returns (queued: seq<string>, exhausted: set<string>, ghost tried: seq<string>)
    requires Distinct(models) && initial.Keys == Elems(models)
    ensures exhausted == FailedIn(tried, attempt) && queued == QueuedModels(tried, attempt)
    ensures |queued| <= slots && (queued != [] ==> WorstCases(caps, queued) <= budget)
    ensures exhausted <= Elems(models)
    ensures forall m :: m in queued ==> m in models && CapOf(caps, m).Some?
    ensures |queued| < slots ==>
              forall m :: m in models ==> m in exhausted || !Fits(caps, m, budget - WorstCases(caps, queued))
  {
    var f, threw := FillSlots(models, caps, budget, slots, initial, attempt);
    queued, exhausted, tried := f.queued, f.exhausted, f.tried;
  }

  lemma AllFailed(models: seq<string>, exhausted: set<string>)
    requires Distinct(models) && exhausted <= Elems(models)
    ensures |exhausted| == |models| <==> exhausted == Elems(models)
  {
    ElemsSize(models);
    if |exhausted| == |models| {
      NoneIsLeft(models, exhausted);
    }
  }

  datatype Tick = Tick(stop: Stop, resumed: seq<string>, queued: seq<string>)

  /** A tick that passes the early stops and finds room under the cap. */
  ghost predicate Active(caps: Caps, models: seq<string>, usedTokens: nat, thresholdTokens: nat, committed: nat,
                   inFlight: seq<(string, nat)>, maxInFlight: nat) {
    && usedTokens < thresholdTokens && Total(inFlight) < maxInFlight
    && (Total(inFlight) > 0 || exists m :: m in models && Affordable(caps, m, thresholdTokens - committed))
  }

  /**
   What an active tick may do with its slots and room: resume the oldest parked runs whose
   model fits, as many as there are or as there are slots; then, when all of those are
   resumed, queue new trials, whose worst cases fit in what room is left, until the slots
   are full or every model has failed or does not fit any more.
   */
  ghost predicate Filled(models: seq<string>, caps: Caps, room: int, slots: int, parked: seq<string>,
                         resumed: seq<string>, queued: seq<string>, exhausted: set<string>) {
    var waiting := Matching(parked, AffordableOf(caps, models, room));
    var left := room - WorstCases(caps, resumed) - WorstCases(caps, queued);
    && resumed <= waiting && |resumed| == Min(slots, |waiting|) && (queued != [] ==> resumed == waiting)
    && |resumed| + |queued| <= slots
    && (queued != [] ==> left >= 0)
    && (forall m :: m in queued ==> m in models && m in caps && caps[m].Some?)
    && (|resumed| + |queued| == slots || forall m :: m in models ==> m in exhausted || !Affordable(caps, m, left))
  }

  method FillTick(models: seq<string>, caps: Caps, room: int, slots: nat, parked: seq<string>,
                  initial: map<string, nat>, attempt: Attempts)
    returns (resumed: seq<string>, queued: seq<string>, exhausted: set<string>, ghost tried: seq<string>)
    requires Distinct(models) && initial.Keys == Elems(models)
    ensures Filled(models, caps, room, slots, parked, resumed, queued, exhausted)
    ensures exhausted == FailedIn(tried, attempt) <= Elems(models) && queued == QueuedModels(tried, attempt)
  {
    FitsExactly(caps, models, room);
    resumed := Resumable(parked, Fitting(caps, models, room), slots);
    var budgetForNew := room;
    for i := 0 to |resumed|
      invariant budgetForNew == room - WorstCases(caps, resumed[..i])
    {
      assert resumed[..i + 1][..i] == resumed[..i];
      budgetForNew := budgetForNew - WorstCase(caps, resumed[i]);
    }
    assert resumed[..|resumed|] == resumed;
    queued, exhausted, tried := NewTrials(models, caps, budgetForNew, slots - |resumed|, initial, attempt);
    FitsExactly(caps, models, budgetForNew - WorstCases(caps, queued));
  }

  /** What is left of the room when the next call of every trial in flight is set aside. */
  method RoomForNew(caps: Caps, room: int, inFlight: seq<(string, nat)>) returns (budgetForNew: int)
    ensures budgetForNew == room - InFlightCost(caps, inFlight)
  {
    budgetForNew := room;
    for i := 0 to |inFlight|
      invariant budgetForNew - InFlightCost(caps, inFlight[i..]) == room - InFlightCost(caps, inFlight)
    {
      assert inFlight[i..][1..] == inFlight[i + 1..];
      budgetForNew := budgetForNew - inFlight[i].1 * WorstCase(caps, inFlight[i].0);
    }
  }

  /** runTick on an active cycle: parked runs first, then new trials in what room is left. */
  method RunTick(models: seq<string>, caps: Caps, usedTokens: nat, thresholdTokens: nat, committed: nat,
                 inFlight: seq<(string, nat)>, parked: seq<string>, maxBatch: nat, maxInFlight: nat,
                 initial: map<string, nat>, attempt: Attempts)
    returns (t: Tick, exhausted: set<string>, ghost tried: seq<string>)
    requires Distinct(models) && initial.Keys == Elems(models)
    ensures exhausted == FailedIn(tried, attempt) && t.queued == QueuedModels(tried, attempt)
    ensures Active(caps, models, usedTokens, thresholdTokens, committed, inFlight, maxInFlight) ==>
              Filled(models, caps, thresholdTokens - committed - InFlightCost(caps, inFlight),
                     Min(maxBatch, maxInFlight - Total(inFlight)), parked, t.resumed, t.queued, exhausted)
    ensures !Active(caps, models, usedTokens, thresholdTokens, committed, inFlight, maxInFlight) ==>
              t.resumed == [] && t.queued == []
    ensures t.stop == Deactivated <==>
            || usedTokens >= thresholdTokens
            || (Total(inFlight) == 0 < maxInFlight
                && !exists m :: m in models && Affordable(caps, m, thresholdTokens - committed))
            || (Total(inFlight) < maxInFlight && exhausted == Elems(models))
  {
    exhausted, tried := {}, [];
    if usedTokens >= thresholdTokens {
      return Tick(Deactivated, [], []), exhausted, tried;
    }
    var inFlightTotal := CountInFlight(inFlight);
    if inFlightTotal >= maxInFlight {
      return Tick(KeepsTicking, [], []), exhausted, tried;
    }
    var room := thresholdTokens - committed;
    FitsExactly(caps, models, room);
    if inFlightTotal == 0 && !SomeFits(caps, models, room) {
      return Tick(Deactivated, [], []), exhausted, tried;
    }
    var budgetForNew := RoomForNew(caps, room, inFlight);
    var slots := Min(maxBatch, maxInFlight - inFlightTotal);
    var resumed, queued;
    resumed, queued, exhausted, tried := FillTick(models, caps, budgetForNew, slots, parked, initial, attempt);
    AllFailed(models, exhausted);
    t := Tick(if |exhausted| == |models| then Deactivated else KeepsTicking, resumed, queued);
  }
}
