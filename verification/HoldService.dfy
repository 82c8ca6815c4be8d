/**
 The rate-limit hold service on the rows every process shares
 (backend/src/modules/strategy/rate-limit-hold.service.ts).
 */
module HoldService {
  import opened Options
  import opened HoldStore

  /** Steps of callers other than p. */
  ghost predicate NotBy(p: nat, events: seq<Timed>) {
    forall i :: 0 <= i < |events| ==>
                  var e := events[i].event;
                  !(e.Check? && e.p == p) && !(e.Write? && e.p == p)
                  && !(e.Find? && e.p == p) && !(e.Remove? && e.p == p)
  }

  /** What p has read is its own: nothing others do changes it. */
  lemma {:induction false} OthersLeave(s: State, p: nat, events: seq<Timed>)
    requires NotBy(p, events)
    ensures var t := Play(s, events);
            && (p in t.cooldowns <==> p in s.cooldowns) && (p in s.cooldowns ==> t.cooldowns[p] == s.cooldowns[p])
            && (p in t.clears <==> p in s.clears) && (p in s.clears ==> t.clears[p] == s.clears[p])
    decreases |events|
  {
    if events != [] {
      assert NotBy(p, events[1..]);
      OthersLeave(Apply(s, events[0]), p, events[1..]);
    }
  }

  /** Two steps of one caller with what others do in between. */
  lemma TwoSteps(s: State, first: Timed, between: seq<Timed>, last: Timed)
    ensures Play(s, [first] + (between + [last])) == Apply(Play(Apply(s, first), between), last)
  {
    PlayAppend(s, [first], between + [last]);
    PlayAppend(Apply(s, first), between, [last]);
    One(s, first);
    One(Play(Apply(s, first), between), last);
  }

  lemma One(s: State, t: Timed)
    ensures Play(s, [t]) == Apply(s, t)
  {
  }

  /** The steps of one hold call, with `between` done by others between the check and the upsert. */
  function HoldSteps(p: nat, k: Key, reason: Option<Reason>, resetInSeconds: int, now: int, between: seq<Timed>,
                     later: int): seq<Timed> {
    if reason == Some(PerMinuteCooldown)
    then [Timed(now, Check(p, k, resetInSeconds))] + (between + [Timed(later, Write(p))])
    else [Timed(now, Upsert(k, reason == Some(Daily), resetInSeconds))]
  }

  class RateLimitHoldService {
    var rows: Table
    var next: nat
    var cooldowns: map<nat, Cooldown>
    var clears: map<nat, set<nat>>

    constructor ()
      ensures State() == EMPTY
    {
      rows, next, cooldowns, clears := map[], 0, map[], map[];
    }

    function State(): State
      reads this
    {
      HoldStore.State(rows, next, cooldowns, clears)
    }

    /** Whatever other callers do while p awaits. */
    method Others(p: nat, events: seq<Timed>)
      requires NotBy(p, events)
      modifies this
      ensures State() == Play(old(State()), events)
    {
      var s := Play(State(), events);
      rows, next, cooldowns, clears := s.rows, s.next, s.cooldowns, s.clears;
    }

    method PutRow(k: Key, h: Hold)
      modifies this`rows, this`next
      ensures State() == Put(old(State()), k, h)
    {
      if k in rows {
        rows := rows[k := Row(rows[k].id, h)];
      } else {
        rows, next := rows[k := Row(next, h)], next + 1;
      }
    }

    /** hold, by caller p: `between` is what others do after its check, until it writes at `later`. */
    method SetHold(p: nat, strategyName: string, modelName: Option<string>, reason: Option<Reason>, resetInSeconds: int,
                   now: int, between: seq<Timed>, later: int)
      requires p !in cooldowns && NotBy(p, between)
      modifies this
      ensures var k := Key(strategyName, modelName);
              State() == Play(old(State()), HoldSteps(p, k, reason, resetInSeconds, now, between, later))
    {
      var k := Key(strategyName, modelName);
      if reason == Some(PerMinuteCooldown) {
        TwoSteps(State(), Timed(now, Check(p, k, resetInSeconds)), between, Timed(later, Write(p)));
        var live := LiveAt(Holds(rows), AccountRow(strategyName), now);
        var sawDaily := live.Some? && live.value.reason == Some(Daily);
        cooldowns := cooldowns[p := Cooldown(k, resetInSeconds, sawDaily)];
        OthersLeave(State(), p, between);
        Others(p, between);
        cooldowns := cooldowns - {p};
        if sawDaily {
          return;
        }
        PutRow(k, Hold(reason, later + resetInSeconds * 1000));
      } else {
        ghost var s := State();
        One(s, Timed(now, Upsert(k, reason == Some(Daily), resetInSeconds)));
        assert reason.None? || reason.value == Daily;
        assert HoldFor(reason == Some(Daily), resetInSeconds, now) == Hold(reason, now + resetInSeconds * 1000);
        PutRow(k, Hold(reason, now + resetInSeconds * 1000));
      }
    }

    method NextResetAt(strategyName: string, now: int) returns (at: Option<int>)
      ensures SoonestReset(Holds(rows), strategyName, now, at)
    {
      var live := set k | k in rows && k.strategyName == strategyName && rows[k].hold.resetAt > now;
      at := None;
      var left := live;
      while left != {}
        invariant left <= live
        invariant at.None? ==> left == live
        invariant at.Some? ==> exists k :: k in live - left && rows[k].hold.resetAt == at.value
        invariant at.Some? ==> forall k :: k in live - left ==> at.value <= rows[k].hold.resetAt
        decreases left
      {
        var k :| k in left;
        if at.None? || rows[k].hold.resetAt < at.value {
          at := Some(rows[k].hold.resetAt);
        }
        left := left - {k};
      }
      ghost var b := Holds(rows);
      assert forall m :: LiveAt(b, Key(strategyName, m), now).Some? <==> Key(strategyName, m) in live;
      assert forall k :: k in live ==> k == Key(strategyName, k.modelName);
    }

    /**
     clearExpired, by caller p: it reports the rows it found, and removes those of them
     that others have not removed meanwhile - refreshed or not.
     */
    method ClearExpired(p: nat, strategyName: Option<string>, now: int, between: seq<Timed>, later: int)
      returns (clearedModels: set<string>, clearedAccountWide: bool)
      requires p !in clears && NotBy(p, between)
      modifies this
      ensures State() == Play(old(State()), [Timed(now, Find(p, strategyName))] + (between + [Timed(later, Remove(p))]))
      ensures forall m :: m in clearedModels <==>
                exists k :: k in ExpiredRows(old(rows), strategyName, now) && k.modelName == Some(m)
      ensures clearedAccountWide <==> exists k :: k in ExpiredRows(old(rows), strategyName, now) && k.modelName.None?
    {
      TwoSteps(State(), Timed(now, Find(p, strategyName)), between, Timed(later, Remove(p)));
      var expired := ExpiredRows(rows, strategyName, now);
      var found := IdsOf(rows, expired);
      clears := clears[p := found];
      OthersLeave(State(), p, between);
      Others(p, between);
      if expired != {} {
        rows := Without(rows, found);
      }
      clears := clears - {p};
      clearedModels := set k | k in expired && k.modelName.Some? :: k.modelName.value;
      clearedAccountWide := exists k :: k in expired && k.modelName.None?;
      assert expired == {} ==> Without(rows, found) == rows;
    }
  }
}
