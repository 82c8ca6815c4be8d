/**
 The rate-limit hold store (backend/src/modules/strategy/rate-limit-hold.service.ts) as
 a state machine: a cooldown's check and its upsert are two steps, and so are the find
 and the remove of a clean-up, with the steps of any number of callers in between.
 */
module HoldStore {
  import opened Options

  datatype Reason = Daily | PerMinuteCooldown

  /** The unique key of a row; the account-wide row of a strategy has no model. */
  datatype Key = Key(strategyName: string, modelName: Option<string>)

  datatype Hold = Hold(reason: Option<Reason>, resetAt: int)

  /** A row keeps its generated id when an upsert meets it; removing goes by id. */
  datatype Row = Row(id: nat, hold: Hold)

  type Table = map<Key, Row>

  type Book = map<Key, Hold>

  function Holds(rows: Table): Book {
    map k | k in rows :: rows[k].hold
  }

  function AccountRow(strategyName: string): Key {
    Key(strategyName, None)
  }

  // ----- queries -----

  function LiveAt(b: Book, k: Key, now: int): Option<Hold> {
    if k in b && b[k].resetAt > now then Some(b[k]) else None
  }

  predicate IsHeld(b: Book, k: Key, now: int) {
    LiveAt(b, k, now).Some?
  }

  function HeldReason(b: Book, strategyName: string, now: int): Option<Reason> {
    match LiveAt(b, AccountRow(strategyName), now)
    case Some(h) => h.reason
    case None => None
  }

  predicate DailyHeld(b: Book, strategyName: string, now: int) {
    HeldReason(b, strategyName, now) == Some(Daily)
  }

  function HeldModels(b: Book, strategyName: string, now: int): set<string> {
    set k | k in b && k.strategyName == strategyName && k.modelName.Some? && b[k].resetAt > now :: k.modelName.value
  }

  /** Whether `at` is what nextResetAt may answer: the soonest reset of a live row, or nothing when none is live. */
  ghost predicate SoonestReset(b: Book, strategyName: string, now: int, at: Option<int>) {
    match at
    case None => forall m :: LiveAt(b, Key(strategyName, m), now).None?
    case Some(t) =>
      && (exists m :: LiveAt(b, Key(strategyName, m), now).Some?
                      && LiveAt(b, Key(strategyName, m), now).value.resetAt == t)
      && (forall m :: LiveAt(b, Key(strategyName, m), now).Some?
                      ==> t <= LiveAt(b, Key(strategyName, m), now).value.resetAt)
  }

  // ----- the steps -----

  /** A cooldown between its check of the account row and its write. */
  datatype Cooldown = Cooldown(k: Key, resetInSeconds: int, sawDaily: bool)

  /** The table, and the cooldowns and clean-ups under way: the ids a clean-up has found. */
  datatype State = State(rows: Table, next: nat, cooldowns: map<nat, Cooldown>, clears: map<nat, set<nat>>)

  const EMPTY := State(map[], 0, map[], map[])

  datatype Event =
    | Upsert(k: Key, daily: bool, resetInSeconds: int) // hold, daily or without a reason
    | Check(p: nat, k: Key, resetInSeconds: int)       // hold for a cooldown: liveAccountRow
    | Write(p: nat)                                    // the rest of that hold
    | Find(p: nat, strategyName: Option<string>)       // clearExpired: the expired rows
    | Remove(p: nat)                                   // the rest of that clearExpired

  datatype Timed = Timed(now: int, event: Event)

  function HoldFor(daily: bool, resetInSeconds: int, now: int): Hold {
    Hold(if daily then Some(Daily) else None, now + resetInSeconds * 1000)
  }

  function CooldownFor(c: Cooldown, now: int): Hold {
    Hold(Some(PerMinuteCooldown), now + c.resetInSeconds * 1000)
  }

  function Put(s: State, k: Key, h: Hold): State {
    if k in s.rows then s.(rows := s.rows[k := Row(s.rows[k].id, h)])
    else s.(rows := s.rows[k := Row(s.next, h)], next := s.next + 1)
  }

  function ExpiredRows(rows: Table, strategyName: Option<string>, now: int): set<Key> {
    set k | k in rows && rows[k].hold.resetAt <= now && (strategyName.None? || k.strategyName == strategyName.value)
  }

  function IdsOf(rows: Table, keys: set<Key>): set<nat> {
    set k | k in keys && k in rows :: rows[k].id
  }

  function Without(rows: Table, found: set<nat>): Table {
    map k | k in rows && rows[k].id !in found :: rows[k]
  }

  function Apply(s: State, t: Timed): State {
    match t.event
    case Upsert(k, daily, resetInSeconds) => Put(s, k, HoldFor(daily, resetInSeconds, t.now))
    case Check(p, k, resetInSeconds) =>
      if p in s.cooldowns then s
      else
        var sawDaily := DailyHeld(Holds(s.rows), k.strategyName, t.now);
        s.(cooldowns := s.cooldowns[p := Cooldown(k, resetInSeconds, sawDaily)])
    case Write(p) =>
      if p !in s.cooldowns then s
      else
        var c, done := s.cooldowns[p], s.(cooldowns := s.cooldowns - {p});
        if c.sawDaily then done else Put(done, c.k, CooldownFor(c, t.now))
    case Find(p, strategyName) =>
      if p in s.clears then s
      else s.(clears := s.clears[p := IdsOf(s.rows, ExpiredRows(s.rows, strategyName, t.now))])
    case Remove(p) =>
      if p !in s.clears then s
      else s.(rows := Without(s.rows, s.clears[p]), clears := s.clears - {p})
  }

  function Play(s: State, events: seq<Timed>): State
    decreases |events|
  {
    if events == [] then s else Play(Apply(s, events[0]), events[1..])
  }

  predicate InOrder(start: int, events: seq<Timed>) {
    && (forall i :: 0 <= i < |events| ==> start <= events[i].now)
    && (forall i, j :: 0 <= i < j < |events| ==> events[i].now <= events[j].now)
  }

  function LastTime(start: int, events: seq<Timed>): int {
    if events == [] then start else events[|events| - 1].now
  }

  lemma PlayLast(s: State, events: seq<Timed>)
    requires events != []
    ensures Play(s, events) == Apply(Play(s, events[..|events| - 1]), events[|events| - 1])
  {
    var front, last := events[..|events| - 1], events[|events| - 1];
    assert events == front + [last];
    PlayAppend(s, front, [last]);
  }

  lemma {:induction false} PlayAppend(s: State, a: seq<Timed>, b: seq<Timed>)
    ensures Play(s, a + b) == Play(Play(s, a), b)
    decreases |a|
  {
    if a == [] {
      assert a + b == b;
    } else {
      assert (a + b)[1..] == a[1..] + b;
      PlayAppend(Apply(s, a[0]), a[1..], b);
    }
  }

  // ----- the store against a plain map -----

  /** The reference: a map of holds from which nothing is ever removed, and the same cooldowns. */
  datatype Plain = Plain(book: Book, cooldowns: map<nat, Cooldown>)

  function PlainStep(r: Plain, t: Timed): Plain {
    match t.event
    case Upsert(k, daily, resetInSeconds) => r.(book := r.book[k := HoldFor(daily, resetInSeconds, t.now)])
    case Check(p, k, resetInSeconds) =>
      if p in r.cooldowns then r
      else
        var sawDaily := DailyHeld(r.book, k.strategyName, t.now);
        r.(cooldowns := r.cooldowns[p := Cooldown(k, resetInSeconds, sawDaily)])
    case Write(p) =>
      if p !in r.cooldowns then r
      else
        var c := r.cooldowns[p];
        Plain(if c.sawDaily then r.book else r.book[c.k := CooldownFor(c, t.now)], r.cooldowns - {p})
    case Find(_, _) => r
    case Remove(_) => r
  }

  function Reference(r: Plain, events: seq<Timed>): Plain
    decreases |events|
  {
    if events == [] then r else Reference(PlainStep(r, events[0]), events[1..])
  }

  /** From a time on, both hold the same things. */
  ghost predicate SameFrom(a: Book, b: Book, start: int) {
    forall k, now: int :: start <= now ==> LiveAt(a, k, now) == LiveAt(b, k, now)
  }

  ghost predicate Agree(s: State, r: Plain, start: int) {
    SameFrom(Holds(s.rows), r.book, start) && s.cooldowns == r.cooldowns
  }

  /** A clean-up removes a row that is live when it goes: one refreshed since it was found. */
  predicate DropsLive(s: State, t: Timed) {
    && t.event.Remove? && t.event.p in s.clears
    && exists k :: k in s.rows && s.rows[k].id in s.clears[t.event.p] && s.rows[k].hold.resetAt > t.now
  }

  lemma PutSame(a: Book, b: Book, k: Key, h: Hold, start: int, now: int)
    requires SameFrom(a, b, start) && start <= now
    ensures SameFrom(a[k := h], b[k := h], now)
  {
    var x, y := a[k := h], b[k := h];
    forall j, t: int | now <= t ensures LiveAt(x, j, t) == LiveAt(y, j, t) {
      assert LiveAt(a, j, t) == LiveAt(b, j, t);
    }
  }

  lemma PutHolds(s: State, k: Key, h: Hold)
    ensures Holds(Put(s, k, h).rows) == Holds(s.rows)[k := h]
  {
  }

  lemma RemoveExactly(rows: Table, b: Book, found: set<nat>, start: int, now: int)
    requires SameFrom(Holds(rows), b, start) && start <= now
    ensures SameFrom(Holds(Without(rows, found)), b, now)
            <==> forall k :: k in rows && rows[k].id in found ==> rows[k].hold.resetAt <= now
  {
    var left := Holds(Without(rows, found));
    forall k, t: int | now <= t
      ensures LiveAt(left, k, t) == if k in rows && rows[k].id in found then None else LiveAt(b, k, t)
    {
      assert LiveAt(Holds(rows), k, t) == LiveAt(b, k, t);
    }
    forall k | k in rows && rows[k].id in found && rows[k].hold.resetAt > now
      ensures LiveAt(left, k, now) != LiveAt(b, k, now)
    {
      assert LiveAt(Holds(rows), k, now) == LiveAt(b, k, now);
    }
    forall k, t: int | now <= t && k in rows && rows[k].id in found && rows[k].hold.resetAt <= now
      ensures LiveAt(b, k, t).None?
    {
      assert LiveAt(Holds(rows), k, t) == LiveAt(b, k, t);
    }
  }

  /** One step keeps the store and the plain map in agreement exactly when it drops no live row. */
  lemma AgreeExactly(s: State, r: Plain, start: int, t: Timed)
    requires Agree(s, r, start) && start <= t.now
    ensures Agree(Apply(s, t), PlainStep(r, t), t.now) <==> !DropsLive(s, t)
  {
    match t.event
    case Upsert(k, daily, resetInSeconds) =>
      var h := HoldFor(daily, resetInSeconds, t.now);
      PutHolds(s, k, h);
      PutSame(Holds(s.rows), r.book, k, h, start, t.now);
    case Check(p, k, resetInSeconds) =>
      assert LiveAt(Holds(s.rows), AccountRow(k.strategyName), t.now)
             == LiveAt(r.book, AccountRow(k.strategyName), t.now);
    case Write(p) =>
      if p in s.cooldowns {
        var c := s.cooldowns[p];
        PutHolds(s.(cooldowns := s.cooldowns - {p}), c.k, CooldownFor(c, t.now));
        PutSame(Holds(s.rows), r.book, c.k, CooldownFor(c, t.now), start, t.now);
      }
    case Find(_, _) =>
    case Remove(p) =>
      if p in s.clears {
        RemoveExactly(s.rows, r.book, s.clears[p], start, t.now);
      }
  }

  ghost predicate AgreeThroughout(s: State, r: Plain, events: seq<Timed>)
    decreases |events|
  {
    events != [] ==>
      && Agree(Apply(s, events[0]), PlainStep(r, events[0]), events[0].now)
      && AgreeThroughout(Apply(s, events[0]), PlainStep(r, events[0]), events[1..])
  }

  ghost predicate Careful(s: State, events: seq<Timed>)
    decreases |events|
  {
    events != [] ==> !DropsLive(s, events[0]) && Careful(Apply(s, events[0]), events[1..])
  }

  /** Over any time-ordered run the store and the plain map agree all the way exactly when no live row is dropped. */
  lemma {:induction false} StoreExactly(s: State, r: Plain, start: int, events: seq<Timed>)
    requires Agree(s, r, start) && InOrder(start, events)
    ensures AgreeThroughout(s, r, events) <==> Careful(s, events)
    ensures Careful(s, events) ==> Agree(Play(s, events), Reference(r, events), LastTime(start, events))
    decreases |events|
  {
    if events != [] {
      AgreeExactly(s, r, start, events[0]);
      if !DropsLive(s, events[0]) {
        StoreExactly(Apply(s, events[0]), PlainStep(r, events[0]), events[0].now, events[1..]);
      }
    }
  }

  /**
   Then every query answers as a plain map of the holds would; so when, and whether,
   clearExpired runs cannot be seen.
   */
  lemma QueriesAgree(start: int, events: seq<Timed>, now: int, strategyName: string)
    requires InOrder(start, events) && LastTime(start, events) <= now && Careful(EMPTY, events)
    ensures var s, r := Holds(Play(EMPTY, events).rows), Reference(Plain(map[], map[]), events).book;
            && (forall m :: IsHeld(s, Key(strategyName, m), now) == IsHeld(r, Key(strategyName, m), now))
            && HeldReason(s, strategyName, now) == HeldReason(r, strategyName, now)
            && HeldModels(s, strategyName, now) == HeldModels(r, strategyName, now)
            && (forall at :: SoonestReset(s, strategyName, now, at) == SoonestReset(r, strategyName, now, at))
  {
    StoreExactly(EMPTY, Plain(map[], map[]), start, events);
    var s, r := Holds(Play(EMPTY, events).rows), Reference(Plain(map[], map[]), events).book;
    assert forall m :: LiveAt(s, Key(strategyName, m), now) == LiveAt(r, Key(strategyName, m), now);
    assert LiveAt(s, AccountRow(strategyName), now) == LiveAt(r, AccountRow(strategyName), now);
    HeldModelsMeans(s, strategyName, now);
    HeldModelsMeans(r, strategyName, now);
  }

  lemma HeldModelsMeans(b: Book, strategyName: string, now: int)
    ensures forall m :: m in HeldModels(b, strategyName, now) <==> IsHeld(b, Key(strategyName, Some(m)), now)
  {
    forall m | IsHeld(b, Key(strategyName, Some(m)), now) ensures m in HeldModels(b, strategyName, now) {
      assert Key(strategyName, Some(m)) in b;
    }
  }

  // ----- ids -----

  ghost predicate IdsOk(s: State) {
    && (forall k :: k in s.rows ==> s.rows[k].id < s.next)
    && (forall j, k :: j in s.rows && k in s.rows && s.rows[j].id == s.rows[k].id ==> j == k)
    && (forall p, id :: p in s.clears && id in s.clears[p] ==> id < s.next)
  }

  lemma PutIds(s: State, k: Key, h: Hold)
    requires IdsOk(s)
    ensures IdsOk(Put(s, k, h)) && Put(s, k, h).next >= s.next
  {
  }

  lemma WithoutIds(s: State, found: set<nat>)
    requires IdsOk(s)
    ensures IdsOk(s.(rows := Without(s.rows, found)))
  {
  }

  lemma FindIds(s: State, p: nat, strategyName: Option<string>, now: int)
    requires IdsOk(s)
    ensures IdsOk(s.(clears := s.clears[p := IdsOf(s.rows, ExpiredRows(s.rows, strategyName, now))]))
  {
  }

  lemma StepIds(s: State, t: Timed) returns (u: State)
    requires IdsOk(s)
    ensures u == Apply(s, t) && IdsOk(u) && u.next >= s.next
  {
    u := Apply(s, t);
    match t.event
    case Upsert(k, daily, resetInSeconds) => PutIds(s, k, HoldFor(daily, resetInSeconds, t.now));
    case Check(_, _, _) =>
    case Write(p) =>
      if p in s.cooldowns {
        PutIds(s.(cooldowns := s.cooldowns - {p}), s.cooldowns[p].k, CooldownFor(s.cooldowns[p], t.now));
      }
    case Find(p, strategyName) => FindIds(s, p, strategyName, t.now);
    case Remove(p) =>
      if p in s.clears {
        WithoutIds(s, s.clears[p]);
      }
  }

  lemma {:induction false} PlayIds(s: State, events: seq<Timed>)
    requires IdsOk(s)
    ensures IdsOk(Play(s, events))
    decreases |events|
  {
    if events != [] {
      var u := StepIds(s, events[0]);
      PlayIds(u, events[1..]);
    }
  }

  /** A clean-up that nothing comes between removes exactly the rows that had expired when it looked. */
  lemma ClearAlone(s: State, p: nat, strategyName: Option<string>, now: int, later: int)
    requires IdsOk(s) && p !in s.clears
    ensures var t := Apply(Apply(s, Timed(now, Find(p, strategyName))), Timed(later, Remove(p)));
            && (forall k :: k in t.rows <==>
                  k in s.rows && !(s.rows[k].hold.resetAt <= now
                                   && (strategyName.None? || strategyName.value == k.strategyName)))
            && (forall k :: k in t.rows ==> t.rows[k] == s.rows[k])
            && t.cooldowns == s.cooldowns && t.clears == s.clears
  {
    var found := Apply(s, Timed(now, Find(p, strategyName)));
    var expired := ExpiredRows(s.rows, strategyName, now);
    assert found.clears[p] == IdsOf(s.rows, expired);
    forall k | k in s.rows ensures s.rows[k].id in IdsOf(s.rows, expired) <==> k in expired {
      if s.rows[k].id in IdsOf(s.rows, expired) {
        var j :| j in expired && j in s.rows && s.rows[j].id == s.rows[k].id;
        assert j == k;
      }
    }
    assert found.clears - {p} == s.clears;
  }

  // ----- when a clean-up drops a live row -----

  /** The row a step writes. */
  function Written(s: State, e: Event): Option<Key> {
    match e
    case Upsert(k, _, _) => Some(k)
    case Write(p) => if p in s.cooldowns && !s.cooldowns[p].sawDaily then Some(s.cooldowns[p].k) else None
    case _ => None
  }

  predicate Refreshes(s: State, e: Event, found: set<nat>) {
    Written(s, e).Some? && Written(s, e).value in s.rows && s.rows[Written(s, e).value].id in found
  }

  ghost predicate AllExpired(s: State, found: set<nat>, now: int) {
    && (forall id :: id in found ==> id < s.next)
    && (forall k :: k in s.rows && s.rows[k].id in found ==> s.rows[k].hold.resetAt <= now)
  }

  lemma PutExpired(s: State, found: set<nat>, now: int, k: Key, h: Hold)
    requires AllExpired(s, found, now) && !(k in s.rows && s.rows[k].id in found)
    ensures AllExpired(Put(s, k, h), found, now)
  {
  }

  lemma StaysExpired(s: State, found: set<nat>, start: int, t: Timed) returns (u: State)
    requires IdsOk(s) && AllExpired(s, found, start) && start <= t.now && !Refreshes(s, t.event, found)
    ensures u == Apply(s, t) && IdsOk(u) && AllExpired(u, found, t.now)
  {
    u := StepIds(s, t);
    assert AllExpired(s, found, t.now);
    match t.event
    case Upsert(k, daily, resetInSeconds) => PutExpired(s, found, t.now, k, HoldFor(daily, resetInSeconds, t.now));
    case Write(p) =>
      if p in s.cooldowns && !s.cooldowns[p].sawDaily {
        var c := s.cooldowns[p];
        PutExpired(s.(cooldowns := s.cooldowns - {p}), found, t.now, c.k, CooldownFor(c, t.now));
      }
    case _ =>
  }

  /** Rows that had expired are live later only when a write refreshed one of them. */
  lemma {:induction false} LiveAgain(s: State, found: set<nat>, start: int, events: seq<Timed>, now: int)
    returns (i: nat)
    requires IdsOk(s) && AllExpired(s, found, start) && InOrder(start, events) && LastTime(start, events) <= now
    requires !AllExpired(Play(s, events), found, now)
    ensures i < |events| && Refreshes(Play(s, events[..i]), events[i].event, found)
    decreases |events|
  {
    assert events != [];
    if Refreshes(s, events[0].event, found) {
      return 0;
    }
    var u := StaysExpired(s, found, start, events[0]);
    var j := LiveAgain(u, found, events[0].now, events[1..], now);
    assert events[..j + 1][1..] == events[1..][..j];
    return j + 1;
  }

  /** A clean-up under way found its rows at an earlier step of the run, when they had expired. */
  lemma {:induction false} FoundAt(events: seq<Timed>, p: nat) returns (i: nat)
    requires p in Play(EMPTY, events).clears
    ensures i < |events| && events[i].event.Find? && events[i].event.p == p
    ensures AllExpired(Play(EMPTY, events[..i + 1]), Play(EMPTY, events).clears[p], events[i].now)
    decreases |events|
  {
    var front, found := events[..|events| - 1], Play(EMPTY, events).clears[p];
    var s := Play(EMPTY, front);
    PlayLast(EMPTY, events);
    PlayIds(EMPTY, front);
    FoundStep(s, events[|front|], p);
    if p in s.clears {
      i := FoundAt(front, p);
      assert front[..i + 1] == events[..i + 1];
      assert AllExpired(Play(EMPTY, events[..i + 1]), found, events[i].now);
    } else {
      i := |front|;
      assert events[..i + 1] == events;
    }
  }

  lemma FoundStep(s: State, t: Timed, p: nat)
    requires IdsOk(s) && p in Apply(s, t).clears
    ensures p in s.clears ==> Apply(s, t).clears[p] == s.clears[p]
    ensures p !in s.clears ==>
              t.event.Find? && t.event.p == p && AllExpired(Apply(s, t), Apply(s, t).clears[p], t.now)
  {
  }

  /**
   A clean-up drops a live row only when a hold was written to that clean-up's rows
   between its find and its remove.
   */
  lemma DropsOnlyRefreshed(start: int, events: seq<Timed>, p: nat, now: int) returns (i: nat, j: nat)
    requires InOrder(start, events) && LastTime(start, events) <= now
    requires DropsLive(Play(EMPTY, events), Timed(now, Remove(p)))
    ensures i < j < |events| && events[i].event.Find? && events[i].event.p == p
    ensures Refreshes(Play(EMPTY, events[..j]), events[j].event, Play(EMPTY, events).clears[p])
  {
    i := FoundAt(events, p);
    j := RefreshedAfter(events, i, Play(EMPTY, events).clears[p], now);
  }

  lemma RefreshedAfter(events: seq<Timed>, i: nat, found: set<nat>, now: int) returns (j: nat)
    requires i < |events| && InOrder(events[i].now, events[i + 1..]) && LastTime(events[i].now, events[i + 1..]) <= now
    requires AllExpired(Play(EMPTY, events[..i + 1]), found, events[i].now)
    requires !AllExpired(Play(EMPTY, events), found, now)
    ensures i < j < |events| && Refreshes(Play(EMPTY, events[..j]), events[j].event, found)
  {
    var a, b := events[..i + 1], events[i + 1..];
    assert events == a + b;
    PlayIds(EMPTY, a);
    PlayAppend(EMPTY, a, b);
    var k := LiveAgain(Play(EMPTY, a), found, events[i].now, b, now);
    j := i + 1 + k;
    assert events[..j] == a + b[..k];
    PlayAppend(EMPTY, a, b[..k]);
  }

  function Refreshed(k: Key, now: int): seq<Timed> {
    [Timed(now, Upsert(k, false, 1)), Timed(now + 1000, Find(0, None)), Timed(now + 1000, Upsert(k, false, 60))]
  }

  /** Such a run: the refreshed hold is removed with the expired one, and the two books part. */
  lemma ClearDropsRefreshed(k: Key, now: int)
    ensures var events := Refreshed(k, now) + [Timed(now + 1000, Remove(0))];
            InOrder(now, events) && !AgreeThroughout(EMPTY, Plain(map[], map[]), events)
  {
    var events, remove := Refreshed(k, now), Timed(now + 1000, Remove(0));
    var s := Play(EMPTY, events);
    RefreshedRow(k, now);
    assert DropsLive(s, remove);
    CarefulAppend(EMPTY, events, remove);
    StoreExactly(EMPTY, Plain(map[], map[]), now, events + [remove]);
  }

  lemma PlayThree(s: State, events: seq<Timed>)
    requires |events| == 3
    ensures Play(s, events) == Apply(Apply(Apply(s, events[0]), events[1]), events[2])
  {
    PlayLast(s, events);
    PlayLast(s, events[..2]);
    PlayLast(s, events[..2][..1]);
    assert Play(s, events[..2][..1][..0]) == s;
  }

  lemma RefreshedRow(k: Key, now: int)
    ensures var s := Play(EMPTY, Refreshed(k, now));
            && k in s.rows && s.rows[k] == Row(0, Hold(None, now + 61_000))
            && 0 in s.clears && 0 in s.clears[0]
  {
    var events := Refreshed(k, now);
    var s1 := Apply(EMPTY, events[0]);
    assert s1.rows == map[k := Row(0, Hold(None, now + 1000))];
    var s2 := Apply(s1, events[1]);
    assert k in ExpiredRows(s1.rows, None, now + 1000);
    assert 0 in s2.clears[0];
    PlayThree(EMPTY, events);
  }

  lemma {:induction false} CarefulAppend(s: State, events: seq<Timed>, t: Timed)
    ensures Careful(s, events + [t]) <==> Careful(s, events) && !DropsLive(Play(s, events), t)
    decreases |events|
  {
    if events == [] {
      assert events + [t] == [t];
    } else {
      assert (events + [t])[1..] == events[1..] + [t];
      CarefulAppend(Apply(s, events[0]), events[1..], t);
    }
  }

  // ----- the daily hold -----

  /**
   A step under way that has not seen the daily hold: the write of a cooldown whose
   check found no live daily hold, or the remove of a clean-up that found this row expired.
   */
  predicate Stale(s: State, strategyName: string, e: Event) {
    match e
    case Write(p) =>
      p in s.cooldowns && s.cooldowns[p].k == AccountRow(strategyName) && !s.cooldowns[p].sawDaily
    case Remove(p) =>
      p in s.clears && AccountRow(strategyName) in s.rows && s.rows[AccountRow(strategyName)].id in s.clears[p]
    case _ => false
  }

  predicate NoOther(strategyName: string, events: seq<Timed>) {
    forall i :: 0 <= i < |events| ==> !(events[i].event.Upsert? && events[i].event.k == AccountRow(strategyName))
  }

  ghost predicate DailyRow(s: State, strategyName: string) {
    AccountRow(strategyName) in s.rows && s.rows[AccountRow(strategyName)].hold.reason == Some(Daily)
  }

  lemma {:induction false} NoDailyAgain(s: State, strategyName: string, events: seq<Timed>)
    requires !DailyRow(s, strategyName) && NoOther(strategyName, events)
    ensures !DailyRow(Play(s, events), strategyName)
    decreases |events|
  {
    if events != [] {
      assert !DailyRow(Apply(s, events[0]), strategyName);
      NoDailyAgain(Apply(s, events[0]), strategyName, events[1..]);
    }
  }

  /** A step keeps the live daily row unless it is stale. */
  lemma DailyStep(s: State, strategyName: string, t: Timed)
    requires IdsOk(s) && DailyHeld(Holds(s.rows), strategyName, t.now)
    requires !(t.event.Upsert? && t.event.k == AccountRow(strategyName))
    ensures var k, u := AccountRow(strategyName), Apply(s, t);
            if Stale(s, strategyName, t.event) then !DailyRow(u, strategyName)
            else k in u.rows && u.rows[k] == s.rows[k]
  {
    assert LiveAt(Holds(s.rows), AccountRow(strategyName), t.now).Some?;
  }

  /** A step that keeps it makes no other step stale, and none that was is forgotten. */
  lemma StaleKept(s: State, strategyName: string, t: Timed, e: Event)
    requires IdsOk(s) && DailyHeld(Holds(s.rows), strategyName, t.now) && !Stale(s, strategyName, t.event)
    requires AccountRow(strategyName) in s.rows && AccountRow(strategyName) in Apply(s, t).rows
    requires Apply(s, t).rows[AccountRow(strategyName)] == s.rows[AccountRow(strategyName)]
    ensures Stale(Apply(s, t), strategyName, e) <==> Stale(s, strategyName, e)
  {
    assert LiveAt(Holds(s.rows), AccountRow(strategyName), t.now).Some?;
  }

  /**
   Exactly when a live daily hold stands until its reset, over any time-ordered run
   without another hold, daily or without a reason, of the same account row: when no
   stale step completes. While it stands the row does not change at all.
   */
  lemma {:induction false} DailyStandsExactly(s: State, strategyName: string, start: int, events: seq<Timed>, now: int)
    requires IdsOk(s) && InOrder(start, events) && LastTime(start, events) <= now
    requires DailyHeld(Holds(s.rows), strategyName, start) && now < s.rows[AccountRow(strategyName)].hold.resetAt
    requires NoOther(strategyName, events)
    ensures DailyHeld(Holds(Play(s, events).rows), strategyName, now)
            <==> forall i :: 0 <= i < |events| ==> !Stale(s, strategyName, events[i].event)
    ensures DailyHeld(Holds(Play(s, events).rows), strategyName, now) ==>
              Play(s, events).rows[AccountRow(strategyName)] == s.rows[AccountRow(strategyName)]
    decreases |events|
  {
    if events != [] {
      var u := StepIds(s, events[0]);
      DailyStep(s, strategyName, events[0]);
      if Stale(s, strategyName, events[0].event) {
        NoDailyAgain(u, strategyName, events[1..]);
      } else {
        DailyStandsExactly(u, strategyName, events[0].now, events[1..], now);
        forall e ensures Stale(u, strategyName, e) <==> Stale(s, strategyName, e) {
          StaleKept(s, strategyName, events[0], e);
        }
        assert forall i :: 0 <= i < |events| ==> i == 0 || events[i] == events[1..][i - 1];
        assert forall i :: 0 <= i < |events| - 1 ==> events[1..][i] == events[i + 1];
      }
    }
  }

  /** A cooldown under way saw exactly what its check saw, at an earlier step of the run. */
  lemma {:induction false} CheckedAt(events: seq<Timed>, p: nat) returns (i: nat)
    requires p in Play(EMPTY, events).cooldowns
    ensures var c := Play(EMPTY, events).cooldowns[p];
            && i < |events| && events[i].event == Check(p, c.k, c.resetInSeconds)
            && c.sawDaily == DailyHeld(Holds(Play(EMPTY, events[..i]).rows), c.k.strategyName, events[i].now)
    decreases |events|
  {
    var n := |events| - 1;
    PlayLast(EMPTY, events);
    if p in Play(EMPTY, events[..n]).cooldowns {
      i := CheckedAt(events[..n], p);
      assert events[..n][..i] == events[..i];
    } else {
      i := n;
    }
  }

  /** A daily hold that lands between a cooldown's check and its write is displaced. */
  lemma CheckThenWriteDisplacesDaily(strategyName: string, now: int)
    ensures var k := AccountRow(strategyName);
            var held := [Timed(now, Check(0, k, 60)), Timed(now, Upsert(k, true, 86_400))];
            && DailyHeld(Holds(Play(EMPTY, held).rows), strategyName, now)
            && !DailyHeld(Holds(Play(EMPTY, held + [Timed(now, Write(0))]).rows), strategyName, now)
  {
    var k := AccountRow(strategyName);
    var held, write := [Timed(now, Check(0, k, 60)), Timed(now, Upsert(k, true, 86_400))], Timed(now, Write(0));
    var s := Play(EMPTY, held);
    PlayLast(EMPTY, held);
    PlayLast(EMPTY, held[..1]);
    assert Play(EMPTY, held[..1][..0]) == EMPTY;
    var checked := Apply(EMPTY, held[0]);
    assert checked.cooldowns == map[0 := Cooldown(k, 60, false)] && s == Apply(checked, held[1]);
    assert s.rows == map[k := Row(0, Hold(Some(Daily), now + 86_400_000))];
    PlayIds(EMPTY, held);
    PlayAppend(EMPTY, held, [write]);
    DailyStandsExactly(s, strategyName, now, [write], now);
    assert Stale(s, strategyName, [write][0].event);
  }
}
