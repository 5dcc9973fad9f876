/**
 src/common/auth/login-lockout.service.ts: locking a login after failures. The policy has two forms, counters with
 expiry in Redis and slots in process memory; a service uses the first while Redis answers and the second otherwise.
 Times are milliseconds of one clock.
 */
module LoginLockout {
  import opened Prelude

  const MAX_FAILURES := 5
  const WINDOW: nat := 900_000

  datatype Counter = Counter(count: nat, expiresAt: Option<nat>)

  // What Redis holds for one login.
  datatype Redis = Redis(fail: Option<Counter>, lockUntil: Option<nat>)

  // What process memory holds for one login; `lockedUntil` is 0 while it is not locked.
  datatype Slot = Slot(failures: nat, lockedUntil: nat)

  datatype Event = Failure(at: nat) | Clear(at: nat) | Check(at: nat)

  // ----- the Redis form

  function RedisCount(r: Redis, now: nat): nat {
    if r.fail.Some? && (r.fail.value.expiresAt.None? || now < r.fail.value.expiresAt.value)
    then r.fail.value.count else 0
  }

  predicate RedisLocked(r: Redis, now: nat) {
    r.lockUntil.Some? && now < r.lockUntil.value
  }

  // INCR: a key that expired starts again, without an expiry.
  function Increment(r: Redis, now: nat): Redis {
    if RedisCount(r, now) == 0 then r.(fail := Some(Counter(1, None)))
    else r.(fail := Some(r.fail.value.(count := r.fail.value.count + 1)))
  }

  function Expire(r: Redis, now: nat): Redis
    requires r.fail.Some?
  {
    r.(fail := Some(r.fail.value.(expiresAt := Some(now + WINDOW))))
  }

  function RedisFailure(r: Redis, now: nat): Redis {
    var a := Increment(r, now);
    var b := if a.fail.value.count == 1 then Expire(a, now) else a;
    if b.fail.value.count >= MAX_FAILURES then b.(lockUntil := Some(now + WINDOW)) else b
  }

  // The commands a failure takes: INCR, then EXPIRE for the first and SET for the fifth and later.
  function Needed(r: Redis, now: nat): nat {
    var count := Increment(r, now).fail.value.count;
    if count == 1 || count >= MAX_FAILURES then 2 else 1
  }

  // What Redis holds when it fails after `n` commands of a failure.
  function Sent(r: Redis, now: nat, n: nat): Redis {
    if n == 0 then r else if n >= Needed(r, now) then RedisFailure(r, now) else Increment(r, now)
  }

  function RedisStep(r: Redis, e: Event): Redis {
    match e
    case Failure(at) => RedisFailure(r, at)
    case Clear(at) => Redis(None, None)
    case Check(at) => r
  }

  // ----- the memory form

  predicate Holds(m: Option<Slot>, now: nat) {
    m.Some? && (m.value.lockedUntil == 0 || m.value.lockedUntil > now)
  }

  function MemoryCount(m: Option<Slot>, now: nat): nat {
    if Holds(m, now) then m.value.failures else 0
  }

  predicate MemoryLocked(m: Option<Slot>, now: nat) {
    m.Some? && m.value.lockedUntil > now
  }

  function MemoryFailure(m: Option<Slot>, now: nat): Option<Slot> {
    var failures := MemoryCount(m, now) + 1;
    Some(Slot(failures, if failures >= MAX_FAILURES then now + WINDOW else 0))
  }

  function MemoryCheck(m: Option<Slot>, now: nat): Option<Slot> {
    if m.Some? && m.value.lockedUntil != 0 && m.value.lockedUntil <= now then None else m
  }

  function MemoryStep(m: Option<Slot>, e: Event): Option<Slot> {
    match e
    case Failure(at) => MemoryFailure(m, at)
    case Clear(at) => None
    case Check(at) => MemoryCheck(m, at)
  }

  // ----- runs

  function RedisAfter(h: seq<Event>): Redis {
    if h == [] then Redis(None, None) else RedisStep(RedisAfter(h[..|h| - 1]), h[|h| - 1])
  }

  function MemoryAfter(h: seq<Event>): Option<Slot> {
    if h == [] then None else MemoryStep(MemoryAfter(h[..|h| - 1]), h[|h| - 1])
  }

  lemma AfterSnoc(h: seq<Event>, e: Event)
    ensures RedisAfter(h + [e]) == RedisStep(RedisAfter(h), e)
    ensures MemoryAfter(h + [e]) == MemoryStep(MemoryAfter(h), e)
    ensures RedisAfter([]) == Redis(None, None) && MemoryAfter([]) == None
  {
    assert (h + [e])[..|h|] == h;
  }

  predicate Ordered(h: seq<Event>) {
    forall i, j | 0 <= i < j < |h| :: h[i].at <= h[j].at
  }

  // Time of the last event.
  function Last(h: seq<Event>): nat {
    if h == [] then 0 else h[|h| - 1].at
  }

  lemma OrderedPrefix(h: seq<Event>)
    requires Ordered(h) && h != []
    ensures Ordered(h[..|h| - 1]) && Last(h[..|h| - 1]) <= Last(h)
  {
  }

  // What memory holds covers what Redis holds, at time `t` and later.
  predicate Covers(r: Redis, m: Option<Slot>, t: nat) {
    && (r.fail.Some? ==>
          r.fail.value.count >= 1 && r.fail.value.expiresAt.Some? && r.fail.value.expiresAt.value <= t + WINDOW)
    && (m.Some? ==>
          (m.value.lockedUntil > 0 <==> m.value.failures >= MAX_FAILURES) && m.value.lockedUntil <= t + WINDOW)
    && (RedisCount(r, t) > 0 ==>
          && m.Some? && RedisCount(r, t) <= m.value.failures
          && (m.value.lockedUntil > 0 ==> r.fail.value.expiresAt.value <= m.value.lockedUntil))
    && (RedisLocked(r, t) ==> m.Some? && r.lockUntil.value <= m.value.lockedUntil)
  }

  lemma CoversStep(r: Redis, m: Option<Slot>, t: nat, e: Event)
    requires Covers(r, m, t) && t <= e.at
    ensures Covers(RedisStep(r, e), MemoryStep(m, e), e.at)
  {
  }

  lemma {:induction false} CoversAlways(h: seq<Event>)
    requires Ordered(h)
    ensures Covers(RedisAfter(h), MemoryAfter(h), Last(h))
  {
    if h != [] {
      OrderedPrefix(h);
      CoversAlways(h[..|h| - 1]);
      CoversStep(RedisAfter(h[..|h| - 1]), MemoryAfter(h[..|h| - 1]), Last(h[..|h| - 1]), h[|h| - 1]);
    }
  }

  // On any history, memory counts at least what Redis counts, and is locked whenever Redis is.
  lemma MemoryCoversRedis(h: seq<Event>, now: nat)
    requires Ordered(h) && Last(h) <= now
    ensures RedisCount(RedisAfter(h), now) <= MemoryCount(MemoryAfter(h), now)
    ensures RedisLocked(RedisAfter(h), now) ==> MemoryLocked(MemoryAfter(h), now)
  {
    CoversAlways(h);
  }

  function FourFailures(): seq<Event> {
    [Failure(1), Failure(2), Failure(3), Failure(4)]
  }

  lemma TwoFailures()
    ensures RedisAfter([Failure(1), Failure(2)]) == Redis(Some(Counter(2, Some(1 + WINDOW))), None)
    ensures MemoryAfter([Failure(1), Failure(2)]) == Some(Slot(2, 0))
  {
  }

  lemma AfterFourFailures()
    ensures RedisAfter(FourFailures()) == Redis(Some(Counter(4, Some(1 + WINDOW))), None)
    ensures MemoryAfter(FourFailures()) == Some(Slot(4, 0))
  {
    hide RedisAfter, MemoryAfter;
    var two := [Failure(1), Failure(2)];
    TwoFailures();
    AfterSnoc(two, Failure(3));
    AfterSnoc(two + [Failure(3)], Failure(4));
    assert two + [Failure(3)] + [Failure(4)] == FourFailures();
  }

  // The converse fails: a fifth failure long after four others locks memory only.
  lemma FormsDiffer()
    ensures var h := FourFailures() + [Failure(WINDOW + 10)];
      && Ordered(h) && !RedisLocked(RedisAfter(h), Last(h)) && MemoryLocked(MemoryAfter(h), Last(h))
      && RedisCount(RedisAfter(h), Last(h)) == 1 && MemoryCount(MemoryAfter(h), Last(h)) == 5
  {
    hide RedisAfter, MemoryAfter;
    AfterFourFailures();
    AfterSnoc(FourFailures(), Failure(WINDOW + 10));
  }

  // ----- runs that check before each failure

  predicate GuardedRedis(h: seq<Event>) {
    h != [] ==>
      && GuardedRedis(h[..|h| - 1])
      && (h[|h| - 1].Failure? ==> !RedisLocked(RedisAfter(h[..|h| - 1]), h[|h| - 1].at))
  }

  predicate GuardedMemory(h: seq<Event>) {
    h != [] ==>
      && GuardedMemory(h[..|h| - 1])
      && (h[|h| - 1].Failure? ==> !MemoryLocked(MemoryAfter(h[..|h| - 1]), h[|h| - 1].at))
  }

  // Event i is the fifth failure counted.
  predicate TripsRedis(h: seq<Event>, i: nat) {
    i < |h| && h[i].Failure? && RedisCount(RedisAfter(h[..i]), h[i].at) == MAX_FAILURES - 1
  }

  predicate TripsMemory(h: seq<Event>, i: nat) {
    i < |h| && h[i].Failure? && MemoryCount(MemoryAfter(h[..i]), h[i].at) == MAX_FAILURES - 1
  }

  predicate NotClearedSince(h: seq<Event>, i: nat) {
    forall j | i < j < |h| :: !h[j].Clear?
  }

  predicate BarsRedis(h: seq<Event>, i: nat, now: nat) {
    TripsRedis(h, i) && NotClearedSince(h, i) && now < h[i].at + WINDOW
  }

  ghost predicate RejectsRedis(h: seq<Event>, now: nat) {
    exists i: nat :: BarsRedis(h, i, now)
  }

  predicate BarsMemory(h: seq<Event>, i: nat, now: nat) {
    TripsMemory(h, i) && NotClearedSince(h, i) && now < h[i].at + WINDOW
  }

  ghost predicate RejectsMemory(h: seq<Event>, now: nat) {
    exists i: nat :: BarsMemory(h, i, now)
  }

  // In a guarded run the Redis count is at most five, five only while locked, and the counter expires with the lock.
  predicate RedisTame(r: Redis, t: nat) {
    && (r.fail.Some? ==>
          1 <= r.fail.value.count <= MAX_FAILURES
          && r.fail.value.expiresAt.Some? && r.fail.value.expiresAt.value <= t + WINDOW)
    && (r.lockUntil.Some? ==> r.lockUntil.value <= t + WINDOW)
    && (RedisCount(r, t) == MAX_FAILURES ==> r.lockUntil.Some? && r.fail.value.expiresAt.value <= r.lockUntil.value)
  }

  predicate MemoryTame(m: Option<Slot>) {
    m.Some? ==>
      && 1 <= m.value.failures <= MAX_FAILURES
      && (m.value.lockedUntil > 0 <==> m.value.failures == MAX_FAILURES)
  }

  lemma {:induction false} GuardedTame(h: seq<Event>)
    requires Ordered(h)
    ensures GuardedRedis(h) ==> RedisTame(RedisAfter(h), Last(h))
    ensures GuardedMemory(h) ==> MemoryTame(MemoryAfter(h))
  {
    if h != [] {
      OrderedPrefix(h);
      GuardedTame(h[..|h| - 1]);
    }
  }

  // The fifth counted failure rejects for exactly 15 minutes, and counting then restarts from zero.
  lemma FifthFailure(h: seq<Event>, at: nat, now: nat)
    requires Ordered(h) && Last(h) <= at <= now
    ensures GuardedRedis(h) && !RedisLocked(RedisAfter(h), at) ==>
      var r := RedisFailure(RedisAfter(h), at);
      if RedisCount(RedisAfter(h), at) == 4
      then (RedisLocked(r, now) <==> now < at + 900_000) && (now >= at + 900_000 ==> RedisCount(r, now) == 0)
      else !RedisLocked(r, now)
    ensures GuardedMemory(h) && !MemoryLocked(MemoryAfter(h), at) ==>
      var m := MemoryFailure(MemoryAfter(h), at);
      if MemoryCount(MemoryAfter(h), at) == 4
      then (MemoryLocked(m, now) <==> now < at + 900_000) && (now >= at + 900_000 ==> MemoryCount(m, now) == 0)
      else !MemoryLocked(m, now)
  {
    GuardedTame(h);
  }

  lemma BarsRedisPrefix(h: seq<Event>, i: nat, now: nat)
    requires h != []
    ensures var p, e := h[..|h| - 1], h[|h| - 1];
      BarsRedis(h, i, now) <==>
        (!e.Clear? && BarsRedis(p, i, now)) ||
        (i == |p| && e.Failure? && RedisCount(RedisAfter(p), e.at) == MAX_FAILURES - 1 && now < e.at + WINDOW)
  {
    hide RedisAfter, RedisCount;
    if i < |h| - 1 {
      assert h[..|h| - 1][..i] == h[..i];
    }
  }

  lemma RejectsRedisSnoc(h: seq<Event>, now: nat)
    requires h != []
    ensures var p, e := h[..|h| - 1], h[|h| - 1];
      RejectsRedis(h, now) <==>
        (!e.Clear? && RejectsRedis(p, now)) ||
        (e.Failure? && RedisCount(RedisAfter(p), e.at) == MAX_FAILURES - 1 && now < e.at + WINDOW)
  {
    hide RedisAfter, RedisCount, BarsRedis;
    var p, e := h[..|h| - 1], h[|h| - 1];
    BarsRedisPrefix(h, |p|, now);
    forall i: nat ensures BarsRedis(h, i, now) || BarsRedis(p, i, now) ==>
      (BarsRedis(h, i, now) <==>
         (!e.Clear? && BarsRedis(p, i, now)) ||
         (i == |p| && e.Failure? && RedisCount(RedisAfter(p), e.at) == MAX_FAILURES - 1 && now < e.at + WINDOW))
    {
      BarsRedisPrefix(h, i, now);
    }
  }

  lemma BarsMemoryPrefix(h: seq<Event>, i: nat, now: nat)
    requires h != []
    ensures var p, e := h[..|h| - 1], h[|h| - 1];
      BarsMemory(h, i, now) <==>
        (!e.Clear? && BarsMemory(p, i, now)) ||
        (i == |p| && e.Failure? && MemoryCount(MemoryAfter(p), e.at) == MAX_FAILURES - 1 && now < e.at + WINDOW)
  {
    hide MemoryAfter, MemoryCount;
    if i < |h| - 1 {
      assert h[..|h| - 1][..i] == h[..i];
    }
  }

  lemma RejectsMemorySnoc(h: seq<Event>, now: nat)
    requires h != []
    ensures var p, e := h[..|h| - 1], h[|h| - 1];
      RejectsMemory(h, now) <==>
        (!e.Clear? && RejectsMemory(p, now)) ||
        (e.Failure? && MemoryCount(MemoryAfter(p), e.at) == MAX_FAILURES - 1 && now < e.at + WINDOW)
  {
    hide MemoryAfter, MemoryCount, BarsMemory;
    var p, e := h[..|h| - 1], h[|h| - 1];
    BarsMemoryPrefix(h, |p|, now);
    forall i: nat ensures BarsMemory(h, i, now) || BarsMemory(p, i, now) ==>
      (BarsMemory(h, i, now) <==>
         (!e.Clear? && BarsMemory(p, i, now)) ||
         (i == |p| && e.Failure? && MemoryCount(MemoryAfter(p), e.at) == MAX_FAILURES - 1 && now < e.at + WINDOW))
    {
      BarsMemoryPrefix(h, i, now);
    }
  }

  lemma RejectsEarlier(h: seq<Event>, earlier: nat, now: nat)
    requires earlier <= now
    ensures RejectsRedis(h, now) ==> RejectsRedis(h, earlier)
    ensures RejectsMemory(h, now) ==> RejectsMemory(h, earlier)
  {
    hide TripsRedis, TripsMemory, NotClearedSince;
    forall i: nat
      ensures BarsRedis(h, i, now) ==> BarsRedis(h, i, earlier)
      ensures BarsMemory(h, i, now) ==> BarsMemory(h, i, earlier)
    {
    }
  }

  // A guarded run rejects at a time exactly when a fifth counted failure lies less than the window back with no
  // successful login since.
  lemma {:induction false} RedisRejectsExactly(h: seq<Event>, now: nat)
    requires Ordered(h) && GuardedRedis(h) && Last(h) <= now
    ensures RedisLocked(RedisAfter(h), now) <==> RejectsRedis(h, now)
  {
    if h != [] {
      var p, e := h[..|h| - 1], h[|h| - 1];
      OrderedPrefix(h);
      GuardedTame(p);
      RedisRejectsExactly(p, now);
      RedisRejectsExactly(p, e.at);
      RejectsRedisSnoc(h, now);
      if e.Failure? {
        FifthFailure(p, e.at, now);
        RejectsEarlier(p, e.at, now);
      }
    }
  }

  lemma {:induction false} MemoryRejectsExactly(h: seq<Event>, now: nat)
    requires Ordered(h) && GuardedMemory(h) && Last(h) <= now
    ensures MemoryLocked(MemoryAfter(h), now) <==> RejectsMemory(h, now)
  {
    if h != [] {
      var p, e := h[..|h| - 1], h[|h| - 1];
      OrderedPrefix(h);
      GuardedTame(p);
      MemoryRejectsExactly(p, now);
      MemoryRejectsExactly(p, e.at);
      RejectsMemorySnoc(h, now);
      if e.Failure? {
        FifthFailure(p, e.at, now);
        RejectsEarlier(p, e.at, now);
      }
    }
  }

  // ----- when the two forms agree

  predicate SameNow(r: Redis, m: Option<Slot>, now: nat) {
    && RedisCount(r, now) == MemoryCount(m, now)
    && (RedisLocked(r, now) <==> MemoryLocked(m, now))
    && (RedisLocked(r, now) ==> r.lockUntil.value == m.value.lockedUntil)
  }

  // The failures counted together: when the first came, how many so far, and when the last came.
  datatype Series = Series(first: nat, count: nat, last: nat)

  // The series that a history leaves open. A login ends it, and so does the fifth failure: the next one starts anew.
  function Open(h: seq<Event>): Option<Series> {
    if h == [] then None
    else
      var before := Open(h[..|h| - 1]);
      match h[|h| - 1]
      case Failure(at) => Some(Joined(before, at))
      case Clear(_) => None
      case Check(_) => before
  }

  function Joined(before: Option<Series>, at: nat): Series {
    if before.Some? && before.value.count < MAX_FAILURES then before.value.(count := before.value.count + 1, last := at)
    else Series(at, 1, at)
  }

  // Event i is a failure that comes the window or more after the first of the series it joins.
  predicate Late(h: seq<Event>, i: nat) {
    && i < |h| && h[i].Failure?
    && IsLate(Open(h[..i]), h[i].at)
  }

  predicate IsLate(before: Option<Series>, at: nat) {
    before.Some? && before.value.count < MAX_FAILURES && at >= before.value.first + WINDOW
  }

  // Event i is a failure after which the forms agree.
  predicate AgreeAt(h: seq<Event>, i: nat) {
    i < |h| && h[i].Failure? ==> SameNow(RedisAfter(h[..i + 1]), MemoryAfter(h[..i + 1]), h[i].at)
  }

  // Both forms hold what the open series says; after the fifth failure, until the lock ends.
  predicate Linked(r: Redis, m: Option<Slot>, s: Option<Series>, t: nat) {
    match s
    case None => r == Redis(None, None) && m == None
    case Some(Series(first, count, last)) =>
      && 1 <= count <= MAX_FAILURES && first <= last <= t
      && r.fail == Some(Counter(count, Some(first + WINDOW)))
      && if count < MAX_FAILURES
         then m == Some(Slot(count, 0)) && (r.lockUntil.Some? ==> r.lockUntil.value <= first)
         else
           && r.lockUntil == Some(last + WINDOW)
           && (m == Some(Slot(count, last + WINDOW)) || (m == None && last + WINDOW <= t))
  }

  lemma LinkedStep(r: Redis, m: Option<Slot>, s: Option<Series>, t: nat, e: Event)
    requires Linked(r, m, s, t) && t <= e.at
    requires e.Failure? ==> !RedisLocked(r, e.at) && !MemoryLocked(m, e.at)
    ensures e.Failure? ==>
      if IsLate(s, e.at) then !SameNow(RedisStep(r, e), MemoryStep(m, e), e.at)
      else
        && Linked(RedisStep(r, e), MemoryStep(m, e), Some(Joined(s, e.at)), e.at)
        && SameNow(RedisStep(r, e), MemoryStep(m, e), e.at)
    ensures e.Clear? ==> Linked(RedisStep(r, e), MemoryStep(m, e), None, e.at)
    ensures e.Check? ==> Linked(RedisStep(r, e), MemoryStep(m, e), s, e.at)
  {
  }

  ghost predicate NoneLate(h: seq<Event>) {
    forall i: nat :: !Late(h, i)
  }

  ghost predicate AlwaysAgree(h: seq<Event>) {
    forall i: nat :: AgreeAt(h, i)
  }

  lemma NoneLateSnoc(h: seq<Event>)
    requires h != []
    ensures var p, e := h[..|h| - 1], h[|h| - 1];
      NoneLate(h) <==> NoneLate(p) && (e.Failure? ==> !IsLate(Open(p), e.at))
  {
    hide Open, IsLate;
    var n, p := |h| - 1, h[..|h| - 1];
    forall i: nat ensures i < n ==> (Late(h, i) <==> Late(p, i)) {
      if i < n {
        assert p[..i] == h[..i];
      }
    }
    assert Late(h, n) <==> h[n].Failure? && IsLate(Open(p), h[n].at);
  }

  lemma AlwaysAgreeSnoc(h: seq<Event>)
    requires h != []
    ensures var p, e := h[..|h| - 1], h[|h| - 1];
      AlwaysAgree(h) <==> AlwaysAgree(p) && (e.Failure? ==> SameNow(RedisAfter(h), MemoryAfter(h), e.at))
  {
    hide RedisAfter, MemoryAfter, SameNow;
    var n, p := |h| - 1, h[..|h| - 1];
    assert h[..n + 1] == h;
    forall i: nat ensures i < n ==> (AgreeAt(h, i) <==> AgreeAt(p, i)) {
      if i < n {
        assert p[..i + 1] == h[..i + 1];
      }
    }
    assert AgreeAt(h, n) <==> (h[n].Failure? ==> SameNow(RedisAfter(h), MemoryAfter(h), h[n].at));
  }

  lemma {:induction false} LinkedWhileNoneLate(h: seq<Event>)
    requires Ordered(h) && GuardedRedis(h) && GuardedMemory(h) && NoneLate(h)
    ensures Linked(RedisAfter(h), MemoryAfter(h), Open(h), Last(h))
  {
    hide Linked, NoneLate, RedisStep, MemoryStep, Joined, IsLate;
    if h == [] {
      LinkedStart();
    } else {
      var p, e := h[..|h| - 1], h[|h| - 1];
      OrderedPrefix(h);
      NoneLateSnoc(h);
      LinkedWhileNoneLate(p);
      LinkedStep(RedisAfter(p), MemoryAfter(p), Open(p), Last(p), e);
    }
  }

  lemma LinkedStart()
    ensures Linked(Redis(None, None), None, None, 0)
  {
  }

  // In a run guarded in both forms, the forms agree after every failure exactly when no failure comes the window or
  // more after the first of its series.
  lemma {:induction false} AgreeUnlessLate(h: seq<Event>)
    requires Ordered(h) && GuardedRedis(h) && GuardedMemory(h)
    ensures AlwaysAgree(h) <==> NoneLate(h)
  {
    hide Linked, RedisStep, MemoryStep, NoneLate, AlwaysAgree, SameNow, IsLate;
    if h == [] {
      NothingYet();
    } else {
      var p, e := h[..|h| - 1], h[|h| - 1];
      OrderedPrefix(h);
      AgreeUnlessLate(p);
      NoneLateSnoc(h);
      AlwaysAgreeSnoc(h);
      if NoneLate(p) {
        LinkedWhileNoneLate(p);
        LinkedStep(RedisAfter(p), MemoryAfter(p), Open(p), Last(p), e);
      }
    }
  }

  lemma NothingYet()
    ensures NoneLate([]) && AlwaysAgree([])
  {
  }

  // In such a run without late failures both forms decide alike at every time from the last event on.
  lemma DecideAlikeUnlessLate(h: seq<Event>, now: nat)
    requires Ordered(h) && GuardedRedis(h) && GuardedMemory(h) && NoneLate(h) && Last(h) <= now
    ensures RedisLocked(RedisAfter(h), now) <==> MemoryLocked(MemoryAfter(h), now)
  {
    LinkedWhileNoneLate(h);
  }

  // ----- keys

  function Key(scope: string, normalized: string): string {
    scope + ":" + normalized
  }

  // Scopes have no colon, so logins of different scopes never share a key.
  lemma KeyInjective(s: string, a: string, t: string, b: string)
    requires ':' !in s && ':' !in t
    ensures Key(s, a) == Key(t, b) <==> s == t && a == b
  {
    if Key(s, a) == Key(t, b) {
      var k := Key(s, a);
      assert k[|s|] == ':' && k[|t|] == ':';
      assert (forall i | 0 <= i < |s| :: k[i] == s[i]) && (forall i | 0 <= i < |t| :: k[i] == t[i]);
      assert |s| == |t|;
      assert s == Key(s, a)[..|s|] && t == Key(t, b)[..|t|];
      assert a == Key(s, a)[|s| + 1..] && b == Key(t, b)[|t| + 1..];
    }
  }

  // ----- the service

  // Redis either has no client or answers the first `commands` commands of a call and then fails.
  datatype Link = NoClient | Client(commands: nat)

  class Lockout {
    var fails: map<string, Counter>
    var locks: map<string, nat>
    var memory: map<string, Slot>

    ghost function InRedis(key: string): Redis
      reads this
    {
      Redis(if key in fails then Some(fails[key]) else None, if key in locks then Some(locks[key]) else None)
    }

    ghost function InMemory(key: string): Option<Slot>
      reads this
    {
      if key in memory then Some(memory[key]) else None
    }

    // The commands of one failure; `ok` is false when Redis failed part way, leaving what it had done.
    method SendFailure(key: string, now: nat, commands: nat) returns (ok: bool)
      modifies `fails, `locks
      ensures forall other | other != key :: InRedis(other) == old(InRedis(other))
      ensures InRedis(key) == Sent(old(InRedis(key)), now, commands)
      ensures ok <==> commands >= Needed(old(InRedis(key)), now)
    {
      if commands == 0 {
        return false;
      }
      var live :=
        key in fails && (fails[key].expiresAt.None? || now < fails[key].expiresAt.value) && fails[key].count > 0;
      fails := fails[key := if live then fails[key].(count := fails[key].count + 1) else Counter(1, None)];
      var failures, sent := fails[key].count, 1;
      if failures == 1 {
        if commands == sent {
          return false;
        }
        fails := fails[key := fails[key].(expiresAt := Some(now + WINDOW))];
        sent := sent + 1;
      }
      if failures >= MAX_FAILURES {
        if commands == sent {
          return false;
        }
        locks := locks[key := now + WINDOW];
      }
      ok := true;
    }

    method RecordFailure(scope: string, normalized: string, now: nat, link: Link)
      modifies this
      ensures forall other | other != Key(scope, normalized) ::
        InRedis(other) == old(InRedis(other)) && InMemory(other) == old(InMemory(other))
      ensures var key := Key(scope, normalized);
        var counted := link.Client? && link.commands >= Needed(old(InRedis(key)), now);
        if normalized == "" then InRedis(key) == old(InRedis(key)) && InMemory(key) == old(InMemory(key))
        else
          && InRedis(key) == Sent(old(InRedis(key)), now, if link.Client? then link.commands else 0)
          && InMemory(key) == (if counted then old(InMemory(key)) else MemoryFailure(old(InMemory(key)), now))
    {
      var key := Key(scope, normalized);
      if normalized == "" {
        return;
      }
      if link.Client? {
        var ok := SendFailure(key, now, link.commands);
        if ok {
          return;
        }
      }
      var slot := if key in memory && (memory[key].lockedUntil == 0 || memory[key].lockedUntil > now) then memory[key]
                  else Slot(0, 0);
      var failures := slot.failures + 1;
      memory := memory[key := Slot(failures, if failures >= MAX_FAILURES then now + WINDOW else 0)];
    }

    method ClearLogin(scope: string, normalized: string, link: Link)
      modifies this
      ensures forall other | other != Key(scope, normalized) ::
        InRedis(other) == old(InRedis(other)) && InMemory(other) == old(InMemory(other))
      ensures var key := Key(scope, normalized);
        && InMemory(key) == (if normalized == "" then old(InMemory(key)) else None)
        && InRedis(key) ==
           if normalized != "" && link.Client? && link.commands > 0 then Redis(None, None) else old(InRedis(key))
    {
      var key := Key(scope, normalized);
      if normalized == "" {
        return;
      }
      memory := memory - {key};
      if link.Client? && link.commands > 0 {
        fails := fails - {key};
        locks := locks - {key};
      }
    }

    method IsLocked(scope: string, normalized: string, now: nat, link: Link) returns (locked: bool)
      modifies `memory
      ensures forall other | other != Key(scope, normalized) :: InMemory(other) == old(InMemory(other))
      ensures var key := Key(scope, normalized);
        if normalized == "" then !locked && InMemory(key) == old(InMemory(key))
        else if link.Client? && link.commands > 0 then
          (locked <==> RedisLocked(InRedis(key), now)) && InMemory(key) == old(InMemory(key))
        else
          (locked <==> MemoryLocked(old(InMemory(key)), now)) && InMemory(key) == MemoryCheck(old(InMemory(key)), now)
    {
      var key := Key(scope, normalized);
      if normalized == "" {
        return false;
      }
      if link.Client? && link.commands > 0 {
        return key in locks && now < locks[key];
      }
      if key !in memory {
        return false;
      }
      if memory[key].lockedUntil > now {
        return true;
      }
      if memory[key].lockedUntil != 0 {
        memory := memory - {key};
      }
      locked := false;
    }
  }
}
