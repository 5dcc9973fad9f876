/**
 src/common/auth/login-lockout.service.ts: runs on Redis in which each call gets some of its commands through before
 Redis fails. A failure sends INCR, then EXPIRE when it is the first of its series, then SET of the lock from the fifth
 on; what was done before a break stays.
 */
module LockoutCommands {
  import opened Prelude
  import opened LoginLockout

  // A call, and how many of its commands Redis carries out.
  datatype Call = Call(event: Event, commands: nat)

  function CallStep(r: Redis, c: Call): Redis {
    match c.event
    case Failure(at) => Sent(r, at, c.commands)
    case Clear(_) => if c.commands > 0 then Redis(None, None) else r
    case Check(_) => r
  }

  function After(h: seq<Call>): Redis {
    if h == [] then Redis(None, None) else CallStep(After(h[..|h| - 1]), h[|h| - 1])
  }

  function Events(h: seq<Call>): seq<Event> {
    if h == [] then [] else Events(h[..|h| - 1]) + [h[|h| - 1].event]
  }

  // When all commands go through, these are the runs of the two forms.
  lemma {:induction false} WholeCalls(h: seq<Call>)
    requires forall c | c in h :: c.commands >= 2
    ensures After(h) == RedisAfter(Events(h))
  {
    hide RedisFailure, Increment;
    if h != [] {
      var front, c := h[..|h| - 1], h[|h| - 1];
      WholeCalls(front);
      AfterSnoc(Events(front), c.event);
    }
  }

  // ----- series of failures, stated over the calls alone

  // The failures counted together: when the first came, how many so far, and whether its EXPIRE went through.
  datatype Tally = Tally(first: nat, count: nat, expires: bool)

  predicate Live(s: Option<Tally>, now: nat) {
    s.Some? && (s.value.expires ==> now < s.value.first + WINDOW)
  }

  function Counting(h: seq<Call>): Option<Tally> {
    if h == [] then None
    else
      var before, c := Counting(h[..|h| - 1]), h[|h| - 1];
      if c.commands == 0 then before
      else
        match c.event
        case Failure(at) =>
          Some(if Live(before, at) then before.value.(count := before.value.count + 1)
               else Tally(at, 1, c.commands >= 2))
        case Clear(_) => None
        case Check(_) => before
  }

  predicate Counts(r: Redis, s: Option<Tally>) {
    match s
    case None => r.fail.None?
    case Some(Tally(first, count, expires)) =>
      count >= 1 && r.fail == Some(Counter(count, if expires then Some(first + WINDOW) else None))
  }

  lemma CountsStep(r: Redis, s: Option<Tally>, at: nat, commands: nat)
    requires Counts(r, s) && commands > 0
    ensures Counts(Sent(r, at, commands),
                   Some(if Live(s, at) then s.value.(count := s.value.count + 1) else Tally(at, 1, commands >= 2)))
  {
  }

  lemma {:induction false} CountsAlways(h: seq<Call>)
    ensures Counts(After(h), Counting(h))
  {
    hide Sent, Live;
    if h != [] {
      var front, c := h[..|h| - 1], h[|h| - 1];
      CountsAlways(front);
      if c.event.Failure? {
        if c.commands > 0 {
          CountsStep(After(front), Counting(front), c.event.at, c.commands);
        } else {
          NothingSent(After(front), c.event.at);
        }
      }
    }
  }

  lemma NothingSent(r: Redis, at: nat)
    ensures Sent(r, at, 0) == r
  {
  }

  // At any time Redis counts the failures of the open series, until the window after its first one has passed if the
  // EXPIRE of that one went through, and for ever if it did not.
  lemma CountIsTally(h: seq<Call>, now: nat)
    ensures RedisCount(After(h), now) == if Live(Counting(h), now) then Counting(h).value.count else 0
  {
    CountsAlways(h);
  }

  // ----- when a login is rejected

  predicate InOrder(h: seq<Call>) {
    forall i, j | 0 <= i < j < |h| :: h[i].event.at <= h[j].event.at
  }

  // Call i is a failure that is counted as the fifth or a later one and gets its lock through.
  predicate Locks(h: seq<Call>, i: nat) {
    && i < |h| && h[i].event.Failure? && h[i].commands >= 2
    && Live(Counting(h[..i]), h[i].event.at) && Counting(h[..i]).value.count >= MAX_FAILURES - 1
  }

  predicate ClearedAt(c: Call) {
    c.event.Clear? && c.commands > 0
  }

  predicate Bars(h: seq<Call>, i: nat, now: nat) {
    Locks(h, i) && (forall j | i < j < |h| :: !ClearedAt(h[j])) && now < h[i].event.at + WINDOW
  }

  lemma BarsSnoc(h: seq<Call>, i: nat, now: nat)
    requires h != []
    ensures var front, c := h[..|h| - 1], h[|h| - 1];
      Bars(h, i, now) <==>
        (!ClearedAt(c) && Bars(front, i, now)) || (i == |front| && Locks(h, i) && now < c.event.at + WINDOW)
  {
    hide Counting, Live;
    if i < |h| - 1 {
      assert h[..|h| - 1][..i] == h[..i];
    }
  }

  lemma LastLocks(h: seq<Call>)
    requires h != []
    ensures var r, c := After(h[..|h| - 1]), h[|h| - 1];
      && (Locks(h, |h| - 1) ==> !ClearedAt(c) && After(h).lockUntil == Some(c.event.at + WINDOW))
      && (!Locks(h, |h| - 1) ==> After(h).lockUntil == if ClearedAt(c) then None else r.lockUntil)
  {
    CountsAlways(h[..|h| - 1]);
  }

  // Over all runs, whatever breaks and whoever checks: a login is rejected exactly while some failure that got its lock
  // through is less than the window back with no successful login since.
  lemma {:induction false} RejectsExactly(h: seq<Call>, now: nat)
    requires InOrder(h) && forall c | c in h :: c.event.at <= now
    ensures RedisLocked(After(h), now) <==> exists i: nat :: Bars(h, i, now)
  {
    hide CallStep, Locks, Bars;
    if h == [] {
      NoneBars(now);
    } else {
      var front, c := h[..|h| - 1], h[|h| - 1];
      RejectsExactly(front, now);
      LastLocks(h);
      forall i: nat {
        BarsSnoc(h, i, now);
      }
      forall i: nat ensures Bars(front, i, now) ==> i < |front| && now < c.event.at + WINDOW {
        BarsWithin(h, i, now);
      }
      if Locks(h, |front|) && now < c.event.at + WINDOW {
        assert Bars(h, |front|, now);
      }
      if i: nat :| Bars(front, i, now) {
        assert ClearedAt(c) || Bars(h, i, now);
      }
    }
  }

  lemma NoneBars(now: nat)
    ensures forall i: nat :: !Bars([], i, now)
  {
  }

  lemma BarsWithin(h: seq<Call>, i: nat, now: nat)
    requires h != [] && InOrder(h)
    ensures Bars(h[..|h| - 1], i, now) ==> i < |h| - 1 && now < h[|h| - 1].event.at + WINDOW
  {
    hide Counting, Live;
  }

  // ----- what comes after a lock

  // Once the lock that the last call set has run out, counting starts again from zero exactly if the EXPIRE of the
  // series' first failure went through; otherwise the next failure locks at once.
  lemma RestartsExactly(h: seq<Call>, now: nat)
    requires InOrder(h) && h != [] && Locks(h, |h| - 1) && now >= h[|h| - 1].event.at + WINDOW
    ensures !RedisLocked(After(h), now)
    ensures RedisCount(After(h), now) == 0 <==> Counting(h).value.expires
    ensures RedisLocked(Sent(After(h), now, 2), now) <==> !Counting(h).value.expires
  {
    LastLocks(h);
    CountsAlways(h);
    FirstBefore(h);
    FailedFromZero(After(h), now);
  }

  lemma {:induction false} FirstBefore(h: seq<Call>)
    requires InOrder(h) && Counting(h).Some?
    ensures h != [] && Counting(h).value.first <= h[|h| - 1].event.at && Counting(h).value.count >= 1
  {
    var front, c := h[..|h| - 1], h[|h| - 1];
    if Counting(front).Some? {
      FirstBefore(front);
    }
  }

  lemma FailedFromZero(r: Redis, now: nat)
    requires !RedisLocked(r, now)
    ensures RedisLocked(Sent(r, now, 2), now) <==> RedisCount(r, now) + 1 >= MAX_FAILURES
  {
  }

  // INCR of the first failure alone, then four whole failures: the next one locks at any later time.
  function LostExpire(): seq<Call> {
    [Call(Failure(1), 1), Call(Failure(2), 2), Call(Failure(3), 2), Call(Failure(4), 2), Call(Failure(5), 2)]
  }

  lemma LostExpireLocks(now: nat)
    requires now >= 5 + WINDOW
    ensures RedisCount(After(LostExpire()), now) == 5
    ensures !RedisLocked(After(LostExpire()), now) && RedisLocked(Sent(After(LostExpire()), now, 2), now)
  {
    var h := LostExpire();
    assert h[..4][..3] == h[..3] && h[..3][..2] == h[..2] && h[..2][..1] == h[..1] && h[..1][..0] == [];
    assert Counting(h[..1]) == Some(Tally(1, 1, false));
    assert Counting(h[..2]) == Some(Tally(1, 2, false));
    assert Counting(h[..3]) == Some(Tally(1, 3, false));
    assert Counting(h[..4]) == Some(Tally(1, 4, false));
    RestartsExactly(h, now);
    CountIsTally(h, now);
  }
}
