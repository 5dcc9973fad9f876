/**
 The report days of prisma/sync-perf-order-rollups.ts and src/modules/reporting/report-timezone.util.ts: the day of an
 instant in the reporting time zone, the days an order is reported on, and the texts that stand for days in keys.
 Instants are minutes since the epoch.
 */
module ReportDays {
  import opened Prelude
  import RollupRows

  const MINUTES_PER_DAY := 1440

  function CalendarDay(instant: int, offset: int -> int): int {
    (instant + offset(instant)) / MINUTES_PER_DAY
  }

  function UtcDay(instant: int): int {
    instant / MINUTES_PER_DAY
  }

  function Midnight(day: int): int {
    day * MINUTES_PER_DAY
  }

  // The reporting time zone: its offset at an instant, and the rendering of a calendar day as the text used in keys.
  datatype Zone = Zone(offset: int -> int, render: int -> string)

  // A report day, as the UTC midnight of its date.
  datatype Target = Target(day: int, basis: string)

  // The zone's day of the payment, or else of the order's making, and the UTC day of the event's start.
  function ReportTargets(tz: Zone, paidAt: Option<int>, createdAt: int, eventStart: Option<int>): (ts: seq<Target>)
    ensures |ts| == (if eventStart.Some? then 2 else 1) && ts[0].basis == "trx"
    ensures var at := if paidAt.Some? then paidAt.value else createdAt;
      1440 * ts[0].day <= at + tz.offset(at) < 1440 * (ts[0].day + 1)
    ensures eventStart.Some? ==>
      ts[1].basis == "event" && 1440 * ts[1].day <= eventStart.value < 1440 * (ts[1].day + 1)
  {
    var at := if paidAt.Some? then paidAt.value else createdAt;
    var trx := Target(CalendarDay(at, tz.offset), "trx");
    if eventStart.Some? then [trx, Target(UtcDay(eventStart.value), "event")] else [trx]
  }

  // A report day is a UTC midnight already; keys map it through the reporting time zone once more.
  function Stored(day: int, offset: int -> int): int {
    CalendarDay(Midnight(day), offset)
  }

  function DayText(day: int, tz: Zone): string {
    tz.render(Stored(day, tz.offset))
  }

  predicate NearUtc(day: int, offset: int -> int) {
    -MINUTES_PER_DAY < offset(Midnight(day)) < MINUTES_PER_DAY
  }

  // The second normalisation is harmless exactly where the zone is not west of Greenwich at the day's UTC midnight;
  // otherwise the stored day is the day before.
  lemma StoredDay(day: int, offset: int -> int)
    requires NearUtc(day, offset)
    ensures Stored(day, offset) == if offset(1440 * day) < 0 then day - 1 else day
  {
    assert Midnight(day) == 1440 * day;
    assert Stored(day, offset) == day + offset(Midnight(day)) / MINUTES_PER_DAY;
  }

  // The zone goes west of Greenwich between the midnights of this day and the next.
  predicate GoesWest(day: int, offset: int -> int) {
    offset(Midnight(day + 1)) < 0 <= offset(Midnight(day))
  }

  // Two days are stored as one exactly when they follow each other and the zone goes west in between.
  lemma StoredTogether(a: int, b: int, offset: int -> int)
    requires a < b && NearUtc(a, offset) && NearUtc(b, offset)
    ensures Stored(a, offset) == Stored(b, offset) <==> b == a + 1 && GoesWest(a, offset)
  {
    StoredDay(a, offset);
    StoredDay(b, offset);
  }

  // A zone on Greenwich time in summer and an hour behind it in winter, at the end of summer.
  lemma LastSummerDay(day: int)
    ensures var offset := (t: int) => if t < Midnight(day) + 60 then 0 else -60;
      Stored(day, offset) == Stored(day + 1, offset) == day
  {
    var offset := (t: int) => if t < Midnight(day) + 60 then 0 else -60;
    StoredTogether(day, day + 1, offset);
    StoredDay(day, offset);
  }

  ghost predicate PlainDays(tz: Zone) {
    forall day :: RollupRows.Plain(tz.render(day))
  }

  // Days have different texts without a separator, and the zone is never a day or more from UTC.
  ghost predicate Proper(tz: Zone) {
    && PlainDays(tz)
    && (forall a, b :: tz.render(a) == tz.render(b) ==> a == b)
    && (forall day :: NearUtc(day, tz.offset))
  }

  ghost predicate TellsDays(tz: Zone) {
    forall a, b :: DayText(a, tz) == DayText(b, tz) ==> a == b
  }

  lemma TellsDaysUnlessWest(tz: Zone)
    requires Proper(tz)
    ensures TellsDays(tz) <==> forall day :: !GoesWest(day, tz.offset)
  {
    hide Stored, GoesWest;
    if TellsDays(tz) {
      forall day ensures !GoesWest(day, tz.offset) {
        StoredTogether(day, day + 1, tz.offset);
        assert DayText(day, tz) != DayText(day + 1, tz);
      }
    }
    if forall day :: !GoesWest(day, tz.offset) {
      forall a, b | DayText(a, tz) == DayText(b, tz) ensures a == b {
        if a != b {
          StoredTogether(Min(a, b), Max(a, b), tz.offset);
        }
      }
    }
  }
}
