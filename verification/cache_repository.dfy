/** The cache gateway (`RedisCacheRepository`): Redis reduced to a map from key to
    payload and expiry time, the wall clock given as a parameter, and the daily
    flush whose next target time is a small calendar rule. */
module CacheRepository {
  import opened Common
  import opened Calendar
  import opened JsonDates

  /** `set_cached_data`'s default lifetime, in seconds. */
  const DEFAULT_TTL := 60
  /** `schedule_daily_flush`'s default time of day. */
  const DEFAULT_FLUSH_HOUR := 14
  const DEFAULT_FLUSH_MINUTE := 11

  /** A stored value and the second from which Redis no longer returns it. */
  datatype Entry = Entry(payload: string, expiresAt: int)

  type Store = map<string, Entry>

  // ---------------------------------------------------------------------------
  // Reading the store

  /** `GET key` at second `now`: the payload while it has not expired. */
  function Lookup(store: Store, key: string, now: int): Option<string>
  {
    if key in store && now < store[key].expiresAt then Some(store[key].payload) else None
  }

  /** `SETEX key ttl payload` then `GET`: the payload is returned until its lifetime
      is over, and every other key reads as before. */
  lemma LookupAfterSet(store: Store, key: string, payload: string, ttl: int, now: int, later: int, other: string)
    requires ttl > 0 && now <= later
    ensures Lookup(store[key := Entry(payload, now + ttl)], key, later) ==
      if later < now + ttl then Some(payload) else None
    ensures other != key ==>
      Lookup(store[key := Entry(payload, now + ttl)], other, later) == Lookup(store, other, later)
  {
  }

  /** `get_cached_data`: `None` for a missing or empty value, otherwise the decoded
      JSON list. A payload that is not a JSON array of strings raises ValueError. */
  function CachedList(store: Store, key: string, now: int): (r: Result<Option<seq<string>>>)
    ensures r == Ok(None) <==> Lookup(store, key, now) in {None, Some("")}
    ensures r.Ok? && r.value.Some? ==> DecodeStrings(Lookup(store, key, now).value) == r.value
    ensures r.Err? ==> r.error == ValueError && DecodeStrings(Lookup(store, key, now).value).None?
  {
    match Lookup(store, key, now)
    case None => Ok(None)
    case Some(data) =>
      if data == "" then Ok(None)
      else match DecodeStrings(data)
        case None => Err(ValueError)
        case Some(xs) => Ok(Some(xs))
  }

  /** A list written with `set_cached_data(json.dumps(xs), key, ttl)` reads back as
      `xs` until its lifetime is over, and as a miss from then on. */
  lemma CachedListAfterSet(store: Store, key: string, xs: seq<string>, ttl: int, now: int, later: int)
    requires AllPlain(xs) && ttl > 0 && now <= later
    ensures later < now + ttl ==>
      CachedList(store[key := Entry(EncodeStrings(xs), now + ttl)], key, later) == Ok(Some(xs))
    ensures later >= now + ttl ==>
      CachedList(store[key := Entry(EncodeStrings(xs), now + ttl)], key, later) == Ok(None)
  {
    StringsRoundTrip(xs);
  }

  /** Writing one key changes what every other key reads as nothing. */
  lemma CachedListOtherKey(store: Store, key: string, e: Entry, other: string, now: int)
    requires other != key
    ensures CachedList(store[key := e], other, now) == CachedList(store, other, now)
  {
    assert Lookup(store[key := e], other, now) == Lookup(store, other, now);
  }

  // ---------------------------------------------------------------------------
  // The gateway object

  /** One round of the flush loop started at `now` waits `wait` microseconds: up
      to the next target, which is at most one day away. */
  predicate FlushRound(now: DateTime, hour: int, minute: int, wait: int)
  {
    && NextFlushTargetFixed(now, hour, minute).Ok?
    && wait == Timestamp(NextFlushTargetFixed(now, hour, minute).value) - Timestamp(now)
    && 0 < wait <= MICROS_PER_DAY
  }

  class RedisCache {
    /** The Redis database the gateway talks to. */
    var store: Store

    constructor (initial: Store)
      ensures store == initial
    {
      store := initial;
    }

    /** `flush_all`: `FLUSHDB` leaves no key behind. */
    method FlushAll()
      modifies this
      ensures store == map[]
      ensures forall key, now :: CachedList(store, key, now) == Ok(None)
    {
      store := map[];
    }

    /** `get_cached_data(key)` at second `now`. */
    method GetCachedData(key: string, now: int) returns (r: Result<Option<seq<string>>>)
      ensures r == CachedList(store, key, now)
    {
      var cached := Lookup(store, key, now);
      if cached.None? || cached.value == "" {
        return Ok(None);
      }
      var dates := DecodeStrings(cached.value);
      if dates.None? {
        return Err(ValueError);
      }
      r := Ok(Some(dates.value));
    }

    /** `set_cached_data(data, key, ttl)` at second `now`: `SETEX` stores the payload
        under the key with the given lifetime and leaves every other key alone.
        Redis refuses a lifetime that is not positive, and then nothing changes. */
    method SetCachedData(data: string, key: string, ttl: int, now: int) returns (ok: bool)
      modifies this
      ensures ok <==> ttl > 0
      ensures ok ==> store == old(store)[key := Entry(data, now + ttl)]
      ensures !ok ==> store == old(store)
    {
      ok := ttl > 0;
      if ok {
        store := store[key := Entry(data, now + ttl)];
      }
    }

    /** `schedule_daily_flush(hour, minute)` for as many rounds as there are clock
        readings: each round reads the clock, waits until the next target and
        flushes. The target is formed by the corrected rule, which rolls over a
        month's last day; a round whose target cannot be formed raises, which
        ends the loop. */
    method ScheduleDailyFlush(clock: seq<DateTime>, hour: int, minute: int)
      returns (waits: seq<int>, failed: bool)
      modifies this
      ensures |waits| <= |clock|
      ensures forall k :: 0 <= k < |waits| ==> FlushRound(clock[k], hour, minute, waits[k])
      ensures failed <==> |waits| < |clock|
      ensures failed ==> NextFlushTargetFixed(clock[|waits|], hour, minute).Err?
      ensures store == if waits == [] then old(store) else map[]
    {
      waits := [];
      failed := false;
      var i := 0;
      while i < |clock|
        invariant 0 <= i <= |clock| && |waits| == i
        invariant forall k :: 0 <= k < i ==> FlushRound(clock[k], hour, minute, waits[k])
        invariant store == if i == 0 then old(store) else map[]
      {
        var now := clock[i];
        var target := NextFlushTargetFixed(now, hour, minute);
        if target.Err? {
          failed := true;
          return;
        }
        var waitMicros := Timestamp(target.value) - Timestamp(now);
        waits := waits + [waitMicros];
        FlushAll();
        i := i + 1;
      }
    }
  }

  // ---------------------------------------------------------------------------
  // The next flush time

  /** `hour:minute:00.000000` as microseconds since midnight. */
  function ClockTime(hour: int, minute: int): int
  {
    (hour * 60 + minute) * 60 * MICROS_PER_SECOND
  }

  /** `now.replace(hour=hour, minute=minute, second=0, microsecond=0)`; an hour or a
      minute out of range raises ValueError. */
  function SameDayTarget(now: DateTime, hour: int, minute: int): (r: Result<DateTime>)
    ensures r.Ok? <==> 0 <= hour < 24 && 0 <= minute < 60
    ensures r.Ok? ==> r.value.date == now.date && TimeOfDay(r.value) == ClockTime(hour, minute)
  {
    if 0 <= hour < 24 && 0 <= minute < 60 then Ok(Moment(now.date, hour, minute, 0, 0))
    else Err(ValueError)
  }

  /** The target computed in one round of `schedule_daily_flush`, as written: today
      at `hour:minute` when that is still ahead, otherwise the same time with the
      day number raised by one within the same month, which raises ValueError on a
      month's last day. */
  function NextFlushTarget(now: DateTime, hour: int, minute: int): (r: Result<DateTime>)
    ensures r.Err? <==>
      !(0 <= hour < 24 && 0 <= minute < 60)
      || (ClockTime(hour, minute) <= TimeOfDay(now) && now.date.day == DaysInMonth(now.date.year, now.date.month))
    ensures r.Ok? ==> r.value.hour == hour && r.value.minute == minute && r.value.second == 0 && r.value.microsecond == 0
    ensures r.Ok? ==> 0 < Timestamp(r.value) - Timestamp(now) <= MICROS_PER_DAY
    ensures r.Ok? ==> (r.value.date == now.date <==> TimeOfDay(now) < ClockTime(hour, minute))
  {
    match SameDayTarget(now, hour, minute)
    case Err(e) => Err(e)
    case Ok(target) =>
      if Timestamp(now) >= Timestamp(target) then
        var d := target.date;
        var next := CalendarDate(d.year, d.month, d.day + 1);
        if ValidDate(next) then
          assert Ordinal(next) == Ordinal(d) + 1;
          Ok(Moment(next, hour, minute, 0, 0))
        else Err(ValueError)
      else Ok(target)
  }

  /** The evidently intended rule: the next day by the calendar, so that a month's
      (or a year's) last day rolls over. It fails only on a bad hour or minute and
      past the calendar's last day, 9999-12-31, where Python raises OverflowError. */
  function NextFlushTargetFixed(now: DateTime, hour: int, minute: int): (r: Result<DateTime>)
    ensures r.Err? <==>
      !(0 <= hour < 24 && 0 <= minute < 60)
      || (ClockTime(hour, minute) <= TimeOfDay(now) && now.date == CalendarDate(MAX_YEAR, 12, 31))
    ensures r.Ok? ==> r.value.hour == hour && r.value.minute == minute && r.value.second == 0 && r.value.microsecond == 0
    ensures r.Ok? ==> 0 < Timestamp(r.value) - Timestamp(now) <= MICROS_PER_DAY
    ensures r.Ok? ==> (r.value.date == now.date <==> TimeOfDay(now) < ClockTime(hour, minute))
  {
    match SameDayTarget(now, hour, minute)
    case Err(e) => Err(e)
    case Ok(target) =>
      if Timestamp(now) >= Timestamp(target) then
        match NextDay(target.date)
        case None => Err(OverflowError)
        case Some(next) => Ok(Moment(next, hour, minute, 0, 0))
      else Ok(target)
  }

  /** Where the rule as written succeeds, the corrected rule picks the same target. */
  lemma FixedAgreesWhereWrittenWorks(now: DateTime, hour: int, minute: int)
    requires NextFlushTarget(now, hour, minute).Ok?
    ensures NextFlushTargetFixed(now, hour, minute) == NextFlushTarget(now, hour, minute)
  {
  }

  /** The rule as written fails at 15:00 on 31 January 2024 with the default 14:11,
      where the corrected rule gives 1 February 2024 at 14:11. */
  lemma MonthEndFlushFails()
    ensures var now: DateTime := Moment(CalendarDate(2024, 1, 31), 15, 0, 0, 0);
      && NextFlushTarget(now, DEFAULT_FLUSH_HOUR, DEFAULT_FLUSH_MINUTE) == Err(ValueError)
      && NextFlushTargetFixed(now, DEFAULT_FLUSH_HOUR, DEFAULT_FLUSH_MINUTE)
         == Ok(Moment(CalendarDate(2024, 2, 1), DEFAULT_FLUSH_HOUR, DEFAULT_FLUSH_MINUTE, 0, 0))
  {
  }
}
