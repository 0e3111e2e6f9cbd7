/** The time preset helper behind the "5s", "10 PM" and "2 AM" buttons (set_scheduled_time).
    Time is counted in whole seconds; a day starts at a multiple of 86400. */
module Presets {
  import opened Options

  const SecondsPerHour: int := 3600
  const SecondsPerDay: int := 86400

  /** The ValueError messages the helper raises. */
  datatype PresetError =
    | UnsupportedUnit(unit: string)          // "Unsupported unit: {unit}"
    | HourOutOfRange                         // "Hour must be between 0 and 23"
    | UnsupportedTimeType(timeType: string)  // "Unsupported time type: {time_type}"

  /** Midnight at the start of the day that contains `now`. */
  function Midnight(now: int): (m: int)
    ensures m <= now < m + SecondsPerDay
    ensures m % SecondsPerDay == 0
  {
    now - now % SecondsPerDay
  }

  /** True when `t` is exactly `hour`:00:00 on some day. */
  predicate AtHour(t: int, hour: int) {
    t % SecondsPerDay == hour * SecondsPerHour
  }

  /** The absolute preset for an hour already checked to be in [0, 23]: today at that hour
      when that is later than `now`, otherwise the same hour tomorrow. */
  function NextAtHour(hour: int, now: int): (t: int)
    requires 0 <= hour <= 23
    ensures now < t <= now + SecondsPerDay
    ensures AtHour(t, hour)
  {
    var today := Midnight(now) + hour * SecondsPerHour;
    if today <= now then today + SecondsPerDay else today
  }

  /** The time the helper writes into the date-time field, or the error it raises. */
  function PresetTime(timeType: string, value: int, unit: string, now: int): (r: Result<int, PresetError>)
    ensures timeType == "relative" && unit == "seconds" ==> r == Ok(now + value)
    ensures timeType == "relative" && unit == "hours" ==> r == Ok(now + value * SecondsPerHour)
    ensures timeType == "relative" && unit != "seconds" && unit != "hours" ==> r == Err(UnsupportedUnit(unit))
    ensures timeType == "absolute" && !(0 <= value <= 23) ==> r == Err(HourOutOfRange)
    ensures timeType == "absolute" && 0 <= value <= 23 ==>
              r.Ok? && now < r.value <= now + SecondsPerDay && AtHour(r.value, value)
    ensures timeType != "relative" && timeType != "absolute" ==> r == Err(UnsupportedTimeType(timeType))
  {
    if timeType == "relative" then
      if unit == "seconds" then Ok(now + value)
      else if unit == "hours" then Ok(now + value * SecondsPerHour)
      else Err(UnsupportedUnit(unit))
    else if timeType == "absolute" then
      if value < 0 || value > 23 then Err(HourOutOfRange)
      else Ok(NextAtHour(value, now))
    else Err(UnsupportedTimeType(timeType))
  }

  /** Writing `t` as day * 86400 + seconds into the day determines both parts. */
  lemma {:induction false} DaySplitUnique(t: int, day: int, secs: int)
    requires 0 <= secs < SecondsPerDay
    requires t == day * SecondsPerDay + secs
    ensures t / SecondsPerDay == day && t % SecondsPerDay == secs
  {
    var q, r := t / SecondsPerDay, t % SecondsPerDay;
    assert t == q * SecondsPerDay + r;
    assert (q - day) * SecondsPerDay == secs - r;
  }

  /** The absolute preset is the EARLIEST moment after `now` that falls on the requested hour. */
  lemma {:induction false} AbsolutePresetIsNextOccurrence(value: int, now: int, t: int)
    requires 0 <= value <= 23
    requires now < t && AtHour(t, value)
    ensures PresetTime("absolute", value, "seconds", now).Ok?
    ensures PresetTime("absolute", value, "seconds", now).value <= t
  {
    var r := NextAtHour(value, now);
    var h := value * SecondsPerHour;
    var d := now / SecondsPerDay;
    DaySplitUnique(now, d, now % SecondsPerDay);
    DaySplitUnique(t, t / SecondsPerDay, h);
    assert t / SecondsPerDay >= d;
    if t / SecondsPerDay == d {
      assert t == Midnight(now) + h;
    } else {
      assert t >= (d + 1) * SecondsPerDay + h;
    }
  }

  /** The absolute preset lands on the same day as `now` exactly when the hour has not yet
      begun (hour 22 at 10:00 gives 22:00 today, hour 2 at 10:00 gives 02:00 tomorrow). */
  lemma {:induction false} AbsolutePresetDay(value: int, now: int)
    requires 0 <= value <= 23
    ensures PresetTime("absolute", value, "seconds", now).Ok?
    ensures var r := PresetTime("absolute", value, "seconds", now).value;
            if value * SecondsPerHour > now % SecondsPerDay
            then r / SecondsPerDay == now / SecondsPerDay
            else r / SecondsPerDay == now / SecondsPerDay + 1
  {
    var d := now / SecondsPerDay;
    var h := value * SecondsPerHour;
    DaySplitUnique(now, d, now % SecondsPerDay);
    if h > now % SecondsPerDay {
      DaySplitUnique(d * SecondsPerDay + h, d, h);
    } else {
      assert (d + 1) * SecondsPerDay == d * SecondsPerDay + SecondsPerDay;
      DaySplitUnique((d + 1) * SecondsPerDay + h, d + 1, h);
    }
  }

  /** The unit only matters for a relative preset: an absolute request, and a request of an
      unsupported type, give the same result whatever the unit. */
  lemma {:induction false} OnlyRelativePresetReadsUnit(timeType: string, value: int, u1: string, u2: string, now: int)
    requires timeType != "relative"
    ensures PresetTime(timeType, value, u1, now) == PresetTime(timeType, value, u2, now)
  {
  }
}
