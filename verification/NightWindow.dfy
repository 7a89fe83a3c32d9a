/** The nightly sampling window: when it is open, and which calendar day names it. Times are local minutes. */
module NightWindow {

  /** Window hours come from settings and are not restricted to a clock face. */
  datatype Hours = Hours(start: int, end: int)

  function Day(now: int): int {
    now / 1440
  }

  function Hour(now: int): int {
    now % 1440 / 60
  }

  /** `_is_night_window_active` */
  predicate Open(h: Hours, now: int) {
    if h.start < h.end then h.start <= Hour(now) < h.end else Hour(now) >= h.start || Hour(now) < h.end
  }

  /** `_night_window_key`: a window that spans midnight is named by the day it began. */
  function Key(h: Hours, now: int): int {
    if h.start > h.end && Hour(now) < h.end then Day(now) - 1 else Day(now)
  }

  /** `_night_previous_window_key` */
  function PreviousKey(h: Hours, now: int): int {
    if h.start < h.end then if Hour(now) >= h.end then Day(now) else Day(now) - 1
    else if Hour(now) >= h.start then Day(now) else Day(now) - 1
  }

  /** The first minute of the window of a day, and the first minute after it; equal hours leave it open all day. */
  function Opening(h: Hours, day: int): int {
    1440 * day + if h.start == h.end then 0 else 60 * h.start
  }

  function Closing(h: Hours, day: int): int {
    1440 * day + if h.start == h.end then 1440 else if h.start < h.end then 60 * h.end else 1440 + 60 * h.end
  }

  /**
   * With hours of a clock face the window of a day is one stretch of minutes: from its start hour on that day to its
   * end hour, on the next day when the end is earlier than the start, and the whole day when they are equal.
   */
  lemma WindowIsStretch(h: Hours, day: int, t: int)
    requires 0 <= h.start <= 24 && 0 <= h.end <= 24
    ensures Open(h, t) && Key(h, t) == day <==> Opening(h, day) <= t < Closing(h, day)
  {
    HourReached(t, h.start);
    HourReached(t, h.end);
    WithinDays(t, day);
  }

  lemma HourReached(t: int, hour: int)
    ensures 0 <= Hour(t) < 24
    ensures hour <= Hour(t) <==> 1440 * Day(t) + 60 * hour <= t
  {
  }

  lemma WithinDays(t: int, day: int)
    ensures 1440 * day <= t <==> day <= Day(t)
    ensures t < 1440 * (day + 1) <==> Day(t) < day + 1
    ensures t < 1440 * (day + 2) <==> Day(t) < day + 2
  {
  }

  /**
   * While the window is open, the key looked back to is that of the day before, or of the open window itself when it
   * spans midnight; equal hours name the day itself from their hour on.
   */
  lemma PreviousKeyWhenOpen(h: Hours, now: int)
    requires Open(h, now)
    ensures PreviousKey(h, now) ==
      if h.start > h.end || (h.start == h.end && Hour(now) >= h.start) then Key(h, now) else Key(h, now) - 1
  {
  }

  /** t is the last minute before now at which the window was open. */
  ghost predicate LatestOpen(h: Hours, t: int, now: int) {
    t < now && Open(h, t) && forall u :: t < u < now ==> !Open(h, u)
  }

  lemma Clock(day: int, hour: int, minute: int)
    requires 0 <= hour < 24 && 0 <= minute < 60
    ensures Day(1440 * day + 60 * hour + minute) == day && Hour(1440 * day + 60 * hour + minute) == hour
  {
    var t := 1440 * day + 60 * hour + minute;
    assert t / 1440 == day && t % 1440 == 60 * hour + minute;
  }

  /** A minute c at which the window is open is not later than the latest such minute. */
  lemma NotAfterLatest(h: Hours, t: int, now: int, c: int)
    requires LatestOpen(h, t, now) && c < now && Open(h, c)
    ensures c <= t
  {
  }

  /**
   * Whenever the window is closed, for any window hours, the key under which corrections are looked up is the key
   * under which the latest samples were collected.
   */
  lemma PreviousKeyIsLatestKey(h: Hours, t: int, now: int)
    requires !Open(h, now) && LatestOpen(h, t, now)
    ensures PreviousKey(h, now) == Key(h, t)
  {
    var d := Day(now);
    if h.start < h.end {
      if Hour(now) >= h.end {
        var c := 1440 * d + 60 * (h.end - 1) + 59;
        Clock(d, h.end - 1, 59);
        NotAfterLatest(h, t, now, c);
      } else {
        var last := if h.end < 24 then h.end - 1 else 23;
        Clock(d - 1, last, 59);
        NotAfterLatest(h, t, now, 1440 * (d - 1) + 60 * last + 59);
      }
    } else if h.end > 0 {
      Clock(d, h.end - 1, 59);
      NotAfterLatest(h, t, now, 1440 * d + 60 * (h.end - 1) + 59);
    } else {
      Clock(d - 1, 23, 59);
      NotAfterLatest(h, t, now, 1440 * (d - 1) + 60 * 23 + 59);
    }
  }

  /** Keys never run backwards. */
  lemma KeyMonotone(h: Hours, t: int, now: int)
    requires t <= now
    ensures Key(h, t) <= Key(h, now)
  {
    if Day(t) == Day(now) {
      assert Hour(t) <= Hour(now);
    }
  }

  /** The window that a closed minute looks back to is never sampled again. */
  lemma PreviousKeyPassed(h: Hours, now: int, later: int)
    requires !Open(h, now) && now <= later && Open(h, later)
    ensures PreviousKey(h, now) < Key(h, later)
  {
    if Day(now) == Day(later) {
      assert Hour(now) <= Hour(later);
    }
  }

  /** One window is one stretch of time: between two open minutes of one key the window is open, under that key. */
  lemma KeyIsContiguous(h: Hours, t: int, u: int, now: int)
    requires t <= u <= now && Open(h, t) && Open(h, now) && Key(h, t) == Key(h, now) && h.start != h.end
    ensures Open(h, u) && Key(h, u) == Key(h, t)
  {
    KeyMonotone(h, t, u);
    KeyMonotone(h, u, now);
  }
}
