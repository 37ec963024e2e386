/** The packet rate of metrics.go: a ring of per-second buckets, and the log it stands for. */
module RateWindows {
  const WINDOW := 300

  function Sum(s: seq<nat>): nat {
    if s == [] then 0 else Sum(s[..|s| - 1]) + s[|s| - 1]
  }

  predicate Inside(t: int, now: int) {
    now - WINDOW < t <= now
  }

  /** How many logged events lie in the window that ends at `now`. */
  function CountInside(log: seq<int>, now: int): nat {
    if log == [] then 0
    else CountInside(log[..|log| - 1], now) + if Inside(log[|log| - 1], now) then 1 else 0
  }

  /** How many of them share bucket `j`. */
  function CountInBucket(log: seq<int>, now: int, j: int): nat {
    if log == [] then 0
    else
      var t := log[|log| - 1];
      CountInBucket(log[..|log| - 1], now, j) + if Inside(t, now) && t % WINDOW == j then 1 else 0
  }

  /** The ring that stands for a log. */
  function Ring(log: seq<int>, now: int): (r: seq<nat>)
    ensures |r| == WINDOW
  {
    seq(WINDOW, j => CountInBucket(log, now, j))
  }

  lemma {:induction false} SumUpdate(s: seq<nat>, j: nat, v: nat)
    requires j < |s|
    ensures Sum(s[j := v]) + s[j] == Sum(s) + v
  {
    var n := |s| - 1;
    if j < n {
      assert s[j := v][..n] == s[..n][j := v];
      SumUpdate(s[..n], j, v);
    } else {
      assert s[j := v][..n] == s[..n];
    }
  }

  lemma {:induction false} SumZeros(s: seq<nat>)
    requires forall i :: 0 <= i < |s| ==> s[i] == 0
    ensures Sum(s) == 0
  {
    if s != [] { SumZeros(s[..|s| - 1]); }
  }

  /** One more event in the window fills its bucket. */
  lemma RingGains(log: seq<int>, t: int, now: int)
    ensures Ring(log + [t], now)
            == if Inside(t, now) then Ring(log, now)[t % WINDOW := Ring(log, now)[t % WINDOW] + 1] else Ring(log, now)
  {
    assert (log + [t])[..|log|] == log;
  }

  lemma InsideSnoc(log: seq<int>, t: int, now: int)
    ensures CountInside(log + [t], now) == CountInside(log, now) + if Inside(t, now) then 1 else 0
  {
    assert (log + [t])[..|log|] == log;
  }

  /** The buckets of a log's ring add up to the events in the window. */
  lemma {:induction false} RingSum(log: seq<int>, now: int)
    ensures Sum(Ring(log, now)) == CountInside(log, now)
  {
    if log == [] {
      SumZeros(Ring(log, now));
    } else {
      var init, t := log[..|log| - 1], log[|log| - 1];
      assert log == init + [t];
      hide Ring, CountInside, Sum;
      RingSum(init, now);
      RingGains(init, t, now);
      InsideSnoc(init, t, now);
      if Inside(t, now) {
        SumUpdate(Ring(init, now), t % WINDOW, Ring(init, now)[t % WINDOW] + 1);
      }
    }
  }

  ghost predicate NoneAfter(log: seq<int>, now: int) {
    forall i :: 0 <= i < |log| ==> log[i] <= now
  }

  /** One second on: the bucket of the new second is empty, the others are unchanged. */
  lemma {:induction false} OneSecondOn(log: seq<int>, s: int, j: int)
    requires NoneAfter(log, s - 1) && 0 <= j < WINDOW
    ensures CountInBucket(log, s, j) == if s % WINDOW == j then 0 else CountInBucket(log, s - 1, j)
  {
    if log != [] {
      var init, t := log[..|log| - 1], log[|log| - 1];
      OneSecondOn(init, s, j);
      assert t <= s - 1;
      if t == s - WINDOW { assert t % WINDOW == s % WINDOW; }
      if Inside(t, s) && t % WINDOW == s % WINDOW { SameSecond(t, s); }
    }
  }

  /** Two seconds of one bucket are the same second or a window apart. */
  lemma SameSecond(t: int, s: int)
    requires t % WINDOW == s % WINDOW && s - WINDOW < t <= s
    ensures t == s
  {
    var a, b := t / WINDOW, s / WINDOW;
    assert s - t == WINDOW * (b - a);
  }

  /** After a gap of a whole window nothing is left. */
  lemma {:induction false} WindowGone(log: seq<int>, last: int, now: int, j: int)
    requires NoneAfter(log, last) && last + WINDOW <= now
    ensures CountInBucket(log, now, j) == 0
  {
    if log != [] {
      assert log[|log| - 1] <= last;
      WindowGone(log[..|log| - 1], last, now, j);
    }
  }

  /** The second of the window ending at `last` that shares a bucket with `t`. */
  function Slot(t: int, last: int): (s: int)
    ensures Inside(s, last) && s % WINDOW == t % WINDOW
    ensures Inside(t, last) <==> s == t
  {
    var s := last - (last - t) % WINDOW;
    assert last - t == WINDOW * ((last - t) / WINDOW) + (last - t) % WINDOW;
    assert s == t + WINDOW * ((last - t) / WINDOW);
    ModShift(t, (last - t) / WINDOW);
    if Inside(t, last) then SameSecond(t, s); s else s
  }

  lemma ModShift(t: int, n: int)
    ensures (t + WINDOW * n) % WINDOW == t % WINDOW
  {
    var q, q' := t / WINDOW, (t + WINDOW * n) / WINDOW;
    var r, r' := t % WINDOW, (t + WINDOW * n) % WINDOW;
    assert r' - r == WINDOW * (q + n - q');
  }

  /** Which logged events came in the 300 seconds that end with `now`. */
  ghost function Recent(log: seq<int>, now: int): set<nat> {
    set i | 0 <= i < |log| && now - 300 < log[i] <= now
  }

  lemma {:induction false} CountIsRecent(log: seq<int>, now: int)
    ensures CountInside(log, now) == |Recent(log, now)|
  {
    if log == [] {
      assert Recent(log, now) == {};
    } else {
      var n := |log| - 1;
      var init := log[..n];
      CountIsRecent(init, now);
      if now - 300 < log[n] <= now {
        assert Recent(log, now) == Recent(init, now) + {n};
      } else {
        assert Recent(log, now) == Recent(init, now);
      }
    }
  }

  class RateWindow {
    const buckets: array<nat>
    var lastSec: int
    var firstSec: int
    ghost var log: seq<int> // the times of the events added

    ghost predicate Valid()
      reads this, buckets
    {
      && buckets.Length == WINDOW && 0 <= lastSec && 0 <= firstSec
      && NoneAfter(log, lastSec)
      && (firstSec == 0 <==> log == [])
      && (lastSec == 0 ==> log == [])
      && buckets[..] == Ring(log, lastSec)
    }

    constructor ()
      ensures Valid() && log == [] && lastSec == 0 && firstSec == 0 && fresh(buckets)
    {
      buckets := new nat[WINDOW](_ => 0);
      lastSec, firstSec, log := 0, 0, [];
      new;
      assert buckets[..] == Ring([], 0);
    }

    /** Empties the buckets that have left the window. */
    method Advance(now: int)
      requires Valid() && 0 < now
      modifies this`lastSec, buckets
      ensures Valid()
      ensures lastSec == if old(lastSec) < now then now else old(lastSec)
    {
      if lastSec == 0 {
        lastSec := now;
        assert Ring([], now) == Ring([], 0);
        return;
      }
      if now <= lastSec {
        return;
      }
      var gap := now - lastSec;
      if gap >= WINDOW {
        forall j | 0 <= j < WINDOW {
          buckets[j] := 0;
        }
        forall j | 0 <= j < WINDOW ensures CountInBucket(log, now, j) == 0 {
          WindowGone(log, lastSec, now, j);
        }
        assert buckets[..] == Ring(log, now);
      } else {
        var s := lastSec + 1;
        while s <= now
          invariant lastSec + 1 <= s <= now + 1
          invariant buckets[..] == Ring(log, s - 1)
        {
          ghost var was := buckets[..];
          buckets[s % WINDOW] := 0;
          forall j | 0 <= j < WINDOW ensures CountInBucket(log, s, j) == buckets[j] {
            OneSecondOn(log, s, j);
            assert was[j] == CountInBucket(log, s - 1, j);
          }
          assert buckets[..] == Ring(log, s);
          s := s + 1;
        }
      }
      lastSec := now;
    }

    /** Adds an event. One that lies a window or more behind the latest is filed under the
        second of the window that shares its bucket. */
    method Add(now: int)
      requires Valid() && 0 < now
      modifies this, buckets
      ensures Valid()
      ensures lastSec == if old(lastSec) < now then now else old(lastSec)
      ensures firstSec == if old(firstSec) == 0 then now else old(firstSec)
      ensures log == old(log) + [Slot(now, lastSec)]
      ensures old(lastSec) - WINDOW < now <==> log == old(log) + [now]
    {
      Advance(now);
      if firstSec == 0 {
        firstSec := now;
      }
      ghost var t := Slot(now, lastSec);
      ghost var was := buckets[..];
      hide Ring, Slot;
      RingGains(log, t, lastSec);
      buckets[now % WINDOW] := buckets[now % WINDOW] + 1;
      assert buckets[..] == was[now % WINDOW := was[now % WINDOW] + 1];
      log := log + [t];
    }

    /** Events per minute: those of the last 300 seconds, over the time since the first one
        while that is shorter, and over a second at least. */
    method PerMin(now: int) returns (rate: real)
      requires Valid() && 0 < now
      modifies this`lastSec, buckets
      ensures Valid()
      ensures lastSec == if old(lastSec) < now then now else old(lastSec)
      ensures log == [] ==> rate == 0.0
      ensures log != [] && now - firstSec >= 299 ==> rate == |Recent(log, lastSec)| as real / 5.0
      ensures log != [] && 0 <= now - firstSec <= 299 ==>
                rate == (|Recent(log, lastSec)| * 60) as real / (now - firstSec + 1) as real
      ensures log != [] && now < firstSec ==> rate == (|Recent(log, lastSec)| * 60) as real
    {
      Advance(now);
      if firstSec == 0 {
        return 0.0;
      }
      var sum: nat := 0;
      for i := 0 to buckets.Length
        invariant sum == Sum(buckets[..i])
      {
        assert buckets[..i + 1][..i] == buckets[..i];
        sum := sum + buckets[i];
      }
      assert buckets[..buckets.Length] == buckets[..];
      RingSum(log, lastSec);
      CountIsRecent(log, lastSec);
      var covered := now - firstSec + 1;
      if covered > WINDOW {
        covered := WINDOW;
      }
      if covered < 1 {
        covered := 1;
      }
      rate := (sum * 60) as real / covered as real;
    }
  }
}
