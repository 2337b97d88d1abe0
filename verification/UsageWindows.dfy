/**
  Rolling usage windows (windows.ts). Times are integer milliseconds, costs are
  exact reals.
 */
module UsageWindows {
  import opened Common

  datatype UsageRecord = UsageRecord(ts: int, input: int, output: int, cacheRead: int, cacheWrite: int, cost: real)

  datatype WindowStats = WindowStats(tokens: int, requests: nat, cost: real, oldestTs: Option<int>)

  const FIVE_HOURS_MS := 5 * 60 * 60 * 1000
  const SEVEN_DAYS_MS := 7 * 24 * 60 * 60 * 1000
  const DAY_MS := 24 * 60 * 60 * 1000

  const EMPTY_WINDOW := WindowStats(0, 0, 0.0, None)

  function Single(r: UsageRecord): WindowStats {
    WindowStats(r.input + r.output + r.cacheRead + r.cacheWrite, 1, r.cost, Some(r.ts))
  }

  function Older(a: Option<int>, b: Option<int>): Option<int> {
    match (a, b)
    case (None, _) => b
    case (_, None) => a
    case (Some(x), Some(y)) => Some(Min(x, y))
  }

  function Plus(a: WindowStats, b: WindowStats): WindowStats {
    WindowStats(a.tokens + b.tokens, a.requests + b.requests, a.cost + b.cost, Older(a.oldestTs, b.oldestTs))
  }

  /** The statistics of a list of records. */
  function Stats(records: seq<UsageRecord>): WindowStats {
    if records == [] then EMPTY_WINDOW else Plus(Single(records[0]), Stats(records[1..]))
  }

  /** The request count is the number of records; the oldest time is the least time of a record, if there is one. */
  lemma {:induction false} StatsCountAndOldest(records: seq<UsageRecord>)
    ensures var stats := Stats(records);
            && stats.requests == |records|
            && (stats.oldestTs.None? <==> records == [])
            && (stats.oldestTs.Some? ==>
                  && (exists i | 0 <= i < |records| :: records[i].ts == stats.oldestTs.value)
                  && (forall i | 0 <= i < |records| :: stats.oldestTs.value <= records[i].ts))
  {
    if records != [] {
      StatsCountAndOldest(records[1..]);
      var stats, rest := Stats(records), Stats(records[1..]);
      if rest.oldestTs.Some? && rest.oldestTs.value < records[0].ts {
        var i :| 0 <= i < |records[1..]| && records[1..][i].ts == rest.oldestTs.value;
        assert records[i + 1].ts == stats.oldestTs.value;
      } else {
        assert records[0].ts == stats.oldestTs.value;
      }
      assert forall i | 1 <= i < |records| :: records[i] == records[1..][i - 1];
    }
  }

  lemma PlusIsCommutativeMonoid(a: WindowStats, b: WindowStats, c: WindowStats)
    ensures Plus(a, EMPTY_WINDOW) == a == Plus(EMPTY_WINDOW, a)
    ensures Plus(a, b) == Plus(b, a)
    ensures Plus(Plus(a, b), c) == Plus(a, Plus(b, c))
  {
  }

  /** `rollUp`: one pass over the records, accumulating in place. */
  method RollUp(records: seq<UsageRecord>) returns (stats: WindowStats)
    ensures stats == Stats(records)
  {
    stats := EMPTY_WINDOW;
    assert records[0..] == records;
    for i := 0 to |records|
      invariant Plus(stats, Stats(records[i..])) == Stats(records)
    {
      var r := records[i];
      assert records[i..][0] == r && records[i..][1..] == records[i + 1..];
      ghost var before := stats;
      var oldest := if stats.oldestTs.None? || r.ts < stats.oldestTs.value then Some(r.ts) else stats.oldestTs;
      stats := WindowStats(stats.tokens + (r.input + r.output + r.cacheRead + r.cacheWrite), stats.requests + 1,
                           stats.cost + r.cost, oldest);
      assert stats == Plus(before, Single(r));
      PlusIsCommutativeMonoid(before, Single(r), Stats(records[i + 1..]));
    }
    PlusIsCommutativeMonoid(stats, stats, stats);
  }

  /** One record: the sum of its four token fields, one request, its cost, its time. */
  lemma StatsOfOne(r: UsageRecord)
    ensures Stats([]) == WindowStats(0, 0, 0.0, None)
    ensures Stats([r]) == WindowStats(r.input + r.output + r.cacheRead + r.cacheWrite, 1, r.cost, Some(r.ts))
  {
    PlusIsCommutativeMonoid(Single(r), Single(r), Single(r));
  }

  lemma {:induction false} StatsAreAdditive(a: seq<UsageRecord>, b: seq<UsageRecord>)
    ensures Stats(a + b) == Plus(Stats(a), Stats(b))
  {
    if a == [] {
      assert a + b == b;
      PlusIsCommutativeMonoid(Stats(b), Stats(b), Stats(b));
    } else {
      assert (a + b)[1..] == a[1..] + b;
      StatsAreAdditive(a[1..], b);
      PlusIsCommutativeMonoid(Single(a[0]), Stats(a[1..]), Stats(b));
    }
  }

  /** Tokens, requests and costs of a concatenation add up. */
  lemma StatsAddUp(a: seq<UsageRecord>, b: seq<UsageRecord>)
    ensures var both, one, two := Stats(a + b), Stats(a), Stats(b);
            && both.tokens == one.tokens + two.tokens
            && both.requests == one.requests + two.requests
            && both.cost == one.cost + two.cost
  {
    StatsAreAdditive(a, b);
  }

  /** The order in which records were appended does not matter. */
  lemma {:induction false} StatsIgnoreOrder(a: seq<UsageRecord>, b: seq<UsageRecord>)
    requires multiset(a) == multiset(b)
    ensures Stats(a) == Stats(b)
  {
    if a == [] {
      assert |multiset(b)| == 0;
    } else {
      assert a[0] in multiset(a);
      var i :| 0 <= i < |b| && b[i] == a[0];
      var before, after := b[..i], b[i + 1..];
      assert b == before + [b[i]] + after;
      WithoutOne(a, b, i);
      StatsIgnoreOrder(a[1..], before + after);
      StatsAreAdditive(before + [b[i]], after);
      StatsAreAdditive(before, [b[i]]);
      StatsAreAdditive(before, after);
      assert a == [a[0]] + a[1..];
      RotateStats(Stats(before), Single(a[0]), Stats(after));
      assert Stats([b[i]]) == Single(a[0]) by { PlusIsCommutativeMonoid(Single(a[0]), Single(a[0]), Single(a[0])); }
    }
  }

  lemma WithoutOne(a: seq<UsageRecord>, b: seq<UsageRecord>, i: nat)
    requires a != [] && i < |b| && b[i] == a[0] && multiset(a) == multiset(b)
    ensures multiset(a[1..]) == multiset(b[..i] + b[i + 1..])
  {
    var one := multiset{a[0]};
    assert a == [a[0]] + a[1..];
    assert multiset(a) - one == multiset(a[1..]);
    assert b == b[..i] + ([b[i]] + b[i + 1..]);
    assert multiset(b) == multiset(b[..i]) + (one + multiset(b[i + 1..]));
    assert multiset(b) - one == multiset(b[..i]) + multiset(b[i + 1..]);
  }

  lemma RotateStats(a: WindowStats, b: WindowStats, c: WindowStats)
    ensures Plus(Plus(a, b), c) == Plus(b, Plus(a, c))
  {
  }

  // ---- Windows ----

  function Since(records: seq<UsageRecord>, cutoff: int): seq<UsageRecord> {
    if records == [] then []
    else if records[0].ts >= cutoff then [records[0]] + Since(records[1..], cutoff)
    else Since(records[1..], cutoff)
  }

  function WithinWindow(records: seq<UsageRecord>, now: int, window: int): seq<UsageRecord> {
    Since(records, now - window)
  }

  function ComputeLocalResetTime(stats: WindowStats, window: int): Option<int> {
    match stats.oldestTs
    case None => None
    case Some(oldest) => Some(oldest + window)
  }

  /** A later cutoff keeps a part of what an earlier one keeps, and any cutoff a part of the records. */
  lemma LaterCutoffKeepsLess(records: seq<UsageRecord>, early: int, late: int)
    requires early <= late
    ensures |Since(records, late)| <= |Since(records, early)| <= |records|
    ensures multiset(Since(records, late)) <= multiset(Since(records, early)) <= multiset(records)
  {
    if records != [] {
      var first, rest := records[0], records[1..];
      LaterCutoffKeepsLess(rest, early, late);
      assert multiset([first] + rest) == multiset{first} + multiset(rest);
      assert records == [first] + rest;
      assert multiset([first] + Since(rest, early)) == multiset{first} + multiset(Since(rest, early));
      assert multiset([first] + Since(rest, late)) == multiset{first} + multiset(Since(rest, late));
    }
  }

  /** The kept records are exactly those that are not before the cutoff. */
  lemma {:induction false} SinceKeepsExactly(records: seq<UsageRecord>, cutoff: int, r: UsageRecord)
    ensures r in Since(records, cutoff) <==> r in records && cutoff <= r.ts
  {
    if records != [] {
      SinceKeepsExactly(records[1..], cutoff, r);
      assert r in records <==> r == records[0] || r in records[1..];
    }
  }

  /** And each as often as it was appended. */
  lemma {:induction false} SinceKeepsMultiplicity(records: seq<UsageRecord>, cutoff: int, r: UsageRecord)
    ensures multiset(Since(records, cutoff))[r] == if cutoff <= r.ts then multiset(records)[r] else 0
  {
    if records != [] {
      var first, rest := records[0], records[1..];
      SinceKeepsMultiplicity(rest, cutoff, r);
      assert records == [first] + rest;
      assert multiset(records) == multiset{first} + multiset(rest);
      assert multiset([first] + Since(rest, cutoff)) == multiset{first} + multiset(Since(rest, cutoff));
    }
  }

  lemma CutoffBelowAll(records: seq<UsageRecord>, early: int, late: int)
    requires early <= late
    requires forall i | 0 <= i < |Since(records, early)| :: late <= Since(records, early)[i].ts
    ensures Since(records, late) == Since(records, early)
  {
    if records != [] {
      var rest := Since(records[1..], early);
      if early <= records[0].ts {
        assert Since(records, early) == [records[0]] + rest;
        assert Since(records, early)[0] == records[0];
        assert forall i | 0 <= i < |rest| :: rest[i] == Since(records, early)[i + 1];
      } else {
        assert Since(records, early) == rest;
      }
      assert forall i | 0 <= i < |rest| :: late <= rest[i].ts;
      CutoffBelowAll(records[1..], early, late);
    }
  }

  lemma CutoffAboveOne(records: seq<UsageRecord>, early: int, late: int, i: nat)
    requires early <= late
    requires i < |Since(records, early)| && Since(records, early)[i].ts < late
    ensures |Since(records, late)| < |Since(records, early)|
  {
    LaterCutoffKeepsLess(records[1..], early, late);
    if records[0].ts < early {
      CutoffAboveOne(records[1..], early, late, i);
    } else if 0 < i {
      CutoffAboveOne(records[1..], early, late, i - 1);
    }
  }

  /** The reset time is exactly when the window changes: until then, and at that moment, the statistics are the same at
      every time; at every later time the window holds fewer requests. Without a reset time the window stays empty. */
  lemma ResetTimeIsExact(records: seq<UsageRecord>, now: int, window: int, t: int)
    requires now <= t
    ensures var stats := Stats(WithinWindow(records, now, window));
            var later := Stats(WithinWindow(records, t, window));
            match ComputeLocalResetTime(stats, window)
            case None => stats == later == EMPTY_WINDOW
            case Some(reset) =>
              && now <= reset
              && (t <= reset ==> later == stats)
              && (reset < t ==> later.requests < stats.requests)
  {
    var kept, later := WithinWindow(records, now, window), WithinWindow(records, t, window);
    StatsCountAndOldest(kept);
    StatsCountAndOldest(later);
    LaterCutoffKeepsLess(records, now - window, t - window);
    if kept != [] {
      OldestDecides(records, now, window, t, Stats(kept).oldestTs.value);
    }
  }

  lemma OldestDecides(records: seq<UsageRecord>, now: int, window: int, t: int, oldest: int)
    requires now <= t
    requires var kept := WithinWindow(records, now, window);
             && (exists i | 0 <= i < |kept| :: kept[i].ts == oldest)
             && (forall i | 0 <= i < |kept| :: oldest <= kept[i].ts)
    ensures now <= oldest + window
    ensures t <= oldest + window ==> WithinWindow(records, t, window) == WithinWindow(records, now, window)
    ensures oldest + window < t ==> |WithinWindow(records, t, window)| < |WithinWindow(records, now, window)|
  {
    var kept := WithinWindow(records, now, window);
    var i :| 0 <= i < |kept| && kept[i].ts == oldest;
    SinceKeepsExactly(records, now - window, kept[i]);
    if t <= oldest + window {
      CutoffBelowAll(records, now - window, t - window);
    } else {
      CutoffAboveOne(records, now - window, t - window, i);
    }
  }

  // ---- Aggregation ----

  /** UTC midnight of the day of `now`; days have a fixed length in this clock. */
  function UtcMidnight(now: int): (midnight: int)
    ensures midnight <= now < midnight + 86400000
    ensures midnight % 86400000 == 0
  {
    now - now % DAY_MS
  }

  datatype AggregatedWindows =
    AggregatedWindows(fiveHours: WindowStats, weekly: WindowStats, today: WindowStats, lifetime: WindowStats)

  method AggregateWindows(records: seq<UsageRecord>, now: int) returns (windows: AggregatedWindows)
    ensures windows == AggregatedWindows(
              Stats(WithinWindow(records, now, FIVE_HOURS_MS)), Stats(WithinWindow(records, now, SEVEN_DAYS_MS)),
              Stats(Since(records, UtcMidnight(now))), Stats(records))
    // In milliseconds: five hours, seven days, and the day so far.
    ensures windows.fiveHours == Stats(Since(records, now - 18000000)) && windows.weekly == Stats(Since(records, now - 604800000))
    ensures windows.fiveHours.requests <= windows.weekly.requests <= windows.lifetime.requests
    ensures windows.today.requests <= windows.weekly.requests
  {
    WindowsAreNested(records, now);
    StatsCountAndOldest(WithinWindow(records, now, FIVE_HOURS_MS));
    StatsCountAndOldest(WithinWindow(records, now, SEVEN_DAYS_MS));
    StatsCountAndOldest(Since(records, UtcMidnight(now)));
    StatsCountAndOldest(records);
    var fiveHours := RollUp(WithinWindow(records, now, FIVE_HOURS_MS));
    var weekly := RollUp(WithinWindow(records, now, SEVEN_DAYS_MS));
    var today := RollUp(Since(records, UtcMidnight(now)));
    var lifetime := RollUp(records);
    windows := AggregatedWindows(fiveHours, weekly, today, lifetime);
  }

  /** 5h is part of 7d, 7d part of the lifetime, and today part of 7d, each record as often as it was appended. */
  lemma WindowsAreNested(records: seq<UsageRecord>, now: int)
    ensures multiset(WithinWindow(records, now, FIVE_HOURS_MS)) <= multiset(WithinWindow(records, now, SEVEN_DAYS_MS))
    ensures multiset(WithinWindow(records, now, SEVEN_DAYS_MS)) <= multiset(records)
    ensures multiset(Since(records, UtcMidnight(now))) <= multiset(WithinWindow(records, now, SEVEN_DAYS_MS))
    ensures |WithinWindow(records, now, FIVE_HOURS_MS)| <= |WithinWindow(records, now, SEVEN_DAYS_MS)| <= |records|
    ensures |Since(records, UtcMidnight(now))| <= |WithinWindow(records, now, SEVEN_DAYS_MS)|
  {
    LaterCutoffKeepsLess(records, now - SEVEN_DAYS_MS, now - FIVE_HOURS_MS);
    LaterCutoffKeepsLess(records, now - SEVEN_DAYS_MS, UtcMidnight(now));
  }
}
