/**
 * The traffic statistics: a running total of response sizes and the
 * earliest and latest entry time, updated entry by entry, with traffic
 * rates over the span between those two times.
 */
module TrafficStatistics {
  import opened Outcomes
  import opened Timestamps
  import opened LogEntries

  /** The three fields of a Statistics object as a value. */
  datatype Summary = Summary(totalTraffic: int, minTime: int, maxTime: int)

  /** The state clean() sets: no traffic, minTime = LocalDateTime.MAX, maxTime = LocalDateTime.MIN. */
  const Initial: Summary := Summary(0, LocalDateTimeMax, LocalDateTimeMin)

  /**
   * addEntry on a summary. The size is added first; an entry without a time
   * then throws a NullPointerException, so only the total changes.
   */
  function Step(s: Summary, e: LogEntry): Summary {
    var traffic := s.totalTraffic + e.responseSize;
    match e.time
    case None => s.(totalTraffic := traffic)
    case Some(t) =>
      Summary(traffic, if s.minTime > t then t else s.minTime, if s.maxTime < t then t else s.maxTime)
  }

  /** The summary after clean() and then addEntry on each entry in turn. */
  function Fold(entries: seq<LogEntry>): Summary
    decreases |entries|
  {
    if entries == [] then Initial
    else Step(Fold(entries[..|entries| - 1]), entries[|entries| - 1])
  }

  /** The sum of the response sizes, an independent reference for the total. */
  function TotalSize(entries: seq<LogEntry>): int
    decreases |entries|
  {
    if entries == [] then 0 else entries[0].responseSize + TotalSize(entries[1..])
  }

  /** Some entry carries a time. */
  predicate HasTime(entries: seq<LogEntry>) {
    exists i :: 0 <= i < |entries| && entries[i].time.Some?
  }

  /** Every time lies in LocalDateTime's range, as every parsed time does. */
  predicate TimesInRange(entries: seq<LogEntry>) {
    forall i :: 0 <= i < |entries| && entries[i].time.Some? ==>
      LocalDateTimeMin <= entries[i].time.value <= LocalDateTimeMax
  }

  lemma TotalSizeAppend(entries: seq<LogEntry>, e: LogEntry)
    ensures TotalSize(entries + [e]) == TotalSize(entries) + e.responseSize
  {
    if entries != [] {
      assert (entries + [e])[1..] == entries[1..] + [e];
      TotalSizeAppend(entries[1..], e);
    }
  }

  /** The total is the sum of all sizes added, entries without a time included. */
  lemma {:induction false} FoldTotal(entries: seq<LogEntry>)
    ensures Fold(entries).totalTraffic == TotalSize(entries)
    decreases |entries|
  {
    if entries != [] {
      var n := |entries| - 1;
      FoldTotal(entries[..n]);
      assert entries == entries[..n] + [entries[n]];
      TotalSizeAppend(entries[..n], entries[n]);
    }
  }

  /** minTime and maxTime bound every time added. */
  lemma {:induction false} FoldBounds(entries: seq<LogEntry>)
    ensures forall i :: 0 <= i < |entries| && entries[i].time.Some? ==>
      Fold(entries).minTime <= entries[i].time.value <= Fold(entries).maxTime
    decreases |entries|
  {
    if entries != [] {
      var n := |entries| - 1;
      var prefix := entries[..n];
      FoldBounds(prefix);
      assert forall i :: 0 <= i < n ==> prefix[i] == entries[i];
    }
  }

  /** With no time added, minTime and maxTime stay at LocalDateTime.MAX and LocalDateTime.MIN. */
  lemma {:induction false} FoldWithoutTimes(entries: seq<LogEntry>)
    requires !HasTime(entries)
    ensures Fold(entries).minTime == LocalDateTimeMax && Fold(entries).maxTime == LocalDateTimeMin
    decreases |entries|
  {
    if entries != [] {
      var n := |entries| - 1;
      var prefix := entries[..n];
      assert forall i :: 0 <= i < n ==> prefix[i] == entries[i];
      FoldWithoutTimes(prefix);
    }
  }

  /** Once a time is added, minTime is one of the times added. */
  lemma {:induction false} FoldMinAttained(entries: seq<LogEntry>)
    requires TimesInRange(entries) && HasTime(entries)
    ensures exists i :: 0 <= i < |entries| && entries[i].time == Some(Fold(entries).minTime)
    decreases |entries|
  {
    var n := |entries| - 1;
    var prefix := entries[..n];
    assert forall i :: 0 <= i < n ==> prefix[i] == entries[i];
    if HasTime(prefix) {
      FoldMinAttained(prefix);
      var j :| 0 <= j < n && prefix[j].time == Some(Fold(prefix).minTime);
      assert entries[j] == prefix[j];
    } else {
      FoldWithoutTimes(prefix);
      assert entries[n].time.Some?;
    }
  }

  /** Once a time is added, maxTime is one of the times added. */
  lemma {:induction false} FoldMaxAttained(entries: seq<LogEntry>)
    requires TimesInRange(entries) && HasTime(entries)
    ensures exists i :: 0 <= i < |entries| && entries[i].time == Some(Fold(entries).maxTime)
    decreases |entries|
  {
    var n := |entries| - 1;
    var prefix := entries[..n];
    assert forall i :: 0 <= i < n ==> prefix[i] == entries[i];
    if HasTime(prefix) {
      FoldMaxAttained(prefix);
      var j :| 0 <= j < n && prefix[j].time == Some(Fold(prefix).maxTime);
      assert entries[j] == prefix[j];
    } else {
      FoldWithoutTimes(prefix);
      assert entries[n].time.Some?;
    }
  }

  /** Once any time is added, minTime <= maxTime. */
  lemma MinNotAfterMax(entries: seq<LogEntry>)
    requires HasTime(entries)
    ensures Fold(entries).minTime <= Fold(entries).maxTime
  {
    FoldBounds(entries);
    var i :| 0 <= i < |entries| && entries[i].time.Some?;
  }

  /** Two addEntry calls in either order give the same state. */
  lemma StepsCommute(s: Summary, a: LogEntry, b: LogEntry)
    ensures Step(Step(s, a), b) == Step(Step(s, b), a)
  {
  }

  /** Adding the same entry again counts its size again but leaves minTime and maxTime alone. */
  lemma AddTwice(s: Summary, e: LogEntry)
    ensures Step(Step(s, e), e) == Step(s, e).(totalTraffic := Step(s, e).totalTraffic + e.responseSize)
  {
  }

  /** Folding a sequence is the same as folding it without entry i and then adding entry i. */
  lemma {:induction false} FoldMoveLast(entries: seq<LogEntry>, i: nat)
    requires i < |entries|
    ensures Fold(entries) == Step(Fold(entries[..i] + entries[i + 1..]), entries[i])
    decreases |entries|
  {
    var n := |entries| - 1;
    if i < n {
      var rest := entries[..i] + entries[i + 1..];
      var shorter := entries[..n];
      assert shorter[..i] + shorter[i + 1..] == rest[..n - 1];
      assert rest[n - 1] == entries[n];
      FoldMoveLast(shorter, i);
      assert shorter[i] == entries[i];
      StepsCommute(Fold(rest[..n - 1]), entries[i], entries[n]);
    } else {
      assert entries[..i] + entries[i + 1..] == entries[..n];
    }
  }

  /** The state depends only on the multiset of entries added, not on their order. */
  lemma {:induction false} FoldPermutation(a: seq<LogEntry>, b: seq<LogEntry>)
    requires multiset(a) == multiset(b)
    ensures Fold(a) == Fold(b)
    decreases |a|
  {
    if a == [] {
      assert |b| == |multiset(b)| == 0;
    } else {
      var n := |a| - 1;
      var x := a[n];
      assert x in multiset(b);
      var i :| 0 <= i < |b| && b[i] == x;
      var rest := b[..i] + b[i + 1..];
      assert b == b[..i] + [x] + b[i + 1..];
      assert a == a[..n] + [x];
      assert multiset(b) == multiset(b[..i]) + multiset{x} + multiset(b[i + 1..]);
      assert multiset(rest) == multiset(b[..i]) + multiset(b[i + 1..]);
      assert multiset(a) == multiset(a[..n]) + multiset{x};
      assert multiset(a[..n]) == multiset(a) - multiset{x};
      assert multiset(rest) == multiset(b) - multiset{x};
      FoldPermutation(a[..n], rest);
      FoldMoveLast(b, i);
    }
  }

  // ---------------------------------------------------------------------------
  // Rates

  datatype TimeInterval = Second | Minute | Hour | Day

  /** The length of an interval in seconds. */
  function IntervalSeconds(interval: TimeInterval): (n: nat)
    ensures n > 0
  {
    match interval
    case Second => 1
    case Minute => 60
    case Hour => 3600
    case Day => 86400
  }

  /** A double-precision quotient: a finite value, or what dividing by zero gives. */
  datatype Rate = Finite(value: real) | PositiveInfinity | NegativeInfinity | NotANumber

  /** What dividing the total by a zero span gives. */
  function DivisionByZero(total: int): (r: Rate)
    ensures r == (if total > 0 then PositiveInfinity else if total < 0 then NegativeInfinity else NotANumber)
  {
    if total > 0 then PositiveInfinity else if total < 0 then NegativeInfinity else NotANumber
  }

  /**
   * The span Duration.between(minTime, maxTime).toSeconds(). LocalDateTime.MAX
   * is 999999999 nanoseconds past its last second, and every parsed time is on
   * a whole second. toSeconds() rounds toward negative infinity, so a span from
   * MAX to any other time is one second further below zero than the difference
   * of the seconds; a span ending at MAX keeps that difference.
   */
  function Span(s: Summary): (r: int)
    ensures r * 1_000_000_000 <= NanoDifference(s) < (r + 1) * 1_000_000_000
  {
    s.maxTime - s.minTime - (if s.minTime == LocalDateTimeMax && s.maxTime != LocalDateTimeMax then 1 else 0)
  }

  /** The nanoseconds past the whole second: 999999999 for LocalDateTime.MAX, none for any other time. */
  function NanoOfSecond(t: int): int {
    if t == LocalDateTimeMax then 999_999_999 else 0
  }

  /** Duration.between(minTime, maxTime) in nanoseconds. */
  function NanoDifference(s: Summary): int {
    (s.maxTime - s.minTime) * 1_000_000_000 + NanoOfSecond(s.maxTime) - NanoOfSecond(s.minTime)
  }

  /**
   * The formula of each TimeIntervals constant: the total divided by the
   * span, measured in that interval.
   */
  function RateOf(s: Summary, interval: TimeInterval): (r: Rate)
    ensures r.Finite? <==> Span(s) != 0
    ensures r.Finite? ==> r.value * (Span(s) as real) == (s.totalTraffic * IntervalSeconds(interval)) as real
    ensures !r.Finite? ==> r == DivisionByZero(s.totalTraffic)
  {
    var total := s.totalTraffic as real;
    var span := Span(s) as real;
    if Span(s) == 0 then DivisionByZero(s.totalTraffic)
    else match interval
      case Second => Finite(total / span)
      case Minute => Finite(total / (span / 60.0))
      case Hour => Finite(total / (span / 3600.0))
      case Day => Finite(total / (span / 86400.0))
  }

  /** Each rate is the finer one scaled by the ratio of the intervals. */
  lemma RatesScale(s: Summary)
    requires Span(s) != 0
    ensures RateOf(s, Minute).value == 60.0 * RateOf(s, Second).value
    ensures RateOf(s, Hour).value == 60.0 * RateOf(s, Minute).value
    ensures RateOf(s, Day).value == 24.0 * RateOf(s, Hour).value
  {
    var span := Span(s) as real;
    var sec := RateOf(s, Second).value;
    var min := RateOf(s, Minute).value;
    var hour := RateOf(s, Hour).value;
    var day := RateOf(s, Day).value;
    assert min * span == 60.0 * (sec * span);
    assert hour * span == 60.0 * (min * span);
    assert day * span == 24.0 * (hour * span);
  }

  /**
   * Before any time is added the span runs from MAX back to MIN, one second
   * longer than their difference in seconds, so every rate is 0 (in doubles,
   * the negative zero).
   */
  lemma CleanSpanIsNegative(interval: TimeInterval)
    ensures Span(Initial) == LocalDateTimeMin - LocalDateTimeMax - 1 < 0
    ensures RateOf(Initial, interval) == Finite(0.0)
  {
  }

  /**
   * Entries without a time still add their size, so the span is still the
   * one from MAX back to MIN and every rate is the summed size over it.
   */
  lemma TimelessEntriesRate(entries: seq<LogEntry>, interval: TimeInterval)
    requires !HasTime(entries)
    ensures Span(Fold(entries)) == LocalDateTimeMin - LocalDateTimeMax - 1
    ensures RateOf(Fold(entries), interval).Finite?
    ensures RateOf(Fold(entries), interval).value * ((LocalDateTimeMin - LocalDateTimeMax - 1) as real)
      == (TotalSize(entries) * IntervalSeconds(interval)) as real
  {
    FoldWithoutTimes(entries);
    FoldTotal(entries);
  }

  /** With a single time added the span is zero and the rate is a division by zero. */
  lemma SingleTimeHasNoRate(e: LogEntry, interval: TimeInterval)
    requires e.time.Some? && LocalDateTimeMin <= e.time.value <= LocalDateTimeMax
    ensures Span(Fold([e])) == 0
    ensures RateOf(Fold([e]), interval) == DivisionByZero(e.responseSize)
  {
    assert [e][..0] == [];
  }

  // ---------------------------------------------------------------------------
  // The object

  class Statistics {
    var totalTraffic: int
    var minTime: int
    var maxTime: int
    /** The entries passed to addEntry since the last clean(). */
    ghost var added: seq<LogEntry>

    /** The fields are the fold of everything added since the last clean(). */
    ghost predicate Valid()
      reads this
    {
      Summary(totalTraffic, minTime, maxTime) == Fold(added)
    }

    constructor ()
      ensures Valid() && added == []
      ensures totalTraffic == 0 && minTime == LocalDateTimeMax && maxTime == LocalDateTimeMin
    {
      totalTraffic := 0;
      minTime := LocalDateTimeMax;
      maxTime := LocalDateTimeMin;
      added := [];
    }

    /** clean(): back to the initial state, whatever was added before. */
    method Clean()
      modifies this
      ensures Valid() && added == []
      ensures totalTraffic == 0 && minTime == LocalDateTimeMax && maxTime == LocalDateTimeMin
    {
      totalTraffic := 0;
      minTime := LocalDateTimeMax;
      maxTime := LocalDateTimeMin;
      added := [];
    }

    /**
     * addEntry(entry). The result is false when the entry has no time, where
     * addEntry throws NullPointerException after adding the size.
     */
    method AddEntry(entry: LogEntry) returns (ok: bool)
      requires Valid()
      modifies this
      ensures Valid() && added == old(added) + [entry]
      ensures ok == entry.time.Some?
      ensures totalTraffic == old(totalTraffic) + entry.responseSize
      ensures !ok ==> minTime == old(minTime) && maxTime == old(maxTime)
    {
      totalTraffic := totalTraffic + entry.responseSize;
      added := added + [entry];
      assert added[..|added| - 1] == old(added);
      if entry.time.None? {
        return false;
      }
      var time := entry.time.value;
      if minTime > time {
        minTime := time;
      }
      if maxTime < time {
        maxTime := time;
      }
      ok := true;
    }

    /** getTrafficRate(interval). */
    function TrafficRate(interval: TimeInterval): (r: Rate)
      reads this
      ensures r.Finite? <==> Span(Summary(totalTraffic, minTime, maxTime)) != 0
      ensures r.Finite? ==> r.value * (Span(Summary(totalTraffic, minTime, maxTime)) as real) == (totalTraffic * IntervalSeconds(interval)) as real
      ensures minTime != LocalDateTimeMax ==> (r.Finite? <==> maxTime != minTime)
    {
      RateOf(Summary(totalTraffic, minTime, maxTime), interval)
    }

    /** getTrafficRate(): the hourly rate. */
    function DefaultTrafficRate(): (r: Rate)
      reads this
      ensures r == TrafficRate(Hour)
    {
      TrafficRate(Hour)
    }
  }
}
