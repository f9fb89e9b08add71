/**
 * The log file of the default package: read() counts the lines and keeps
 * the shortest and longest length of the lines its gate accepts.
 */
module RowLogFile {
  import opened Outcomes
  import opened Text
  import opened Checks

  /**
   * How read() ends: normally, with the gate's StringIsTooLongException for
   * line `line`, or with the NullPointerException of a null gate at line `line`.
   */
  datatype ReadOutcome = Completed | TooLong(line: nat, length: nat, maxLength: int) | NullCheck(line: nat)

  /** The three counters of a LogFile as a value. */
  datatype Counters = Counters(rowsCount: int, maxRowLength: int, minRowLength: int)

  /** The counters of a new LogFile. */
  const InitialCounters: Counters := Counters(0, 0, IntMax)

  /** The counters after one more line and what that line does to read(). */
  datatype Scanned = Scanned(counters: Counters, outcome: ReadOutcome)

  function Max(a: int, b: int): int {
    if a >= b then a else b
  }

  function Min(a: int, b: int): int {
    if a <= b then a else b
  }

  /**
   * The effect of read() over `lines`, starting from the counters `start`:
   * every line is counted before the gate is asked; an accepted line
   * updates the two lengths.
   */
  function Scan(start: Counters, check: Option<Checkable>, lines: seq<string>): Scanned
    decreases |lines|
  {
    if lines == [] then Scanned(start, Completed)
    else
      var n := |lines| - 1;
      var before := Scan(start, check, lines[..n]);
      if !before.outcome.Completed? then before
      else
        var counted := before.counters.(rowsCount := before.counters.rowsCount + 1);
        match check
        case None => Scanned(counted, NullCheck(n))
        case Some(c) =>
          match c(lines[n])
          case StringIsTooLong(length, maxLength) => Scanned(counted, TooLong(n, length, maxLength))
          case Answer(false) => Scanned(counted, Completed)
          case Answer(true) =>
            Scanned(counted.(maxRowLength := Max(counted.maxRowLength, |lines[n]|),
                             minRowLength := Min(counted.minRowLength, |lines[n]|)), Completed)
  }

  /** The lengths of the lines the gate accepts, in order: an independent reference. */
  function AcceptedLengths(check: Checkable, lines: seq<string>): (r: seq<nat>)
    decreases |lines|
    ensures |r| <= |lines|
  {
    if lines == [] then []
    else
      var n := |lines| - 1;
      AcceptedLengths(check, lines[..n]) + (if check(lines[n]) == Answer(true) then [|lines[n]|] else [])
  }

  /** No line of the list makes the gate throw. */
  predicate NoneTooLong(check: Checkable, lines: seq<string>) {
    forall i :: 0 <= i < |lines| ==> !check(lines[i]).StringIsTooLong?
  }

  /**
   * Every line read is counted, the aborting one included: on completion
   * rowsCount grows by the number of lines, and an abort at line k counts
   * k + 1 lines.
   */
  lemma {:induction false} ScanCountsRows(start: Counters, check: Option<Checkable>, lines: seq<string>)
    ensures var r := Scan(start, check, lines);
      && (r.outcome.Completed? ==> r.counters.rowsCount == start.rowsCount + |lines|)
      && (r.outcome.TooLong? ==> r.outcome.line < |lines| && r.counters.rowsCount == start.rowsCount + r.outcome.line + 1)
      && (r.outcome.NullCheck? ==> r.outcome.line < |lines| && r.counters.rowsCount == start.rowsCount + r.outcome.line + 1)
    decreases |lines|
  {
    if lines != [] {
      ScanCountsRows(start, check, lines[..|lines| - 1]);
    }
  }

  /** A LogFile built without a gate fails at its first line, which is already counted. */
  lemma NullCheckFailsAtFirstLine(start: Counters, lines: seq<string>)
    requires lines != []
    ensures Scan(start, None, lines).outcome == NullCheck(0)
    ensures Scan(start, None, lines).counters == start.(rowsCount := start.rowsCount + 1)
    decreases |lines|
  {
    if |lines| > 1 {
      assert lines[..|lines| - 1][..1] == lines[..1];
      NullCheckFailsAtFirstLine(start, lines[..|lines| - 1]);
    } else {
      assert lines[..0] == [];
    }
  }

  /** The gate's answer decides where read() ends: it completes exactly when no line is too long. */
  lemma {:induction false} ScanCompletes(start: Counters, check: Checkable, lines: seq<string>)
    ensures Scan(start, Some(check), lines).outcome.Completed? <==> NoneTooLong(check, lines)
    ensures Scan(start, Some(check), lines).outcome.TooLong? ==>
      var k := Scan(start, Some(check), lines).outcome.line;
      k < |lines| && check(lines[k]).StringIsTooLong? && NoneTooLong(check, lines[..k])
    ensures !Scan(start, Some(check), lines).outcome.NullCheck?
    decreases |lines|
  {
    if lines != [] {
      var n := |lines| - 1;
      var prefix := lines[..n];
      ScanCompletes(start, check, prefix);
      assert forall i :: 0 <= i < n ==> prefix[i] == lines[i];
      var before := Scan(start, Some(check), prefix);
      if before.outcome.TooLong? {
        var k := before.outcome.line;
        assert lines[..k] == prefix[..k];
      } else if check(lines[n]).StringIsTooLong? {
        assert lines[..n] == prefix;
      }
    }
  }

  /**
   * From the initial counters, a completed read leaves maxRowLength and
   * minRowLength at the greatest and least accepted length, or at 0 and
   * Integer.MAX_VALUE when no line is accepted.
   */
  lemma {:induction false} ScanLengths(check: Checkable, lines: seq<string>)
    requires forall i :: 0 <= i < |lines| ==> |lines[i]| <= IntMax
    requires NoneTooLong(check, lines)
    ensures var c := Scan(InitialCounters, Some(check), lines).counters;
      var accepted := AcceptedLengths(check, lines);
      && (accepted == [] ==> c.maxRowLength == 0 && c.minRowLength == IntMax)
      && (forall i :: 0 <= i < |accepted| ==> c.minRowLength <= accepted[i] <= c.maxRowLength)
      && (accepted != [] ==> c.maxRowLength in accepted && c.minRowLength in accepted)
    decreases |lines|
  {
    if lines != [] {
      var n := |lines| - 1;
      var prefix := lines[..n];
      assert forall i :: 0 <= i < n ==> prefix[i] == lines[i];
      ScanLengths(check, prefix);
      ScanCompletes(InitialCounters, check, prefix);
    }
  }

  /** After at least one accepted line, minRowLength <= maxRowLength. */
  lemma MinLengthNotAboveMax(check: Checkable, lines: seq<string>)
    requires forall i :: 0 <= i < |lines| ==> |lines[i]| <= IntMax
    requires NoneTooLong(check, lines) && AcceptedLengths(check, lines) != []
    ensures Scan(InitialCounters, Some(check), lines).counters.minRowLength
      <= Scan(InitialCounters, Some(check), lines).counters.maxRowLength
  {
    ScanLengths(check, lines);
    assert 0 < |AcceptedLengths(check, lines)|;
  }

  /**
   * From the initial counters, a read that stops at a too-long line k leaves
   * maxRowLength and minRowLength as the lines before k left them: the bounds
   * of the lengths accepted before k, or 0 and Integer.MAX_VALUE when none was.
   */
  lemma ScanLengthsOnAbort(check: Checkable, lines: seq<string>)
    requires forall i :: 0 <= i < |lines| ==> |lines[i]| <= IntMax
    requires Scan(InitialCounters, Some(check), lines).outcome.TooLong?
    ensures var r := Scan(InitialCounters, Some(check), lines);
      var k := r.outcome.line;
      && k < |lines|
      && var before := Scan(InitialCounters, Some(check), lines[..k]).counters;
      && r.counters.maxRowLength == before.maxRowLength
      && r.counters.minRowLength == before.minRowLength
      && var accepted := AcceptedLengths(check, lines[..k]);
      && (accepted == [] ==> r.counters.maxRowLength == 0 && r.counters.minRowLength == IntMax)
      && (forall i :: 0 <= i < |accepted| ==> r.counters.minRowLength <= accepted[i] <= r.counters.maxRowLength)
      && (accepted != [] ==> r.counters.maxRowLength in accepted && r.counters.minRowLength in accepted)
  {
    ScanCompletes(InitialCounters, check, lines);
    var k := Scan(InitialCounters, Some(check), lines).outcome.line;
    assert forall i :: 0 <= i < k ==> lines[..k][i] == lines[i];
    ScanLengths(check, lines[..k]);
    ScanCompletes(InitialCounters, check, lines[..k]);
    assert lines[..k + 1][..k] == lines[..k] && lines[..k + 1][k] == lines[k];
    ScanSticks(InitialCounters, Some(check), lines, k + 1);
  }

  class LogFile {
    /** The file's lines, as BufferedReader.readLine() would return them. */
    const lines: seq<string>
    const check: Option<Checkable>
    var rowsCount: int
    var maxRowLength: int
    var minRowLength: int

    /** LogFile(file): the same as LogFile(file, null). */
    constructor (lines: seq<string>)
      ensures this.lines == lines && check == None
      ensures Counters(rowsCount, maxRowLength, minRowLength) == InitialCounters
    {
      this.lines := lines;
      check := None;
      rowsCount, maxRowLength, minRowLength := 0, 0, IntMax;
    }

    /** LogFile(file, checkString). */
    constructor WithCheck(lines: seq<string>, check: Option<Checkable>)
      ensures this.lines == lines && this.check == check
      ensures Counters(rowsCount, maxRowLength, minRowLength) == InitialCounters
    {
      this.lines := lines;
      this.check := check;
      rowsCount, maxRowLength, minRowLength := 0, 0, IntMax;
    }

    /**
     * read(): count each line, ask the gate, and fold the length of an
     * accepted line into the two extremes. An exception from the gate, or
     * a null gate, ends read() with the line already counted.
     */
    method Read() returns (outcome: ReadOutcome)
      modifies this
      ensures var r := Scan(old(Counters(rowsCount, maxRowLength, minRowLength)), check, lines);
        Counters(rowsCount, maxRowLength, minRowLength) == r.counters && outcome == r.outcome
    {
      ghost var start := Counters(rowsCount, maxRowLength, minRowLength);
      var i := 0;
      while i < |lines|
        invariant i <= |lines|
        invariant Scan(start, check, lines[..i]) == Scanned(Counters(rowsCount, maxRowLength, minRowLength), Completed)
      {
        var text := lines[i];
        assert lines[..i + 1][..i] == lines[..i] && lines[..i + 1][i] == text;
        rowsCount := rowsCount + 1;
        if check.None? {
          ScanSticks(start, check, lines, i + 1);
          return NullCheck(i);
        }
        var verdict := check.value(text);
        if verdict.StringIsTooLong? {
          ScanSticks(start, check, lines, i + 1);
          return TooLong(i, verdict.length, verdict.maxLength);
        }
        if verdict.accepted {
          maxRowLength := Max(maxRowLength, |text|);
          minRowLength := Min(minRowLength, |text|);
        }
        i := i + 1;
      }
      assert lines[..i] == lines;
      outcome := Completed;
    }
  }

  /** Once read() has stopped, later lines are never looked at. */
  lemma {:induction false} ScanSticks(start: Counters, check: Option<Checkable>, lines: seq<string>, k: nat)
    requires k <= |lines| && !Scan(start, check, lines[..k]).outcome.Completed?
    ensures Scan(start, check, lines) == Scan(start, check, lines[..k])
    decreases |lines| - k
  {
    if k < |lines| {
      assert lines[..k + 1][..k] == lines[..k];
      ScanSticks(start, check, lines, k + 1);
    } else {
      assert lines[..k] == lines;
    }
  }
}
