/**
 * The log file of the parser package: read() hands each line through the
 * optional gate to the LogEntry constructor and keeps the entries that
 * were built, in order.
 */
module EntryLogFile {
  import opened Outcomes
  import opened LogEntries
  import opened Checks

  /** How read() ends: normally, or with the gate's StringIsTooLongException for line `line`. */
  datatype ReadOutcome = Completed | TooLong(line: nat, length: nat, maxLength: int)

  /** What reading a list of lines produces: the entries appended and how reading ended. */
  datatype Ingested = Ingested(appended: seq<LogEntry>, outcome: ReadOutcome)

  /** The LogEntry constructor, as a function from a line to an entry or the exception it throws. */
  type Parser = string -> Result<LogEntry, CreateError>

  /** The gate's verdict on a line; a null check lets every line through. */
  function Admit(check: Option<Checkable>, line: string): CheckOutcome {
    match check
    case None => Answer(true)
    case Some(c) => c(line)
  }

  /** One pass of read()'s loop: line n goes through the gate and, if admitted, the constructor. */
  function Feed(before: Ingested, check: Option<Checkable>, parse: Parser, line: string, n: nat): Ingested {
    if before.outcome.TooLong? then before
    else match Admit(check, line)
      case StringIsTooLong(length, maxLength) => before.(outcome := TooLong(n, length, maxLength))
      case Answer(false) => before
      case Answer(true) =>
        match parse(line)
        case Success(e) => before.(appended := before.appended + [e])
        case Failure(_) => before
  }

  /** The effect of read() over `lines`, one line at a time. */
  function Ingest(check: Option<Checkable>, parse: Parser, lines: seq<string>): Ingested
    decreases |lines|
  {
    if lines == [] then Ingested([], Completed)
    else
      var n := |lines| - 1;
      Feed(Ingest(check, parse, lines[..n]), check, parse, lines[n], n)
  }

  /** Reading one more line is one more pass of the loop. */
  lemma IngestStep(check: Option<Checkable>, parse: Parser, lines: seq<string>, i: nat)
    requires i < |lines|
    ensures Ingest(check, parse, lines[..i + 1]) == Feed(Ingest(check, parse, lines[..i]), check, parse, lines[i], i)
  {
    assert lines[..i + 1][..i] == lines[..i];
  }

  /** The line passes the gate and its entry is built. */
  predicate Kept(check: Option<Checkable>, parse: Parser, line: string) {
    Admit(check, line) == Answer(true) && parse(line).Success?
  }

  /** The entry a single line contributes: one if it is kept, none otherwise. */
  function KeptPart(check: Option<Checkable>, parse: Parser, line: string): (r: seq<LogEntry>)
    ensures |r| <= 1
  {
    if Kept(check, parse, line) then [parse(line).value] else []
  }

  /**
   * A reference definition of the entries, read front to back: the entries
   * of exactly the lines that pass the gate and parse, in order.
   */
  function KeptEntries(check: Option<Checkable>, parse: Parser, lines: seq<string>): (r: seq<LogEntry>)
    decreases |lines|
    ensures |r| <= |lines|
  {
    if lines == [] then []
    else KeptPart(check, parse, lines[0]) + KeptEntries(check, parse, lines[1..])
  }

  /** No line of the list makes the gate throw. */
  predicate NoneTooLong(check: Option<Checkable>, lines: seq<string>) {
    forall i :: 0 <= i < |lines| ==> !Admit(check, lines[i]).StringIsTooLong?
  }

  lemma KeptEntriesAppend(check: Option<Checkable>, parse: Parser, lines: seq<string>, line: string)
    ensures KeptEntries(check, parse, lines + [line]) == KeptEntries(check, parse, lines) + KeptPart(check, parse, line)
    decreases |lines|
  {
    if lines == [] {
      assert [line][1..] == [];
    } else {
      var longer := lines + [line];
      assert longer[0] == lines[0] && longer[1..] == lines[1..] + [line];
      KeptEntriesAppend(check, parse, lines[1..], line);
    }
  }

  /**
   * read() either completes, having appended the entries of the kept lines,
   * or stops at the first line the gate rejects with an exception, having
   * appended the entries of the lines before it.
   */
  lemma {:induction false} IngestMeaning(check: Option<Checkable>, parse: Parser, lines: seq<string>)
    ensures Ingest(check, parse, lines).outcome == Completed <==> NoneTooLong(check, lines)
    ensures Ingest(check, parse, lines).outcome == Completed ==> Ingest(check, parse, lines).appended == KeptEntries(check, parse, lines)
    ensures Ingest(check, parse, lines).outcome.TooLong? ==>
      var k := Ingest(check, parse, lines).outcome.line;
      && k < |lines|
      && Admit(check, lines[k]) == StringIsTooLong(Ingest(check, parse, lines).outcome.length, Ingest(check, parse, lines).outcome.maxLength)
      && NoneTooLong(check, lines[..k])
      && Ingest(check, parse, lines).appended == KeptEntries(check, parse, lines[..k])
    decreases |lines|
  {
    if lines != [] {
      var n := |lines| - 1;
      var prefix := lines[..n];
      IngestMeaning(check, parse, prefix);
      assert forall i :: 0 <= i < n ==> prefix[i] == lines[i];
      var before := Ingest(check, parse, prefix);
      assert Ingest(check, parse, lines) == Feed(before, check, parse, lines[n], n);
      if before.outcome.TooLong? {
        var k := before.outcome.line;
        assert lines[..k] == prefix[..k];
      } else if Admit(check, lines[n]).StringIsTooLong? {
        assert lines[..n] == prefix;
      } else {
        assert lines == prefix + [lines[n]];
        KeptEntriesAppend(check, parse, prefix, lines[n]);
      }
    }
  }

  /** Without a gate read() never aborts and keeps the entry of every line that parses. */
  lemma UngatedKeepsEveryParsedLine(parse: Parser, lines: seq<string>)
    ensures Ingest(None, parse, lines).outcome == Completed
    ensures Ingest(None, parse, lines).appended == KeptEntries(None, parse, lines)
    ensures forall line :: Kept(None, parse, line) <==> parse(line).Success?
  {
    IngestMeaning(None, parse, lines);
  }

  /** With a MaxLengthCheck, read() completes exactly when no line is longer than the limit. */
  lemma MaxLengthGate(limit: int, parse: Parser, lines: seq<string>)
    ensures var check := Some(MaxLengthCheck(limit).AsCheckable());
      Ingest(check, parse, lines).outcome == Completed <==> forall i :: 0 <= i < |lines| ==> |lines[i]| <= limit
  {
    var check := Some(MaxLengthCheck(limit).AsCheckable());
    IngestMeaning(check, parse, lines);
    assert forall i :: 0 <= i < |lines| ==> Admit(check, lines[i]) == MaxLengthCheck(limit).CheckString(lines[i]);
  }

  /** A line that fails to parse, appended at the end, changes nothing. */
  lemma UnparsableLineIsSkipped(check: Option<Checkable>, parse: Parser, lines: seq<string>, line: string)
    requires Admit(check, line) == Answer(true) && parse(line).Failure?
    ensures Ingest(check, parse, lines + [line]) == Ingest(check, parse, lines)
  {
    assert (lines + [line])[..|lines|] == lines;
  }

  /** A line the gate refuses with false, appended at the end, changes nothing. */
  lemma RefusedLineIsSkipped(check: Option<Checkable>, parse: Parser, lines: seq<string>, line: string)
    requires Admit(check, line) == Answer(false)
    ensures Ingest(check, parse, lines + [line]) == Ingest(check, parse, lines)
  {
    assert (lines + [line])[..|lines|] == lines;
  }

  /** Once read() has aborted, later lines are never looked at. */
  lemma {:induction false} AbortSticks(check: Option<Checkable>, parse: Parser, lines: seq<string>, k: nat)
    requires k <= |lines| && Ingest(check, parse, lines[..k]).outcome.TooLong?
    ensures Ingest(check, parse, lines) == Ingest(check, parse, lines[..k])
    decreases |lines| - k
  {
    if k < |lines| {
      assert lines[..k + 1][..k] == lines[..k];
      AbortSticks(check, parse, lines, k + 1);
    } else {
      assert lines[..k] == lines;
    }
  }

  class LogFile {
    /** The file's lines, as BufferedReader.readLine() would return them. */
    const lines: seq<string>
    const check: Option<Checkable>
    var entries: seq<LogEntry>

    constructor (lines: seq<string>, check: Option<Checkable>)
      ensures this.lines == lines && this.check == check && entries == []
    {
      this.lines := lines;
      this.check := check;
      entries := [];
    }

    /**
     * read(): each line goes through the gate and the constructor; a refused
     * line or a LogEntryCreateException skips the line, a
     * StringIsTooLongException ends reading and leaves what was appended.
     */
    method Read() returns (outcome: ReadOutcome)
      modifies this
      ensures entries == old(entries) + Ingest(check, Parse, lines).appended
      ensures outcome == Ingest(check, Parse, lines).outcome
    {
      var i := 0;
      while i < |lines|
        invariant i <= |lines|
        invariant entries == old(entries) + Ingest(check, Parse, lines[..i]).appended
        invariant Ingest(check, Parse, lines[..i]).outcome == Completed
      {
        var text := lines[i];
        IngestStep(check, Parse, lines, i);
        var verdict := CheckOutcome.Answer(true);
        if check.Some? {
          verdict := check.value(text);
        }
        if verdict.StringIsTooLong? {
          AbortSticks(check, Parse, lines, i + 1);
          return TooLong(i, verdict.length, verdict.maxLength);
        }
        if verdict.accepted {
          var entry := NewLogEntry(text);
          if entry.Success? {
            entries := entries + [entry.value];
          }
        }
        i := i + 1;
      }
      assert lines[..i] == lines;
      outcome := Completed;
    }

    /** getEntries(): a new list holding the entries; the object keeps its own. */
    method GetEntries() returns (copy: array<LogEntry>)
      ensures fresh(copy) && copy[..] == entries
    {
      copy := new LogEntry[|entries|](i requires 0 <= i < |entries| reads this => entries[i]);
    }
  }
}
