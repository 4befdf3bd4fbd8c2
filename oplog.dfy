/** The operations log: one line `timestamp,operation,details` per logged operation, and
    the window of recent entries that is read back, newest first. */
module OpLog {
  import opened Wrappers
  import opened Text

  /** One entry of the log; `details` keeps any commas it contains. */
  datatype LogEntry = LogEntry(timestamp: string, operation: string, details: string)

  /** The line `log_operation` appends. */
  function LogText(timestamp: string, operation: string, details: string): string {
    timestamp + "," + operation + "," + details + "\n"
  }

  /** One log line, split at its first two commas; a line with fewer fields is dropped. */
  function ParseLogLine(line: string): (r: Option<LogEntry>)
    ensures r.Some? <==> |SplitMax(Strip(line), ',', 2)| == 3
    ensures r.Some? ==> ',' !in r.value.timestamp && ',' !in r.value.operation
    ensures r.Some? ==> Join([r.value.timestamp, r.value.operation, r.value.details], ',') == Strip(line)
  {
    var parts := SplitMax(Strip(line), ',', 2);
    if |parts| >= 3 then
      assert parts == [parts[0], parts[1], parts[2]];
      Join3(parts[0], parts[1], parts[2], ',');
      Some(LogEntry(parts[0], parts[1], parts[2]))
    else None
  }

  /** `lines[-count:]` with Python's slice rules: the last `count` lines for a positive
      count, every line for 0 (since `-0` is `0`), and all but the first `-count` lines for
      a negative count. */
  function Tail(lines: seq<string>, count: int): (r: seq<string>)
    ensures |r| <= |lines| && r == lines[|lines| - |r|..]
    ensures count > 0 ==> |r| == if count < |lines| then count else |lines|
    ensures count == 0 ==> r == lines
    ensures count < 0 ==> |r| == if -count < |lines| then |lines| + count else 0
  {
    var n := |lines|;
    if count > 0 then lines[(if count >= n then 0 else n - count)..]
    else if count == 0 then lines
    else lines[(if -count >= n then n else -count)..]
  }

  /** The entries of the lines that have three fields, in line order. */
  function Entries(lines: seq<string>): (r: seq<LogEntry>)
    ensures |r| <= |lines|
  {
    if |lines| == 0 then []
    else
      var rest := Entries(lines[..|lines| - 1]);
      match ParseLogLine(lines[|lines| - 1])
      case None => rest
      case Some(e) => rest + [e]
  }

  /** `list.reverse()`: the same elements, last first. */
  function Reverse<T>(s: seq<T>): (r: seq<T>)
    ensures |r| == |s|
    ensures forall k :: 0 <= k < |s| ==> r[k] == s[|s| - 1 - k]
  {
    if |s| == 0 then [] else Reverse(s[1..]) + [s[0]]
  }

  /** `read_recent_logs`: the entries of the last `count` lines, newest first; never more
      than `count` of them for a positive count, and those of every line for a count of 0. */
  function RecentLogs(lines: seq<string>, count: int): (r: seq<LogEntry>)
    ensures count >= 1 ==> |r| <= count
    ensures count == 0 ==> r == Reverse(Entries(lines))
    ensures var es := Entries(Tail(lines, count));
            |r| == |es| && forall k :: 0 <= k < |r| ==> r[k] == es[|es| - 1 - k]
  {
    Reverse(Entries(Tail(lines, count)))
  }

  /** Values that a log line keeps apart: a timestamp and an operation without commas,
      no value holding `'\n'` or `'\r'` (either ends a line when Python reads the file),
      and nothing for `strip()` to remove at either end. */
  predicate SafeLog(timestamp: string, operation: string, details: string) {
    && ',' !in timestamp && '\n' !in timestamp && '\r' !in timestamp
    && ',' !in operation && '\n' !in operation && '\r' !in operation
    && '\n' !in details && '\r' !in details
    && (timestamp == "" || !IsSpace(timestamp[0]))
    && (details == "" || !IsSpace(details[|details| - 1]))
  }

  // ----- Properties -----

  /** A line `log_operation` writes for safe values is one line and reads back as the
      entry it records, whatever commas the details hold. */
  lemma LogLineRoundTrip(timestamp: string, operation: string, details: string)
    requires SafeLog(timestamp, operation, details)
    ensures var line := timestamp + "," + operation + "," + details;
            && TextLines(LogText(timestamp, operation, details)) == [line]
            && ParseLogLine(line) == Some(LogEntry(timestamp, operation, details))
  {
    var line := timestamp + "," + operation + "," + details;
    LogLineText(timestamp, operation, details);
    LogLineFields(timestamp, operation, details);
    assert SplitMax(Strip(line), ',', 2) == [timestamp, operation, details];
  }

  lemma LogLineText(timestamp: string, operation: string, details: string)
    requires SafeLog(timestamp, operation, details)
    ensures var line := timestamp + "," + operation + "," + details;
            && TextLines(LogText(timestamp, operation, details)) == [line]
            && Strip(line) == line
  {
    var line := timestamp + "," + operation + "," + details;
    Join3(timestamp, operation, details, ',');
    assert Join([timestamp, operation, details], ',') == line;
    JoinFree([timestamp, operation, details], ',', '\n');
    TextLinesOfLine(line);
    assert LogText(timestamp, operation, details) == line + "\n";
    JoinEnds([timestamp, operation, details], ',');
    assert Trimmed(line);
  }

  lemma LogLineFields(timestamp: string, operation: string, details: string)
    requires ',' !in timestamp && ',' !in operation
    ensures SplitMax(timestamp + "," + operation + "," + details, ',', 2) == [timestamp, operation, details]
  {
    var tail := operation + [','] + details;
    assert timestamp + "," + operation + "," + details == timestamp + [','] + tail;
    SplitMaxAround(timestamp, ',', tail, 1);
    SplitMaxAround(operation, ',', details, 0);
  }

  /** Right after a safe entry is logged, the window of one holds exactly that entry. */
  lemma LatestLog(lines: seq<string>, timestamp: string, operation: string, details: string)
    requires SafeLog(timestamp, operation, details)
    ensures RecentLogs(lines + TextLines(LogText(timestamp, operation, details)), 1)
            == [LogEntry(timestamp, operation, details)]
  {
    LogLineRoundTrip(timestamp, operation, details);
    var line := timestamp + "," + operation + "," + details;
    var all := lines + [line];
    assert lines + TextLines(LogText(timestamp, operation, details)) == all;
    assert Tail(all, 1) == [line];
    assert [line][..0] == [];
  }
}
