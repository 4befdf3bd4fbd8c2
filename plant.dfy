/** The plant's record keeping as the program runs it: one object holding the files, whose
    methods read and write them line by line, each proved to compute what the functions of
    the other modules specify. */
module Plant {
  import opened Wrappers
  import opened Text
  import opened Numbers
  import opened Records
  import opened OpLog
  import opened Store
  import opened Analytics

  /** The files the program reads and writes. */
  class FileStore {
    var files: Files

    /** Every stored line is free of line breaks, as the lines of a real file are. */
    ghost predicate Valid()
      reads this
    {
      WellFormed(files)
    }

    constructor(initial: Files)
      requires WellFormed(initial)
      ensures Valid() && files == initial
    {
      files := initial;
    }

    /** `read_inventory`: the batches of the file's lines, in order, skipping blank lines
        and lines with fewer than six fields; all of them are dropped when one weight
        does not parse. */
    method ReadInventory(path: string) returns (inventory: seq<Batch>)
      ensures inventory == Inventory(Lines(files, path))
    {
      inventory := ReadRows(Lines(files, path), ParseBatchLine);
    }

    /** `read_processing_records`: the records of the file's lines, in the same way with
        five fields. */
    method ReadProcessingRecords(path: string) returns (records: seq<ProcessingRecord>)
      ensures records == ProcessingRecords(Lines(files, path))
    {
      records := ReadRows(Lines(files, path), ParseProcessingLine);
    }

    /** `find_batch_by_id`: the first batch of the inventory with the id. */
    method FindBatchById(batchId: string, path: string) returns (batch: Option<Batch>)
      ensures batch == FindBatch(Inventory(Lines(files, path)), batchId)
    {
      var inventory := ReadInventory(path);
      batch := FindIn(inventory, batchId);
    }

    /** `log_operation`: one timestamped line appended to the log file. */
    method LogOperationTo(operation: string, details: string, path: string, now: string) returns (ok: bool)
      requires Valid()
      modifies this
      ensures Valid()
      ensures ok && files == AppendText(old(files), path, LogText(now, operation, details))
    {
      files := AppendText(files, path, LogText(now, operation, details));
      ok := true;
    }

    /** `add_bean_batch`. */
    method AddBeanBatch(data: map<string, string>, path: string, now: string) returns (ok: bool)
      requires Valid()
      modifies this
      ensures Valid()
      ensures (ok, files) == AddBatch(old(files), data, path, now)
    {
      for k := 0 to |BatchFields|
        invariant forall j :: 0 <= j < k ==> BatchFields[j] in data
      {
        if BatchFields[k] !in data {
          BatchFieldsPresent(data);
          return false;
        }
      }
      BatchFieldsPresent(data);
      var existing := FindBatchById(data["batch_id"], path);
      if existing.Some? {
        return false;
      }
      files := AppendText(files, path, BatchText(data));
      var _ := LogOperationTo("add_batch", "Added batch " + data["batch_id"], LogPath, now);
      ok := true;
    }

    /** `update_batch_status`. */
    method UpdateBatchStatus(batchId: string, status: string, path: string, now: string) returns (ok: bool)
      requires Valid()
      modifies this
      ensures Valid()
      ensures (ok, files) == UpdateStatus(old(files), batchId, status, path, now)
    {
      var inventory := ReadInventory(path);
      var updated, found := SetFirstStatus(inventory, batchId, status);
      if !found {
        return false;
      }
      WriteAll(path, updated, BatchLines);
      assert files == old(files)[path := RewriteLines(updated)];
      WellFormedReplace(old(files), path, RewriteLines(updated));
      var _ := LogOperationTo("update_status", "Updated batch " + batchId + " status to " + status, LogPath, now);
      ok := true;
    }

    /** Opening `path` for writing and writing each item's text: the file holds the lines
        of those texts, in order, and nothing else, and no other file changes. */
    method WriteAll<T>(path: string, items: seq<T>, linesOf: T -> seq<string>)
      modifies this
      ensures files == old(files)[path := WrittenLines(items, linesOf)]
    {
      files := files[path := []];
      for k := 0 to |items|
        invariant files == old(files)[path := WrittenLines(items[..k], linesOf)]
      {
        WrittenLinesStep(items, k, linesOf);
        files := files[path := files[path] + linesOf(items[k])];
      }
      assert items[..|items|] == items;
    }

    /** `record_processing_stage`. */
    method RecordProcessingStage(data: map<string, string>, path: string, now: string) returns (ok: bool)
      requires Valid()
      modifies this
      ensures Valid()
      ensures (ok, files) == RecordStage(old(files), data, path, now)
    {
      for k := 0 to |ProcessingFields|
        invariant forall j :: 0 <= j < k ==> ProcessingFields[j] in data
      {
        if ProcessingFields[k] !in data {
          ProcessingFieldsPresent(data);
          return false;
        }
      }
      ProcessingFieldsPresent(data);
      files := AppendText(files, path, ProcessingText(data));
      var _ := UpdateBatchStatus(data["batch_id"], data["process_type"], InventoryPath, now);
      var _ := LogOperationTo("record_processing",
                              "Recorded " + data["process_type"] + " for batch " + data["batch_id"], LogPath, now);
      ok := true;
    }

    /** `calculate_inventory_summary`. */
    method CalculateInventorySummary(path: string) returns (summary: Option<Summary>)
      ensures summary == Summarize(Inventory(Lines(files, path)))
    {
      var inventory := ReadInventory(path);
      if |inventory| == 0 {
        return None;
      }
      var total := SumWeights(inventory);
      var beanTypes := GroupWeightsBy(inventory, ByBeanType);
      var stages := GroupWeightsBy(inventory, ByStatus);
      return Some(Summary(|inventory|, total, beanTypes, stages));
    }

    /** `calculate_processing_yields`; the inventory is read once, where the source reads
        it again for every record, which gives the same batches as no file changes
        in between. */
    method CalculateProcessingYields(inventoryPath: string, processingPath: string)
      returns (byType: seq<(string, YieldStat)>)
      ensures byType == Yields(ProcessingRecords(Lines(files, processingPath)), Inventory(Lines(files, inventoryPath)))
    {
      var records := ReadProcessingRecords(processingPath);
      var inventory := ReadInventory(inventoryPath);
      byType := YieldsFrom(records, inventory);
    }

    /** `read_recent_logs`: the entries of the last `count` lines of the log, newest first. */
    method ReadRecentLogs(count: int, path: string) returns (logs: seq<LogEntry>)
      ensures logs == RecentLogs(Lines(files, path), count)
    {
      var window := Tail(Lines(files, path), count);
      var entries := ParseEntries(window);
      logs := ReverseEntries(entries);
    }
  }

  /** The loop of the two readers over the lines of a file: the rows of the lines that
      give one, in order, and none at all once a line has a weight that does not parse. */
  method ReadRows<T>(lines: seq<string>, parse: string -> LineResult<T>) returns (rows: seq<T>)
    ensures rows == OrEmpty(ReadLines(lines, parse))
  {
    rows := [];
    for i := 0 to |lines|
      invariant ReadLines(lines[..i], parse) == Some(rows)
    {
      ReadLinesStep(lines, i, parse);
      match parse(lines[i])
      case Skip =>
      case Row(x) =>
        rows := rows + [x];
      case BadNumber =>
        ReadLinesNone(lines, parse);
        return [];
    }
    assert lines[..|lines|] == lines;
  }

  /** The loop of `find_batch_by_id` over an inventory that was read. */
  method FindIn(inventory: seq<Batch>, batchId: string) returns (batch: Option<Batch>)
    ensures batch == FindBatch(inventory, batchId)
  {
    for i := 0 to |inventory|
      invariant forall j :: 0 <= j < i ==> inventory[j].batchId != batchId
    {
      if inventory[i].batchId == batchId {
        assert FindIndex(inventory, batchId) == Some(i);
        return Some(inventory[i]);
      }
    }
    return None;
  }

  /** The first batch with the id gets the new status; `found` says whether there is one. */
  method SetFirstStatus(inventory: seq<Batch>, batchId: string, status: string)
    returns (updated: seq<Batch>, found: bool)
    ensures found <==> FindIndex(inventory, batchId).Some?
    ensures updated == SetStatus(inventory, batchId, status)
  {
    updated := inventory;
    found := false;
    var i := 0;
    while i < |updated|
      invariant 0 <= i <= |updated| && updated == inventory
      invariant forall j :: 0 <= j < i ==> inventory[j].batchId != batchId
    {
      if updated[i].batchId == batchId {
        updated := updated[i := updated[i].(status := status)];
        found := true;
        break;
      }
      i := i + 1;
    }
    if found {
      assert FindIndex(inventory, batchId) == Some(i);
    }
  }

  /** `sum(batch["weight_kg"] for batch in inventory)`. */
  method SumWeights(inventory: seq<Batch>) returns (total: real)
    ensures total == TotalWeight(inventory)
  {
    total := 0.0;
    for i := 0 to |inventory|
      invariant total == TotalWeight(inventory[..i])
    {
      assert inventory[..i + 1][..i] == inventory[..i];
      total := total + Value(inventory[i].weight);
    }
    assert inventory[..|inventory|] == inventory;
  }

  /** The loop that fills `bean_types` or `stages`. */
  method GroupWeightsBy(inventory: seq<Batch>, g: Grouping) returns (groups: seq<(string, real)>)
    ensures groups == GroupWeights(inventory, g)
  {
    groups := [];
    for i := 0 to |inventory|
      invariant groups == GroupWeights(inventory[..i], g)
    {
      assert inventory[..i + 1][..i] == inventory[..i];
      groups := AddWeight(groups, KeyOf(inventory[i], g), Value(inventory[i].weight));
    }
    assert inventory[..|inventory|] == inventory;
  }

  /** The loop that groups the processing records by process type. */
  method GroupRecords(records: seq<ProcessingRecord>) returns (groups: seq<(string, seq<ProcessingRecord>)>)
    ensures groups == GroupByProcess(records)
  {
    groups := [];
    for i := 0 to |records|
      invariant groups == GroupByProcess(records[..i])
    {
      assert records[..i + 1][..i] == records[..i];
      groups := AddRecord(groups, records[i]);
    }
    assert records[..|records|] == records;
  }

  /** The entries of the lines that have three fields. */
  method ParseEntries(window: seq<string>) returns (entries: seq<LogEntry>)
    ensures entries == Entries(window)
  {
    entries := [];
    for i := 0 to |window|
      invariant entries == Entries(window[..i])
    {
      assert window[..i + 1][..i] == window[..i];
      match ParseLogLine(window[i])
      case None =>
      case Some(e) =>
        entries := entries + [e];
    }
    assert window[..|window|] == window;
  }

  /** `list.reverse()`. */
  method ReverseEntries(entries: seq<LogEntry>) returns (reversed: seq<LogEntry>)
    ensures reversed == Reverse(entries)
  {
    reversed := [];
    for k := 0 to |entries|
      invariant |reversed| == k && forall m :: 0 <= m < k ==> reversed[m] == entries[k - 1 - m]
    {
      reversed := [entries[k]] + reversed;
    }
  }

  /** The loops of `calculate_processing_yields` on the records and the inventory. */
  method YieldsFrom(records: seq<ProcessingRecord>, inventory: seq<Batch>) returns (byType: seq<(string, YieldStat)>)
    ensures byType == Yields(records, inventory)
  {
    var groups := GroupRecords(records);
    var stats := [];
    for j := 0 to |groups|
      invariant YieldsOf(groups[..j], inventory) == Some(stats)
    {
      assert groups[..j + 1][..j] == groups[..j];
      var sums := SumYields(groups[j].1, inventory);
      if sums.None? {
        GroupFails(groups, j, inventory);
        return [];
      }
      var (total, count) := sums.value;
      if count > 0 {
        stats := stats + [(groups[j].0, YieldStat(Mean(total, count), count))];
      }
    }
    assert groups[..|groups|] == groups;
    return stats;
  }

  /** The inner loop over the records of one process type: the summed yields and the
      count of the records whose batch is found, or `None` where a batch of weight 0
      raises ZeroDivisionError. */
  method SumYields(records: seq<ProcessingRecord>, inventory: seq<Batch>) returns (sums: Option<(real, nat)>)
    ensures sums == GroupYield(records, inventory)
  {
    var total := 0.0;
    var count: nat := 0;
    for k := 0 to |records|
      invariant GroupYield(records[..k], inventory) == Some((total, count))
    {
      GroupYieldStep(records, k, inventory, total, count);
      var batch := FindIn(inventory, records[k].batchId);
      if batch.Some? {
        if Value(batch.value.weight) == 0.0 {
          FailureExtends(records, k + 1, inventory);
          return None;
        }
        total := total + YieldPct(records[k], batch.value);
        count := count + 1;
      }
    }
    assert records[..|records|] == records;
    return Some((total, count));
  }

  /** A failing prefix of the records makes the whole inner loop fail. */
  lemma FailureExtends(records: seq<ProcessingRecord>, k: nat, inventory: seq<Batch>)
    requires k <= |records| && GroupYield(records[..k], inventory).None?
    ensures GroupYield(records, inventory).None?
  {
    GroupYieldSpec(records[..k], inventory);
    GroupYieldSpec(records, inventory);
    var r :| r in records[..k] && Hits(r, inventory);
    assert r in records;
  }

  /** A failing group makes the whole outer loop fail. */
  lemma GroupFails(groups: seq<(string, seq<ProcessingRecord>)>, j: nat, inventory: seq<Batch>)
    requires j < |groups| && GroupYield(groups[j].1, inventory).None?
    ensures YieldsOf(groups, inventory).None?
  {
    YieldsOfNone(groups, inventory);
  }
}
