/** The plant's files and the operations that write them, as functions from the files
    before to the result and the files after: adding a batch, updating a batch's status,
    recording a processing stage, and logging an operation. */
module Store {
  import opened Wrappers
  import opened Text
  import opened Numbers
  import opened Records
  import opened OpLog

  /** The files, as the lines each holds (without line breaks); a path that is not there
      reads as no lines, as the readers' `FileNotFoundError` branches return empty lists. */
  type Files = map<string, seq<string>>

  const InventoryPath := "bean_inventory.txt"
  const ProcessingPath := "processing_records.txt"
  const LogPath := "operations_log.txt"

  function Lines(fs: Files, path: string): (lines: seq<string>)
    ensures WellFormed(fs) ==> forall i :: 0 <= i < |lines| ==> '\n' !in lines[i]
  {
    if path in fs then fs[path] else []
  }

  /** No stored line holds a line break. */
  predicate WellFormed(fs: Files) {
    forall p, i :: p in fs && 0 <= i < |fs[p]| ==> '\n' !in fs[p][i]
  }

  /** Opening `path` for appending and writing `text`: its lines gain the lines of `text`,
      and no other file changes. */
  function AppendText(fs: Files, path: string, text: string): (r: Files)
    ensures Lines(r, path) == Lines(fs, path) + TextLines(text)
    ensures forall p :: p != path ==> Lines(r, p) == Lines(fs, p)
    ensures WellFormed(fs) ==> WellFormed(r)
  {
    fs[path := Lines(fs, path) + TextLines(text)]
  }

  /** `log_operation`: one timestamped line appended to the log file. */
  function LogOperation(fs: Files, now: string, operation: string, details: string): (r: Files)
    ensures Lines(r, LogPath) == Lines(fs, LogPath) + TextLines(LogText(now, operation, details))
    ensures forall p :: p != LogPath ==> Lines(r, p) == Lines(fs, p)
    ensures WellFormed(fs) ==> WellFormed(r)
  {
    AppendText(fs, LogPath, LogText(now, operation, details))
  }

  /** The position of the first batch with the given id, in file order. */
  function FindIndex(inventory: seq<Batch>, batchId: string): (r: Option<nat>)
    ensures r.None? <==> forall j :: 0 <= j < |inventory| ==> inventory[j].batchId != batchId
    ensures r.Some? ==> r.value < |inventory| && inventory[r.value].batchId == batchId
                        && forall j :: 0 <= j < r.value ==> inventory[j].batchId != batchId
  {
    if |inventory| == 0 then None
    else if inventory[0].batchId == batchId then Some(0)
    else
      match FindIndex(inventory[1..], batchId)
      case None => None
      case Some(i) => Some(i + 1)
  }

  /** `find_batch_by_id` on an inventory that was read: the first batch with that id. */
  function FindBatch(inventory: seq<Batch>, batchId: string): (r: Option<Batch>)
    ensures r.None? <==> forall j :: 0 <= j < |inventory| ==> inventory[j].batchId != batchId
    ensures r.Some? ==> exists i :: 0 <= i < |inventory| && r.value == inventory[i]
                                    && r.value.batchId == batchId
                                    && forall j :: 0 <= j < i ==> inventory[j].batchId != batchId
  {
    match FindIndex(inventory, batchId)
    case None => None
    case Some(i) => Some(inventory[i])
  }

  /** The first batch with that id, and no other, gets the new status; every other field
      of every batch, and the order of the batches, stay as they were. */
  function SetStatus(inventory: seq<Batch>, batchId: string, status: string): (r: seq<Batch>)
    ensures |r| == |inventory|
    ensures forall j :: 0 <= j < |r| ==>
              r[j] == inventory[j].(status := r[j].status)
    ensures forall j :: 0 <= j < |r| ==>
              r[j].status == if inventory[j].batchId == batchId && IsFirst(inventory, j)
                             then status else inventory[j].status
  {
    match FindIndex(inventory, batchId)
    case None => inventory
    case Some(i) => inventory[i := inventory[i].(status := status)]
  }

  /** No batch before position `j` has the id of the batch at `j`. */
  predicate IsFirst(inventory: seq<Batch>, j: nat)
    requires j < |inventory|
  {
    forall k :: 0 <= k < j ==> inventory[k].batchId != inventory[j].batchId
  }

  /** The lines of a file written item by item, `linesOf(item)` being the lines one
      item's text adds. */
  function WrittenLines<T>(items: seq<T>, linesOf: T -> seq<string>): seq<string> {
    if |items| == 0 then []
    else WrittenLines(items[..|items| - 1], linesOf) + linesOf(items[|items| - 1])
  }

  /** The lines one batch's line adds when `update_batch_status` writes it. */
  function BatchLines(b: Batch): (lines: seq<string>)
    ensures forall i :: 0 <= i < |lines| ==> '\n' !in lines[i]
  {
    TextLines(RewriteText(b))
  }

  /** The lines of the inventory file after `update_batch_status` rewrites it: the lines
      of each batch's text, written one batch after another. */
  function RewriteLines(inventory: seq<Batch>): (lines: seq<string>)
    ensures forall i :: 0 <= i < |lines| ==> '\n' !in lines[i]
  {
    WrittenBatchLinesFree(inventory);
    WrittenLines(inventory, BatchLines)
  }

  /** The lines the rewrite writes hold no line break. */
  lemma {:induction false} WrittenBatchLinesFree(inventory: seq<Batch>)
    ensures forall i :: 0 <= i < |WrittenLines(inventory, BatchLines)| ==> '\n' !in WrittenLines(inventory, BatchLines)[i]
  {
    if |inventory| > 0 {
      var prefix, last := inventory[..|inventory| - 1], inventory[|inventory| - 1];
      WrittenBatchLinesFree(prefix);
      var before, added := WrittenLines(prefix, BatchLines), BatchLines(last);
      var lines := WrittenLines(inventory, BatchLines);
      assert lines == before + added;
      forall i | 0 <= i < |lines|
        ensures '\n' !in lines[i]
      {
        if i < |before| {
          assert lines[i] == before[i];
        } else {
          assert lines[i] == added[i - |before|];
        }
      }
    }
  }

  /** Replacing a file by lines free of line breaks keeps every stored line so. */
  lemma WellFormedReplace(fs: Files, path: string, lines: seq<string>)
    requires WellFormed(fs)
    requires forall i :: 0 <= i < |lines| ==> '\n' !in lines[i]
    ensures WellFormed(fs[path := lines])
  {
  }

  /** `add_bean_batch`: refuse when a required key is missing or the id is already in the
      inventory; otherwise append the batch line and log the addition. */
  function AddBatch(fs: Files, data: map<string, string>, path: string, now: string): (r: (bool, Files))
    ensures !r.0 ==> r.1 == fs
    ensures WellFormed(fs) ==> WellFormed(r.1)
  {
    if !HasBatchFields(data) then (false, fs)
    else if FindBatch(Inventory(Lines(fs, path)), data["batch_id"]).Some? then (false, fs)
    else (true, LogOperation(AppendText(fs, path, BatchText(data)), now, "add_batch",
                             "Added batch " + data["batch_id"]))
  }

  /** `update_batch_status`: refuse when no batch has the id; otherwise rewrite the whole
      inventory file with that batch's status replaced, and log the update. */
  function UpdateStatus(fs: Files, batchId: string, status: string, path: string, now: string): (r: (bool, Files))
    ensures r.0 <==> FindBatch(Inventory(Lines(fs, path)), batchId).Some?
    ensures !r.0 ==> r.1 == fs
    ensures WellFormed(fs) ==> WellFormed(r.1)
  {
    var inventory := Inventory(Lines(fs, path));
    if FindIndex(inventory, batchId).None? then (false, fs)
    else (true, LogOperation(fs[path := RewriteLines(SetStatus(inventory, batchId, status))], now,
                             "update_status", "Updated batch " + batchId + " status to " + status))
  }

  /** `record_processing_stage`: refuse when a required key is missing; otherwise append the
      record, move the batch to the new stage in the default inventory file (whatever that
      update returns), and log the recording. */
  function RecordStage(fs: Files, data: map<string, string>, path: string, now: string): (r: (bool, Files))
    ensures r.0 <==> HasProcessingFields(data)
    ensures !r.0 ==> r.1 == fs
    ensures WellFormed(fs) ==> WellFormed(r.1)
  {
    if !HasProcessingFields(data) then (false, fs)
    else
      var appended := AppendText(fs, path, ProcessingText(data));
      var (_, updated) := UpdateStatus(appended, data["batch_id"], data["process_type"], InventoryPath, now);
      (true, LogOperation(updated, now, "record_processing",
                          "Recorded " + data["process_type"] + " for batch " + data["batch_id"]))
  }

  // ----- Properties -----

  /** Rewriting an inventory of safe batches and reading the file back gives the same
      batches, one line each. */
  lemma {:induction false} RewriteReadBack(inventory: seq<Batch>)
    requires forall k :: 0 <= k < |inventory| ==> SafeBatch(inventory[k]) && IsCanonical(inventory[k].weight)
    ensures ReadLines(RewriteLines(inventory), ParseBatchLine) == Some(inventory)
    ensures |RewriteLines(inventory)| == |inventory|
  {
    if |inventory| > 0 {
      var prefix, last := inventory[..|inventory| - 1], inventory[|inventory| - 1];
      assert SafeBatch(last) && IsCanonical(last.weight);
      forall k | 0 <= k < |prefix|
        ensures SafeBatch(prefix[k]) && IsCanonical(prefix[k].weight)
      {
        assert prefix[k] == inventory[k];
      }
      RewriteReadBack(prefix);
      var line := LineOfRewrite(last);
      RewriteLinesLast(inventory, line);
      ReadLinesAppendRow(RewriteLines(prefix), line, prefix, last, ParseBatchLine);
      SplitLast(inventory);
    }
  }

  /** Writing one more item. */
  lemma WrittenLinesStep<T>(items: seq<T>, k: nat, linesOf: T -> seq<string>)
    requires k < |items|
    ensures WrittenLines(items[..k + 1], linesOf) == WrittenLines(items[..k], linesOf) + linesOf(items[k])
  {
    assert items[..k + 1][..k] == items[..k];
  }

  lemma RewriteLinesLast(inventory: seq<Batch>, line: string)
    requires |inventory| > 0 && TextLines(RewriteText(inventory[|inventory| - 1])) == [line]
    ensures RewriteLines(inventory) == RewriteLines(inventory[..|inventory| - 1]) + [line]
  {
  }

  lemma SplitLast<T>(s: seq<T>)
    requires |s| > 0
    ensures s[..|s| - 1] + [s[|s| - 1]] == s
  {
  }


  lemma LineOfRewrite(b: Batch) returns (line: string)
    requires SafeBatch(b) && IsCanonical(b.weight)
    ensures TextLines(RewriteText(b)) == [line] && ParseBatchLine(line) == Row(b)
  {
    BatchLineRoundTrip(b);
    line := Join(BatchFieldsOf(b), ',');
  }

  /** `add_bean_batch` succeeds exactly when every required key is present and no batch
      in the inventory has the id; a refusal writes nothing, a success appends the line to
      the inventory file and one line to the log, and no other file changes. */
  lemma AddBatchOutcome(fs: Files, data: map<string, string>, path: string, now: string)
    ensures var (ok, after) := AddBatch(fs, data, path, now);
            && (ok <==> HasBatchFields(data) && FindBatch(Inventory(Lines(fs, path)), data["batch_id"]).None?)
            && (!ok ==> after == fs)
            && (ok && path != LogPath ==>
                  Lines(after, path) == Lines(fs, path) + TextLines(BatchText(data))
                  && Lines(after, LogPath) == Lines(fs, LogPath)
                       + TextLines(LogText(now, "add_batch", "Added batch " + data["batch_id"])))
            && (forall p :: p != path && p != LogPath ==> Lines(after, p) == Lines(fs, p))
  {
  }

  /** After a safe batch with a numeric weight is added to a readable inventory, the
      inventory reads as before with the batch at the end, and looking up its id finds it. */
  lemma AddThenFind(fs: Files, data: map<string, string>, path: string, now: string)
    requires HasBatchFields(data) && SafeRow(BatchValues(data)) && ParseNumber(data["weight_kg"]).Some?
    requires path != LogPath
    requires ReadLines(Lines(fs, path), ParseBatchLine).Some?
    requires FindBatch(Inventory(Lines(fs, path)), data["batch_id"]).None?
    ensures var (ok, after) := AddBatch(fs, data, path, now);
            && ok
            && Inventory(Lines(after, path)) == Inventory(Lines(fs, path)) + [BatchOf(data)]
            && FindBatch(Inventory(Lines(after, path)), data["batch_id"]) == Some(BatchOf(data))
  {
    AddBatchOutcome(fs, data, path, now);
    var (ok, after) := AddBatch(fs, data, path, now);
    BatchTextRoundTrip(data);
    var line := Join(BatchValues(data), ',');
    var inv := Inventory(Lines(fs, path));
    ReadLinesAppendRow(Lines(fs, path), line, inv, BatchOf(data), ParseBatchLine);
    FindAppended(inv, BatchOf(data));
  }

  /** A batch appended after the batches that do not have its id is the one found for it. */
  lemma FindAppended(inventory: seq<Batch>, b: Batch)
    requires FindBatch(inventory, b.batchId).None?
    ensures FindBatch(inventory + [b], b.batchId) == Some(b)
  {
    var all := inventory + [b];
    assert all[|inventory|] == b;
    assert forall j :: 0 <= j < |inventory| ==> all[j] == inventory[j];
  }

  /** `add_bean_batch` does not check that the weight is a number: a batch whose weight
      `float()` rejects is still added, and from then on the inventory reads as empty. */
  lemma AddBadWeight(fs: Files, data: map<string, string>, path: string, now: string)
    requires HasBatchFields(data) && SafeRow(BatchValues(data)) && ParseNumber(data["weight_kg"]).None?
    requires path != LogPath
    requires FindBatch(Inventory(Lines(fs, path)), data["batch_id"]).None?
    ensures var (ok, after) := AddBatch(fs, data, path, now);
            ok && Inventory(Lines(after, path)) == []
  {
    AddBatchOutcome(fs, data, path, now);
    BatchTextBadWeight(data);
    var line := Join(BatchValues(data), ',');
    ReadLinesAppend(Lines(fs, path), line, ParseBatchLine);
  }

  /** `update_batch_status` on an id no batch has returns false and writes nothing. */
  lemma UpdateStatusMissing(fs: Files, batchId: string, status: string, path: string, now: string)
    requires FindBatch(Inventory(Lines(fs, path)), batchId).None?
    ensures UpdateStatus(fs, batchId, status, path, now) == (false, fs)
  {
  }

  /** After a successful status update of an inventory of safe batches, the file holds one
      line per batch and reads back as the inventory with only the first matching batch's
      status changed; only the inventory file and the log change. */
  lemma UpdateThenRead(fs: Files, batchId: string, status: string, path: string, now: string)
    requires path != LogPath
    requires FindBatch(Inventory(Lines(fs, path)), batchId).Some?
    requires forall k :: 0 <= k < |Inventory(Lines(fs, path))| ==> SafeBatch(Inventory(Lines(fs, path))[k])
    requires SafeField(status) && (status == "" || !IsSpace(status[|status| - 1]))
    ensures var (ok, after) := UpdateStatus(fs, batchId, status, path, now);
            && ok
            && Inventory(Lines(after, path)) == SetStatus(Inventory(Lines(fs, path)), batchId, status)
            && |Lines(after, path)| == |Inventory(Lines(fs, path))|
            && Lines(after, LogPath) == Lines(fs, LogPath)
                 + TextLines(LogText(now, "update_status", "Updated batch " + batchId + " status to " + status))
            && (forall p :: p != path && p != LogPath ==> Lines(after, p) == Lines(fs, p))
  {
    var inv := Inventory(Lines(fs, path));
    var updated := SetStatus(inv, batchId, status);
    UpdateStatusFound(fs, batchId, status, path, now);
    InventoryCanonical(Lines(fs, path));
    SetStatusSafe(inv, batchId, status);
    RewriteReadBack(updated);
  }

  /** A status update that finds the batch returns true, replaces the file with the
      rewritten inventory and appends the update to the log. */
  lemma UpdateStatusFound(fs: Files, batchId: string, status: string, path: string, now: string)
    requires path != LogPath
    requires FindBatch(Inventory(Lines(fs, path)), batchId).Some?
    ensures var (ok, after) := UpdateStatus(fs, batchId, status, path, now);
            && ok
            && Lines(after, path) == RewriteLines(SetStatus(Inventory(Lines(fs, path)), batchId, status))
            && Lines(after, LogPath) == Lines(fs, LogPath)
                 + TextLines(LogText(now, "update_status", "Updated batch " + batchId + " status to " + status))
            && (forall p :: p != path && p != LogPath ==> Lines(after, p) == Lines(fs, p))
  {
    var rewritten := fs[path := RewriteLines(SetStatus(Inventory(Lines(fs, path)), batchId, status))];
    assert Lines(rewritten, path) == RewriteLines(SetStatus(Inventory(Lines(fs, path)), batchId, status));
    assert Lines(rewritten, LogPath) == Lines(fs, LogPath);
  }

  /** After the first batch with an id gets a new status, looking that id up finds the
      same batch with the new status and every other field as it was. */
  lemma SetStatusFind(inventory: seq<Batch>, batchId: string, status: string)
    requires FindBatch(inventory, batchId).Some?
    ensures FindBatch(SetStatus(inventory, batchId, status), batchId)
            == Some(FindBatch(inventory, batchId).value.(status := status))
  {
    var i := FindIndex(inventory, batchId).value;
    var updated := SetStatus(inventory, batchId, status);
    assert updated[i] == inventory[i].(status := status);
    assert forall j :: 0 <= j < i ==> updated[j].batchId == inventory[j].batchId;
    assert FindIndex(updated, batchId) == Some(i);
  }

  /** A status update of an inventory of safe batches, followed by a lookup of the same id,
      finds the batch with the new status. */
  lemma UpdateThenFind(fs: Files, batchId: string, status: string, path: string, now: string)
    requires path != LogPath
    requires FindBatch(Inventory(Lines(fs, path)), batchId).Some?
    requires forall k :: 0 <= k < |Inventory(Lines(fs, path))| ==> SafeBatch(Inventory(Lines(fs, path))[k])
    requires SafeField(status) && (status == "" || !IsSpace(status[|status| - 1]))
    ensures var (ok, after) := UpdateStatus(fs, batchId, status, path, now);
            var found := FindBatch(Inventory(Lines(after, path)), batchId);
            && ok
            && found == Some(FindBatch(Inventory(Lines(fs, path)), batchId).value.(status := status))
            && found.value.status == status
  {
    UpdateThenRead(fs, batchId, status, path, now);
    SetStatusFind(Inventory(Lines(fs, path)), batchId, status);
  }

  /** Giving a batch a safe status keeps an inventory of safe, canonical batches so. */
  lemma SetStatusSafe(inventory: seq<Batch>, batchId: string, status: string)
    requires forall k :: 0 <= k < |inventory| ==> SafeBatch(inventory[k]) && IsCanonical(inventory[k].weight)
    requires SafeField(status) && (status == "" || !IsSpace(status[|status| - 1]))
    ensures var updated := SetStatus(inventory, batchId, status);
            forall k :: 0 <= k < |updated| ==> SafeBatch(updated[k]) && IsCanonical(updated[k].weight)
  {
    var updated := SetStatus(inventory, batchId, status);
    forall k | 0 <= k < |updated|
      ensures SafeBatch(updated[k]) && IsCanonical(updated[k].weight)
    {
      var b, u := inventory[k], updated[k];
      assert SafeBatch(b);
      var before := [b.batchId, b.date, b.farmerId, b.beanType, "0", b.status];
      var after := [u.batchId, u.date, u.farmerId, u.beanType, "0", u.status];
      assert forall i :: 0 <= i < 5 ==> after[i] == before[i];
    }
  }

  /** `record_processing_stage` with a required key missing returns false and writes nothing. */
  lemma RecordStageMissing(fs: Files, data: map<string, string>, path: string, now: string)
    requires !HasProcessingFields(data)
    ensures RecordStage(fs, data, path, now) == (false, fs)
  {
  }

  /** With every key present, `record_processing_stage` returns true and appends the record;
      the inventory file becomes what the status update makes of it, and the log ends with
      the recording. */
  lemma RecordStageOutcome(fs: Files, data: map<string, string>, path: string, now: string)
    requires HasProcessingFields(data)
    requires path != InventoryPath && path != LogPath
    ensures var (ok, after) := RecordStage(fs, data, path, now);
            var (_, updated) := UpdateStatus(fs, data["batch_id"], data["process_type"], InventoryPath, now);
            && ok
            && Lines(after, path) == Lines(fs, path) + TextLines(ProcessingText(data))
            && Lines(after, InventoryPath) == Lines(updated, InventoryPath)
            && Lines(after, LogPath) == Lines(updated, LogPath)
                 + TextLines(LogText(now, "record_processing",
                                     "Recorded " + data["process_type"] + " for batch " + data["batch_id"]))
            && (forall p :: p != path && p != InventoryPath && p != LogPath ==> Lines(after, p) == Lines(fs, p))
  {
    var id, ty := data["batch_id"], data["process_type"];
    var appended := AppendText(fs, path, ProcessingText(data));
    assert Lines(appended, InventoryPath) == Lines(fs, InventoryPath);
    if FindBatch(Inventory(Lines(fs, InventoryPath)), id).Some? {
      UpdateStatusFound(appended, id, ty, InventoryPath, now);
      UpdateStatusFound(fs, id, ty, InventoryPath, now);
    } else {
      UpdateStatusMissing(appended, id, ty, InventoryPath, now);
      UpdateStatusMissing(fs, id, ty, InventoryPath, now);
    }
  }

  /** A stage recorded for a batch the inventory does not hold is still appended and
      reported as a success; the inventory file is left as it was and the log gains only
      the recording. */
  lemma RecordStageUnknownBatch(fs: Files, data: map<string, string>, path: string, now: string)
    requires HasProcessingFields(data)
    requires path != InventoryPath && path != LogPath
    requires FindBatch(Inventory(Lines(fs, InventoryPath)), data["batch_id"]).None?
    ensures var (ok, after) := RecordStage(fs, data, path, now);
            && ok
            && Lines(after, path) == Lines(fs, path) + TextLines(ProcessingText(data))
            && Lines(after, InventoryPath) == Lines(fs, InventoryPath)
            && Lines(after, LogPath) == Lines(fs, LogPath)
                 + TextLines(LogText(now, "record_processing",
                                     "Recorded " + data["process_type"] + " for batch " + data["batch_id"]))
  {
    RecordStageOutcome(fs, data, path, now);
  }

  /** A safe processing record with a numeric weight, recorded in a readable file, is read
      back at the end of the processing records. */
  lemma RecordThenRead(fs: Files, data: map<string, string>, path: string, now: string)
    requires HasProcessingFields(data) && SafeRow(ProcessingValues(data))
    requires ParseNumber(data["weight_after"]).Some?
    requires path != InventoryPath && path != LogPath
    requires ReadLines(Lines(fs, path), ParseProcessingLine).Some?
    ensures var (ok, after) := RecordStage(fs, data, path, now);
            ProcessingRecords(Lines(after, path)) == ProcessingRecords(Lines(fs, path)) + [ProcessingRecordOf(data)]
  {
    RecordStageOutcome(fs, data, path, now);
    ProcessingTextRoundTrip(data);
    var line := Join(ProcessingValues(data), ',');
    ReadLinesAppend(Lines(fs, path), line, ParseProcessingLine);
  }
}
