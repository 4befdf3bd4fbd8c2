/** The two record files of the plant, as comma-separated lines: how a line is read into a
    batch or a processing record, how the whole file is read, and how lines are written. */
module Records {
  import opened Wrappers
  import opened Text
  import opened Numbers

  /** A row of the bean inventory; the weight is the float `float(parts[4])`. */
  datatype Batch = Batch(batchId: string, date: string, farmerId: string, beanType: string,
                         weight: Decimal, status: string)

  /** A row of the processing records; the weight is the float `float(parts[4])`. */
  datatype ProcessingRecord = ProcessingRecord(batchId: string, processType: string,
                                               startDate: string, endDate: string,
                                               weightAfter: Decimal)

  /** What one line contributes to a read: nothing (blank, or too few fields), one record,
      or a weight `float()` rejects, which aborts the whole read. */
  datatype LineResult<T> = Skip | Row(value: T) | BadNumber

  /** The keys `add_bean_batch` and `record_processing_stage` require, in the order the
      written line lists their values. */
  const BatchFields: seq<string> := ["batch_id", "date", "farmer_id", "bean_type", "weight_kg", "status"]
  const ProcessingFields: seq<string> := ["batch_id", "process_type", "start_date", "end_date", "weight_after"]

  predicate HasFields(data: map<string, string>, fields: seq<string>) {
    forall i :: 0 <= i < |fields| ==> fields[i] in data
  }

  predicate HasBatchFields(data: map<string, string>) {
    "batch_id" in data && "date" in data && "farmer_id" in data && "bean_type" in data
    && "weight_kg" in data && "status" in data
  }

  predicate HasProcessingFields(data: map<string, string>) {
    "batch_id" in data && "process_type" in data && "start_date" in data && "end_date" in data
    && "weight_after" in data
  }

  /** The check over the list of required batch keys is the check of each key. */
  lemma BatchFieldsPresent(data: map<string, string>)
    ensures HasFields(data, BatchFields) <==> HasBatchFields(data)
  {
    var f := BatchFields;
    assert f[0] == "batch_id" && f[1] == "date" && f[2] == "farmer_id";
    assert f[3] == "bean_type" && f[4] == "weight_kg" && f[5] == "status";
  }

  /** The check over the list of required processing keys is the check of each key. */
  lemma ProcessingFieldsPresent(data: map<string, string>)
    ensures HasFields(data, ProcessingFields) <==> HasProcessingFields(data)
  {
    var f := ProcessingFields;
    assert f[0] == "batch_id" && f[1] == "process_type" && f[2] == "start_date";
    assert f[3] == "end_date" && f[4] == "weight_after";
  }

  /** The six values `add_bean_batch` writes, in the order of the line. */
  function BatchValues(data: map<string, string>): seq<string>
    requires HasBatchFields(data)
  {
    [data["batch_id"], data["date"], data["farmer_id"], data["bean_type"], data["weight_kg"], data["status"]]
  }

  /** The five values `record_processing_stage` writes, in the order of the line. */
  function ProcessingValues(data: map<string, string>): seq<string>
    requires HasProcessingFields(data)
  {
    [data["batch_id"], data["process_type"], data["start_date"], data["end_date"], data["weight_after"]]
  }

  /** One line of the inventory file: blank lines and lines with fewer than six fields are
      skipped, fields after the sixth are ignored. */
  function ParseBatchLine(line: string): (r: LineResult<Batch>)
    ensures r.Row? ==> IsCanonical(r.value.weight)
  {
    var t := Strip(line);
    if t == "" then Skip
    else
      var parts := Split(t, ',');
      if |parts| < 6 then Skip else BatchOfParts(parts)
  }

  /** The batch the first six fields of a line describe. */
  function BatchOfParts(parts: seq<string>): LineResult<Batch>
    requires |parts| >= 6
  {
    match ParseFloat(parts[4])
    case None => BadNumber
    case Some(w) => Row(Batch(parts[0], parts[1], parts[2], parts[3], w, parts[5]))
  }

  /** One line of the processing file: blank lines and lines with fewer than five fields are
      skipped, fields after the fifth are ignored. */
  function ParseProcessingLine(line: string): (r: LineResult<ProcessingRecord>)
    ensures r.Row? ==> IsCanonical(r.value.weightAfter)
  {
    var t := Strip(line);
    if t == "" then Skip
    else
      var parts := Split(t, ',');
      if |parts| < 5 then Skip else RecordOfParts(parts)
  }

  /** The processing record the first five fields of a line describe. */
  function RecordOfParts(parts: seq<string>): LineResult<ProcessingRecord>
    requires |parts| >= 5
  {
    match ParseFloat(parts[4])
    case None => BadNumber
    case Some(w) => Row(ProcessingRecord(parts[0], parts[1], parts[2], parts[3], w))
  }

  /** Reading a file line by line: the records of the kept lines in line order, or `None`
      (the exception that makes the reader return an empty list) as soon as one line has a
      weight that does not parse. */
  function ReadLines<T>(lines: seq<string>, parse: string -> LineResult<T>): (r: Option<seq<T>>)
    ensures r.Some? ==> |r.value| <= |lines|
  {
    if |lines| == 0 then Some([])
    else
      var last := lines[|lines| - 1];
      var prefix := lines[..|lines| - 1];
      match ReadLines(prefix, parse)
      case None => None
      case Some(rows) =>
        match parse(last)
        case Skip => Some(rows)
        case Row(x) => Some(rows + [x])
        case BadNumber => None
  }

  /** Reading fails exactly when some line has a weight that does not parse. */
  lemma {:induction false} ReadLinesNone<T>(lines: seq<string>, parse: string -> LineResult<T>)
    ensures ReadLines(lines, parse).None? <==> exists i :: 0 <= i < |lines| && parse(lines[i]).BadNumber?
  {
    if |lines| > 0 {
      var prefix := lines[..|lines| - 1];
      ReadLinesNone(prefix, parse);
      assert forall i :: 0 <= i < |prefix| ==> prefix[i] == lines[i];
    }
  }

  /** Reading one more line. */
  lemma ReadLinesStep<T>(lines: seq<string>, i: nat, parse: string -> LineResult<T>)
    requires i < |lines|
    ensures ReadLines(lines[..i + 1], parse)
            == match ReadLines(lines[..i], parse)
               case None => None
               case Some(rows) =>
                 match parse(lines[i])
                 case Skip => Some(rows)
                 case Row(x) => Some(rows + [x])
                 case BadNumber => None
  {
    assert lines[..i + 1][..i] == lines[..i];
  }

  function OrEmpty<T>(r: Option<seq<T>>): seq<T> {
    match r
    case None => []
    case Some(rows) => rows
  }

  /** `read_inventory` on the lines of a file. */
  function Inventory(lines: seq<string>): seq<Batch> {
    OrEmpty(ReadLines(lines, ParseBatchLine))
  }

  /** `read_processing_records` on the lines of a file. */
  function ProcessingRecords(lines: seq<string>): seq<ProcessingRecord> {
    OrEmpty(ReadLines(lines, ParseProcessingLine))
  }

  /** The line `add_bean_batch` appends: the six required values, comma-separated. */
  function BatchText(data: map<string, string>): string
    requires HasBatchFields(data)
  {
    Join(BatchValues(data), ',') + "\n"
  }

  /** The line `record_processing_stage` appends: the five required values, comma-separated. */
  function ProcessingText(data: map<string, string>): string
    requires HasProcessingFields(data)
  {
    Join(ProcessingValues(data), ',') + "\n"
  }

  function BatchFieldsOf(b: Batch): seq<string> {
    [b.batchId, b.date, b.farmerId, b.beanType, FloatText(b.weight), b.status]
  }

  /** The line `update_batch_status` writes back for a batch it read (the weight as the
      float's repr). */
  function RewriteText(b: Batch): string {
    Join(BatchFieldsOf(b), ',') + "\n"
  }

  /** A value that can be written into a comma-separated line and read back unchanged: no
      comma, and neither `'\n'` nor `'\r'`, each of which ends a line when Python reads the
      file in universal-newline mode. */
  predicate SafeField(s: string) {
    ',' !in s && '\n' !in s && '\r' !in s
  }

  /** Values that survive being joined into one line, stripped and split again: none holds
      a comma, a `'\n'` or a `'\r'`, the first does not begin and the last does not end with
      white space. */
  predicate SafeRow(fields: seq<string>) {
    && |fields| >= 1
    && (forall i :: 0 <= i < |fields| ==> SafeField(fields[i]))
    && (fields[0] == "" || !IsSpace(fields[0][0]))
    && (fields[|fields| - 1] == "" || !IsSpace(fields[|fields| - 1][|fields[|fields| - 1]| - 1]))
  }

  /** A batch whose text fields survive being written into a line and read back. */
  predicate SafeBatch(b: Batch) {
    SafeRow([b.batchId, b.date, b.farmerId, b.beanType, "0", b.status])
  }

  /** The batch that `data` describes, once written and read back. */
  function BatchOf(data: map<string, string>): Batch
    requires HasBatchFields(data) && ParseNumber(data["weight_kg"]).Some?
  {
    Batch(data["batch_id"], data["date"], data["farmer_id"], data["bean_type"],
          ParseFloat(data["weight_kg"]).value, data["status"])
  }

  /** The processing record that `data` describes, once written and read back. */
  function ProcessingRecordOf(data: map<string, string>): ProcessingRecord
    requires HasProcessingFields(data) && ParseNumber(data["weight_after"]).Some?
  {
    ProcessingRecord(data["batch_id"], data["process_type"], data["start_date"], data["end_date"],
                     ParseFloat(data["weight_after"]).value)
  }

  // ----- Properties of a read -----

  /** The records of two consecutive runs of lines are those of the first run followed by
      those of the second; a bad weight in either aborts the read. */
  lemma {:induction false} ReadLinesConcat<T>(a: seq<string>, b: seq<string>, parse: string -> LineResult<T>)
    ensures ReadLines(a + b, parse)
            == if ReadLines(a, parse).Some? && ReadLines(b, parse).Some?
               then Some(ReadLines(a, parse).value + ReadLines(b, parse).value)
               else None
    decreases |b|
  {
    if |b| == 0 {
      assert a + b == a;
      assert ReadLines(b, parse) == Some([]);
      if ReadLines(a, parse).Some? {
        assert ReadLines(a, parse).value + [] == ReadLines(a, parse).value;
      }
    } else {
      var b' := b[..|b| - 1];
      assert (a + b)[..|a + b| - 1] == a + b';
      assert (a + b)[|a + b| - 1] == b[|b| - 1];
      ReadLinesConcat(a, b', parse);
      var rb' := ReadLines(b', parse);
      if ReadLines(a, parse).Some? && rb'.Some? {
        var ra := ReadLines(a, parse).value;
        match parse(b[|b| - 1])
        case Skip =>
        case BadNumber =>
        case Row(x) =>
          assert ra + rb'.value + [x] == ra + (rb'.value + [x]);
      }
    }
  }

  /** Appending one line adds its record at the end, leaves the read as it was when the
      line is skipped, and spoils the whole read when its weight does not parse. */
  lemma ReadLinesAppend<T>(lines: seq<string>, line: string, parse: string -> LineResult<T>)
    ensures ReadLines(lines + [line], parse)
            == match parse(line)
               case Skip => ReadLines(lines, parse)
               case Row(x) => if ReadLines(lines, parse).Some?
                              then Some(ReadLines(lines, parse).value + [x]) else None
               case BadNumber => None
  {
    assert (lines + [line])[..|lines|] == lines;
  }

  /** A batch line is skipped exactly when it is blank or has fewer than six fields, and
      spoils the read exactly when it is kept and its fifth field is not a number. */
  lemma BatchLineCases(line: string)
    ensures ParseBatchLine(line).Skip? <==> Strip(line) == "" || |Split(Strip(line), ',')| < 6
    ensures ParseBatchLine(line).BadNumber? <==>
              !ParseBatchLine(line).Skip? && ParseNumber(Split(Strip(line), ',')[4]).None?
  {
  }

  /** A processing line is skipped exactly when it is blank or has fewer than five fields,
      and spoils the read exactly when it is kept and its fifth field is not a number. */
  lemma ProcessingLineCases(line: string)
    ensures ParseProcessingLine(line).Skip? <==> Strip(line) == "" || |Split(Strip(line), ',')| < 5
    ensures ParseProcessingLine(line).BadNumber? <==>
              !ParseProcessingLine(line).Skip? && ParseNumber(Split(Strip(line), ',')[4]).None?
  {
  }

  lemma BatchLineParts(line: string)
    requires |Split(Strip(line), ',')| >= 6
    ensures ParseBatchLine(line) == BatchOfParts(Split(Strip(line), ','))
  {
  }

  lemma ProcessingLineParts(line: string)
    requires |Split(Strip(line), ',')| >= 5
    ensures ParseProcessingLine(line) == RecordOfParts(Split(Strip(line), ','))
  {
  }

  /** Every record of a read comes from one of the lines. */
  lemma {:induction false} ReadLinesRows<T>(lines: seq<string>, parse: string -> LineResult<T>, k: nat)
    requires ReadLines(lines, parse).Some? && k < |ReadLines(lines, parse).value|
    ensures exists i :: 0 <= i < |lines| && parse(lines[i]) == Row(ReadLines(lines, parse).value[k])
  {
    var prefix := lines[..|lines| - 1];
    var rows := ReadLines(prefix, parse).value;
    if k < |rows| {
      ReadLinesRows(prefix, parse, k);
      var i :| 0 <= i < |prefix| && parse(prefix[i]) == Row(rows[k]);
      assert lines[i] == prefix[i];
    } else {
      assert parse(lines[|lines| - 1]) == Row(ReadLines(lines, parse).value[k]);
    }
  }

  /** Every weight read from the inventory is a float, in canonical form. */
  lemma InventoryCanonical(lines: seq<string>)
    ensures forall k :: 0 <= k < |Inventory(lines)| ==> IsCanonical(Inventory(lines)[k].weight)
  {
    var r := ReadLines(lines, ParseBatchLine);
    if r.Some? {
      forall k | 0 <= k < |r.value|
        ensures IsCanonical(r.value[k].weight)
      {
        ReadLinesRows(lines, ParseBatchLine, k);
        var i :| 0 <= i < |lines| && ParseBatchLine(lines[i]) == Row(r.value[k]);
      }
    }
  }

  lemma ReadLinesAppendRow<T>(lines: seq<string>, line: string, rows: seq<T>, x: T, parse: string -> LineResult<T>)
    requires ReadLines(lines, parse) == Some(rows) && parse(line) == Row(x)
    ensures ReadLines(lines + [line], parse) == Some(rows + [x])
  {
    ReadLinesAppend(lines, line, parse);
  }

  /** Fields of a batch line after the sixth play no part in what is read. */
  lemma ExtraBatchFieldsIgnored(line1: string, line2: string)
    requires |Split(Strip(line1), ',')| >= 6 && |Split(Strip(line2), ',')| >= 6
    requires Split(Strip(line1), ',')[..6] == Split(Strip(line2), ',')[..6]
    ensures ParseBatchLine(line1) == ParseBatchLine(line2)
  {
    BatchLineParts(line1);
    BatchLineParts(line2);
    BatchPartsPrefix(Split(Strip(line1), ','), Split(Strip(line2), ','));
  }

  lemma BatchPartsPrefix(p1: seq<string>, p2: seq<string>)
    requires |p1| >= 6 && |p2| >= 6 && p1[..6] == p2[..6]
    ensures BatchOfParts(p1) == BatchOfParts(p2)
  {
    assert p1[0] == p2[0] && p1[1] == p2[1] && p1[2] == p2[2];
    assert p1[3] == p2[3] && p1[4] == p2[4] && p1[5] == p2[5];
  }

  /** Fields of a processing line after the fifth play no part in what is read. */
  lemma ExtraProcessingFieldsIgnored(line1: string, line2: string)
    requires |Split(Strip(line1), ',')| >= 5 && |Split(Strip(line2), ',')| >= 5
    requires Split(Strip(line1), ',')[..5] == Split(Strip(line2), ',')[..5]
    ensures ParseProcessingLine(line1) == ParseProcessingLine(line2)
  {
    ProcessingLineParts(line1);
    ProcessingLineParts(line2);
    RecordPartsPrefix(Split(Strip(line1), ','), Split(Strip(line2), ','));
  }

  lemma RecordPartsPrefix(p1: seq<string>, p2: seq<string>)
    requires |p1| >= 5 && |p2| >= 5 && p1[..5] == p2[..5]
    ensures RecordOfParts(p1) == RecordOfParts(p2)
  {
    assert p1[0] == p2[0] && p1[1] == p2[1] && p1[2] == p2[2];
    assert p1[3] == p2[3] && p1[4] == p2[4];
  }

  // ----- Writing and reading back -----

  /** Safe values joined with commas form one line, which strips to itself and splits back
      into the same values. */
  lemma SafeRowLine(fields: seq<string>)
    requires SafeRow(fields)
    ensures var line := Join(fields, ',');
            && TextLines(line + "\n") == [line]
            && Strip(line) == line
            && Split(line, ',') == fields
  {
    var line := Join(fields, ',');
    JoinFree(fields, ',', '\n');
    TextLinesOfLine(line);
    JoinEnds(fields, ',');
    assert Trimmed(line);
    SplitJoin(fields, ',');
  }

  /** The line `add_bean_batch` writes for safe values with a numeric weight is read back
      as the batch those values describe. */
  lemma BatchTextRoundTrip(data: map<string, string>)
    requires HasBatchFields(data) && SafeRow(BatchValues(data))
    requires ParseNumber(data["weight_kg"]).Some?
    ensures var line := Join(BatchValues(data), ',');
            && TextLines(BatchText(data)) == [line]
            && ParseBatchLine(line) == Row(BatchOf(data))
  {
    var fields := BatchValues(data);
    SafeRowLine(fields);
    var line := Join(fields, ',');
  }

  /** The line `record_processing_stage` writes for safe values with a numeric weight is
      read back as the record those values describe. */
  lemma ProcessingTextRoundTrip(data: map<string, string>)
    requires HasProcessingFields(data) && SafeRow(ProcessingValues(data))
    requires ParseNumber(data["weight_after"]).Some?
    ensures var line := Join(ProcessingValues(data), ',');
            && TextLines(ProcessingText(data)) == [line]
            && ParseProcessingLine(line) == Row(ProcessingRecordOf(data))
  {
    var fields := ProcessingValues(data);
    SafeRowLine(fields);
    var line := Join(fields, ',');
  }

  /** The line `add_bean_batch` writes when the weight is not a number makes the line a
      `BadNumber`: from then on every read of the file fails. */
  lemma BatchTextBadWeight(data: map<string, string>)
    requires HasBatchFields(data) && SafeRow(BatchValues(data))
    requires ParseNumber(data["weight_kg"]).None?
    ensures var line := Join(BatchValues(data), ',');
            && TextLines(BatchText(data)) == [line]
            && ParseBatchLine(line).BadNumber?
  {
    var fields := BatchValues(data);
    SafeRowLine(fields);
    var line := Join(fields, ',');
  }

  /** The line `update_batch_status` writes back for a safe batch is read as that batch. */
  lemma BatchLineRoundTrip(b: Batch)
    requires SafeBatch(b) && IsCanonical(b.weight)
    ensures var line := Join(BatchFieldsOf(b), ',');
            && TextLines(RewriteText(b)) == [line]
            && ParseBatchLine(line) == Row(b)
  {
    var fields := BatchFieldsOf(b);
    SafeBatchRow(b);
    SafeRowLine(fields);
    ParseFloatText(b.weight);
    assert BatchOfParts(fields) == Row(b);
  }

  lemma SafeBatchRow(b: Batch)
    requires SafeBatch(b) && IsCanonical(b.weight)
    ensures SafeRow(BatchFieldsOf(b))
  {
    var fields := BatchFieldsOf(b);
    var w := FloatText(b.weight);
    assert ',' !in w && '\n' !in w && '\r' !in w by {
      assert forall i :: 0 <= i < |w| ==> IsDigit(w[i]) || w[i] == '.' || w[i] == '-';
    }
    var probe := [b.batchId, b.date, b.farmerId, b.beanType, "0", b.status];
    assert forall i :: 0 <= i < 6 && i != 4 ==> fields[i] == probe[i];
  }
}
