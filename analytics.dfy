/** The two reports: the inventory summary (count, total weight, weight per bean type and
    per status) and the processing yields (average yield and count per process type). */
module Analytics {
  import opened Wrappers
  import opened Numbers
  import opened Records
  import opened Store

  // ----- Dictionaries in insertion order -----

  /** The keys of a dictionary kept as (key, value) pairs in insertion order. */
  function Keys<V>(groups: seq<(string, V)>): (ks: seq<string>)
    ensures |ks| == |groups| && forall i :: 0 <= i < |groups| ==> ks[i] == groups[i].0
  {
    if |groups| == 0 then [] else [groups[0].0] + Keys(groups[1..])
  }

  /** The distinct elements of `ks`, each where it first appears. */
  function Distinct(ks: seq<string>): (r: seq<string>)
    ensures forall x :: x in r <==> x in ks
    ensures forall i, j :: 0 <= i < j < |r| ==> r[i] != r[j]
  {
    if |ks| == 0 then []
    else
      var rest := Distinct(ks[..|ks| - 1]);
      assert forall x :: x in ks <==> x in ks[..|ks| - 1] || x == ks[|ks| - 1] by {
        assert ks == ks[..|ks| - 1] + [ks[|ks| - 1]];
      }
      if ks[|ks| - 1] in rest then rest else rest + [ks[|ks| - 1]]
  }

  /** The value stored under `k`, or 0 when there is none. */
  function Lookup(groups: seq<(string, real)>, k: string): real {
    if |groups| == 0 then 0.0
    else if groups[0].0 == k then groups[0].1
    else Lookup(groups[1..], k)
  }

  function SumValues(groups: seq<(string, real)>): real {
    if |groups| == 0 then 0.0 else groups[0].1 + SumValues(groups[1..])
  }

  /** `d[k] = 0` when `k` is new, then `d[k] += w`. */
  function AddWeight(groups: seq<(string, real)>, k: string, w: real): (r: seq<(string, real)>)
    ensures Keys(r) == if k in Keys(groups) then Keys(groups) else Keys(groups) + [k]
    ensures SumValues(r) == SumValues(groups) + w
    ensures forall k' :: Lookup(r, k') == Lookup(groups, k') + (if k' == k then w else 0.0)
  {
    if |groups| == 0 then [(k, w)]
    else if groups[0].0 == k then [(k, groups[0].1 + w)] + groups[1..]
    else
      var rest := AddWeight(groups[1..], k, w);
      var r := [groups[0]] + rest;
      assert Keys(r) == [groups[0].0] + Keys(rest);
      assert Keys(groups) == [groups[0].0] + Keys(groups[1..]);
      assert r[1..] == rest;
      r
  }

  // ----- Inventory summary -----

  /** The two groupings of the summary: by `bean_type` and by `status`. */
  datatype Grouping = ByBeanType | ByStatus

  function KeyOf(b: Batch, g: Grouping): string {
    match g
    case ByBeanType => b.beanType
    case ByStatus => b.status
  }

  function BatchKeys(inventory: seq<Batch>, g: Grouping): (ks: seq<string>)
    ensures |ks| == |inventory| && forall i :: 0 <= i < |inventory| ==> ks[i] == KeyOf(inventory[i], g)
  {
    if |inventory| == 0 then []
    else BatchKeys(inventory[..|inventory| - 1], g) + [KeyOf(inventory[|inventory| - 1], g)]
  }

  function TotalWeight(inventory: seq<Batch>): real {
    if |inventory| == 0 then 0.0
    else TotalWeight(inventory[..|inventory| - 1]) + Value(inventory[|inventory| - 1].weight)
  }

  /** The total weight of the batches whose key under `g` is `k`. */
  function WeightWhere(inventory: seq<Batch>, g: Grouping, k: string): real {
    if |inventory| == 0 then 0.0
    else
      var last := inventory[|inventory| - 1];
      WeightWhere(inventory[..|inventory| - 1], g, k) + (if KeyOf(last, g) == k then Value(last.weight) else 0.0)
  }

  /** The loop that fills `bean_types` or `stages`. */
  function GroupWeights(inventory: seq<Batch>, g: Grouping): seq<(string, real)> {
    if |inventory| == 0 then []
    else
      var last := inventory[|inventory| - 1];
      AddWeight(GroupWeights(inventory[..|inventory| - 1], g), KeyOf(last, g), Value(last.weight))
  }

  datatype Summary = Summary(totalBatches: nat, totalWeight: real,
                             beanTypes: seq<(string, real)>, stages: seq<(string, real)>)

  /** `calculate_inventory_summary` on an inventory that was read: nothing for an empty
      inventory, otherwise the count, the total and the two groupings. */
  function Summarize(inventory: seq<Batch>): Option<Summary> {
    if |inventory| == 0 then None
    else Some(Summary(|inventory|, TotalWeight(inventory),
                      GroupWeights(inventory, ByBeanType), GroupWeights(inventory, ByStatus)))
  }

  /** The keys of a grouping are the distinct keys of the batches in first-appearance
      order, the weight under each key is the weight of the batches with that key, and the
      weights add up to the total. */
  lemma GroupWeightsSpec(inventory: seq<Batch>, g: Grouping)
    ensures Keys(GroupWeights(inventory, g)) == Distinct(BatchKeys(inventory, g))
    ensures SumValues(GroupWeights(inventory, g)) == TotalWeight(inventory)
    ensures forall k :: Lookup(GroupWeights(inventory, g), k) == WeightWhere(inventory, g, k)
  {
    GroupWeightsKeys(inventory, g);
    GroupWeightsSum(inventory, g);
    forall k ensures Lookup(GroupWeights(inventory, g), k) == WeightWhere(inventory, g, k) {
      GroupWeightsLookup(inventory, g, k);
    }
  }

  lemma {:induction false} GroupWeightsKeys(inventory: seq<Batch>, g: Grouping)
    ensures Keys(GroupWeights(inventory, g)) == Distinct(BatchKeys(inventory, g))
  {
    if |inventory| > 0 {
      var prefix := inventory[..|inventory| - 1];
      GroupWeightsKeys(prefix, g);
      var ks := BatchKeys(inventory, g);
      assert ks[..|ks| - 1] == BatchKeys(prefix, g);
    }
  }

  lemma {:induction false} GroupWeightsSum(inventory: seq<Batch>, g: Grouping)
    ensures SumValues(GroupWeights(inventory, g)) == TotalWeight(inventory)
  {
    if |inventory| > 0 {
      GroupWeightsSum(inventory[..|inventory| - 1], g);
    }
  }

  lemma {:induction false} GroupWeightsLookup(inventory: seq<Batch>, g: Grouping, k: string)
    ensures Lookup(GroupWeights(inventory, g), k) == WeightWhere(inventory, g, k)
  {
    if |inventory| > 0 {
      GroupWeightsLookup(inventory[..|inventory| - 1], g, k);
    }
  }

  /** The summary: none exactly for an empty inventory; otherwise `total_batches` is the
      number of batches, `total_weight` their weight, and each grouping has exactly the
      distinct bean types (statuses) as keys, the weight of their batches as values, and
      values that sum to the total weight. */
  lemma SummarizeSpec(inventory: seq<Batch>)
    ensures Summarize(inventory).None? <==> inventory == []
    ensures Summarize(inventory).Some? ==>
              var s := Summarize(inventory).value;
              && s.totalBatches == |inventory|
              && s.totalWeight == TotalWeight(inventory)
              && Keys(s.beanTypes) == Distinct(BatchKeys(inventory, ByBeanType))
              && Keys(s.stages) == Distinct(BatchKeys(inventory, ByStatus))
              && SumValues(s.beanTypes) == s.totalWeight
              && SumValues(s.stages) == s.totalWeight
              && (forall k :: Lookup(s.beanTypes, k) == WeightWhere(inventory, ByBeanType, k))
              && (forall k :: Lookup(s.stages, k) == WeightWhere(inventory, ByStatus, k))
  {
    GroupWeightsSpec(inventory, ByBeanType);
    GroupWeightsSpec(inventory, ByStatus);
  }

  // ----- Processing yields -----

  /** The average yield percentage and the number of records it averages. */
  datatype YieldStat = YieldStat(averageYieldPercentage: real, count: nat)

  /** The records kept under `k`, or none when `k` is not a key. */
  function GroupOf(groups: seq<(string, seq<ProcessingRecord>)>, k: string): seq<ProcessingRecord> {
    if |groups| == 0 then []
    else if groups[0].0 == k then groups[0].1
    else GroupOf(groups[1..], k)
  }

  /** `process_types[t].append(record)`, with `process_types[t] = []` first when `t` is new. */
  function AddRecord(groups: seq<(string, seq<ProcessingRecord>)>, r: ProcessingRecord): (g: seq<(string, seq<ProcessingRecord>)>)
    ensures Keys(g) == if r.processType in Keys(groups) then Keys(groups) else Keys(groups) + [r.processType]
    ensures forall k :: GroupOf(g, k) == GroupOf(groups, k) + (if k == r.processType then [r] else [])
  {
    if |groups| == 0 then [(r.processType, [r])]
    else if groups[0].0 == r.processType then [(r.processType, groups[0].1 + [r])] + groups[1..]
    else
      var rest := AddRecord(groups[1..], r);
      var g := [groups[0]] + rest;
      assert Keys(g) == [groups[0].0] + Keys(rest);
      assert Keys(groups) == [groups[0].0] + Keys(groups[1..]);
      assert g[1..] == rest;
      g
  }

  /** The loop that groups the records by process type. */
  function GroupByProcess(records: seq<ProcessingRecord>): seq<(string, seq<ProcessingRecord>)> {
    if |records| == 0 then []
    else AddRecord(GroupByProcess(records[..|records| - 1]), records[|records| - 1])
  }

  function ProcessTypes(records: seq<ProcessingRecord>): (ts: seq<string>)
    ensures |ts| == |records| && forall i :: 0 <= i < |records| ==> ts[i] == records[i].processType
  {
    if |records| == 0 then []
    else ProcessTypes(records[..|records| - 1]) + [records[|records| - 1].processType]
  }

  /** The records of one process type, in file order. */
  function OfType(records: seq<ProcessingRecord>, t: string): (r: seq<ProcessingRecord>)
    ensures forall x :: x in r <==> x in records && x.processType == t
  {
    if |records| == 0 then []
    else
      var prefix := records[..|records| - 1];
      var last := records[|records| - 1];
      assert records == prefix + [last];
      OfType(prefix, t) + (if last.processType == t then [last] else [])
  }

  /** A record counts when its batch id is found in the inventory. */
  predicate Resolves(r: ProcessingRecord, inventory: seq<Batch>) {
    FindBatch(inventory, r.batchId).Some?
  }

  /** The number of records whose batch id is found in the inventory. */
  function CountResolving(records: seq<ProcessingRecord>, inventory: seq<Batch>): nat {
    if |records| == 0 then 0
    else
      CountResolving(records[..|records| - 1], inventory)
      + (if Resolves(records[|records| - 1], inventory) then 1 else 0)
  }

  /** The batch of a record is found and weighs 0, so the yield divides by zero. */
  predicate Hits(r: ProcessingRecord, inventory: seq<Batch>) {
    match FindBatch(inventory, r.batchId)
    case None => false
    case Some(b) => Value(b.weight) == 0.0
  }

  /** Some record's batch is found with weight 0: the division raises ZeroDivisionError. */
  predicate ZeroHit(records: seq<ProcessingRecord>, inventory: seq<Batch>) {
    exists r :: r in records && Hits(r, inventory)
  }

  /** The yield of one record against its batch's weight, in percent. */
  function YieldPct(r: ProcessingRecord, b: Batch): real
    requires Value(b.weight) != 0.0
  {
    Value(r.weightAfter) / Value(b.weight) * 100.0
  }

  /** The mean of `count` values that sum to `total`. */
  function Mean(total: real, count: nat): real
    requires count > 0
  {
    total / count as real
  }

  /** The sum of the yields of the records whose batch is found, when none divides by zero. */
  function TotalYield(records: seq<ProcessingRecord>, inventory: seq<Batch>): real
    requires !ZeroHit(records, inventory)
  {
    if |records| == 0 then 0.0
    else
      var prefix := records[..|records| - 1];
      var last := records[|records| - 1];
      assert records == prefix + [last];
      var rest := TotalYield(prefix, inventory);
      match FindBatch(inventory, last.batchId)
      case None => rest
      case Some(b) => assert !Hits(last, inventory); rest + YieldPct(last, b)
  }

  /** The inner loop over one group: the summed yield and the count of the records whose
      batch is found, or `None` when a division by zero aborts the computation. */
  function GroupYield(records: seq<ProcessingRecord>, inventory: seq<Batch>): Option<(real, nat)> {
    if |records| == 0 then Some((0.0, 0))
    else
      var last := records[|records| - 1];
      match GroupYield(records[..|records| - 1], inventory)
      case None => None
      case Some((total, count)) =>
        match FindBatch(inventory, last.batchId)
        case None => Some((total, count))
        case Some(b) =>
          if Value(b.weight) == 0.0 then None
          else Some((total + YieldPct(last, b), count + 1))
  }

  /** One round of the inner loop, on the record after a prefix that has not failed. */
  lemma GroupYieldStep(records: seq<ProcessingRecord>, k: nat, inventory: seq<Batch>, total: real, count: nat)
    requires k < |records| && GroupYield(records[..k], inventory) == Some((total, count))
    ensures GroupYield(records[..k + 1], inventory)
            == match FindBatch(inventory, records[k].batchId)
               case None => Some((total, count))
               case Some(b) =>
                 if Value(b.weight) == 0.0 then None else Some((total + YieldPct(records[k], b), count + 1))
  {
    assert records[..k + 1][..k] == records[..k];
    assert records[..k + 1][k] == records[k];
  }

  /** The statistic the loop stores for a group: the mean yield and the count, when the
      inner loop finishes with a positive count. */
  function StatOf(records: seq<ProcessingRecord>, inventory: seq<Batch>): Option<YieldStat> {
    match GroupYield(records, inventory)
    case None => None
    case Some((total, count)) =>
      if count > 0 then Some(YieldStat(Mean(total, count), count)) else None
  }

  /** One round of the outer loop. */
  function AddYield(stats: seq<(string, YieldStat)>, group: (string, seq<ProcessingRecord>), inventory: seq<Batch>)
    : Option<seq<(string, YieldStat)>>
  {
    match GroupYield(group.1, inventory)
    case None => None
    case Some((total, count)) =>
      if count > 0 then Some(stats + [(group.0, YieldStat(Mean(total, count), count))])
      else Some(stats)
  }

  /** The outer loop over the groups. */
  function YieldsOf(groups: seq<(string, seq<ProcessingRecord>)>, inventory: seq<Batch>): Option<seq<(string, YieldStat)>> {
    if |groups| == 0 then Some([])
    else
      match YieldsOf(groups[..|groups| - 1], inventory)
      case None => None
      case Some(stats) => AddYield(stats, groups[|groups| - 1], inventory)
  }

  /** `calculate_processing_yields` on the records and the inventory that were read; the
      exception of a zero weight makes it return an empty dictionary. */
  function Yields(records: seq<ProcessingRecord>, inventory: seq<Batch>): seq<(string, YieldStat)> {
    OrEmpty(YieldsOf(GroupByProcess(records), inventory))
  }

  /** No key appears twice, as in a dictionary. */
  predicate DistinctKeys<V>(groups: seq<(string, V)>) {
    forall a, b :: 0 <= a < b < |groups| ==> groups[a].0 != groups[b].0
  }

  // ----- Properties of the yields -----

  /** The count is positive exactly when the batch of some record is found. */
  lemma {:induction false} CountPositive(records: seq<ProcessingRecord>, inventory: seq<Batch>)
    ensures CountResolving(records, inventory) > 0 <==> exists r :: r in records && Resolves(r, inventory)
  {
    if |records| > 0 {
      var prefix := records[..|records| - 1];
      CountPositive(prefix, inventory);
      assert records == prefix + [records[|records| - 1]];
    }
  }

  /** The inner loop fails exactly when a record's batch weighs 0; otherwise it gives the
      sum of the yields and the number of records whose batch is found. */
  lemma GroupYieldSpec(records: seq<ProcessingRecord>, inventory: seq<Batch>)
    ensures GroupYield(records, inventory).None? <==> ZeroHit(records, inventory)
    ensures GroupYield(records, inventory).Some? ==>
              GroupYield(records, inventory).value == (TotalYield(records, inventory), CountResolving(records, inventory))
  {
    GroupYieldFails(records, inventory);
    if GroupYield(records, inventory).Some? {
      GroupYieldValue(records, inventory);
    }
  }

  lemma {:induction false} GroupYieldFails(records: seq<ProcessingRecord>, inventory: seq<Batch>)
    ensures GroupYield(records, inventory).None? <==> ZeroHit(records, inventory)
  {
    if |records| > 0 {
      var prefix := records[..|records| - 1];
      var last := records[|records| - 1];
      GroupYieldFails(prefix, inventory);
      ZeroHitSnoc(records, inventory);
    }
  }

  /** A record of the whole divides by zero exactly when one of the prefix or the last does. */
  lemma ZeroHitSnoc(records: seq<ProcessingRecord>, inventory: seq<Batch>)
    requires |records| > 0
    ensures ZeroHit(records, inventory)
            <==> ZeroHit(records[..|records| - 1], inventory) || Hits(records[|records| - 1], inventory)
  {
    var prefix := records[..|records| - 1];
    var last := records[|records| - 1];
    assert records == prefix + [last];
    assert forall r :: r in records <==> r in prefix || r == last;
  }

  lemma {:induction false} GroupYieldValue(records: seq<ProcessingRecord>, inventory: seq<Batch>)
    requires GroupYield(records, inventory).Some?
    ensures !ZeroHit(records, inventory)
    ensures GroupYield(records, inventory).value == (TotalYield(records, inventory), CountResolving(records, inventory))
  {
    GroupYieldFails(records, inventory);
    if |records| > 0 {
      var prefix := records[..|records| - 1];
      GroupYieldValue(prefix, inventory);
      assert records == prefix + [records[|records| - 1]];
    }
  }

  /** A group gets a statistic exactly when no record divides by zero and some record's
      batch is found; the statistic counts those records and averages their yields. */
  lemma StatOfSpec(records: seq<ProcessingRecord>, inventory: seq<Batch>)
    ensures StatOf(records, inventory).Some? <==>
              !ZeroHit(records, inventory) && exists r :: r in records && Resolves(r, inventory)
    ensures StatOf(records, inventory).Some? ==>
              var stat := StatOf(records, inventory).value;
              && !ZeroHit(records, inventory)
              && stat.count == CountResolving(records, inventory) > 0
              && stat.averageYieldPercentage == TotalYield(records, inventory) / stat.count as real
  {
    GroupYieldSpec(records, inventory);
    CountPositive(records, inventory);
  }

  /** Grouping keeps the distinct process types in first-appearance order, and the group of
      a type holds exactly the records of that type, in file order. */
  lemma {:induction false} GroupByProcessSpec(records: seq<ProcessingRecord>)
    ensures Keys(GroupByProcess(records)) == Distinct(ProcessTypes(records))
    ensures forall t :: GroupOf(GroupByProcess(records), t) == OfType(records, t)
  {
    if |records| > 0 {
      var prefix := records[..|records| - 1];
      GroupByProcessSpec(prefix);
      var ts := ProcessTypes(records);
      assert ts[..|ts| - 1] == ProcessTypes(prefix);
    }
  }

  /** With distinct keys, the records at a position are the group of its key. */
  lemma {:induction false} GroupAt(groups: seq<(string, seq<ProcessingRecord>)>, j: nat)
    requires j < |groups| && DistinctKeys(groups)
    ensures GroupOf(groups, groups[j].0) == groups[j].1
  {
    if j > 0 {
      assert groups[0].0 != groups[j].0;
      assert DistinctKeys(groups[1..]) by {
        assert forall a :: 0 <= a < |groups| - 1 ==> groups[1..][a] == groups[a + 1];
      }
      GroupAt(groups[1..], j - 1);
    }
  }

  /** The process types of the records are keys of their grouping, once each. */
  lemma GroupsDistinct(records: seq<ProcessingRecord>)
    ensures DistinctKeys(GroupByProcess(records))
  {
    var groups := GroupByProcess(records);
    GroupByProcessSpec(records);
    forall a, b | 0 <= a < b < |groups|
      ensures groups[a].0 != groups[b].0
    {
      assert Keys(groups)[a] != Keys(groups)[b];
    }
  }

  /** The group at a position holds the records of its process type. */
  lemma GroupAtIndex(records: seq<ProcessingRecord>, j: nat)
    requires j < |GroupByProcess(records)|
    ensures GroupByProcess(records)[j].1 == OfType(records, GroupByProcess(records)[j].0)
  {
    GroupByProcessSpec(records);
    GroupsDistinct(records);
    GroupAt(GroupByProcess(records), j);
  }

  /** Each process type that occurs has a group, holding the records of that type. */
  lemma GroupIndex(records: seq<ProcessingRecord>, r: ProcessingRecord) returns (j: nat)
    requires r in records
    ensures j < |GroupByProcess(records)|
    ensures GroupByProcess(records)[j] == (r.processType, OfType(records, r.processType))
  {
    var groups := GroupByProcess(records);
    GroupByProcessSpec(records);
    var i :| 0 <= i < |records| && records[i] == r;
    var ts := ProcessTypes(records);
    assert ts[i] == r.processType;
    assert r.processType in Keys(groups);
    j :| 0 <= j < |groups| && Keys(groups)[j] == r.processType;
    GroupAtIndex(records, j);
  }

  /** The outer loop fails exactly when some inner loop does. */
  lemma YieldsOfNone(groups: seq<(string, seq<ProcessingRecord>)>, inventory: seq<Batch>)
    ensures YieldsOf(groups, inventory).None? <==>
              exists j :: 0 <= j < |groups| && GroupYield(groups[j].1, inventory).None?
  {
    if YieldsOf(groups, inventory).None? {
      YieldsOfFails(groups, inventory);
    } else {
      YieldsOfSucceeds(groups, inventory);
    }
  }

  lemma {:induction false} YieldsOfFails(groups: seq<(string, seq<ProcessingRecord>)>, inventory: seq<Batch>)
    requires YieldsOf(groups, inventory).None?
    ensures exists j :: 0 <= j < |groups| && GroupYield(groups[j].1, inventory).None?
  {
    var prefix := groups[..|groups| - 1];
    if YieldsOf(prefix, inventory).None? {
      YieldsOfFails(prefix, inventory);
      var j :| 0 <= j < |prefix| && GroupYield(prefix[j].1, inventory).None?;
      assert prefix[j] == groups[j];
    } else {
      assert GroupYield(groups[|groups| - 1].1, inventory).None?;
    }
  }

  lemma {:induction false} YieldsOfSucceeds(groups: seq<(string, seq<ProcessingRecord>)>, inventory: seq<Batch>)
    requires YieldsOf(groups, inventory).Some?
    ensures forall j :: 0 <= j < |groups| ==> GroupYield(groups[j].1, inventory).Some?
  {
    if |groups| > 0 {
      var prefix := groups[..|groups| - 1];
      YieldsOfSucceeds(prefix, inventory);
      forall j | 0 <= j < |groups|
        ensures GroupYield(groups[j].1, inventory).Some?
      {
        if j < |prefix| {
          assert prefix[j] == groups[j];
        }
      }
    }
  }

  /** When the outer loop succeeds, its keys are those of the groups that have a statistic. */
  lemma YieldsOfKeys(groups: seq<(string, seq<ProcessingRecord>)>, inventory: seq<Batch>)
    requires YieldsOf(groups, inventory).Some?
    ensures forall t :: t in Keys(YieldsOf(groups, inventory).value) <==>
              exists j :: 0 <= j < |groups| && groups[j].0 == t && StatOf(groups[j].1, inventory).Some?
  {
    YieldsOfStats(groups, inventory);
    YieldsOfComplete(groups, inventory);
    var y := YieldsOf(groups, inventory).value;
    forall t | t in Keys(y)
      ensures exists j :: 0 <= j < |groups| && groups[j].0 == t && StatOf(groups[j].1, inventory).Some?
    {
      var i :| 0 <= i < |y| && Keys(y)[i] == t;
      assert y[i].0 == t;
    }
  }

  /** Every group with a statistic gets an entry. */
  lemma {:induction false} YieldsOfComplete(groups: seq<(string, seq<ProcessingRecord>)>, inventory: seq<Batch>)
    requires YieldsOf(groups, inventory).Some?
    ensures forall j :: 0 <= j < |groups| && StatOf(groups[j].1, inventory).Some? ==>
              groups[j].0 in Keys(YieldsOf(groups, inventory).value)
  {
    if |groups| > 0 {
      var prefix := groups[..|groups| - 1];
      var last := groups[|groups| - 1];
      YieldsOfComplete(prefix, inventory);
      var stats := YieldsOf(prefix, inventory).value;
      var y := YieldsOf(groups, inventory).value;
      if StatOf(last.1, inventory).Some? {
        assert y == stats + [(last.0, StatOf(last.1, inventory).value)];
        assert Keys(y) == Keys(stats) + [last.0];
      } else {
        assert y == stats;
      }
      forall j | 0 <= j < |prefix|
        ensures prefix[j] == groups[j]
      {
      }
    }
  }

  /** When the outer loop succeeds, each entry is the statistic of a group with its key. */
  lemma {:induction false} YieldsOfStats(groups: seq<(string, seq<ProcessingRecord>)>, inventory: seq<Batch>)
    requires YieldsOf(groups, inventory).Some?
    ensures var y := YieldsOf(groups, inventory).value;
            forall i :: 0 <= i < |y| ==>
              exists j :: 0 <= j < |groups| && groups[j].0 == y[i].0 && StatOf(groups[j].1, inventory) == Some(y[i].1)
  {
    if |groups| > 0 {
      var prefix := groups[..|groups| - 1];
      var last := groups[|groups| - 1];
      YieldsOfStats(prefix, inventory);
      var stats := YieldsOf(prefix, inventory).value;
      var y := YieldsOf(groups, inventory).value;
      forall i | 0 <= i < |y|
        ensures exists j :: 0 <= j < |groups| && groups[j].0 == y[i].0 && StatOf(groups[j].1, inventory) == Some(y[i].1)
      {
        if i < |stats| {
          assert y[i] == stats[i];
          var j :| 0 <= j < |prefix| && prefix[j].0 == stats[i].0 && StatOf(prefix[j].1, inventory) == Some(stats[i].1);
          assert prefix[j] == groups[j];
        } else {
          assert groups[|groups| - 1] == last;
        }
      }
    }
  }

  /** The outer loop over groups with distinct keys gives distinct keys. */
  lemma {:induction false} YieldsOfDistinct(groups: seq<(string, seq<ProcessingRecord>)>, inventory: seq<Batch>)
    requires YieldsOf(groups, inventory).Some? && DistinctKeys(groups)
    ensures DistinctKeys(YieldsOf(groups, inventory).value)
  {
    if |groups| > 0 {
      var prefix := groups[..|groups| - 1];
      var last := groups[|groups| - 1];
      assert forall j :: 0 <= j < |prefix| ==> prefix[j] == groups[j];
      assert DistinctKeys(prefix);
      YieldsOfDistinct(prefix, inventory);
      YieldsOfKeys(prefix, inventory);
      var stats := YieldsOf(prefix, inventory).value;
      assert forall j :: 0 <= j < |prefix| ==> prefix[j].0 != last.0;
      assert last.0 !in Keys(stats);
    }
  }

  /** The records of one type divide by zero only when the records do. */
  lemma ZeroHitOfType(records: seq<ProcessingRecord>, t: string, inventory: seq<Batch>)
    requires !ZeroHit(records, inventory)
    ensures !ZeroHit(OfType(records, t), inventory)
  {
  }

  /** A record whose batch weighs 0 makes the whole result empty. */
  lemma YieldsZero(records: seq<ProcessingRecord>, inventory: seq<Batch>)
    requires ZeroHit(records, inventory)
    ensures Yields(records, inventory) == []
  {
    var groups := GroupByProcess(records);
    var r :| r in records && Hits(r, inventory);
    var j := GroupIndex(records, r);
    assert r in groups[j].1;
    GroupYieldSpec(groups[j].1, inventory);
    YieldsOfNone(groups, inventory);
  }

  /** Without such a record the outer loop runs to the end. */
  lemma YieldsComplete(records: seq<ProcessingRecord>, inventory: seq<Batch>)
    requires !ZeroHit(records, inventory)
    ensures YieldsOf(GroupByProcess(records), inventory).Some?
  {
    var groups := GroupByProcess(records);
    forall j | 0 <= j < |groups|
      ensures GroupYield(groups[j].1, inventory).Some?
    {
      GroupAtIndex(records, j);
      ZeroHitOfType(records, groups[j].0, inventory);
      GroupYieldSpec(groups[j].1, inventory);
    }
    YieldsOfNone(groups, inventory);
  }

  /** A type with a record whose batch is found gets an entry. */
  lemma YieldsHasType(records: seq<ProcessingRecord>, inventory: seq<Batch>, r: ProcessingRecord)
    requires !ZeroHit(records, inventory) && r in records && Resolves(r, inventory)
    ensures YieldsOf(GroupByProcess(records), inventory).Some?
    ensures r.processType in Keys(Yields(records, inventory))
  {
    var groups := GroupByProcess(records);
    YieldsComplete(records, inventory);
    var j := GroupIndex(records, r);
    ZeroHitOfType(records, r.processType, inventory);
    assert r in groups[j].1;
    StatOfSpec(groups[j].1, inventory);
    YieldsOfComplete(groups, inventory);
  }

  /** An entry's type has a record whose batch is found. */
  lemma YieldsTypeResolves(records: seq<ProcessingRecord>, inventory: seq<Batch>, t: string)
    requires YieldsOf(GroupByProcess(records), inventory).Some?
    requires t in Keys(Yields(records, inventory))
    ensures exists r :: r in records && r.processType == t && Resolves(r, inventory)
  {
    var groups := GroupByProcess(records);
    YieldsOfKeys(groups, inventory);
    var j :| 0 <= j < |groups| && groups[j].0 == t && StatOf(groups[j].1, inventory).Some?;
    GroupAtIndex(records, j);
    StatOfSpec(groups[j].1, inventory);
    var r :| r in groups[j].1 && Resolves(r, inventory);
    assert r in records && r.processType == t;
  }

  /** Each entry holds the statistic of the records of its type. */
  lemma YieldsEntries(records: seq<ProcessingRecord>, inventory: seq<Batch>)
    requires YieldsOf(GroupByProcess(records), inventory).Some?
    ensures var y := Yields(records, inventory);
            forall i :: 0 <= i < |y| ==> StatOf(OfType(records, y[i].0), inventory) == Some(y[i].1)
  {
    var groups := GroupByProcess(records);
    var y := Yields(records, inventory);
    YieldsOfStats(groups, inventory);
    forall i | 0 <= i < |y|
      ensures StatOf(OfType(records, y[i].0), inventory) == Some(y[i].1)
    {
      var j :| 0 <= j < |groups| && groups[j].0 == y[i].0 && StatOf(groups[j].1, inventory) == Some(y[i].1);
      GroupAtIndex(records, j);
    }
  }

  /** `calculate_processing_yields`: empty when some record's batch weighs 0; otherwise one
      entry per process type that has a record whose batch is found, no type twice, each
      holding the statistic of the records of that type. */
  lemma YieldsSpec(records: seq<ProcessingRecord>, inventory: seq<Batch>)
    ensures ZeroHit(records, inventory) ==> Yields(records, inventory) == []
    ensures !ZeroHit(records, inventory) ==>
              var y := Yields(records, inventory);
              && DistinctKeys(y)
              && (forall t :: t in Keys(y) <==> exists r :: r in records && r.processType == t && Resolves(r, inventory))
              && (forall i :: 0 <= i < |y| ==> StatOf(OfType(records, y[i].0), inventory) == Some(y[i].1))
  {
    if ZeroHit(records, inventory) {
      YieldsZero(records, inventory);
    } else {
      var groups := GroupByProcess(records);
      YieldsComplete(records, inventory);
      GroupsDistinct(records);
      YieldsOfDistinct(groups, inventory);
      YieldsEntries(records, inventory);
      var y := Yields(records, inventory);
      forall t
        ensures t in Keys(y) <==> exists r :: r in records && r.processType == t && Resolves(r, inventory)
      {
        if exists r :: r in records && r.processType == t && Resolves(r, inventory) {
          var r :| r in records && r.processType == t && Resolves(r, inventory);
          YieldsHasType(records, inventory, r);
        }
        if t in Keys(y) {
          YieldsTypeResolves(records, inventory, t);
        }
      }
    }
  }
}
