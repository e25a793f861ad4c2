/** The candle store as a transactional state machine over three tables: candles by canonical key,
    one provenance per namespace, and coverage rows. */
module CandleStore {
  import opened Outcomes
  import opened Market

  datatype Namespace = Namespace(exchange: string, marketType: string, symbol: string, timeframe: Timeframe)

  datatype Key = Key(namespace: Namespace, openTime: int)

  datatype Values = Values(open: real, high: real, low: real, close: real, volume: real)

  datatype HistoricalCandle = HistoricalCandle(exchange: string, marketType: string, candle: Candle)

  datatype Provenance = Provenance(priceKind: string, source: string)

  datatype CoverageRow = CoverageRow(namespace: Namespace, start: int, end: int)

  type Candles = map<Key, Values>

  datatype Tables = Tables(candles: Candles, datasets: map<Namespace, Provenance>, coverage: set<CoverageRow>)

  datatype StoreError =
    | RegisteredNamespace
    | ConflictingCandle
    | ConflictingProvenance
    | UnknownProvenance
    | EmptyCoverage
    | ForeignRecord
    | OutsideCoverage
    | EmptyRange

  function NamespaceOf(r: HistoricalCandle): Namespace {
    Namespace(r.exchange, r.marketType, r.candle.symbol, r.candle.timeframe)
  }

  function KeyOf(r: HistoricalCandle): Key {
    Key(NamespaceOf(r), r.candle.openTime)
  }

  function ValuesOf(r: HistoricalCandle): Values {
    Values(r.candle.open, r.candle.high, r.candle.low, r.candle.close, r.candle.volume)
  }

  function DatasetNamespace(d: CandleDataset): Namespace {
    Namespace(d.exchange, d.marketType, d.symbol, d.timeframe)
  }

  // ----- the operations as functions of the tables

  /** Insert, accept an identical repeat, refuse a different value. */
  function WriteOne(candles: Candles, r: HistoricalCandle): Result<Candles, StoreError> {
    if KeyOf(r) in candles then
      if candles[KeyOf(r)] == ValuesOf(r) then Ok(candles) else Err(ConflictingCandle)
    else Ok(candles[KeyOf(r) := ValuesOf(r)])
  }

  function WriteFirst(candles: Candles, records: seq<HistoricalCandle>, n: nat): Result<Candles, StoreError>
    requires n <= |records|
  {
    if n == 0 then Ok(candles)
    else
      match WriteFirst(candles, records, n - 1)
      case Err(e) => Err(e)
      case Ok(before) => WriteOne(before, records[n - 1])
  }

  /** Unregistered records only: each is checked and written before the next. */
  function WriteUnregistered(
    datasets: map<Namespace, Provenance>, candles: Candles, records: seq<HistoricalCandle>, n: nat)
    : Result<Candles, StoreError>
    requires n <= |records|
  {
    if n == 0 then Ok(candles)
    else
      match WriteUnregistered(datasets, candles, records, n - 1)
      case Err(e) => Err(e)
      case Ok(before) =>
        if NamespaceOf(records[n - 1]) in datasets then Err(RegisteredNamespace)
        else WriteOne(before, records[n - 1])
  }

  datatype Batch =
    | PlainBatch(records: seq<HistoricalCandle>)
    | IngestionBatch(records: seq<HistoricalCandle>, dataset: CandleDataset, start: int, end: int)

  function RecordError(b: Batch, r: HistoricalCandle): Option<StoreError>
    requires b.IngestionBatch?
  {
    if NamespaceOf(r) != DatasetNamespace(b.dataset) then Some(ForeignRecord)
    else if !(b.start <= r.candle.openTime < b.end) then Some(OutsideCoverage)
    else None
  }

  /** The first record, among the first n, that the batch itself forbids. */
  function FirstRecordError(b: Batch, n: nat): (e: Option<StoreError>)
    requires b.IngestionBatch? && n <= |b.records|
    ensures e.None? <==> forall i :: 0 <= i < n ==> RecordError(b, b.records[i]).None?
  {
    if n == 0 then None
    else
      var before := FirstRecordError(b, n - 1);
      if before.Some? then before else RecordError(b, b.records[n - 1])
  }

  predicate HoldsAny(candles: Candles, ns: Namespace) {
    exists k :: k in candles && k.namespace == ns
  }

  function Register(t: Tables, d: CandleDataset): Result<map<Namespace, Provenance>, StoreError> {
    var ns, p := DatasetNamespace(d), Provenance(d.priceKind, d.source);
    if ns !in t.datasets then
      if HoldsAny(t.candles, ns) then Err(UnknownProvenance) else Ok(t.datasets[ns := p])
    else if t.datasets[ns] != p then Err(ConflictingProvenance)
    else Ok(t.datasets)
  }

  function Ingest(t: Tables, b: Batch): Result<Tables, StoreError>
    requires b.IngestionBatch?
  {
    if b.start >= b.end then Err(EmptyCoverage)
    else
      var invalid := FirstRecordError(b, |b.records|);
      if invalid.Some? then Err(invalid.value)
      else
        match Register(t, b.dataset)
        case Err(e) => Err(e)
        case Ok(datasets) =>
          match WriteFirst(t.candles, b.records, |b.records|)
          case Err(e) => Err(e)
          case Ok(candles) =>
            Ok(Tables(candles, datasets, t.coverage + {CoverageRow(DatasetNamespace(b.dataset), b.start, b.end)}))
  }

  /** A batch commits wholly or fails. */
  function Apply(t: Tables, b: Batch): Result<Tables, StoreError> {
    match b
    case PlainBatch(records) =>
      (match WriteUnregistered(t.datasets, t.candles, records, |records|)
       case Err(e) => Err(e)
       case Ok(candles) => Ok(t.(candles := candles)))
    case IngestionBatch(_, _, _, _) => Ingest(t, b)
  }

  // ----- the store object

  class HistoricalCandleStore {
    var candles: Candles
    var datasets: map<Namespace, Provenance>
    var coverage: set<CoverageRow>

    constructor ()
      ensures Contents() == Tables(map[], map[], {})
    {
      candles, datasets, coverage := map[], map[], {};
    }

    function Contents(): Tables
      reads this
    {
      Tables(candles, datasets, coverage)
    }

    /** Insert one record inside the running transaction. */
    method WriteRecord(r: HistoricalCandle) returns (failure: Option<StoreError>)
      modifies this`candles
      ensures failure.None? ==> WriteOne(old(candles), r) == Outcomes.Ok(candles)
      ensures failure.Some? ==> WriteOne(old(candles), r) == Outcomes.Err(failure.value) && candles == old(candles)
    {
      var key := KeyOf(r);
      if key in candles {
        if candles[key] == ValuesOf(r) {
          return None;
        }
        return Some(ConflictingCandle);
      }
      candles := candles[key := ValuesOf(r)];
      return None;
    }

    /** Write records of unregistered namespaces; a failure rolls the transaction back. */
    method WriteBatch(records: seq<HistoricalCandle>) returns (failure: Option<StoreError>)
      modifies this
      ensures failure.None? ==> Apply(old(Contents()), PlainBatch(records)) == Outcomes.Ok(Contents())
      ensures failure.Some? ==>
                Apply(old(Contents()), PlainBatch(records)) == Outcomes.Err(failure.value) && Contents() == old(Contents())
    {
      var saved := candles;
      for i := 0 to |records|
        invariant datasets == old(datasets) && coverage == old(coverage)
        invariant WriteUnregistered(datasets, saved, records, i) == Outcomes.Ok(candles)
      {
        UnregisteredErrorPersists(datasets, saved, records, i + 1, |records|);
        if NamespaceOf(records[i]) in datasets {
          candles := saved;
          return Some(RegisteredNamespace);
        }
        failure := WriteRecord(records[i]);
        if failure.Some? {
          candles := saved;
          return;
        }
      }
      return None;
    }

    /** Register the dataset, write the records and record the coverage, all or nothing. */
    method WriteIngestionBatch(records: seq<HistoricalCandle>, dataset: CandleDataset, start: int, end: int)
      returns (failure: Option<StoreError>)
      modifies this
      ensures var b := IngestionBatch(records, dataset, start, end);
              && (failure.None? ==> Apply(old(Contents()), b) == Outcomes.Ok(Contents()))
              && (failure.Some? ==> Apply(old(Contents()), b) == Outcomes.Err(failure.value) && Contents() == old(Contents()))
    {
      var b := IngestionBatch(records, dataset, start, end);
      if start >= end {
        return Some(EmptyCoverage);
      }
      for i := 0 to |records|
        invariant FirstRecordError(b, i).None?
        invariant Contents() == old(Contents())
      {
        var record := records[i];
        FirstErrorPersists(b, i + 1, |records|);
        if NamespaceOf(record) != DatasetNamespace(dataset) {
          return Some(ForeignRecord);
        }
        if !(start <= record.candle.openTime < end) {
          return Some(OutsideCoverage);
        }
      }
      var savedCandles, savedDatasets := candles, datasets;
      var ns, provenance := DatasetNamespace(dataset), Provenance(dataset.priceKind, dataset.source);
      if ns !in datasets {
        if HoldsAny(candles, ns) {
          return Some(UnknownProvenance);
        }
        datasets := datasets[ns := provenance];
      } else if datasets[ns] != provenance {
        return Some(ConflictingProvenance);
      }
      assert Register(old(Contents()), dataset) == Outcomes.Ok(datasets);
      ghost var registered := datasets;
      for i := 0 to |records|
        invariant datasets == registered && coverage == old(coverage)
        invariant WriteFirst(savedCandles, records, i) == Outcomes.Ok(candles)
      {
        WriteErrorPersists(savedCandles, records, i + 1, |records|);
        failure := WriteRecord(records[i]);
        if failure.Some? {
          candles, datasets := savedCandles, savedDatasets;
          return;
        }
      }
      coverage := coverage + {CoverageRow(ns, start, end)};
      return None;
    }

    /** The candles of a namespace in [start, end), by ascending open time. */
    function Query(ns: Namespace, start: int, end: int): Result<seq<HistoricalCandle>, StoreError>
      reads this
    {
      RangeQuery(candles, ns, start, end)
    }

    /** The coverage rows of a namespace that overlap [start, end). */
    function QueryCoverage(ns: Namespace, start: int, end: int): Result<set<CoverageRow>, StoreError>
      reads this
    {
      CoverageQuery(coverage, ns, start, end)
    }
  }

  lemma {:induction false} UnregisteredErrorPersists(
    datasets: map<Namespace, Provenance>, candles: Candles, records: seq<HistoricalCandle>, i: nat, n: nat)
    requires i <= n <= |records|
    ensures WriteUnregistered(datasets, candles, records, i).Err? ==>
              WriteUnregistered(datasets, candles, records, n) == WriteUnregistered(datasets, candles, records, i)
  {
    if i < n {
      UnregisteredErrorPersists(datasets, candles, records, i, n - 1);
    }
  }

  lemma {:induction false} WriteErrorPersists(candles: Candles, records: seq<HistoricalCandle>, i: nat, n: nat)
    requires i <= n <= |records|
    ensures WriteFirst(candles, records, i).Err? ==> WriteFirst(candles, records, n) == WriteFirst(candles, records, i)
  {
    if i < n {
      WriteErrorPersists(candles, records, i, n - 1);
    }
  }

  lemma {:induction false} FirstErrorPersists(b: Batch, i: nat, n: nat)
    requires b.IngestionBatch? && i <= n <= |b.records|
    ensures FirstRecordError(b, i).Some? ==> FirstRecordError(b, n) == FirstRecordError(b, i)
  {
    if i < n {
      FirstErrorPersists(b, i, n - 1);
    }
  }

  // ----- what a batch accepts, without its order of work

  ghost predicate Agrees(candles: Candles, records: seq<HistoricalCandle>, n: nat)
    requires n <= |records|
  {
    && (forall i :: 0 <= i < n && KeyOf(records[i]) in candles ==> candles[KeyOf(records[i])] == ValuesOf(records[i]))
    && (forall i, j :: 0 <= i < j < n && KeyOf(records[i]) == KeyOf(records[j]) ==>
          ValuesOf(records[i]) == ValuesOf(records[j]))
  }

  ghost predicate Merged(candles: Candles, records: seq<HistoricalCandle>, n: nat, after: Candles)
    requires n <= |records|
  {
    && (forall k :: k in candles ==> k in after && after[k] == candles[k])
    && (forall i :: 0 <= i < n ==> KeyOf(records[i]) in after && after[KeyOf(records[i])] == ValuesOf(records[i]))
    && (forall k :: k in after ==> k in candles || exists i :: 0 <= i < n && KeyOf(records[i]) == k)
  }

  /** Writing in order succeeds exactly when no two values meet at one key, and gives the union. */
  lemma {:induction false} WriteMeaning(candles: Candles, records: seq<HistoricalCandle>, n: nat)
    requires n <= |records|
    ensures WriteFirst(candles, records, n).Ok? <==> Agrees(candles, records, n)
    ensures WriteFirst(candles, records, n).Ok? ==> Merged(candles, records, n, WriteFirst(candles, records, n).value)
  {
    if n == 0 {
    } else {
      WriteMeaning(candles, records, n - 1);
      if WriteFirst(candles, records, n - 1).Ok? {
        OneMoreRecord(candles, records, n, WriteFirst(candles, records, n - 1).value);
      } else {
        assert Agrees(candles, records, n) ==> Agrees(candles, records, n - 1);
      }
    }
  }

  lemma OneMoreRecord(candles: Candles, records: seq<HistoricalCandle>, n: nat, before: Candles)
    requires 0 < n <= |records| && Agrees(candles, records, n - 1) && Merged(candles, records, n - 1, before)
    ensures WriteOne(before, records[n - 1]).Ok? <==> Agrees(candles, records, n)
    ensures WriteOne(before, records[n - 1]).Ok? ==> Merged(candles, records, n, WriteOne(before, records[n - 1]).value)
  {
    hide KeyOf, ValuesOf;
  }

  lemma {:induction false} UnregisteredMeaning(
    datasets: map<Namespace, Provenance>, candles: Candles, records: seq<HistoricalCandle>, n: nat)
    requires n <= |records|
    ensures WriteUnregistered(datasets, candles, records, n).Ok? <==>
            && (forall i :: 0 <= i < n ==> NamespaceOf(records[i]) !in datasets)
            && WriteFirst(candles, records, n).Ok?
    ensures WriteUnregistered(datasets, candles, records, n).Ok? ==>
              WriteUnregistered(datasets, candles, records, n) == WriteFirst(candles, records, n)
  {
    hide NamespaceOf, WriteOne;
    if n > 0 {
      UnregisteredMeaning(datasets, candles, records, n - 1);
    }
  }

  lemma MergedIsUnique(candles: Candles, records: seq<HistoricalCandle>, n: nat, a: Candles, b: Candles)
    requires n <= |records| && Merged(candles, records, n, a) && Merged(candles, records, n, b)
    ensures a == b
  {
    hide KeyOf, ValuesOf;
  }

  // ----- reads

  function RecordAt(candles: Candles, k: Key): HistoricalCandle
    requires k in candles
  {
    var v, ns := candles[k], k.namespace;
    HistoricalCandle(ns.exchange, ns.marketType,
                     Candle(ns.symbol, ns.timeframe, k.openTime, v.open, v.high, v.low, v.close, v.volume))
  }

  function SelectRange(candles: Candles, ns: Namespace, start: int, end: int): seq<HistoricalCandle>
    decreases end - start
  {
    if start >= end then []
    else
      (if Key(ns, start) in candles then [RecordAt(candles, Key(ns, start))] else [])
      + SelectRange(candles, ns, start + 1, end)
  }

  /** An empty requested range is an error, not an empty answer. */
  function RangeQuery(candles: Candles, ns: Namespace, start: int, end: int): Result<seq<HistoricalCandle>, StoreError> {
    if start >= end then Err(EmptyRange) else Ok(SelectRange(candles, ns, start, end))
  }

  function SelectCoverage(coverage: set<CoverageRow>, ns: Namespace, start: int, end: int): set<CoverageRow> {
    set row | row in coverage && row.namespace == ns && row.end > start && row.start < end
  }

  function CoverageQuery(coverage: set<CoverageRow>, ns: Namespace, start: int, end: int): Result<set<CoverageRow>, StoreError> {
    if start >= end then Err(EmptyRange) else Ok(SelectCoverage(coverage, ns, start, end))
  }

  /** A query refuses exactly an empty range; otherwise it returns exactly the stored candles of the
      range, in strictly ascending time. */
  lemma QueryMeaning(candles: Candles, ns: Namespace, start: int, end: int)
    ensures RangeQuery(candles, ns, start, end).Err? <==> start >= end
    ensures RangeQuery(candles, ns, start, end).Ok? ==>
              var rs := RangeQuery(candles, ns, start, end).value;
              && (forall i, j :: 0 <= i < j < |rs| ==> rs[i].candle.openTime < rs[j].candle.openTime)
              && (forall r :: r in rs <==>
                    && NamespaceOf(r) == ns && start <= r.candle.openTime < end
                    && KeyOf(r) in candles && candles[KeyOf(r)] == ValuesOf(r))
  {
    SelectionMeaning(candles, ns, start, end);
  }

  lemma {:induction false} SelectionMeaning(candles: Candles, ns: Namespace, start: int, end: int)
    ensures var rs := SelectRange(candles, ns, start, end);
            && (forall i, j :: 0 <= i < j < |rs| ==> rs[i].candle.openTime < rs[j].candle.openTime)
            && (forall r :: r in rs <==>
                  && NamespaceOf(r) == ns && start <= r.candle.openTime < end
                  && KeyOf(r) in candles && candles[KeyOf(r)] == ValuesOf(r))
    decreases end - start
  {
    if start < end {
      SelectionMeaning(candles, ns, start + 1, end);
      var head := if Key(ns, start) in candles then [RecordAt(candles, Key(ns, start))] else [];
      var tail := SelectRange(candles, ns, start + 1, end);
      assert SelectRange(candles, ns, start, end) == head + tail;
      forall r
        ensures r in head <==>
                && NamespaceOf(r) == ns && r.candle.openTime == start
                && KeyOf(r) in candles && candles[KeyOf(r)] == ValuesOf(r)
      {
      }
      forall j | 0 <= j < |tail|
        ensures tail[j].candle.openTime > start
      {
        assert tail[j] in tail;
      }
    }
  }

  // ----- what a batch needs and what it does

  ghost predicate Admits(t: Tables, b: Batch) {
    && Agrees(t.candles, b.records, |b.records|)
    && match b
       case PlainBatch(records) => forall i :: 0 <= i < |records| ==> NamespaceOf(records[i]) !in t.datasets
       case IngestionBatch(records, d, start, end) =>
         && start < end
         && (forall i :: 0 <= i < |records| ==> RecordError(b, records[i]).None?)
         && (if DatasetNamespace(d) in t.datasets
             then t.datasets[DatasetNamespace(d)] == Provenance(d.priceKind, d.source)
             else !HoldsAny(t.candles, DatasetNamespace(d)))
  }

  function Registered(datasets: map<Namespace, Provenance>, b: Batch): map<Namespace, Provenance> {
    if b.PlainBatch? then datasets
    else datasets[DatasetNamespace(b.dataset) := Provenance(b.dataset.priceKind, b.dataset.source)]
  }

  function RowsOf(b: Batch): set<CoverageRow> {
    if b.PlainBatch? then {} else {CoverageRow(DatasetNamespace(b.dataset), b.start, b.end)}
  }

  ghost predicate Became(t: Tables, b: Batch, after: Tables) {
    && Merged(t.candles, b.records, |b.records|, after.candles)
    && after.datasets == Registered(t.datasets, b)
    && after.coverage == t.coverage + RowsOf(b)
  }

  /** A batch commits exactly when it is admissible, and then adds its candles, its registration and
      its coverage and nothing else. */
  lemma BatchMeaning(t: Tables, b: Batch)
    ensures Apply(t, b).Ok? <==> Admits(t, b)
    ensures Apply(t, b).Ok? ==> Became(t, b, Apply(t, b).value)
  {
    WriteMeaning(t.candles, b.records, |b.records|);
    UnregisteredMeaning(t.datasets, t.candles, b.records, |b.records|);
    hide WriteFirst, WriteUnregistered, Agrees, Merged, RecordError, FirstRecordError, NamespaceOf, DatasetNamespace, HoldsAny;
    if b.IngestionBatch? && Register(t, b.dataset).Ok? {
      assert Register(t, b.dataset).value == Registered(t.datasets, b);
    }
  }

  // ----- invariants over every run of batches

  /** Every candle of a registered namespace lies in a coverage row of it, and every coverage row is
      a non-empty range of a registered namespace. */
  ghost predicate Provenanced(t: Tables) {
    && (forall k :: k in t.candles && k.namespace in t.datasets ==> CoveredKey(t.coverage, k))
    && (forall row :: row in t.coverage ==> row.namespace in t.datasets && row.start < row.end)
  }

  ghost predicate CoveredKey(coverage: set<CoverageRow>, k: Key) {
    exists row :: row in coverage && row.namespace == k.namespace && row.start <= k.openTime < row.end
  }

  /** Registrations and stored values never change; coverage is never withdrawn. */
  ghost predicate Extends(t: Tables, after: Tables) {
    && (forall k :: k in t.candles ==> k in after.candles && after.candles[k] == t.candles[k])
    && (forall ns :: ns in t.datasets ==> ns in after.datasets && after.datasets[ns] == t.datasets[ns])
    && t.coverage <= after.coverage
  }

  lemma BatchKeepsProvenance(t: Tables, b: Batch, after: Tables)
    requires Provenanced(t) && Admits(t, b) && Became(t, b, after)
    ensures Provenanced(after) && Extends(t, after)
  {
    forall k | k in after.candles && k.namespace in after.datasets
      ensures CoveredKey(after.coverage, k)
    {
      if k in t.candles && k.namespace in t.datasets {
        var row :| row in t.coverage && row.namespace == k.namespace && row.start <= k.openTime < row.end;
        assert row in after.coverage;
      } else {
        FreshKeyIsCovered(t, b, after, k);
      }
    }
    assert Extends(t, after);
  }

  lemma FreshKeyIsCovered(t: Tables, b: Batch, after: Tables, k: Key)
    requires Admits(t, b) && Became(t, b, after)
    requires k in after.candles && k.namespace in after.datasets && !(k in t.candles && k.namespace in t.datasets)
    ensures CoveredKey(after.coverage, k)
  {
    hide Agrees;
    if k !in t.candles {
      var i :| 0 <= i < |b.records| && KeyOf(b.records[i]) == k;
      assert b.IngestionBatch?;
      assert RecordError(b, b.records[i]).None?;
      assert CoverageRow(DatasetNamespace(b.dataset), b.start, b.end) in after.coverage;
    }
  }

  /** The tables after the first n batches; a failing batch changes nothing. */
  function RunBatches(t: Tables, batches: seq<Batch>, n: nat): Tables
    requires n <= |batches|
  {
    if n == 0 then t
    else
      var before := RunBatches(t, batches, n - 1);
      match Apply(before, batches[n - 1])
      case Ok(after) => after
      case Err(_) => before
  }

  lemma {:induction false} EveryRunKeepsProvenance(t: Tables, batches: seq<Batch>, m: nat, n: nat)
    requires m <= n <= |batches| && Provenanced(t)
    ensures Provenanced(RunBatches(t, batches, n))
    ensures Extends(RunBatches(t, batches, m), RunBatches(t, batches, n))
  {
    hide Apply, Admits, Became;
    if n > 0 {
      var before := RunBatches(t, batches, n - 1);
      if m < n {
        EveryRunKeepsProvenance(t, batches, m, n - 1);
      } else {
        EveryRunKeepsProvenance(t, batches, n - 1, n - 1);
      }
      BatchMeaning(before, batches[n - 1]);
      if Apply(before, batches[n - 1]).Ok? {
        BatchKeepsProvenance(before, batches[n - 1], Apply(before, batches[n - 1]).value);
      }
      hide Provenanced;
    }
  }

  /** After any run, every queried candle of a registered namespace lies in a queried coverage row. */
  lemma QueriedCandlesAreCovered(batches: seq<Batch>, ns: Namespace, start: int, end: int, r: HistoricalCandle)
    requires var t := RunBatches(Tables(map[], map[], {}), batches, |batches|);
             ns in t.datasets && r in SelectRange(t.candles, ns, start, end)
    ensures var t := RunBatches(Tables(map[], map[], {}), batches, |batches|);
            exists row :: row in SelectCoverage(t.coverage, ns, start, end) && row.start <= r.candle.openTime < row.end
  {
    var empty := Tables(map[], map[], {});
    assert Provenanced(empty);
    EveryRunKeepsProvenance(empty, batches, 0, |batches|);
    var t := RunBatches(empty, batches, |batches|);
    SelectionMeaning(t.candles, ns, start, end);
    assert CoveredKey(t.coverage, KeyOf(r));
  }

  /** A committed batch can be read back. */
  lemma CommittedRecordsAreRead(t: Tables, b: Batch, i: nat, start: int, end: int)
    requires Apply(t, b).Ok? && i < |b.records| && start <= b.records[i].candle.openTime < end
    ensures b.records[i] in SelectRange(Apply(t, b).value.candles, NamespaceOf(b.records[i]), start, end)
  {
    BatchMeaning(t, b);
    SelectionMeaning(Apply(t, b).value.candles, NamespaceOf(b.records[i]), start, end);
    hide Apply, SelectRange, Agrees, Admits;
  }

  /** A committed ingestion batch holds only records of its dataset inside its range, and leaves the
      dataset's provenance and its coverage row. */
  lemma IngestedRecordsFit(t: Tables, b: Batch, i: nat)
    requires Apply(t, b).Ok? && b.IngestionBatch?
    ensures b.start < b.end
    ensures i < |b.records| ==>
              var r := b.records[i];
              && r.exchange == b.dataset.exchange && r.marketType == b.dataset.marketType
              && r.candle.symbol == b.dataset.symbol && r.candle.timeframe == b.dataset.timeframe
              && b.start <= r.candle.openTime < b.end
    ensures var d, after := b.dataset, Apply(t, b).value;
            var ns := Namespace(d.exchange, d.marketType, d.symbol, d.timeframe);
            && ns in after.datasets && after.datasets[ns] == Provenance(d.priceKind, d.source)
            && CoverageRow(ns, b.start, b.end) in after.coverage
  {
    BatchMeaning(t, b);
    hide Apply, Agrees, Merged;
  }

  ghost predicate Holds(start: int, end: int, t: int) {
    start <= t < end
  }

  /** A coverage query refuses exactly an empty range, and otherwise returns exactly the rows of the
      namespace that share an instant with it. */
  lemma CoverageQueryMeaning(coverage: set<CoverageRow>, ns: Namespace, start: int, end: int, row: CoverageRow)
    requires row.start < row.end
    ensures CoverageQuery(coverage, ns, start, end).Err? <==> start >= end
    ensures start < end ==>
              (row in CoverageQuery(coverage, ns, start, end).value <==>
                 row in coverage && row.namespace == ns && exists t :: Holds(start, end, t) && Holds(row.start, row.end, t))
  {
    if start < end && row.end > start && row.start < end {
      var t := if row.start < start then start else row.start;
      assert Holds(start, end, t) && Holds(row.start, row.end, t);
    }
  }

  /** A namespace that holds candles without a registration can never be registered. */
  lemma UnregisteredStays(t: Tables, b: Batch, after: Tables, ns: Namespace)
    requires Admits(t, b) && Became(t, b, after) && ns !in t.datasets && HoldsAny(t.candles, ns)
    ensures ns !in after.datasets && HoldsAny(after.candles, ns)
  {
    hide Agrees, RecordError;
    var k :| k in t.candles && k.namespace == ns;
    assert k in after.candles;
  }

  lemma BatchExtends(t: Tables, b: Batch, after: Tables)
    requires Admits(t, b) && Became(t, b, after)
    ensures Extends(t, after)
  {
    hide Agrees, RecordError, HoldsAny;
  }

  /** What a committed batch leaves behind, and every later batch keeps. */
  ghost predicate Carries(t: Tables, b: Batch) {
    && (forall i :: 0 <= i < |b.records| ==>
          KeyOf(b.records[i]) in t.candles && t.candles[KeyOf(b.records[i])] == ValuesOf(b.records[i]))
    && (b.PlainBatch? ==> forall i :: 0 <= i < |b.records| ==> NamespaceOf(b.records[i]) !in t.datasets)
    && (b.IngestionBatch? ==>
          && b.start < b.end && (forall i :: 0 <= i < |b.records| ==> RecordError(b, b.records[i]).None?)
          && DatasetNamespace(b.dataset) in t.datasets
          && t.datasets[DatasetNamespace(b.dataset)] == Provenance(b.dataset.priceKind, b.dataset.source)
          && CoverageRow(DatasetNamespace(b.dataset), b.start, b.end) in t.coverage)
  }

  lemma CommitCarries(t: Tables, b: Batch, after: Tables)
    requires Admits(t, b) && Became(t, b, after)
    ensures Carries(after, b)
  {
    hide Agrees, RecordError, HoldsAny, KeyOf, ValuesOf, NamespaceOf;
  }

  lemma LaterCarries(t: Tables, other: Batch, after: Tables, b: Batch)
    requires Carries(t, b) && Admits(t, other) && Became(t, other, after)
    ensures Carries(after, b)
  {
    BatchExtends(t, other, after);
    if b.PlainBatch? {
      forall i | 0 <= i < |b.records|
        ensures NamespaceOf(b.records[i]) !in after.datasets
      {
        assert KeyOf(b.records[i]) in t.candles;
        UnregisteredStays(t, other, after, NamespaceOf(b.records[i]));
      }
    }
    hide Admits, Became, RecordError, ValuesOf;
  }

  /** Where everything of a batch is already held, the batch commits and changes nothing. */
  lemma CarriedIsNoOp(t: Tables, b: Batch)
    requires Carries(t, b)
    ensures Apply(t, b) == Outcomes.Ok(t)
  {
    assert Admits(t, b) by {
      hide NamespaceOf, ValuesOf, RecordError, HoldsAny;
    }
    BatchMeaning(t, b);
    var after := Apply(t, b).value;
    assert Merged(t.candles, b.records, |b.records|, t.candles) by {
      hide KeyOf, ValuesOf;
    }
    MergedIsUnique(t.candles, b.records, |b.records|, t.candles, after.candles);
    assert after.datasets == t.datasets && after.coverage == t.coverage by {
      hide Apply, Admits, Merged, RecordError;
    }
    hide Apply, Admits, Merged, RecordError;
  }

  lemma {:induction false} CarriedOnward(t: Tables, batches: seq<Batch>, m: nat, n: nat)
    requires m < n <= |batches| && Apply(RunBatches(t, batches, m), batches[m]).Ok?
    ensures Carries(RunBatches(t, batches, n), batches[m])
  {
    hide Apply, Carries, Admits, Became;
    var before := RunBatches(t, batches, n - 1);
    BatchMeaning(before, batches[n - 1]);
    if n == m + 1 {
      CommitCarries(before, batches[m], Apply(before, batches[m]).value);
    } else {
      CarriedOnward(t, batches, m, n - 1);
      if Apply(before, batches[n - 1]).Ok? {
        LaterCarries(before, batches[n - 1], Apply(before, batches[n - 1]).value, batches[m]);
      }
    }
  }

  /** A batch committed anywhere in a run is a no-op when repeated after any later batches. */
  lemma RepeatIsNoOp(t: Tables, batches: seq<Batch>, m: nat, n: nat)
    requires m < n <= |batches| && Apply(RunBatches(t, batches, m), batches[m]).Ok?
    ensures Apply(RunBatches(t, batches, n), batches[m]) == Outcomes.Ok(RunBatches(t, batches, n))
  {
    CarriedOnward(t, batches, m, n);
    CarriedIsNoOp(RunBatches(t, batches, n), batches[m]);
  }

  // ----- two committed batches commute

  lemma CandlesCommute(c: Candles, a: seq<HistoricalCandle>, b: seq<HistoricalCandle>, c1: Candles, c2: Candles)
    requires Agrees(c, a, |a|) && Merged(c, a, |a|, c1)
    requires Agrees(c1, b, |b|) && Merged(c1, b, |b|, c2)
    ensures Agrees(c, b, |b|)
    ensures forall d :: Merged(c, b, |b|, d) ==> Agrees(d, a, |a|)
    ensures forall d, e :: Merged(c, b, |b|, d) && Merged(d, a, |a|, e) ==> e == c2
  {
    hide KeyOf, ValuesOf;
  }

  lemma SecondAdmittedFirst(t: Tables, a: Batch, b: Batch, t1: Tables)
    requires Admits(t, a) && Became(t, a, t1) && Admits(t1, b) && Agrees(t.candles, b.records, |b.records|)
    ensures Admits(t, b)
  {
    hide Agrees, RecordError, NamespaceOf, DatasetNamespace;
  }

  lemma FirstAdmittedSecond(t: Tables, a: Batch, b: Batch, t1: Tables, u: Tables)
    requires Admits(t, a) && Became(t, a, t1) && Admits(t1, b) && Admits(t, b) && Became(t, b, u)
    requires Agrees(u.candles, a.records, |a.records|)
    ensures Admits(u, a)
  {
    hide Agrees;
  }

  /** Two batches that commit in one order commit in the other, to the same tables. */
  lemma BatchesCommute(t: Tables, a: Batch, b: Batch)
    requires Apply(t, a).Ok? && Apply(Apply(t, a).value, b).Ok?
    ensures Apply(t, b).Ok?
    ensures Apply(Apply(t, b).value, a) == Apply(Apply(t, a).value, b)
  {
    hide Agrees, Apply, DatasetNamespace, HoldsAny, Ingest, Merged, NamespaceOf, RecordError,
      WriteUnregistered;
    var t1 := Apply(t, a).value;
    var t2 := Apply(t1, b).value;
    BatchMeaning(t, a);
    BatchMeaning(t1, b);
    BatchMeaning(t, b);
    assert Agrees(t.candles, a.records, |a.records|) && Agrees(t1.candles, b.records, |b.records|);
    assert Merged(t.candles, a.records, |a.records|, t1.candles)
           && Merged(t1.candles, b.records, |b.records|, t2.candles);
    CandlesCommute(t.candles, a.records, b.records, t1.candles, t2.candles);
    SecondAdmittedFirst(t, a, b, t1);
    var u := Apply(t, b).value;
    assert Merged(t.candles, b.records, |b.records|, u.candles);
    FirstAdmittedSecond(t, a, b, t1, u);
    BatchMeaning(u, a);
    var v := Apply(u, a).value;
    assert Merged(u.candles, a.records, |a.records|, v.candles);
    assert v.datasets == t2.datasets && v.coverage == t2.coverage;
  }
}
