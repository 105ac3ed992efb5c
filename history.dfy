/** The persisted calculation history (calculator/history.py).

    The pandas table is a sequence of records in insertion order. The backing CSV
    file is the field `disk`: `None` when the file is missing, unreadable or
    malformed, otherwise the rows it holds. Whether a write succeeds is the parameter
    `saveOk`, and the clock reading `datetime.now()` is the parameter `now`. */
module History {
  import opened Common

  /** A clock reading; the model never looks inside one. */
  type Timestamp = nat

  datatype Record = Record(timestamp: Timestamp, operation: string, x: real, y: real, result: real)

  type BackingFile = Option<seq<Record>>

  /** `to_csv` raised; the in-memory table is kept as it is. */
  datatype SaveError = SaveFailed

  /** The rows `_load_history` starts from: those of a readable file, otherwise none. */
  function Load(file: BackingFile): seq<Record> {
    match file
    case Some(rows) => rows
    case None => []
  }

  // ------------------------------------------------------------ get_history

  function Min(a: nat, b: nat): nat { if a <= b then a else b }

  /** `history.tail(k)`, and the whole table for no limit. A limit `k >= 0` keeps the
      last `min(k, n)` records; a negative limit `-j` drops the first `min(j, n)`. Either
      way the records kept are a suffix of the table, in chronological order. */
  function Tail(records: seq<Record>, limit: Option<int>): (r: seq<Record>)
    ensures limit.None? ==> r == records
    ensures limit.Some? && limit.value >= 0 ==> |r| == Min(limit.value, |records|)
    ensures limit.Some? && limit.value < 0 ==> |r| == |records| - Min(-limit.value, |records|)
    ensures records == records[..|records| - |r|] + r
  {
    match limit
    case None => records
    case Some(k) =>
      if k >= 0 then (if k >= |records| then records else records[|records| - k..])
      else (if -k >= |records| then [] else records[-k..])
  }

  /** After appending a record, a limit of one returns exactly that record. */
  lemma TailOfOneIsNewest(records: seq<Record>, newest: Record)
    ensures Tail(records + [newest], Some(1)) == [newest]
  {
    var r := Tail(records + [newest], Some(1));
    assert r[0] == (records + [newest])[|records|];
  }

  // ------------------------------------------------------------ get_statistics

  /** How many records carry `op`: never more than there are records. */
  function Count(records: seq<Record>, op: string): (r: nat)
    ensures r <= |records|
  {
    if |records| == 0 then 0
    else Count(records[..|records| - 1], op) + (if records[|records| - 1].operation == op then 1 else 0)
  }

  /** `history['operation'].value_counts().to_dict()`, tallied record by record. */
  function Tally(records: seq<Record>): map<string, nat> {
    if |records| == 0 then map[]
    else
      var m := Tally(records[..|records| - 1]);
      var op := records[|records| - 1].operation;
      m[op := (if op in m then m[op] else 0) + 1]
  }

  /** The operations that occur in `records`. */
  predicate Occurs(records: seq<Record>, op: string) {
    exists i :: 0 <= i < |records| && records[i].operation == op
  }

  /** The tally has a key for exactly the operations that occur, and each count is the
      number of records carrying it. */
  lemma {:induction false} TallyCounts(records: seq<Record>, op: string)
    ensures op in Tally(records) <==> Occurs(records, op)
    ensures op in Tally(records) ==> Tally(records)[op] == Count(records, op)
    ensures op !in Tally(records) ==> Count(records, op) == 0
    decreases |records|
  {
    if |records| > 0 {
      var n := |records| - 1;
      var init := records[..n];
      TallyCounts(init, op);
      if Occurs(init, op) {
        var i :| 0 <= i < |init| && init[i].operation == op;
        assert records[i] == init[i];
      }
      if Occurs(records, op) && records[n].operation != op {
        var i :| 0 <= i < |records| && records[i].operation == op;
        assert init[i] == records[i];
      }
    }
  }

  /** The sum of a map's values. */
  ghost function SumValues(m: map<string, nat>): nat
    decreases |m|
  {
    if m == map[] then 0
    else
      var k :| k in m;
      m[k] + SumValues(m - {k})
  }

  /** The sum does not depend on which key is taken out first. */
  lemma {:induction false} SumValuesWithout(m: map<string, nat>, k: string)
    requires k in m
    ensures SumValues(m) == m[k] + SumValues(m - {k})
    decreases |m|
  {
    var j :| j in m && SumValues(m) == m[j] + SumValues(m - {j});
    if j != k {
      var mj, mk := m - {j}, m - {k};
      assert |mj| < |m| && |mk| < |m| by {
        assert mj.Keys == m.Keys - {j} && mk.Keys == m.Keys - {k};
      }
      SumValuesWithout(mj, k);
      SumValuesWithout(mk, j);
      assert mj - {k} == mk - {j};
    }
  }

  /** However the operations are tallied, the counts add up to the number of records. */
  lemma {:induction false} TallySumsToTotal(records: seq<Record>)
    ensures SumValues(Tally(records)) == |records|
    decreases |records|
  {
    if |records| > 0 {
      var n := |records| - 1;
      var m := Tally(records[..n]);
      var op := records[n].operation;
      TallySumsToTotal(records[..n]);
      var m' := m[op := (if op in m then m[op] else 0) + 1];
      SumValuesWithout(m', op);
      assert m' - {op} == m - {op};
      if op in m {
        SumValuesWithout(m, op);
      } else {
        assert m - {op} == m;
      }
    }
  }

  function SumResults(records: seq<Record>): real {
    if |records| == 0 then 0.0 else SumResults(records[..|records| - 1]) + records[|records| - 1].result
  }

  /** `history['result'].max()` of a non-empty table. */
  function MaxResult(records: seq<Record>): (r: real)
    requires |records| > 0
    ensures forall i :: 0 <= i < |records| ==> records[i].result <= r
    ensures exists i :: 0 <= i < |records| && records[i].result == r
  {
    var last := records[|records| - 1].result;
    if |records| == 1 then last
    else
      var m := MaxResult(records[..|records| - 1]);
      assert forall i :: 0 <= i < |records| - 1 ==> records[i] == records[..|records| - 1][i];
      if m < last then last else m
  }

  /** `history['result'].min()` of a non-empty table. */
  function MinResult(records: seq<Record>): (r: real)
    requires |records| > 0
    ensures forall i :: 0 <= i < |records| ==> r <= records[i].result
    ensures exists i :: 0 <= i < |records| && records[i].result == r
  {
    var last := records[|records| - 1].result;
    if |records| == 1 then last
    else
      var m := MinResult(records[..|records| - 1]);
      assert forall i :: 0 <= i < |records| - 1 ==> records[i] == records[..|records| - 1][i];
      if last < m then last else m
  }

  /** A sum of `n` results each between `lo` and `hi` lies between `n * lo` and `n * hi`. */
  lemma {:induction false} SumBetween(records: seq<Record>, lo: real, hi: real)
    requires forall i :: 0 <= i < |records| ==> lo <= records[i].result <= hi
    ensures |records| as real * lo <= SumResults(records) <= |records| as real * hi
    decreases |records|
  {
    if |records| > 0 {
      var n := |records| - 1;
      assert forall i :: 0 <= i < n ==> records[..n][i] == records[i];
      SumBetween(records[..n], lo, hi);
      assert (n + 1) as real * lo == n as real * lo + lo;
      assert (n + 1) as real * hi == n as real * hi + hi;
    }
  }

  /** Dividing bounds `n * lo <= total <= n * hi` by a positive `n`. */
  lemma QuotientBetween(total: real, n: real, lo: real, hi: real)
    requires n > 0.0
    requires n * lo <= total <= n * hi
    ensures lo <= total / n <= hi
  {
    assert (total / n) * n == total;
  }

  /** The mean of a non-empty table whose results all lie between `lo` and `hi` lies
      between them too. */
  lemma MeanBetween(records: seq<Record>, lo: real, hi: real)
    requires |records| > 0
    requires forall i :: 0 <= i < |records| ==> lo <= records[i].result <= hi
    ensures lo <= SumResults(records) / |records| as real <= hi
  {
    SumBetween(records, lo, hi);
    QuotientBetween(SumResults(records), |records| as real, lo, hi);
  }

  /** The dictionary `get_statistics` returns. pandas gives NaN for the mean, maximum
      and minimum of an empty column; the model gives None. */
  datatype Statistics = Statistics(
    totalCalculations: nat,
    operationsCount: map<string, nat>,
    averageResult: Option<real>,
    maxResult: Option<real>,
    minResult: Option<real>)

  /** The statistics of a table: its size, the count of each operation (adding up to the
      size), and the mean (the sum of the results over their count), maximum and minimum
      of the results, ordered min <= mean <= max, with max and min attained by some
      record, whenever there is a record at all. */
  function StatisticsOf(records: seq<Record>): (s: Statistics)
    ensures s.totalCalculations == |records|
    ensures forall op :: op in s.operationsCount <==> Occurs(records, op)
    ensures forall op :: op in s.operationsCount ==> s.operationsCount[op] == Count(records, op)
    ensures SumValues(s.operationsCount) == s.totalCalculations
    ensures s.averageResult.Some? <==> |records| > 0
    ensures |records| > 0 ==> s.averageResult == Some(SumResults(records) / |records| as real)
    ensures s.maxResult.Some? <==> |records| > 0
    ensures s.minResult.Some? <==> |records| > 0
    ensures |records| > 0 ==> s.minResult.value <= s.averageResult.value <= s.maxResult.value
    ensures |records| > 0 ==> forall i :: 0 <= i < |records| ==>
              s.minResult.value <= records[i].result <= s.maxResult.value
    ensures |records| > 0 ==> exists i :: 0 <= i < |records| && records[i].result == s.maxResult.value
    ensures |records| > 0 ==> exists i :: 0 <= i < |records| && records[i].result == s.minResult.value
  {
    TallySumsToTotal(records);
    forall op ensures (op in Tally(records) <==> Occurs(records, op))
                   && (op in Tally(records) ==> Tally(records)[op] == Count(records, op)) {
      TallyCounts(records, op);
    }
    if |records| == 0 then
      Statistics(0, Tally(records), None, None, None)
    else
      MeanBetween(records, MinResult(records), MaxResult(records));
      Statistics(|records|, Tally(records), Some(SumResults(records) / |records| as real),
                 Some(MaxResult(records)), Some(MinResult(records)))
  }

  // ------------------------------------------------------------ the store

  class CalculationHistory {
    var records: seq<Record>
    var disk: BackingFile

    /** `CalculationHistory(file)`: never fails; an unusable file gives an empty table. */
    constructor (file: BackingFile)
      ensures disk == file
      ensures records == Load(file)
      ensures file.None? ==> records == []
    {
      disk := file;
      records := Load(file);
    }

    /** `_save_history`: writes the whole table, or raises and leaves the file as it was. */
    method SaveHistory(saveOk: bool) returns (r: Result<(), SaveError>)
      modifies this
      ensures records == old(records)
      ensures r.Ok? <==> saveOk
      ensures saveOk ==> disk == Some(records)
      ensures !saveOk ==> disk == old(disk)
    {
      if saveOk {
        disk := Some(records);
        r := Ok(());
      } else {
        r := Err(SaveFailed);
      }
    }

    /** `add_calculation`: appends one record, then saves. A failed save is passed on,
        but the appended record stays in memory. */
    method AddCalculation(operation: string, x: real, y: real, result: real, now: Timestamp, saveOk: bool)
      returns (r: Result<(), SaveError>)
      modifies this
      ensures records == old(records) + [Record(now, operation, x, y, result)]
      ensures r.Ok? <==> saveOk
      ensures saveOk ==> disk == Some(records)
      ensures !saveOk ==> disk == old(disk)
    {
      records := records + [Record(now, operation, x, y, result)];
      r := SaveHistory(saveOk);
    }

    /** `get_history(limit)`. */
    function GetHistory(limit: Option<int>): (r: seq<Record>)
      reads this
      ensures r == Tail(records, limit)
    {
      Tail(records, limit)
    }

    /** `clear_history`: empties the table, then saves the empty table. A failed save is
        passed on, but the table is empty either way. */
    method ClearHistory(saveOk: bool) returns (r: Result<(), SaveError>)
      modifies this
      ensures records == []
      ensures r.Ok? <==> saveOk
      ensures saveOk ==> disk == Some([])
      ensures !saveOk ==> disk == old(disk)
    {
      records := [];
      r := SaveHistory(saveOk);
    }

    /** `get_statistics`. */
    function GetStatistics(): (s: Statistics)
      reads this
      ensures s == StatisticsOf(records)
    {
      StatisticsOf(records)
    }
  }

  /** Two additions that are saved, then a fresh store on the same file: the reloaded
      store holds the same two records, and a limit of one gives the newer one. */
  method PersistenceRoundTrip(file: BackingFile, t0: Timestamp, t1: Timestamp)
    returns (reloaded: CalculationHistory)
    requires file.None?
    ensures reloaded.records == [Record(t0, "+", 2.0, 3.0, 5.0), Record(t1, "-", 5.0, 3.0, 2.0)]
    ensures reloaded.GetHistory(Some(1)) == [Record(t1, "-", 5.0, 3.0, 2.0)]
    ensures reloaded.GetStatistics().totalCalculations == 2
  {
    var h := new CalculationHistory(file);
    var _ := h.AddCalculation("+", 2.0, 3.0, 5.0, t0, true);
    var _ := h.AddCalculation("-", 5.0, 3.0, 2.0, t1, true);
    reloaded := new CalculationHistory(h.disk);
    TailOfOneIsNewest([Record(t0, "+", 2.0, 3.0, 5.0)], Record(t1, "-", 5.0, 3.0, 2.0));
  }

  /** A failed save after an addition: the error reaches the caller, the table has still
      grown by one, and the file is what it was. */
  method FailedSaveKeepsRecord(h: CalculationHistory, now: Timestamp)
    modifies h
    ensures |h.records| == |old(h.records)| + 1
    ensures h.disk == old(h.disk)
  {
    var r := h.AddCalculation("add", 1.0, 2.0, 3.0, now, false);
    assert r.Err?;
  }
}
