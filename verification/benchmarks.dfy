/** The read side of `app/benchmarks.py`: the live pair of summaries of the
    two global accumulators, and the per-algorithm averages over the stored
    benchmark history. The SQL query is replaced by the sequence of stored
    rows it reads: `WHERE algorithm = ?` becomes a filter on that sequence.
    The query has no `ORDER BY`, so the order of the rows it returns is not
    fixed; the model takes storage order, and `StorageOrderIrrelevant` shows
    that the result does not depend on it. */
module Benchmarks {
  import opened Stats
  import Metrics

  /** `GET /benchmarks/live`: the RSA accumulator's summary and the PQC
      accumulator's summary. Each `summary()` call reads the clock itself,
      so the two are read at two instants, RSA first. */
  datatype LiveReport = LiveReport(rsa: Metrics.Summary, pqc: Metrics.Summary)

  function GetLiveBenchmarks(rsa: Metrics.Benchmark, pqc: Metrics.Benchmark,
                             rsaNow: real, pqcNow: real, sqrt: real -> real): (r: LiveReport)
    requires IsSqrt(sqrt)
    ensures r.rsa == Metrics.Summarize(rsa, rsaNow, sqrt)
    ensures r.pqc == Metrics.Summarize(pqc, pqcNow, sqrt)
  {
    LiveReport(Metrics.Summarize(rsa, rsaNow, sqrt), Metrics.Summarize(pqc, pqcNow, sqrt))
  }

  /** The second clock reading matters only to the PQC throughput: reading
      the PQC accumulator later than the RSA one changes no other figure of
      the report, and once the PQC window is open it can only lower that
      throughput. */
  lemma LiveReadDrift(rsa: Metrics.Benchmark, pqc: Metrics.Benchmark,
                      rsaNow: real, pqcNow: real, sqrt: real -> real)
    requires IsSqrt(sqrt)
    requires rsaNow <= pqcNow
    ensures var same := GetLiveBenchmarks(rsa, pqc, rsaNow, rsaNow, sqrt);
            var r := GetLiveBenchmarks(rsa, pqc, rsaNow, pqcNow, sqrt);
            && r.rsa == same.rsa
            && r.pqc == same.pqc.(throughput := r.pqc.throughput)
            && (pqc.startTime < rsaNow ==> r.pqc.throughput <= same.pqc.throughput)
  {
    Metrics.SummaryLaterRead(pqc, rsaNow, pqcNow, sqrt);
  }

  /** The two entries are independent: a sample or an error recorded in one
      accumulator leaves the other entry as it was, and moves the own
      entry's error rate to that of one more success or failure. */
  lemma LiveRecordIsolation(rsa: Metrics.Benchmark, pqc: Metrics.Benchmark, latency: real,
                            rsaNow: real, pqcNow: real, sqrt: real -> real)
    requires IsSqrt(sqrt)
    ensures var r := GetLiveBenchmarks(rsa, pqc, rsaNow, pqcNow, sqrt);
            var rsaSample := GetLiveBenchmarks(Metrics.RecordLatency(rsa, latency), pqc, rsaNow, pqcNow, sqrt);
            var rsaError := GetLiveBenchmarks(Metrics.RecordError(rsa), pqc, rsaNow, pqcNow, sqrt);
            var pqcSample := GetLiveBenchmarks(rsa, Metrics.RecordLatency(pqc, latency), rsaNow, pqcNow, sqrt);
            var pqcError := GetLiveBenchmarks(rsa, Metrics.RecordError(pqc), rsaNow, pqcNow, sqrt);
            && rsaSample.pqc == r.pqc && rsaError.pqc == r.pqc
            && pqcSample.rsa == r.rsa && pqcError.rsa == r.rsa
            && rsaSample.rsa.errorRate == Metrics.ErrorRate(|rsa.latencies| + 1, rsa.errors)
            && rsaError.rsa.errorRate == Metrics.ErrorRate(|rsa.latencies|, rsa.errors + 1)
            && pqcSample.pqc.errorRate == Metrics.ErrorRate(|pqc.latencies| + 1, pqc.errors)
            && pqcError.pqc.errorRate == Metrics.ErrorRate(|pqc.latencies|, pqc.errors + 1)
  {
  }

  /** A stored `benchmarks` row, projected on the seven numeric columns the
      history query selects plus the `algorithm` column it filters on. */
  datatype Row = Row(
    algorithm: string,
    latency: real,
    stddev: real,
    minLatency: real,
    maxLatency: real,
    throughput: real,
    errorRate: real,
    encryptionTime: real)

  /** The seven averaged columns. */
  datatype Column =
    | Latency | Stddev | MinLatency | MaxLatency | Throughput | ErrorRate | EncryptionTime

  function Field(row: Row, c: Column): real
  {
    match c
    case Latency => row.latency
    case Stddev => row.stddev
    case MinLatency => row.minLatency
    case MaxLatency => row.maxLatency
    case Throughput => row.throughput
    case ErrorRate => row.errorRate
    case EncryptionTime => row.encryptionTime
  }

  /** One column of a row sequence, as the list comprehensions build it. */
  function Values(rows: seq<Row>, c: Column): (vs: seq<real>)
    ensures |vs| == |rows|
    ensures forall i :: 0 <= i < |rows| ==> vs[i] == Field(rows[i], c)
  {
    seq(|rows|, i requires 0 <= i < |rows| => Field(rows[i], c))
  }

  /** One element of the result list of `GET /benchmarks/history`. */
  datatype HistoryEntry = HistoryEntry(
    algorithm: string,
    avgLatency: real,
    avgStddev: real,
    avgMinLatency: real,
    avgMaxLatency: real,
    avgThroughput: real,
    avgErrorRate: real,
    avgEncryptionTime: real)

  function Average(e: HistoryEntry, c: Column): real
  {
    match c
    case Latency => e.avgLatency
    case Stddev => e.avgStddev
    case MinLatency => e.avgMinLatency
    case MaxLatency => e.avgMaxLatency
    case Throughput => e.avgThroughput
    case ErrorRate => e.avgErrorRate
    case EncryptionTime => e.avgEncryptionTime
  }

  /** The algorithms the history endpoint reports on, in reporting order. */
  const Algorithms: seq<string> := ["RSA", "PQC"]

  predicate HasRows(rows: seq<Row>, algorithm: string)
  {
    exists i :: 0 <= i < |rows| && rows[i].algorithm == algorithm
  }

  /** `SELECT ... FROM benchmarks WHERE algorithm = ?`, taking the rows in
      storage order: every stored row of that algorithm, as often as it is
      stored, and no other row. */
  function Matching(rows: seq<Row>, algorithm: string): (m: seq<Row>)
    ensures |m| <= |rows|
    ensures forall i :: 0 <= i < |m| ==> m[i].algorithm == algorithm && m[i] in rows
    ensures forall row :: row in rows && row.algorithm == algorithm ==> row in m
    ensures |m| > 0 <==> HasRows(rows, algorithm)
  {
    if |rows| == 0 then []
    else
      var last := rows[|rows| - 1];
      Matching(rows[..|rows| - 1], algorithm) + (if last.algorithm == algorithm then [last] else [])
  }

  /** The selection keeps every stored row of the algorithm as many times as
      it is stored, and no row of another algorithm. */
  lemma {:induction false} MatchingCounts(rows: seq<Row>, algorithm: string)
    ensures forall row :: multiset(Matching(rows, algorithm))[row]
                       == if row.algorithm == algorithm then multiset(rows)[row] else 0
  {
    if |rows| > 0 {
      var init := rows[..|rows| - 1];
      var last := rows[|rows| - 1];
      MatchingCounts(init, algorithm);
      assert rows == init + [last];
      assert multiset(rows) == multiset(init) + multiset{last};
      var tail := if last.algorithm == algorithm then [last] else [];
      assert Matching(rows, algorithm) == Matching(init, algorithm) + tail;
      assert multiset(Matching(rows, algorithm)) == multiset(Matching(init, algorithm)) + multiset(tail);
    }
  }

  /** The dictionary appended for `algorithm` over its non-empty row set. */
  function EntryFor(algorithm: string, rows: seq<Row>): (e: HistoryEntry)
    requires |rows| > 0
    ensures e.algorithm == algorithm
    ensures forall c :: Average(e, c) == Mean(Values(rows, c))
  {
    HistoryEntry(
      algorithm,
      Mean(Values(rows, Latency)),
      Mean(Values(rows, Stddev)),
      Mean(Values(rows, MinLatency)),
      Mean(Values(rows, MaxLatency)),
      Mean(Values(rows, Throughput)),
      Mean(Values(rows, ErrorRate)),
      Mean(Values(rows, EncryptionTime)))
  }

  /** What one loop iteration contributes: nothing when the query returned
      no rows (`continue`), otherwise one entry. */
  function EntriesFor(rows: seq<Row>, algorithm: string): seq<HistoryEntry>
  {
    var m := Matching(rows, algorithm);
    if |m| == 0 then [] else [EntryFor(algorithm, m)]
  }

  /** The result list after the loop has visited `algorithms` in order. */
  function Aggregate(rows: seq<Row>, algorithms: seq<string>): seq<HistoryEntry>
  {
    if |algorithms| == 0 then []
    else Aggregate(rows, algorithms[..|algorithms| - 1]) + EntriesFor(rows, algorithms[|algorithms| - 1])
  }

  /** The reference result of `GET /benchmarks/history`. */
  function History(rows: seq<Row>): seq<HistoryEntry>
  {
    Aggregate(rows, Algorithms)
  }

  /** The query loop of `get_historical_benchmarks`, row by row. */
  method Select(rows: seq<Row>, algorithm: string) returns (selected: seq<Row>)
    ensures selected == Matching(rows, algorithm)
  {
    selected := [];
    var j := 0;
    while j < |rows|
      invariant 0 <= j <= |rows|
      invariant selected == Matching(rows[..j], algorithm)
    {
      assert rows[..j + 1][..j] == rows[..j];
      assert Matching(rows[..j + 1], algorithm)
          == Matching(rows[..j], algorithm) + (if rows[j].algorithm == algorithm then [rows[j]] else []);
      if rows[j].algorithm == algorithm {
        selected := selected + [rows[j]];
      }
      j := j + 1;
    }
    assert rows[..|rows|] == rows;
  }

  /** `get_historical_benchmarks`: for RSA then PQC, fetch the matching rows,
      skip the algorithm when there are none, else append the averages. */
  method GetHistoricalBenchmarks(rows: seq<Row>) returns (results: seq<HistoryEntry>)
    ensures results == History(rows)
  {
    results := [];
    var k := 0;
    while k < |Algorithms|
      invariant 0 <= k <= |Algorithms|
      invariant results == Aggregate(rows, Algorithms[..k])
    {
      assert Algorithms[..k + 1][..k] == Algorithms[..k];
      var algorithm := Algorithms[k];
      var selected := Select(rows, algorithm);
      if |selected| == 0 {
        k := k + 1;
        continue;
      }
      results := results + [EntryFor(algorithm, selected)];
      k := k + 1;
    }
    assert Algorithms[..|Algorithms|] == Algorithms;
  }

  /** The result is the RSA contribution followed by the PQC contribution. */
  lemma HistoryUnfold(rows: seq<Row>)
    ensures History(rows) == EntriesFor(rows, "RSA") + EntriesFor(rows, "PQC")
  {
    assert Algorithms[..1] == ["RSA"];
    assert ["RSA"][..0] == [];
    assert Aggregate(rows, ["RSA"]) == EntriesFor(rows, "RSA");
  }

  /** One algorithm contributes at most one entry, named after it, exactly
      when it has stored rows. */
  lemma EntriesForFacts(rows: seq<Row>, algorithm: string)
    ensures |EntriesFor(rows, algorithm)| <= 1
    ensures |EntriesFor(rows, algorithm)| == 1 <==> HasRows(rows, algorithm)
    ensures |EntriesFor(rows, algorithm)| == 1 ==>
      EntriesFor(rows, algorithm)[0] == EntryFor(algorithm, Matching(rows, algorithm)) &&
      EntriesFor(rows, algorithm)[0].algorithm == algorithm
  {
  }

  /** At most two entries, RSA before PQC, and no algorithm twice. */
  lemma HistoryOrder(rows: seq<Row>)
    ensures |History(rows)| <= 2
    ensures forall i :: 0 <= i < |History(rows)| ==> History(rows)[i].algorithm in Algorithms
    ensures |History(rows)| == 2 ==>
      History(rows)[0].algorithm == "RSA" && History(rows)[1].algorithm == "PQC"
  {
    HistoryUnfold(rows);
    EntriesForFacts(rows, "RSA");
    EntriesForFacts(rows, "PQC");
  }

  /** An algorithm has an entry exactly when it is one of the reported
      algorithms and has at least one stored row. */
  lemma HistoryPresence(rows: seq<Row>, algorithm: string)
    ensures (exists i :: 0 <= i < |History(rows)| && History(rows)[i].algorithm == algorithm)
        <==> algorithm in Algorithms && HasRows(rows, algorithm)
  {
    var h := History(rows);
    if exists i :: 0 <= i < |h| && h[i].algorithm == algorithm {
      var i :| 0 <= i < |h| && h[i].algorithm == algorithm;
      PresentHasRows(rows, i);
    }
    if algorithm in Algorithms && HasRows(rows, algorithm) {
      var i := RowsPresent(rows, algorithm);
    }
  }

  lemma PresentHasRows(rows: seq<Row>, i: nat)
    requires i < |History(rows)|
    ensures History(rows)[i].algorithm in Algorithms && HasRows(rows, History(rows)[i].algorithm)
  {
    HistoryEntrySource(rows, i);
    HistoryOrder(rows);
  }

  lemma RowsPresent(rows: seq<Row>, algorithm: string) returns (i: nat)
    requires algorithm in Algorithms && HasRows(rows, algorithm)
    ensures i < |History(rows)| && History(rows)[i].algorithm == algorithm
  {
    HistoryUnfold(rows);
    EntriesForFacts(rows, "RSA");
    EntriesForFacts(rows, "PQC");
    var rsa := EntriesFor(rows, "RSA");
    if algorithm == "RSA" {
      i := 0;
      assert History(rows)[0] == rsa[0];
    } else {
      i := |rsa|;
      assert History(rows)[i] == EntriesFor(rows, "PQC")[0];
    }
  }

  /** Each entry is computed from exactly the stored rows of its own
      algorithm. */
  lemma HistoryEntrySource(rows: seq<Row>, i: nat)
    requires i < |History(rows)|
    ensures var e := History(rows)[i];
      && HasRows(rows, e.algorithm)
      && e == EntryFor(e.algorithm, Matching(rows, e.algorithm))
  {
    HistoryUnfold(rows);
    EntriesForFacts(rows, "RSA");
    EntriesForFacts(rows, "PQC");
    var rsa := EntriesFor(rows, "RSA");
    if i < |rsa| {
      assert History(rows)[i] == rsa[0];
    } else {
      assert History(rows)[i] == EntriesFor(rows, "PQC")[0];
    }
  }

  /** Every average of an entry lies between the column's minimum and
      maximum over the rows it was computed from. */
  lemma EntryBounds(algorithm: string, rows: seq<Row>, c: Column)
    requires |rows| > 0
    ensures Min(Values(rows, c)) <= Average(EntryFor(algorithm, rows), c) <= Max(Values(rows, c))
  {
    MeanBounds(Values(rows, c));
  }

  /** Rows of any algorithm other than RSA and PQC never change the result. */
  lemma OtherAlgorithmsIgnored(rows: seq<Row>, row: Row)
    requires row.algorithm !in Algorithms
    ensures History(rows + [row]) == History(rows)
  {
    var rows' := rows + [row];
    assert rows'[..|rows|] == rows;
    assert Matching(rows', "RSA") == Matching(rows, "RSA");
    assert Matching(rows', "PQC") == Matching(rows, "PQC");
    HistoryUnfold(rows);
    HistoryUnfold(rows');
  }

  /** A column's sum depends only on which rows there are and how often,
      not on their order. */
  lemma {:induction false} ColumnSumOrder(rows: seq<Row>, rows': seq<Row>, c: Column)
    requires multiset(rows) == multiset(rows')
    ensures Sum(Values(rows, c)) == Sum(Values(rows', c))
    decreases |rows|
  {
    if |rows| == 0 {
      assert |rows'| == |multiset(rows')| == 0;
    } else {
      var n := |rows|;
      var init := rows[..n - 1];
      var r := rows[n - 1];
      assert rows == init + [r];
      assert multiset(init) == multiset(rows) - multiset{r};
      var j := PickOut(rows', r);
      var rest := rows'[..j] + rows'[j + 1..];
      ColumnSumOrder(init, rest, c);
      ColumnSumLast(rows, c);
      ColumnSumRemove(rows', j, c);
    }
  }

  /** The column sum is that of all rows but the last, plus the last row's
      value. */
  lemma ColumnSumLast(rows: seq<Row>, c: Column)
    requires |rows| > 0
    ensures Sum(Values(rows, c)) == Sum(Values(rows[..|rows| - 1], c)) + Field(rows[|rows| - 1], c)
  {
    var vs := Values(rows, c);
    assert vs[..|rows| - 1] == Values(rows[..|rows| - 1], c);
  }

  /** The column sum is that of all rows but the j-th, plus the j-th row's
      value. */
  lemma ColumnSumRemove(rows: seq<Row>, j: nat, c: Column)
    requires j < |rows|
    ensures Sum(Values(rows, c)) == Sum(Values(rows[..j] + rows[j + 1..], c)) + Field(rows[j], c)
  {
    ValuesRemove(rows, j, c);
    SumRemove(Values(rows, c), j);
  }

  lemma ValuesRemove(rows: seq<Row>, j: nat, c: Column)
    requires j < |rows|
    ensures Values(rows[..j] + rows[j + 1..], c) == Values(rows, c)[..j] + Values(rows, c)[j + 1..]
    ensures Values(rows, c)[j] == Field(rows[j], c)
  {
    var vs := Values(rows, c);
    var lhs := Values(rows[..j] + rows[j + 1..], c);
    assert |lhs| == |vs[..j] + vs[j + 1..]|;
    forall k | 0 <= k < |lhs|
      ensures lhs[k] == (vs[..j] + vs[j + 1..])[k]
    {
      if k < j {
        assert lhs[k] == Field(rows[k], c);
      } else {
        assert lhs[k] == Field(rows[k + 1], c);
      }
    }
  }

  /** An entry depends only on which rows it averages and how often each
      occurs, not on their order. */
  lemma EntryOrderIndependent(algorithm: string, rows: seq<Row>, rows': seq<Row>)
    requires |rows| > 0
    requires multiset(rows) == multiset(rows')
    ensures |rows'| > 0 && EntryFor(algorithm, rows) == EntryFor(algorithm, rows')
  {
    assert |rows| == |multiset(rows)| == |multiset(rows')| == |rows'|;
    ColumnSumOrder(rows, rows', Latency);
    ColumnSumOrder(rows, rows', Stddev);
    ColumnSumOrder(rows, rows', MinLatency);
    ColumnSumOrder(rows, rows', MaxLatency);
    ColumnSumOrder(rows, rows', Throughput);
    ColumnSumOrder(rows, rows', ErrorRate);
    ColumnSumOrder(rows, rows', EncryptionTime);
  }

  /** The history does not depend on the order in which the rows are stored
      or returned: any rearrangement of the stored rows gives the same
      result. */
  lemma StorageOrderIrrelevant(rows: seq<Row>, rows': seq<Row>)
    requires multiset(rows) == multiset(rows')
    ensures History(rows) == History(rows')
  {
    SameAlgorithmEntries(rows, rows', "RSA");
    SameAlgorithmEntries(rows, rows', "PQC");
    HistoryUnfold(rows);
    HistoryUnfold(rows');
  }

  lemma SameAlgorithmEntries(rows: seq<Row>, rows': seq<Row>, algorithm: string)
    requires multiset(rows) == multiset(rows')
    ensures EntriesFor(rows, algorithm) == EntriesFor(rows', algorithm)
  {
    var m := Matching(rows, algorithm);
    var m' := Matching(rows', algorithm);
    MatchingCounts(rows, algorithm);
    MatchingCounts(rows', algorithm);
    assert multiset(m) == multiset(m');
    if |m| > 0 {
      EntryOrderIndependent(algorithm, m, m');
    } else {
      assert |m'| == |multiset(m')| == 0;
    }
  }
}
