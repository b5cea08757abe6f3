# Transaction-encryption benchmarks and PQ hybrid envelope — a Dafny model

This project models the algorithmic core of a small FastAPI service that
encrypts transaction records with a post-quantum hybrid scheme and measures
the cost of its encryption schemes:

- **Benchmark accumulator** (`app/metrics.py`): latency samples, an error
  counter and a start time; `summary()` derives mean, sample standard
  deviation, minimum, maximum, throughput and error-rate percentage, with
  zero fallbacks for empty input. Module `Metrics`, on top of module `Stats`
  (the `sum`, `min`, `max`, `statistics.mean` and `statistics.stdev` it uses,
  over exact reals).
- **Benchmark endpoints** (`app/benchmarks.py`): the live pair of RSA/PQC
  summaries (each read at its own clock reading), and the historical aggregation that, for RSA then PQC, selects
  the stored rows of that algorithm, skips the algorithm when there are none,
  and otherwise averages seven numeric columns. Module `Benchmarks`; the SQL
  `SELECT ... WHERE algorithm = ?` is a filter over the sequence of stored rows.
  The query has no `ORDER BY`, so the order of the returned rows is
  unspecified; the model assumes storage order and proves that the history
  does not depend on it (`Benchmarks.StorageOrderIrrelevant`).
- **PQ hybrid envelope** (`app/crypto.py`): Kyber512 encapsulation against a
  freshly generated public key, SHA-256 of the shared secret as the AES key,
  and the AES-GCM envelope `IV (12 bytes) || TAG (16 bytes) || CIPHERTEXT`.
  Module `Crypto`.

Everything is a pure function over immutable datatypes. What the source reads
from the outside world is a parameter: the wall clock (`time.time()`) is
`now` (one parameter per `summary()` call, since each call reads the clock
again), the IV drawn by `os.urandom(12)` is `iv`, the KEM's randomness is
`keygenRandomness` / `encapRandomness`, and the square root inside
`statistics.stdev` is a `sqrt` function required to be a square root on the
non-negative reals (`Stats.IsSqrt`). The cryptographic primitives (SHA-256,
AES-GCM, Kyber512 key generation and encapsulation) are the function-valued
fields of `Crypto.Primitives`; `Crypto.Valid` states their output lengths
(32-byte digest; ciphertext as long as the plaintext and a 16-byte tag;
800-byte Kyber512 public key, 768-byte KEM ciphertext, 32-byte shared
secret), and that is all the model assumes about them.

Points where the code departs from what a reader might expect of such a
service, all modelled as the code is written:

- `summary()` returns no sample count; `Metrics.Summary` has no count field.
- `reset` is written at module level (`app/metrics.py:35`), outside the class
  body, so it is a free function taking the accumulator and not a method of
  it; `Metrics.Reset` is likewise a standalone function.
- There is no decryption, no classical RSA-OAEP cipher and no bulk batch
  engine in the code, so none is modelled.
- `algorithms.AES(key)` with GCM accepts only 16-, 24- and 32-byte keys;
  `Crypto.AesEncrypt` models the rejection of any other key length as
  `InvalidKeySize`, and `Crypto.PqcKemEncrypt` is proved never to reach it,
  because the derived key is a 32-byte digest.
- A single GCM encryption may process at most 2^39 - 256 bits of plaintext
  (section 5.2.1.1 of NIST SP 800-38D), that is 68719476704 bytes, and the
  encryptor raises beyond that; `Crypto.AesEncrypt` and `Crypto.PqcKemEncrypt`
  fail with `PlaintextTooLong` there.
- The service never reads an envelope back. `Crypto.Parse` and its error
  `TruncatedEnvelope` have no counterpart in the code: they are the inverse of
  the layout that `aes_encrypt` writes, stated so that the layout can be
  shown unambiguous (`Crypto.FrameParse`, `Crypto.PqcEnvelopeComposition`).

## Model

| member | source | states |
|---|---|---|
| `Metrics.New` | app/metrics.py:5-8 | A fresh accumulator has no samples, zero errors and its window opens at the given instant. |
| `Metrics.RecordLatency` | app/metrics.py:10-11 | The new sample is appended as the last element, the earlier samples are kept in order, and the error count and start time are unchanged. |
| `Metrics.RecordError` | app/metrics.py:13-14 | The error count grows by exactly one; samples and start time are unchanged. |
| `Metrics.Reset` | app/metrics.py:35-38 | Resetting yields exactly a fresh accumulator opened at the reset instant: no samples, no errors. |
| `Metrics.Throughput` | app/metrics.py:17-19 | Throughput is 0 when the elapsed time is not positive or there are no samples; otherwise it is non-negative and throughput times elapsed time equals the sample count. |
| `Metrics.ErrorRate` | app/metrics.py:24 | The error rate lies in [0, 100]; times (count + errors) it equals 100 × errors; it is 0 when nothing was attempted or there are no errors, and 100 when there are errors but no samples. |
| `Metrics.Summarize` | app/metrics.py:16-33 | With no samples, average, stddev, min and max are 0; with samples, the average is the mean of the samples, min and max are elements of the samples, bound every sample, and bracket the average; stddev is non-negative and 0 with at most one sample; throughput and error rate follow the two formulas above. |
| `Metrics.ThroughputMonotonic` | app/metrics.py:17-19 | With the same sample count, a longer positive window never gives a higher throughput. |
| `Metrics.SummaryLaterRead` | app/metrics.py:16-33 | Reading the same accumulator at a later instant changes only the throughput, and once the window is open the later throughput is never larger. |
| `Metrics.EmptySummaryIsZero` | app/metrics.py:16-24 | An accumulator with no samples and no errors summarises to all zeros at any instant. |
| `Metrics.ResetSummaryIsZero` | app/metrics.py:35-38 | After a reset the summary is all zeros at any later instant. |
| `Metrics.RecordLatencySummary` | app/metrics.py:10-24 | After recording a latency the new minimum and maximum are those of the old extremes and the new sample (the sample itself when it is the first), and the error rate is that of one more successful attempt. |
| `Metrics.RecordErrorSummary` | app/metrics.py:13-24 | Recording an error changes the summary's error rate only, to that of one more failed attempt; every latency statistic and the throughput are unchanged. |
| `Metrics.ErrorRateMonotonic` | app/metrics.py:24 | One more error never lowers the error rate; one more successful sample never raises it. |
| `Metrics.ExampleSummary` | app/metrics.py:16-33 | Samples 10, 20, 30 ms plus one error, read 2 s after opening, give average 20, min 10, max 30, throughput 1.5 and error rate 25. |
| `Stats.Min` | app/metrics.py:22 | The minimum of a non-empty list is one of its elements and no element is smaller. |
| `Stats.Max` | app/metrics.py:23 | The maximum of a non-empty list is one of its elements and no element is larger. |
| `Stats.SumPermutation` | app/metrics.py:20 | Two lists holding the same values with the same multiplicities have the same sum, so a mean does not depend on the order of the samples. |
| `Stats.MeanTimesCount` | app/metrics.py:20 | The mean of a non-empty list times its length equals its sum, so together with `Metrics.Summarize` the reported average times the sample count is the sum of the samples. |
| `Stats.MeanBounds` | app/metrics.py:20-23 | The mean of a non-empty list lies between its minimum and its maximum. |
| `Stats.StdDevNonNegative` | app/metrics.py:21 | The sample standard deviation (n - 1 denominator) of two or more samples is non-negative. |
| `Benchmarks.LiveReadDrift` | app/benchmarks.py:20-28 | Reading the PQC accumulator at a later instant than the RSA one leaves the RSA entry and every PQC figure except throughput as they would be at a single instant, and cannot raise the PQC throughput once its window is open. |
| `Benchmarks.LiveRecordIsolation` | app/benchmarks.py:20-28 | A sample or error recorded in one accumulator leaves the other algorithm's entry unchanged and moves the own entry's error rate to that of one more success or failure. |
| `Benchmarks.Matching` | app/benchmarks.py:36-37 | The selected rows all carry the requested algorithm and come from the stored rows; every stored row of that algorithm is selected; the selection is non-empty exactly when such a row exists. |
| `Benchmarks.MatchingCounts` | app/benchmarks.py:36-37 | Each stored row of the requested algorithm occurs in the selection exactly as often as it is stored; rows of other algorithms never occur. |
| `Benchmarks.Select` | app/benchmarks.py:36-37 | Scanning the stored rows one by one selects exactly the reference filter's rows, in the order the scan visits them. |
| `Benchmarks.EntryFor` | app/benchmarks.py:49-58 | The entry is named after its algorithm and each of its seven averages is the column's sum divided by the number of rows. |
| `Benchmarks.GetHistoricalBenchmarks` | app/benchmarks.py:30-60 | The loop over RSA then PQC, with its skip on empty selections, produces exactly the reference history. |
| `Benchmarks.HistoryUnfold` | app/benchmarks.py:35-39 | The history is the RSA contribution followed by the PQC contribution. |
| `Benchmarks.EntriesForFacts` | app/benchmarks.py:37-39 | One algorithm contributes at most one entry, named after it and averaging its own rows, and contributes one exactly when it has stored rows. |
| `Benchmarks.HistoryOrder` | app/benchmarks.py:35 | The history has at most two entries, each for RSA or PQC, and when both are present RSA comes first. |
| `Benchmarks.HistoryPresence` | app/benchmarks.py:35-39 | An algorithm has an entry if and only if it is RSA or PQC and has at least one stored row. |
| `Benchmarks.HistoryEntrySource` | app/benchmarks.py:35-58 | Every entry belongs to an algorithm with stored rows and is computed from exactly the stored rows of that algorithm. |
| `Benchmarks.EntryBounds` | app/benchmarks.py:41-57 | Each average of an entry lies between the minimum and the maximum of its column over the rows it was computed from. |
| `Benchmarks.EntryOrderIndependent` | app/benchmarks.py:41-57 | Averaging the same rows, each as often, in any order gives the same entry. |
| `Benchmarks.StorageOrderIrrelevant` | app/benchmarks.py:35-58 | Any rearrangement of the stored rows yields the same history, so the unspecified order of the query's results cannot change the response. |
| `Benchmarks.OtherAlgorithmsIgnored` | app/benchmarks.py:36 | Adding a stored row of any algorithm other than RSA and PQC leaves the history unchanged. |
| `Crypto.Frame` | app/crypto.py:20 | The wire form is 28 bytes longer than the ciphertext: bytes 0-11 are the IV, bytes 12-27 the tag, the rest the ciphertext. |
| `Crypto.Parse` | app/crypto.py:20 | The inverse of the layout written at this line, which the code itself never reads back: reading a byte string succeeds exactly when it holds at least 28 bytes, giving a 12-byte IV, a 16-byte tag and the remaining bytes as ciphertext; shorter input is reported as truncated. |
| `Crypto.FrameParse` | app/crypto.py:20 | Every byte string of at least 28 bytes is the framing of the envelope read from it. |
| `Crypto.DeriveAesKey` | app/crypto.py:7-10 | The derived key is a 32-byte SHA-256 digest, a valid AES key length. |
| `Crypto.AesEncrypt` | app/crypto.py:12-20 | Encryption fails exactly for key lengths AES rejects (reported first) and for plaintexts longer than GCM's 68719476704-byte limit; otherwise the envelope is 28 bytes longer than the plaintext, starts with the IV, continues with the GCM tag and ends with the GCM ciphertext. |
| `Crypto.PqcKemEncrypt` | app/crypto.py:22-28 | Fails exactly when the plaintext exceeds GCM's limit, reported as too long; otherwise returns the generated Kyber512 public key (800 bytes), the KEM ciphertext (768 bytes) encapsulated against that same key, and an envelope 28 bytes longer than the plaintext that starts with the IV. |
| `Crypto.PqcEnvelopeComposition` | app/crypto.py:22-28 | The hybrid encryption fails with the same error as `aes_encrypt` under the SHA-256 digest of the shared secret encapsulated against the generated public key; on success its envelope is exactly that encryption's output and reads back as the IV, the GCM tag and the GCM ciphertext of the plaintext. |

## Left out

- AES-GCM, SHA-256 and Kyber512 internals: foreign library code; only their output lengths are assumed (`Crypto.Valid`).
- Failures raised by the Kyber512 library (key generation or encapsulation errors): not visible in the code; the model treats both calls as total.
- IV randomness and IV uniqueness across calls: probabilistic; the IV is an input.
- Decryption, round-trip and tamper detection: the code has no decryption.
- The classical RSA-OAEP hybrid cipher and the bulk batch-processing engine: not present in the code.
- Floating point: all statistics are over exact reals; IEEE-754 rounding is not modelled.
- The square root: a parameter constrained by `Stats.IsSqrt`, not an implementation.
- Metrics.Summarize: states the standard deviation's sign and zero cases only, not its value, because that value is the square root parameter applied to the sample variance.
- Metrics.ExampleSummary: does not state the example's standard deviation (10 ms), for the same reason.
- SQLite storage (`app/database.py`), `record_benchmark`, the `/benchmarks/sessions` query and `get_all_benchmarks`: storage plumbing; the stored rows are an input sequence.
- NULL or non-numeric values in the benchmark columns: the stored rows are assumed to hold numbers. `record_benchmark` (app/benchmarks.py:11-18), the only writer in the code, passes its arguments through unchecked and is not called by any modelled code.
- The second `/benchmarks/live` handler (app/benchmarks.py:61-66): a duplicate of the first.
- The `rsa_session_benchmark` / `pqc_session_benchmark` instances: created but never used by the modelled code.
- Concurrent mutation of the global `rsa_benchmark` / `pqc_benchmark` instances: synchronisation is outside a sequential model.
- HTTP routing and response shaping (`app/routes.py`, `app/main.py`, `app/exceptions.py`) and the browser script (`app/secure_js/scripts.js`): plumbing and UI.
