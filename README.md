# json_aggregate_bot: the gap-filling time series and the request classifier

This project models the logic of a chat bot that answers a JSON query
`{"dt_from": ..., "dt_upto": ..., "group_type": "month" | "day" | "hour"}` with
the per-bucket sums of a stored time series. Buckets with no data are reported
as zero. The project proves properties of that model in Dafny.

Two modules:

- `TimeSeries` (TimeSeries.dfy) is the fill of `json_response` (main.py:48-67).
  A cursor starts at `dt_from`. For each record of the store's sparse,
  ascending `(bucket, sum)` result, the fill emits zeros while the cursor is
  below the record's bucket. It then emits the record under the record's own
  bucket start and advances one step. Finally it emits zeros up to and
  including `dt_upto`.
  - `Fill` is the loop. The body of its `for` is `FillRecord`, and each
    inner `while` is `FillBelow`. `Fill` is proved equal to the recursive
    specification `Emit`, with `Final` giving the last cursor.
  - The lemmas state what `Emit` means: lengths, positions, order, bounds, and
    the grid-aligned case.
  - Timestamps are integers, so `c <= upto` is `c < upto + 1`. The calendar
    step is any function with `step(t) > t`.
- `Requests` (Requests.dfy) is `validate_json` (main.py:74-91) and the rest of
  `json_response`: timestamp conversion, the `TYPE_GROUPS` lookup
  (main.py:46, 99) and the hand-off to the fill.
  - The parsed message is a small JSON datatype, or `Malformed` when
    `json.loads` fails.
  - `Classify` is the `try` block. `ValidateJson` maps its verdict to a reply,
    and `JsonResponse` is the delegate.
  - An exception that no handler catches is the reply `Raised(...)`, named by
    where it happens.

Two behaviours of the code are kept as written, although a reader of main.py
might expect otherwise: a label driven by the cursor, and an unknown
`group_type` rejected with a message.

- A record is labelled with its own bucket start `d` (main.py:58), not with
  the cursor. So as soon as a record lies off the cursor's grid (for instance
  when `dt_from` is not on the bucket grid), the labels are not
  `dt_from + k·step` (`TimeSeries.UnalignedExample`). With no records they
  always are (`TimeSeries.EmptyRecords`). In general they are exactly when
  every bucket lies on the cursor's grid at strictly ascending positions:
  `TimeSeries.Aligned` proves the "if" and `TimeSeries.OnlyAligned` the
  "only if".
- An unknown `group_type` is not rejected by `validate_json`. It raises at
  `TYPE_GROUPS[group_type]` (main.py:46), which is outside the `try`
  (`Requests.UnknownGroupTypeEscapes`).

External parts enter as parameters:

- `parseIso` stands for `datetime.fromisoformat`.
- `store` stands for the MongoDB aggregation, which gives the sparse records.
- `advance` stands for adding `TYPE_GROUPS[g]`, that is `relativedelta`.

## Model

| member | source | states |
|---|---|---|
| `TimeSeries.Fill` | main.py:48-67 | `labels` and `dataset` always have equal length. Together they are exactly the spec `Emit(from, upto, step, records)`. The loops terminate for any strictly increasing step. The final cursor is `Final(...)`. |
| `TimeSeries.FillRecord` | main.py:50-61 | One record's pass appends the zeros below the record's bucket, then the record under its own bucket, then steps. What remains to emit shrinks by exactly what was appended, and the final cursor is unchanged. |
| `TimeSeries.FillBelow` | main.py:52-56 | One zero-filling loop appends exactly the zeros `Zeros(c, bound)` to both lists. It leaves the cursor at `Skip(c, bound)`. |
| `TimeSeries.Skip` | main.py:52-56 | The cursor after a `while cursor < bound` loop is at least `bound` and never behind where it started. |
| `TimeSeries.ZerosShape` | main.py:52-56 | The zeros emitted before a record are `(c_k, 0)` for the cursor positions `c_k = step^k(c)`. Position `k` is emitted iff `c_k < d`. The loop leaves the cursor at the first position that is `>= d`. |
| `TimeSeries.ZerosAscending` | main.py:52-56 | A zero run has strictly ascending labels in `[c, bound)`, and every value is 0. |
| `TimeSeries.EmptyRecords` | main.py:63-67 | With no records, entry `k` is `(step^k(from), 0)`. Position `k` is emitted iff `step^k(from) <= upto`. The final cursor is `step^n(from) > upto` for `n` the number of entries. |
| `TimeSeries.Degenerate` | main.py:63-67 | With no records: `upto < from` gives an empty series, and `upto == from` gives exactly `[(from, 0)]`. |
| `TimeSeries.RecordsEmittedOnce` | main.py:50-59 | Each record `j` appears at position `Slots[j]`, under its own bucket `d` and with its own sum, even when `d` is behind the cursor. The positions strictly increase, so the order is the input order and every record appears once. Every other entry has value 0. |
| `TimeSeries.FinalCursor` | main.py:50-67 | The final cursor is `step^n(from)`, for `n` the number of entries. So the cursor advances exactly one step per record and per zero. It ends above `upto` and above every record's bucket, and `n >= ` the number of records. |
| `TimeSeries.LastLabel` | main.py:58-67 | The last label is at most the later of `upto` and the last record's bucket. |
| `TimeSeries.LabelsAscending` | main.py:50-67 | For strictly ascending buckets, the labels are strictly ascending (no duplicate label). None is below both `from` and the first bucket. |
| `TimeSeries.AlignedFrom` | main.py:50-67 | Suppose the cursor starts at grid position `m` and every bucket is on the grid at ascending positions `>= m`. Then label `i` is `step^(m+i)(from)`. |
| `TimeSeries.AlignedHead` | main.py:52-56 | From grid position `m`, a bucket at grid position `k >= m` is preceded by exactly the `k - m` grid points in between. The `while` stops with the cursor on the bucket. |
| `TimeSeries.Aligned` | main.py:50-67 | If bucket `j` is `step^(k_j)(from)` for strictly ascending `k_j`, the labels are exactly `from, step(from), ...`, with no gap and no repeat. The series ends at the last step that is at most `max(upto, last bucket)`: the next step exceeds it. |
| `TimeSeries.MonthExample` | main.py:48-67 | Months 0..2 with one record `(1, 5)` give labels `0, 1, 2` and data `0, 5, 0`. |
| `TimeSeries.UnalignedExample` | main.py:52-61 | Take cursor 30, step 60 and a record at bucket 0, behind the cursor. The labels are `0, 90`: the record keeps its own label, before `from`. |
| `TimeSeries.OnlyAligned` | main.py:50-67 | The converse of `Aligned`: if label `i` is `step^i(from)` for every `i`, then every bucket `j` is `step^(Slots[j])(from)`, at strictly ascending positions. |
| `Requests.ClassifyOutcomes` | main.py:75-89 | Unparsable text gives "Not json data". Otherwise a falsy value gives "Empty json data", checked before any key. A truthy non-object escapes. A non-empty object missing any of the three keys gives "Invalid query". The query is handed off iff it is an object holding all three keys, and it carries their values. |
| `Requests.FalsyIsEmpty` | main.py:77-78 | `{}`, `null`, `0`, `""`, `[]` and `false` are all "Empty json data". |
| `Requests.MessagesDistinct` | main.py:84-89 | The three error replies differ from each other, and each ends with the example query of main.py:100-106. |
| `Requests.ValidateJson` | main.py:74-91 | Each caught error becomes its message, and a truthy non-dictionary raises. A complete query gets the delegate's reply `Respond(...)`. |
| `Requests.JsonResponse` | main.py:14-71 | The reply is `Respond(...)`: bad timestamps raise first, then an unknown granularity raises, else the fill of the store's records. A series reply has equally long lists. |
| `Requests.RespondOutcomes` | main.py:20-46 | The delegate raises at timestamp conversion iff either timestamp does not convert. It raises at the lookup iff both convert and `group_type` is not "month", "day" or "hour". Otherwise it replies with a series (the model has no calendar end; see "## Left out"). |
| `Requests.UnknownGroupTypeEscapes` | main.py:46 | Take a complete query with `group_type` "week" and timestamps that convert. It is handed off by the check at main.py:90-91, not rejected. It then raises at the lookup `TYPE_GROUPS[group_type]` (main.py:46), outside every handler. |
| `Requests.StepByAdvances` | main.py:99 | Each granularity's step moves every timestamp strictly forward, which is what the fill needs to terminate. |

## Left out

- The MongoDB client and the aggregation pipeline (main.py:15-44, 69) are an external store. Their result is the parameter `store`, assumed to give the sorted, truncated per-bucket sums. Connection failures are not modelled, and neither is `client.close()`.
- The Telegram bot, its async handlers, polling and the help text (main.py:108-127) are transport and UI. What the bot framework does after an exception escapes is not modelled: the model stops at `Raised`.
- `load_dotenv`, the environment variables and logging (main.py:94-97, 109-110) are configuration and I/O.
- `json.loads`, `json.dumps`, `datetime.fromisoformat` and `isoformat` are library parsing and serialising:
  - The parsed value is given, as `Parsed`.
  - `fromisoformat` is the parameter `parseIso`.
  - A series reply holds the two lists before `json.dumps`, with timestamps, not ISO strings.
- `relativedelta` calendar arithmetic, including month-end day clipping, is a foreign library. It is the parameter `advance`, and only `advance(g, t) > t` is assumed.
- Sums are `int`. A store may return floats, and their precision is not modelled.
- JSON numbers are `real`. `NaN` and `Infinity`, which `json.loads` accepts and which are truthy, are not modelled.
- Exceptions are not distinguished by Python class. An escaping one is named by where it is raised (`Unsubscriptable`, `BadTimestamp`, `UnknownGroupType`). A list or an object as `group_type` raises `TypeError` at the lookup rather than `KeyError`; both escape the same way, as `UnknownGroupType`.
- `TimeSeries.Fill`, `Requests.Respond` and `TimeSeries.Advancing`: timestamps are unbounded integers and a step never fails. Python's `datetime` ends at year 9999, and `first_date += added_date` (main.py:56, 61, 67) raises once the cursor would step past it: `OverflowError` for day and hour, `ValueError` from `relativedelta` for month. That exception is raised from the `else` branch (main.py:90-91) and nothing catches it. For example, `dt_from` = `dt_upto` = `9999-12-31T00:00:00` with `day` raises after emitting one entry, where the model replies `Series([t], [0])`. So `Requests.RespondOutcomes`' "otherwise a series" does not cover the end of the calendar.
- Timestamps are integers at one fixed resolution. Microsecond and timezone details of `datetime` are not modelled.
